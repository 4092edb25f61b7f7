/** The customer shop listing: active merchandise, filtered by the search
    term and the price range, then sorted by the chosen order. Case
    folding is the parameter `fold`; the collation behind `localeCompare`
    is the parameter `nameRank`. */
module ShopListing {
  import opened Wrappers
  import opened Text
  import opened Numbers
  import opened Seqs
  import opened Sorting
  import opened Records

  /** The price filter's bounds, both inclusive. */
  datatype PriceRange = PriceRange(min: int, max: int)

  const DefaultMax := 1000000

  /** The initial range, also what the reset button restores. */
  const InitialRange := PriceRange(0, DefaultMax)

  /** `parseInt(text) || fallback`: NaN and 0 both fall back. */
  function IntOr(x: Option<int>, fallback: int): (r: int)
    ensures x.Some? && x.value != 0 ==> r == x.value
    ensures x.None? || x == Some(0) ==> r == fallback
  {
    match x
    case Some(n) => if n != 0 then n else fallback
    case None => fallback
  }

  /** Typing into the minimum field. */
  function SetMin(r: PriceRange, text: string): PriceRange {
    PriceRange(IntOr(ParseInt(text), 0), r.max)
  }

  /** Typing into the maximum field. */
  function SetMax(r: PriceRange, text: string): PriceRange {
    PriceRange(r.min, IntOr(ParseInt(text), DefaultMax))
  }

  /** The maximum can never be set to 0: typing `0`, or clearing the field,
      puts back 1000000; the minimum falls back to 0 the same way. The
      other bound is left alone. */
  lemma PriceFieldFallbacks(r: PriceRange, text: string)
    ensures SetMax(r, text).max != 0 && SetMax(r, text).min == r.min
    ensures ParseInt(text).None? ==> SetMax(r, text).max == DefaultMax && SetMin(r, text).min == 0
    ensures SetMin(r, text).max == r.max
    ensures ParseInt(text).Some? && ParseInt(text).value != 0 ==>
      SetMax(r, text).max == ParseInt(text).value && SetMin(r, text).min == ParseInt(text).value
  {
  }

  /** The name or the description contains the term, all folded. */
  predicate MatchesSearch(fold: char -> char, p: Product, term: string) {
    Contains(Lower(fold, p.name), Lower(fold, term))
    || Contains(Lower(fold, p.description), Lower(fold, term))
  }

  predicate InRange(p: Product, r: PriceRange) {
    r.min as real <= p.price <= r.max as real
  }

  predicate Keep(fold: char -> char, term: string, r: PriceRange, p: Product) {
    MatchesSearch(fold, p, term) && InRange(p, r)
  }

  /** The sort key for each choice of order; the comparator of the source
      is the difference of the keys. Any other choice compares everything
      as equal. */
  function SortKey(sortBy: string, nameRank: string -> real, p: Product): real {
    if sortBy == "newest" then -p.createdAt
    else if sortBy == "oldest" then p.createdAt
    else if sortBy == "price_low" then p.price
    else if sortBy == "price_high" then -p.price
    else if sortBy == "name" then nameRank(p.name)
    else 0.0
  }

  /** The active items that pass the search and the price range, in store
      order. */
  function Selected(fold: char -> char, items: seq<Product>, term: string, r: PriceRange): seq<Product> {
    Filter((p: Product) => Keep(fold, term, r, p), Filter((p: Product) => p.isActive, items))
  }

  /** `filteredAndSortedMerchandise`. */
  function Listing(fold: char -> char, nameRank: string -> real, items: seq<Product>, term: string,
                   r: PriceRange, sortBy: string): seq<Product> {
    Sort((p: Product) => SortKey(sortBy, nameRank, p), Selected(fold, items, term, r))
  }

  /** An item is listed exactly when it is in the store, active, matches
      the search and lies in the price range; the listing holds each
      selected item as often as the selection does. */
  lemma ListingMembers(fold: char -> char, nameRank: string -> real, items: seq<Product>, term: string,
                       r: PriceRange, sortBy: string, p: Product)
    ensures p in Listing(fold, nameRank, items, term, r, sortBy) <==>
      p in items && p.isActive && MatchesSearch(fold, p, term) && InRange(p, r)
    ensures multiset(Listing(fold, nameRank, items, term, r, sortBy)) == multiset(Selected(fold, items, term, r))
  {
    var key := (q: Product) => SortKey(sortBy, nameRank, q);
    var sel := Selected(fold, items, term, r);
    SortPermutes(key, sel);
    SortSameMembers(key, sel, p);
    assert p in sel <==> p in items && p.isActive && Keep(fold, term, r, p) by {
      var active := Filter((q: Product) => q.isActive, items);
      if p in items && p.isActive && Keep(fold, term, r, p) {
        var i :| 0 <= i < |items| && items[i] == p;
        var j :| 0 <= j < |active| && active[j] == p;
      }
      if p in sel {
        var j :| 0 <= j < |sel| && sel[j] == p;
        var k :| 0 <= k < |active| && active[k] == p;
      }
    }
  }

  /** The listing is ordered as chosen: cheapest first for `price_low`,
      dearest first for `price_high`, newest first for `newest`, oldest
      first for `oldest`. */
  lemma ListingOrdered(fold: char -> char, nameRank: string -> real, items: seq<Product>, term: string,
                       r: PriceRange, sortBy: string)
    ensures var l := Listing(fold, nameRank, items, term, r, sortBy);
      && (sortBy == "price_low" ==> forall i, j :: 0 <= i < j < |l| ==> l[i].price <= l[j].price)
      && (sortBy == "price_high" ==> forall i, j :: 0 <= i < j < |l| ==> l[i].price >= l[j].price)
      && (sortBy == "newest" ==> forall i, j :: 0 <= i < j < |l| ==> l[i].createdAt >= l[j].createdAt)
      && (sortBy == "oldest" ==> forall i, j :: 0 <= i < j < |l| ==> l[i].createdAt <= l[j].createdAt)
  {
    var key := (q: Product) => SortKey(sortBy, nameRank, q);
    SortSorted(key, Selected(fold, items, term, r));
  }

  /** An order the comparator does not know keeps the store order. */
  lemma UnknownOrderKeepsStoreOrder(fold: char -> char, nameRank: string -> real, items: seq<Product>,
                                    term: string, r: PriceRange, sortBy: string)
    requires sortBy !in {"newest", "oldest", "price_low", "price_high", "name"}
    ensures Listing(fold, nameRank, items, term, r, sortBy) == Selected(fold, items, term, r)
  {
    var key := (q: Product) => SortKey(sortBy, nameRank, q);
    var sel := Selected(fold, items, term, r);
    ConstantKeyKeepsOrder(key, sel);
  }

  /** A minimum above the maximum lists nothing. */
  lemma InvertedRangeListsNothing(fold: char -> char, nameRank: string -> real, items: seq<Product>,
                                  term: string, r: PriceRange, sortBy: string)
    requires r.min > r.max
    ensures Listing(fold, nameRank, items, term, r, sortBy) == []
  {
  }

  /** Items of equal price keep their store order under `price_low`. */
  lemma EqualPricesKeepStoreOrder(fold: char -> char, nameRank: string -> real, items: seq<Product>,
                                  term: string, r: PriceRange, price: real)
    ensures var samePrice := (q: Product) => q.price == price;
      Filter(samePrice, Listing(fold, nameRank, items, term, r, "price_low"))
        == Filter(samePrice, Selected(fold, items, term, r))
  {
    var key := (q: Product) => SortKey("price_low", nameRank, q);
    SortIsStable(key, (q: Product) => q.price == price, price, Selected(fold, items, term, r));
  }
}
