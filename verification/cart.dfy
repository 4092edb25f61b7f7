/** The cart store: a reducer over a sequence of line items keyed by
    `(id, type)`, the wrappers the cart context exposes around it, and the
    two totals. */
module Cart {
  import opened Wrappers
  import opened Helpers
  import opened Seqs

  /** The `type` field of a line: a subscription or a physical product. */
  datatype Kind = Content | Merchandise

  /** Everything an add-to-cart payload carries. Content payloads have a
      title and a duration, merchandise payloads a name, a discount and a
      stock figure; a field the payload does not set is `None`. */
  datatype ItemInfo = ItemInfo(
    id: string,
    kind: Kind,
    name: Option<string>,
    title: Option<string>,
    price: real,
    discount: Option<real>,
    image: Option<string>,
    stock: Option<int>,
    duration: Option<int>)

  /** A cart entry: the payload it was added with and its quantity. */
  datatype Line = Line(info: ItemInfo, quantity: int)

  datatype Key = Key(id: string, kind: Kind)

  function KeyOf(l: Line): Key {
    Key(l.info.id, l.info.kind)
  }

  /** The actions the reducer understands, and `Unknown` for any other
      action type. */
  datatype Action =
    | AddItem(payload: ItemInfo)
    | RemoveItem(id: string, kind: Kind)
    | UpdateQuantity(id: string, kind: Kind, quantity: int)
    | ClearCart
    | LoadCart(lines: seq<Line>)
    | Unknown

  datatype State = State(items: seq<Line>)

  const Empty := State([])

  predicate Matches(l: Line, id: string, kind: Kind) {
    l.info.id == id && l.info.kind == kind
  }

  /** Some entry has this `(id, type)`. */
  predicate Has(items: seq<Line>, id: string, kind: Kind) {
    exists i :: 0 <= i < |items| && Matches(items[i], id, kind)
  }

  /** No two entries share an `(id, type)`. */
  predicate NoDup(items: seq<Line>) {
    Distinct(KeyOf, items)
  }

  /** The matching entries with their quantity raised by one. */
  function Increment(items: seq<Line>, id: string, kind: Kind): seq<Line> {
    seq(|items|, i requires 0 <= i < |items| =>
      if Matches(items[i], id, kind) then items[i].(quantity := items[i].quantity + 1) else items[i])
  }

  /** The matching entries with their quantity replaced. */
  function SetQuantity(items: seq<Line>, id: string, kind: Kind, q: int): seq<Line> {
    seq(|items|, i requires 0 <= i < |items| =>
      if Matches(items[i], id, kind) then items[i].(quantity := q) else items[i])
  }

  /** The entries that do not match. */
  function Without(items: seq<Line>, id: string, kind: Kind): seq<Line> {
    Filter((l: Line) => !Matches(l, id, kind), items)
  }

  /** The `(id, type)` pairs the cart holds. */
  function Keys(items: seq<Line>): set<Key> {
    set l | l in items :: KeyOf(l)
  }

  /** `cartReducer`. Adding puts the payload's pair in the cart, removing
      takes it out, and updating a quantity keeps the same pairs. */
  function Reduce(s: State, a: Action): (r: State)
    ensures a.AddItem? ==> Keys(r.items) == Keys(s.items) + {Key(a.payload.id, a.payload.kind)}
    ensures a.RemoveItem? ==> Keys(r.items) == Keys(s.items) - {Key(a.id, a.kind)}
    ensures a.UpdateQuantity? ==> Keys(r.items) == Keys(s.items) && |r.items| == |s.items|
    ensures a.ClearCart? ==> Keys(r.items) == {}
  {
    match a
    case AddItem(p) =>
      if Has(s.items, p.id, p.kind) then
        HasIffKey(s.items, p.id, p.kind);
        SameKeys(s.items, Increment(s.items, p.id, p.kind));
        State(Increment(s.items, p.id, p.kind))
      else
        AppendKeys(s.items, Line(p, 1));
        State(s.items + [Line(p, 1)])
    case RemoveItem(id, kind) =>
      WithoutKeys(s.items, id, kind);
      State(Without(s.items, id, kind))
    case UpdateQuantity(id, kind, q) =>
      SameKeys(s.items, SetQuantity(s.items, id, kind, q));
      State(SetQuantity(s.items, id, kind, q))
    case ClearCart => Empty
    case LoadCart(lines) => State(lines)
    case Unknown => s
  }

  /** A pair is present exactly when it is among the keys. */
  lemma HasIffKey(items: seq<Line>, id: string, kind: Kind)
    ensures Has(items, id, kind) <==> Key(id, kind) in Keys(items)
  {
    if Key(id, kind) in Keys(items) {
      var l :| l in items && KeyOf(l) == Key(id, kind);
      var i :| 0 <= i < |items| && items[i] == l;
      assert Matches(items[i], id, kind);
    }
    if Has(items, id, kind) {
      var i :| 0 <= i < |items| && Matches(items[i], id, kind);
      assert items[i] in items && KeyOf(items[i]) == Key(id, kind);
    }
  }

  /** Entries paired index by index with the same keys give the same key
      set. */
  lemma SameKeys(a: seq<Line>, b: seq<Line>)
    requires |a| == |b| && forall i :: 0 <= i < |a| ==> KeyOf(a[i]) == KeyOf(b[i])
    ensures Keys(a) == Keys(b)
  {
    forall k | k in Keys(a)
      ensures k in Keys(b)
    {
      var l :| l in a && KeyOf(l) == k;
      var i :| 0 <= i < |a| && a[i] == l;
      assert b[i] in b;
    }
    forall k | k in Keys(b)
      ensures k in Keys(a)
    {
      var l :| l in b && KeyOf(l) == k;
      var i :| 0 <= i < |b| && b[i] == l;
      assert a[i] in a;
    }
  }

  /** Appending an entry adds its key. */
  lemma AppendKeys(items: seq<Line>, l: Line)
    ensures Keys(items + [l]) == Keys(items) + {KeyOf(l)}
  {
    forall k | k in Keys(items + [l])
      ensures k in Keys(items) + {KeyOf(l)}
    {
      var m :| m in items + [l] && KeyOf(m) == k;
      if m != l {
        assert m in items;
      }
    }
    assert l in items + [l];
    forall k | k in Keys(items)
      ensures k in Keys(items + [l])
    {
      var m :| m in items && KeyOf(m) == k;
      assert m in items + [l];
    }
  }

  /** Dropping the entries of a pair removes exactly that key. */
  lemma WithoutKeys(items: seq<Line>, id: string, kind: Kind)
    ensures Keys(Without(items, id, kind)) == Keys(items) - {Key(id, kind)}
  {
    var r := Without(items, id, kind);
    forall k | k in Keys(r)
      ensures k in Keys(items) - {Key(id, kind)}
    {
      var l :| l in r && KeyOf(l) == k;
      var i :| 0 <= i < |r| && r[i] == l;
      assert l in items && !Matches(l, id, kind);
    }
    forall k | k in Keys(items) - {Key(id, kind)}
      ensures k in Keys(r)
    {
      var l :| l in items && KeyOf(l) == k;
      var i :| 0 <= i < |items| && items[i] == l;
      assert !Matches(items[i], id, kind);
      assert l in r;
    }
  }

  // ---------------------------------------------------------------------
  // ADD_ITEM

  /** Adding a pair that is present raises the quantity of its entry by
      exactly one and changes nothing else: the stored price, discount and
      other fields stay as they were, whatever the new payload says. */
  lemma AddExisting(s: State, p: ItemInfo)
    requires Has(s.items, p.id, p.kind)
    ensures var r := Reduce(s, AddItem(p));
      && |r.items| == |s.items|
      && (forall i :: 0 <= i < |s.items| && Matches(s.items[i], p.id, p.kind) ==>
            r.items[i].info == s.items[i].info && r.items[i].quantity == s.items[i].quantity + 1)
      && (forall i :: 0 <= i < |s.items| && !Matches(s.items[i], p.id, p.kind) ==>
            r.items[i] == s.items[i])
  {
  }

  /** Adding a pair that is absent appends one entry with quantity 1 after
      the unchanged earlier entries. */
  lemma AddNew(s: State, p: ItemInfo)
    requires !Has(s.items, p.id, p.kind)
    ensures Reduce(s, AddItem(p)).items == s.items + [Line(p, 1)]
  {
  }

  /** `n` adds of the same payload. */
  function AddTimes(items: seq<Line>, p: ItemInfo, n: nat): seq<Line> {
    if n == 0 then items else Reduce(State(AddTimes(items, p, n - 1)), AddItem(p)).items
  }

  /** Raising the quantity of a pair found only in the last entry. */
  lemma IncrementLast(items: seq<Line>, l: Line, id: string, kind: Kind)
    requires !Has(items, id, kind) && Matches(l, id, kind)
    ensures Increment(items + [l], id, kind) == items + [l.(quantity := l.quantity + 1)]
  {
    var r := Increment(items + [l], id, kind);
    forall i | 0 <= i < |items|
      ensures r[i] == items[i]
    {
      assert (items + [l])[i] == items[i];
    }
  }

  /** `n` adds of a pair the cart does not hold give one entry for it, at
      the end, with quantity `n`. */
  lemma {:induction false} RepeatedAdd(items: seq<Line>, p: ItemInfo, n: nat)
    requires !Has(items, p.id, p.kind) && n >= 1
    ensures AddTimes(items, p, n) == items + [Line(p, n)]
  {
    if n == 1 {
      AddNew(State(items), p);
    } else {
      RepeatedAdd(items, p, n - 1);
      var prev := items + [Line(p, n - 1)];
      assert Matches(prev[|items|], p.id, p.kind);
      IncrementLast(items, Line(p, n - 1), p.id, p.kind);
    }
  }

  /** Nothing caps a content line at quantity 1: subscribing twice to the
      same content gives one entry with quantity 2. */
  lemma ContentQuantityIsNotCapped(p: ItemInfo)
    requires p.kind == Content
    ensures AddTimes([], p, 2) == [Line(p, 2)]
  {
    RepeatedAdd([], p, 2);
  }

  /** A present pair at quantity 3 is at quantity 4 after one more add, with
      the price and discount of the first add. */
  lemma AddToQuantityThree(first: ItemInfo, again: ItemInfo)
    requires first.id == again.id && first.kind == again.kind
    ensures Reduce(State([Line(first, 3)]), AddItem(again)).items == [Line(first, 4)]
  {
    assert Has([Line(first, 3)], again.id, again.kind) by {
      assert Matches([Line(first, 3)][0], again.id, again.kind);
    }
    IncrementLast([], Line(first, 3), again.id, again.kind);
    assert [] + [Line(first, 3)] == [Line(first, 3)];
  }

  // ---------------------------------------------------------------------
  // REMOVE_ITEM, UPDATE_QUANTITY, CLEAR_CART, LOAD_CART, default

  /** Removing drops exactly the entries of the pair: every entry without
      it survives, in order, and none with it does. */
  lemma RemoveExact(s: State, id: string, kind: Kind)
    ensures var r := Reduce(s, RemoveItem(id, kind)).items;
      && !Has(r, id, kind)
      && (forall i :: 0 <= i < |s.items| && !Matches(s.items[i], id, kind) ==> s.items[i] in r)
      && IsSubseq(r, s.items)
  {
    FilterIsSubseq((l: Line) => !Matches(l, id, kind), s.items);
  }

  /** Removing an absent pair changes nothing, so removal is idempotent. */
  lemma RemoveAbsent(s: State, id: string, kind: Kind)
    requires !Has(s.items, id, kind)
    ensures Reduce(s, RemoveItem(id, kind)) == s
  {
    FilterAll((l: Line) => !Matches(l, id, kind), s.items);
  }

  lemma RemoveIdempotent(s: State, id: string, kind: Kind)
    ensures var once := Reduce(s, RemoveItem(id, kind));
      Reduce(once, RemoveItem(id, kind)) == once
  {
    FilterIdempotent((l: Line) => !Matches(l, id, kind), s.items);
  }

  /** Updating changes only the quantity of the matching entries and keeps
      the length; the store applies no stock ceiling. */
  lemma UpdateOnlyQuantity(s: State, id: string, kind: Kind, q: int)
    ensures var r := Reduce(s, UpdateQuantity(id, kind, q)).items;
      && |r| == |s.items|
      && (forall i :: 0 <= i < |r| ==> r[i].info == s.items[i].info)
      && (forall i :: 0 <= i < |r| && Matches(s.items[i], id, kind) ==> r[i].quantity == q)
      && (forall i :: 0 <= i < |r| && !Matches(s.items[i], id, kind) ==> r[i] == s.items[i])
  {
  }

  /** Loading replaces the items wholesale with the payload, and an unknown
      action returns the state unchanged. */
  lemma LoadAndUnknown(s: State, lines: seq<Line>)
    ensures Reduce(s, LoadCart(lines)).items == lines
    ensures Reduce(s, Unknown) == s
  {
  }

  /** Every action but a load keeps the `(id, type)` pairs distinct. */
  lemma ReducePreservesNoDup(s: State, a: Action)
    requires NoDup(s.items) && !a.LoadCart?
    ensures NoDup(Reduce(s, a).items)
  {
    match a
    case AddItem(p) =>
      if !Has(s.items, p.id, p.kind) {
        var r := s.items + [Line(p, 1)];
        forall i, j | 0 <= i < j < |r|
          ensures KeyOf(r[i]) != KeyOf(r[j])
        {
          if j == |s.items| {
            assert !Matches(s.items[i], p.id, p.kind);
          }
        }
      } else {
        var r := Increment(s.items, p.id, p.kind);
        assert forall i :: 0 <= i < |r| ==> KeyOf(r[i]) == KeyOf(s.items[i]);
      }
    case RemoveItem(id, kind) =>
      FilterKeepsDistinct(KeyOf, (l: Line) => !Matches(l, id, kind), s.items);
    case UpdateQuantity(id, kind, q) =>
      var r := SetQuantity(s.items, id, kind, q);
      assert forall i :: 0 <= i < |r| ==> KeyOf(r[i]) == KeyOf(s.items[i]);
    case ClearCart =>
    case Unknown =>
  }

  /** A load can bring in two entries for the same pair. */
  lemma LoadMayDuplicate(p: ItemInfo)
    ensures !NoDup(Reduce(Empty, LoadCart([Line(p, 1), Line(p, 2)])).items)
  {
    var r := [Line(p, 1), Line(p, 2)];
    assert KeyOf(r[0]) == KeyOf(r[1]);
  }

  // ---------------------------------------------------------------------
  // Totals

  /** The unit price the totals use: the discount applies when it is
      truthy, that is present and not zero. */
  function EffectivePrice(info: ItemInfo): (r: real)
    ensures (info.discount == None || info.discount == Some(0.0)) ==> r == info.price
    ensures info.discount.Some? ==> r == CalculateDiscountPrice(info.price, info.discount.value)
    ensures info.price >= 0.0 && info.discount.Some? && 0.0 <= info.discount.value <= 100.0 ==> 0.0 <= r <= info.price
  {
    match info.discount
    case Some(d) => if d != 0.0 then info.price - info.price * d / 100.0 else info.price
    case None => info.price
  }

  function LinePrice(l: Line): real {
    EffectivePrice(l.info) * l.quantity as real
  }

  /** `getTotalPrice`. */
  function TotalPrice(items: seq<Line>): real {
    Sum(LinePrice, items)
  }

  /** `getTotalItems`: the quantities added left to right. */
  function TotalItems(items: seq<Line>): int {
    if items == [] then 0 else TotalItems(items[..|items| - 1]) + items[|items| - 1].quantity
  }

  /** The item count splits over a concatenation of carts. */
  lemma {:induction false} TotalItemsAppend(a: seq<Line>, b: seq<Line>)
    ensures TotalItems(a + b) == TotalItems(a) + TotalItems(b)
    decreases |b|
  {
    if b == [] {
      assert a + b == a;
    } else {
      var c := a + b;
      assert c[..|c| - 1] == a + b[..|b| - 1];
      TotalItemsAppend(a, b[..|b| - 1]);
    }
  }

  /** Both totals split over a concatenation of carts. */
  lemma TotalsAppend(a: seq<Line>, b: seq<Line>)
    ensures TotalPrice(a + b) == TotalPrice(a) + TotalPrice(b)
    ensures TotalItems(a + b) == TotalItems(a) + TotalItems(b)
  {
    SumAppend(LinePrice, a, b);
    TotalItemsAppend(a, b);
  }

  /** A single line costs its effective price times its quantity. */
  lemma TotalOfOne(l: Line)
    ensures TotalPrice([l]) == EffectivePrice(l.info) * l.quantity as real
    ensures TotalItems([l]) == l.quantity
  {
    assert [l][..|[l]| - 1] == [];
    assert Sum(LinePrice, [l]) == Sum(LinePrice, []) + LinePrice(l);
  }

  /** After clearing, both totals are zero whatever the cart held. */
  lemma ClearedTotals(s: State)
    ensures TotalItems(Reduce(s, ClearCart).items) == 0
    ensures TotalPrice(Reduce(s, ClearCart).items) == 0.0
  {
  }

  /** A cart whose prices, discounts and quantities are in range has a
      non-negative total. */
  lemma TotalPriceNonNegative(items: seq<Line>)
    requires forall i :: 0 <= i < |items| ==> items[i].info.price >= 0.0 && items[i].quantity >= 0
    requires forall i :: 0 <= i < |items| && items[i].info.discount.Some? ==> 0.0 <= items[i].info.discount.value <= 100.0
    ensures TotalPrice(items) >= 0.0
  {
    forall i | 0 <= i < |items|
      ensures LinePrice(items[i]) >= 0.0
    {
      var e := EffectivePrice(items[i].info);
      assert e >= 0.0;
      assert e * items[i].quantity as real >= 0.0;
    }
    SumNonNegative(LinePrice, items);
  }

  /** One content item at 50000 and two merchandise items at 100000 less
      10% come to 230000. */
  lemma ExampleTotal(c: ItemInfo, m: ItemInfo)
    requires c.kind == Content && c.price == 50000.0 && c.discount == None
    requires m.kind == Merchandise && m.price == 100000.0 && m.discount == Some(10.0)
    ensures TotalPrice([Line(c, 1), Line(m, 2)]) == 230000.0
  {
    var items := [Line(c, 1), Line(m, 2)];
    TotalsAppend([Line(c, 1)], [Line(m, 2)]);
    assert items == [Line(c, 1)] + [Line(m, 2)];
    TotalOfOne(Line(c, 1));
    TotalOfOne(Line(m, 2));
  }

  // ---------------------------------------------------------------------
  // The context's wrappers

  /** `updateQuantity(id, type, quantity)`: a quantity of zero or less
      removes the entry. */
  function UpdateQuantityCall(s: State, id: string, kind: Kind, q: int): (r: State)
    ensures q <= 0 ==> r == Reduce(s, RemoveItem(id, kind)) && !Has(r.items, id, kind)
    ensures q > 0 ==> (|r.items| == |s.items|
      && (forall i :: 0 <= i < |r.items| && Matches(s.items[i], id, kind) ==> r.items[i] == s.items[i].(quantity := q))
      && (forall i :: 0 <= i < |r.items| && !Matches(s.items[i], id, kind) ==> r.items[i] == s.items[i]))
  {
    if q <= 0 then (RemoveExact(s, id, kind); Reduce(s, RemoveItem(id, kind)))
    else (UpdateOnlyQuantity(s, id, kind, q); Reduce(s, UpdateQuantity(id, kind, q)))
  }
}
