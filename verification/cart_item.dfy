/** One row of the cart page: the price shown, the quantity buttons of a
    merchandise line, the line total and the remove button. */
module CartItemView {
  import opened Wrappers
  import opened Helpers
  import opened Cart
  import opened Seqs

  /** `finalPrice`: the discounted price when the discount is truthy. */
  function FinalPrice(info: ItemInfo): real {
    match info.discount
    case Some(d) => if d != 0.0 then CalculateDiscountPrice(info.price, d) else info.price
    case None => info.price
  }

  /** The row shows the same unit price the cart total charges. */
  lemma FinalPriceIsEffectivePrice(info: ItemInfo)
    ensures FinalPrice(info) == EffectivePrice(info)
  {
  }

  /** The enabled state of the two quantity buttons. */
  datatype Controls = Controls(minusEnabled: bool, plusEnabled: bool)

  /** Merchandise lines get the buttons; minus is disabled at quantity 1 or
      less and plus at the stock figure or more (a missing stock compares
      false, so plus stays enabled). */
  function QuantityControls(l: Line): (r: Option<Controls>)
    ensures r.Some? <==> l.info.kind == Merchandise
    ensures r.Some? ==> (r.value.minusEnabled <==> l.quantity > 1)
    ensures r.Some? && l.info.stock.Some? ==> (r.value.plusEnabled <==> l.quantity < l.info.stock.value)
  {
    if l.info.kind == Merchandise then
      Some(Controls(!(l.quantity <= 1),
                    !(l.info.stock.Some? && l.quantity >= l.info.stock.value)))
    else None
  }

  /** The "one month subscription" note is shown for content lines only. */
  predicate ShowsSubscriptionNote(l: Line) {
    l.info.kind == Content
  }

  /** A content line can only be removed: it has no quantity buttons. */
  lemma ContentOnlyRemovable(l: Line)
    requires ShowsSubscriptionNote(l)
    ensures QuantityControls(l) == None
  {
  }

  datatype Button = Minus | Plus

  /** `handleQuantityChange(item.quantity ± 1)`. */
  function Click(s: State, l: Line, b: Button): State {
    UpdateQuantityCall(s, l.info.id, l.info.kind, if b == Minus then l.quantity - 1 else l.quantity + 1)
  }

  /** `handleRemove`: the clicked line's pair is gone, and every other
      line stays, in order. */
  function RemoveClick(s: State, l: Line): (r: State)
    ensures !Has(r.items, l.info.id, l.info.kind)
    ensures forall i :: 0 <= i < |s.items| && !Matches(s.items[i], l.info.id, l.info.kind) ==> s.items[i] in r.items
    ensures IsSubseq(r.items, s.items)
  {
    RemoveExact(s, l.info.id, l.info.kind);
    Reduce(s, RemoveItem(l.info.id, l.info.kind))
  }

  /** An enabled button moves the quantity of a merchandise line with a
      stock figure by exactly one, and keeps a quantity in `[1, stock]`
      inside that range. */
  lemma EnabledClickStaysInRange(s: State, i: int, b: Button)
    requires 0 <= i < |s.items|
    requires var l := s.items[i]; l.info.kind == Merchandise && l.info.stock.Some?
    requires 1 <= s.items[i].quantity <= s.items[i].info.stock.value
    requires var c := QuantityControls(s.items[i]).value; if b == Minus then c.minusEnabled else c.plusEnabled
    ensures var l := s.items[i]; var r := Click(s, l, b);
      && |r.items| == |s.items|
      && r.items[i].quantity == (if b == Minus then l.quantity - 1 else l.quantity + 1)
      && 1 <= r.items[i].quantity <= l.info.stock.value
  {
    var l := s.items[i];
    assert Matches(s.items[i], l.info.id, l.info.kind);
  }

  /** The row total: the shown price times the quantity, or once when the
      quantity is 0. */
  function LineTotal(l: Line): (t: real)
    ensures l.quantity != 0 ==> t == EffectivePrice(l.info) * l.quantity as real
    ensures l.quantity == 0 ==> t == EffectivePrice(l.info)
  {
    FinalPrice(l.info) * (if l.quantity != 0 then l.quantity else 1) as real
  }

  /** A line with a non-zero quantity adds its row total to the cart total. */
  lemma LineTotalIsCartShare(items: seq<Line>, l: Line)
    requires l.quantity != 0
    ensures TotalPrice(items + [l]) == TotalPrice(items) + LineTotal(l)
  {
    TotalsAppend(items, [l]);
    TotalOfOne(l);
  }
}
