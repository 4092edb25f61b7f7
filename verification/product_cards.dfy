/** The merchandise card of the shop listing: the shown price, the stock
    guard and the add-to-cart payload. */
module MerchandiseCardView {
  import opened Wrappers
  import opened Helpers
  import opened Cart
  import opened CartSession
  import opened Records

  /** `finalPrice`: discounted when the discount is truthy. */
  function FinalPrice(p: Product): (r: real)
    ensures (p.discount.Some? && p.discount.value != 0.0) ==> r == CalculateDiscountPrice(p.price, p.discount.value)
    ensures (p.discount == None || p.discount == Some(0.0)) ==> r == p.price
  {
    match p.discount
    case Some(d) => if d != 0.0 then CalculateDiscountPrice(p.price, d) else p.price
    case None => p.price
  }

  /** The first image, if there is one. */
  function FirstImage(images: seq<string>): Option<string> {
    if |images| > 0 then Some(images[0]) else None
  }

  /** The add payload: type merchandise, the undiscounted price and the
      discount, the first image and the stock. */
  function AddPayload(p: Product): (r: ItemInfo)
    ensures r.id == p.id && r.kind == Merchandise && r.name == Some(p.name)
    ensures r.price == p.price && r.discount == p.discount && r.stock == Some(p.stock)
    ensures |p.images| > 0 ==> r.image == Some(p.images[0])
    ensures |p.images| == 0 ==> r.image == None
  {
    ItemInfo(p.id, Merchandise, Some(p.name), None, p.price, p.discount, FirstImage(p.images), Some(p.stock), None)
  }

  /** The price the card shows equals what the cart charges for the item
      once added. */
  lemma CardPriceIsCartPrice(p: Product)
    ensures FinalPrice(p) == EffectivePrice(AddPayload(p))
  {
  }

  /** The add button is disabled when there is no stock. */
  predicate AddDisabled(p: Product) {
    p.stock <= 0
  }

  /** The discount badge and the struck-through price are shown when the
      discount is positive. */
  predicate ShowsDiscount(p: Product) {
    p.discount.Some? && p.discount.value > 0.0
  }

  const OutOfStock := "Stok tidak tersedia"
  const Added := "Produk ditambahkan ke keranjang"

  /** `handleAddToCart`: the session after the click and the toast shown. */
  function HandleAddToCart(sess: Session, p: Product): (Session, string) {
    if p.stock <= 0 then (sess, OutOfStock)
    else (Dispatch(sess, AddItem(AddPayload(p))), Added)
  }

  /** With no stock the click changes nothing; with stock it adds the
      product's payload. The button's disabled state agrees with the
      handler's own guard: it is disabled exactly when a click would only
      show the out-of-stock notice. */
  lemma AddToCartGuard(sess: Session, p: Product)
    ensures p.stock <= 0 ==> HandleAddToCart(sess, p) == (sess, OutOfStock)
    ensures p.stock > 0 ==> HandleAddToCart(sess, p).0.cart == Reduce(sess.cart, AddItem(AddPayload(p)))
    ensures AddDisabled(p) <==> HandleAddToCart(sess, p).1 == OutOfStock
  {
  }

  /** A positive discount shows the badge and lowers the shown price below
      a positive list price (for a discount of at most 100%). */
  lemma DiscountShownIsCheaper(p: Product)
    requires ShowsDiscount(p) && p.discount.value <= 100.0 && p.price > 0.0
    ensures FinalPrice(p) < p.price
  {
    assert p.price * p.discount.value > 0.0;
  }
}

/** The content card of the catalogue: the price label, the choice between
    listening and subscribing, and the subscribe payload. */
module ContentCardView {
  import opened Wrappers
  import opened Cart
  import opened CartSession
  import opened Records

  /** The subscribe payload: type content, the id, title, price, duration
      and thumbnail, and no discount, name or stock. */
  function SubscribePayload(c: ContentRecord): (r: ItemInfo)
    ensures r.id == c.id && r.kind == Content && r.title == Some(c.title) && r.price == c.price
    ensures r.discount == None && r.name == None && r.stock == None
    ensures r.image == c.thumbnail && r.duration == Some(c.duration)
  {
    ItemInfo(c.id, Content, None, Some(c.title), c.price, None, c.thumbnail, None, Some(c.duration))
  }

  /** The subscribe payload is charged its plain price. */
  lemma SubscribePriceIsPlain(c: ContentRecord)
    ensures EffectivePrice(SubscribePayload(c)) == c.price
  {
  }

  /** `handleSubscribe`. */
  function HandleSubscribe(sess: Session, c: ContentRecord): Session {
    Dispatch(sess, AddItem(SubscribePayload(c)))
  }

  datatype CardAction = Listen | Subscribe

  /** The listen link for subscribers and free content, otherwise the
      subscribe button. */
  function ActionShown(c: ContentRecord, isSubscribed: bool): (r: CardAction)
    ensures r == Listen <==> isSubscribed || !c.isSubscription
  {
    if isSubscribed || !c.isSubscription then Listen else Subscribe
  }

  datatype PriceLabel = Price(amount: real) | Free

  /** The price per month for subscription content, "Gratis" otherwise. */
  function PriceShown(c: ContentRecord): (r: PriceLabel)
    ensures r.Price? <==> c.isSubscription
    ensures r.Price? ==> r.amount == c.price
  {
    if c.isSubscription then Price(c.price) else Free
  }

  /** Subscribing twice to content not yet in the cart leaves one entry
      for it with quantity 2: nothing caps subscriptions at one. */
  lemma RepeatedSubscribe(sess: Session, c: ContentRecord)
    requires !Has(sess.cart.items, c.id, Content)
    ensures HandleSubscribe(HandleSubscribe(sess, c), c).cart.items == sess.cart.items + [Line(SubscribePayload(c), 2)]
  {
    var p := SubscribePayload(c);
    RepeatedAdd(sess.cart.items, p, 2);
    assert AddTimes(sess.cart.items, p, 1) == Reduce(sess.cart, AddItem(p)).items;
  }
}
