/** Checkout from the cart page: the tax and final total, the order record
    and payment request built from the cart, and the sequence of effects
    `handleCheckout` produces for each combination of user, profile, store
    write and payment outcome. */
module Checkout {
  import opened Wrappers
  import opened Cart
  import opened CartSession
  import opened Records
  import Helpers

  /** The tax rate, 11%. */
  const TaxRate: real := 11.0 / 100.0

  /** `tax = totalPrice * 0.11`. */
  function Tax(subtotal: real): real {
    subtotal * TaxRate
  }

  /** `finalTotal = totalPrice + tax`: 111% of the subtotal. */
  function FinalTotal(subtotal: real): (t: real)
    ensures t == subtotal * 111.0 / 100.0
    ensures subtotal >= 0.0 ==> t >= subtotal
    ensures t - subtotal == Tax(subtotal)
  {
    subtotal + Tax(subtotal)
  }

  /** The checkout figures of a 230000 cart: 25300 tax, 255300 in all. */
  lemma ExampleCheckoutTotal()
    ensures Tax(230000.0) == 25300.0 && FinalTotal(230000.0) == 255300.0
  {
  }

  /** The outcome of the hosted payment widget: success and pending
      resolve with a transaction status; an error and closing the widget
      reject. */
  datatype PaymentOutcome = Success(status: string) | Pending(status: string) | Failure | Closed

  /** The payment request's line. */
  datatype PaymentItem = PaymentItem(id: string, price: real, quantity: int, name: Option<string>)

  /** The payment request: transaction details, customer details and
      item details. */
  datatype PaymentRequest = PaymentRequest(
    orderId: string,
    grossAmount: real,
    firstName: Option<string>,
    email: Option<string>,
    phone: Option<string>,
    billing: Address,
    items: seq<PaymentItem>)

  datatype ToastKind = ToastError | ToastSuccess

  /** What checkout does to the world, in order. */
  datatype Effect =
    | Toast(kind: ToastKind, text: string)
    | Navigate(path: string)
    | CreateOrder(order: Order)
    | Pay(request: PaymentRequest)
    | ClearCartEffect

  /** `item.name || item.title`. */
  function NameOrTitle(info: ItemInfo): (r: Option<string>)
    ensures info.name.Some? && info.name.value != "" ==> r == info.name
    ensures (info.name == None || info.name == Some("")) ==> r == info.title
  {
    match info.name
    case Some(n) => if n != "" then info.name else info.title
    case None => info.title
  }

  /** `item.discount || 0`. */
  function DiscountOrZero(info: ItemInfo): real {
    match info.discount
    case Some(d) => d
    case None => 0.0
  }

  /** `item.quantity || 1`. */
  function QuantityOrOne(q: int): (r: int)
    ensures q != 0 ==> r == q
    ensures q == 0 ==> r == 1
  {
    if q != 0 then q else 1
  }

  /** The order's copy of one cart line. */
  function OrderItemOf(l: Line): OrderItem {
    OrderItem(l.info.id, l.info.kind, NameOrTitle(l.info), l.info.price,
              DiscountOrZero(l.info), QuantityOrOne(l.quantity), l.info.image)
  }

  /** The payment request's copy of one cart line: the undiscounted price. */
  function PaymentItemOf(l: Line): PaymentItem {
    PaymentItem(l.info.id, l.info.price, QuantityOrOne(l.quantity), NameOrTitle(l.info))
  }

  /** `orderData`, with the `createdAt` the store adds on creation. */
  function OrderOf(orderId: string, uid: string, items: seq<Line>, address: Address, now: real): Order {
    Order(orderId, uid, seq(|items|, i requires 0 <= i < |items| => OrderItemOf(items[i])),
          FinalTotal(TotalPrice(items)), "pending", "pending", address, orderId, None, now)
  }

  /** `midtransData`. */
  function RequestOf(orderId: string, profile: UserRecord, address: Address, items: seq<Line>): PaymentRequest {
    PaymentRequest(orderId, FinalTotal(TotalPrice(items)), profile.fullName, profile.email,
                   profile.phone, address,
                   seq(|items|, i requires 0 <= i < |items| => PaymentItemOf(items[i])))
  }

  /** The transaction statuses after which the cart is cleared. */
  predicate ClearsCart(outcome: PaymentOutcome) {
    (outcome.Success? || outcome.Pending?) && outcome.status in {"settlement", "pending"}
  }

  const LoginFirst := "Silakan login terlebih dahulu"
  const CompleteAddress := "Silakan lengkapi alamat pengiriman di profil"
  const OrderPlaced := "Pesanan berhasil dibuat"
  const PaymentFailed := "Gagal memproses pembayaran: "

  /** The result of a checkout: its effects and the cart session after it. */
  datatype Result = Result(effects: seq<Effect>, session: Session)

  /** `handleCheckout`. `timestamp` and `suffix` are what the order id is
      generated from; `createOk` says whether the store accepted the order;
      `now` is the time the store stamps on it. Creating an order is
      attempted exactly when a signed-in user with a profile has an
      address, and the order is then the user's, under the generated id,
      for 111% of the cart total; it is stored only when the store accepts
      it, and a refused write keeps the cart. The session either stays or
      has its cart cleared. */
  function HandleCheckout(sess: Session, profile: Option<UserRecord>, timestamp: nat, suffix: string,
                          now: real, createOk: bool, outcome: PaymentOutcome): (r: Result)
    ensures r.session == sess || r.session == ClearCartCall(sess)
    ensures Creates(r.effects) <==> sess.user.Some? && profile.Some? && profile.value.address.Some?
    ensures !createOk ==> r.session == sess
    ensures forall i :: 0 <= i < |r.effects| && r.effects[i].CreateOrder? ==>
      && sess.user.Some?
      && r.effects[i].order.userId == sess.user.value
      && r.effects[i].order.id == Helpers.GenerateOrderId(timestamp, suffix)
      && r.effects[i].order.totalAmount == FinalTotal(TotalPrice(sess.cart.items))
  {
    if sess.user.None? || profile.None? then
      Result([Toast(ToastError, LoginFirst), Navigate("/login")], sess)
    else if profile.value.address.None? then
      Result([Toast(ToastError, CompleteAddress), Navigate("/profile")], sess)
    else
      var orderId := Helpers.GenerateOrderId(timestamp, suffix);
      var address := profile.value.address.value;
      var order := OrderOf(orderId, sess.user.value, sess.cart.items, address, now);
      var request := RequestOf(orderId, profile.value, address, sess.cart.items);
      var r :=
        if !createOk then
          Result([CreateOrder(order), Toast(ToastError, PaymentFailed)], sess)
        else if outcome.Failure? || outcome.Closed? then
          Result([CreateOrder(order), Pay(request), Toast(ToastError, PaymentFailed)], sess)
        else if ClearsCart(outcome) then
          Result([CreateOrder(order), Pay(request), ClearCartEffect, Toast(ToastSuccess, OrderPlaced),
                  Navigate("/orders")], ClearCartCall(sess))
        else
          Result([CreateOrder(order), Pay(request)], sess);
      assert r.effects[0] == CreateOrder(order);
      r
  }

  /** Some effect creates an order. */
  predicate Creates(effects: seq<Effect>) {
    exists i :: 0 <= i < |effects| && effects[i].CreateOrder?
  }

  /** Some effect invokes the payment. */
  predicate Pays(effects: seq<Effect>) {
    exists i :: 0 <= i < |effects| && effects[i].Pay?
  }

  /** Without a user or a profile, checkout sends the shopper to the login
      page; with both but no address, to the profile page. Either way no
      order is created, nothing is paid and the cart is untouched. */
  lemma PreconditionsShortCircuit(sess: Session, profile: Option<UserRecord>, timestamp: nat, suffix: string,
                                  now: real, createOk: bool, outcome: PaymentOutcome)
    requires sess.user.None? || profile.None? || profile.value.address.None?
    ensures var r := HandleCheckout(sess, profile, timestamp, suffix, now, createOk, outcome);
      && !Creates(r.effects) && !Pays(r.effects) && r.session == sess
      && Navigate(if sess.user.None? || profile.None? then "/login" else "/profile") in r.effects
  {
    var r := HandleCheckout(sess, profile, timestamp, suffix, now, createOk, outcome);
    assert r.effects[1].Navigate?;
  }

  /** The order is created before the payment is invoked, and the payment
      is invoked exactly when the preconditions hold and the store accepted
      the order. */
  lemma OrderBeforePayment(sess: Session, profile: Option<UserRecord>, timestamp: nat, suffix: string,
                           now: real, createOk: bool, outcome: PaymentOutcome)
    ensures var r := HandleCheckout(sess, profile, timestamp, suffix, now, createOk, outcome);
      && (Pays(r.effects) <==> sess.user.Some? && profile.Some? && profile.value.address.Some? && createOk)
      && (forall j :: 0 <= j < |r.effects| && r.effects[j].Pay? ==>
            exists i :: 0 <= i < j && r.effects[i].CreateOrder?)
  {
    var r := HandleCheckout(sess, profile, timestamp, suffix, now, createOk, outcome);
    if sess.user.Some? && profile.Some? && profile.value.address.Some? && createOk {
      assert r.effects[1].Pay? && r.effects[0].CreateOrder?;
    } else if sess.user.Some? && profile.Some? && profile.value.address.Some? {
      assert r.effects == [r.effects[0], Toast(ToastError, PaymentFailed)];
    }
  }

  /** The cart is cleared exactly when the order was placed and the payment
      resolved with status `settlement` or `pending`; a rejection, a failed
      store write or any other status leaves the session as it was. */
  lemma ClearedIffSettledOrPending(sess: Session, profile: Option<UserRecord>, timestamp: nat, suffix: string,
                                   now: real, createOk: bool, outcome: PaymentOutcome)
    ensures var r := HandleCheckout(sess, profile, timestamp, suffix, now, createOk, outcome);
      var placed := sess.user.Some? && profile.Some? && profile.value.address.Some? && createOk;
      && (placed && ClearsCart(outcome) ==> r.session == ClearCartCall(sess) && r.session.cart.items == [])
      && (!(placed && ClearsCart(outcome)) ==> r.session == sess)
      && (ClearCartEffect in r.effects <==> placed && ClearsCart(outcome))
  {
  }

  /** A payment window the shopper closes leaves the cart and its snapshot as they were. */
  lemma CancelledPaymentKeepsCart(sess: Session, profile: Option<UserRecord>, timestamp: nat, suffix: string, now: real)
    ensures HandleCheckout(sess, profile, timestamp, suffix, now, true, Closed).session == sess
  {
  }

  /** The order copies the cart line by line, in order: id, type and price
      as they are, the name falling back to the title, a missing discount
      as 0 and a zero quantity as 1, a present discount and the image as they
      are. Its total is 111% of the cart total,
      both statuses are pending, and the payment-gateway id is the order id. */
  lemma OrderSnapshot(orderId: string, uid: string, items: seq<Line>, address: Address, now: real)
    ensures var o := OrderOf(orderId, uid, items, address, now);
      && |o.items| == |items|
      && (forall i :: 0 <= i < |items| ==>
            && o.items[i].id == items[i].info.id
            && o.items[i].kind == items[i].info.kind
            && o.items[i].price == items[i].info.price
            && o.items[i].name == NameOrTitle(items[i].info)
            && (items[i].info.discount == None ==> o.items[i].discount == 0.0)
            && (items[i].info.discount.Some? ==> o.items[i].discount == items[i].info.discount.value)
            && (items[i].quantity != 0 ==> o.items[i].quantity == items[i].quantity)
            && (items[i].quantity == 0 ==> o.items[i].quantity == 1)
            && o.items[i].image == items[i].info.image)
      && o.totalAmount == TotalPrice(items) * 111.0 / 100.0
      && o.paymentStatus == "pending" && o.shippingStatus == "pending"
      && o.midtransOrderId == o.id == orderId && o.userId == uid
  {
  }

  /** The payment request carries the order's id and total, and the
      undiscounted unit price of every cart line. */
  lemma RequestMatchesOrder(orderId: string, uid: string, profile: UserRecord, items: seq<Line>, address: Address, now: real)
    ensures var o := OrderOf(orderId, uid, items, address, now);
      var q := RequestOf(orderId, profile, address, items);
      && q.orderId == o.id && q.grossAmount == o.totalAmount
      && |q.items| == |items|
      && (forall i :: 0 <= i < |items| ==> q.items[i].price == items[i].info.price && q.items[i].id == items[i].info.id)
  {
  }

  /** The example cart's order is for 255300. */
  lemma ExampleOrderTotal(c: ItemInfo, m: ItemInfo, orderId: string, uid: string, address: Address, now: real)
    requires c.kind == Content && c.price == 50000.0 && c.discount == None
    requires m.kind == Merchandise && m.price == 100000.0 && m.discount == Some(10.0)
    ensures OrderOf(orderId, uid, [Line(c, 1), Line(m, 2)], address, now).totalAmount == 255300.0
  {
    ExampleTotal(c, m);
  }
}
