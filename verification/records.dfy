/** The documents of the hosted store that the pages read and write, with
    the fields the modelled rules look at. A field a document may lack is
    an `Option`; a field a form fills from text or a number is a `Value`. */
module Records {
  import opened Wrappers
  import opened JsValue
  import opened Cart

  /** A shipping address as the profile stores it. */
  datatype Address = Address(street: string, city: string, postalCode: string)

  /** A document of the `users` collection. */
  datatype UserRecord = UserRecord(
    uid: string,
    fullName: Option<string>,
    email: Option<string>,
    username: Option<string>,
    phone: Option<string>,
    gender: Option<string>,
    age: Value,
    address: Option<Address>,
    job: Option<string>,
    childOrder: Value,
    avatar: Option<string>,
    paymentMethod: Option<string>,
    role: string,
    isBlocked: bool,
    createdAt: real)

  /** A `parseInt` result as stored: the number, or NaN, which every rule
      here reads like a missing value (falsy, and no number). */
  function StoredInt(x: Option<int>): (v: Value)
    ensures x.Some? ==> ToNumber(v) == Some(x.value as real)
    ensures x.None? ==> !Truthy(v) && ToNumber(v) == None
  {
    match x
    case Some(n) => Number(n as real)
    case None => Missing
  }

  /** One line of an order, copied from the cart at checkout. */
  datatype OrderItem = OrderItem(
    id: string,
    kind: Kind,
    name: Option<string>,
    price: real,
    discount: real,
    quantity: int,
    image: Option<string>)

  /** A document of the `orders` collection. */
  datatype Order = Order(
    id: string,
    userId: string,
    items: seq<OrderItem>,
    totalAmount: real,
    paymentStatus: string,
    shippingStatus: string,
    shippingAddress: Address,
    midtransOrderId: string,
    trackingNumber: Option<string>,
    createdAt: real)

  /** A document of the `messages` collection. */
  datatype Message = Message(
    id: string,
    userId: string,
    userEmail: string,
    userName: string,
    subject: string,
    message: string,
    status: string,
    reply: string,
    createdAt: real)

  /** A document of the `content` collection. */
  datatype ContentRecord = ContentRecord(
    id: string,
    title: string,
    description: string,
    duration: int,
    price: real,
    isSubscription: bool,
    isActive: bool,
    audioUrl: Option<string>,
    videoUrl: Option<string>,
    thumbnail: Option<string>,
    createdAt: real)

  /** A document of the `merchandise` collection. */
  datatype Product = Product(
    id: string,
    name: string,
    description: string,
    price: real,
    discount: Option<real>,
    stock: int,
    images: seq<string>,
    isActive: bool,
    createdAt: real)

  /** A document of the `subscriptions` collection. */
  datatype Subscription = Subscription(
    userId: string,
    contentId: string,
    isActive: bool,
    endDate: real)
}
