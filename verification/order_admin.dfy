/** The admin order page: the search and status filter, the status labels,
    and the two status updates, modelled on the `orders` collection as a
    map from document id to the stored data. */
module OrderAdmin {
  import opened Wrappers
  import opened Text
  import opened Seqs
  import opened Records
  import opened DocStore

  /** `filteredOrders`: the order id or the user id contains the term,
      both folded, and the payment status is the chosen one (or `all`). */
  predicate Shown(fold: char -> char, term: string, statusFilter: string, o: Order) {
    (Contains(Lower(fold, o.id), Lower(fold, term)) || Contains(Lower(fold, o.userId), Lower(fold, term)))
    && (statusFilter == "all" || o.paymentStatus == statusFilter)
  }

  function FilteredOrders(fold: char -> char, orders: seq<Order>, term: string, statusFilter: string): (r: seq<Order>)
    ensures statusFilter != "all" ==> forall i :: 0 <= i < |r| ==> r[i].paymentStatus == statusFilter
    ensures IsSubseq(r, orders)
    ensures forall i :: 0 <= i < |r| ==> Shown(fold, term, statusFilter, r[i])
    ensures forall i :: 0 <= i < |orders| && Shown(fold, term, statusFilter, orders[i]) ==> orders[i] in r
  {
    FilterIsSubseq((o: Order) => Shown(fold, term, statusFilter, o), orders);
    Filter((o: Order) => Shown(fold, term, statusFilter, o), orders)
  }

  /** With no search term and `all`, every order is listed. */
  lemma EmptySearchListsAll(fold: char -> char, orders: seq<Order>)
    ensures FilteredOrders(fold, orders, "", "all") == orders
  {
    forall i | 0 <= i < |orders| ensures Shown(fold, "", "all", orders[i]) {
      ContainsEmpty(Lower(fold, orders[i].id));
    }
    FilterAll((o: Order) => Shown(fold, "", "all", o), orders);
  }

  /** `getStatusText`: the six known statuses have labels; anything else,
      such as the selectable `failed` and `returned`, is shown as is. */
  function StatusText(status: string): (r: string)
    ensures status !in KnownStatuses ==> r == status
    ensures status in KnownStatuses ==> r != status
  {
    if status == "pending" then "Menunggu Pembayaran"
    else if status == "paid" then "Dibayar"
    else if status == "processing" then "Diproses"
    else if status == "shipped" then "Dikirim"
    else if status == "delivered" then "Diterima"
    else if status == "cancelled" then "Dibatalkan"
    else status
  }

  const KnownStatuses := {"pending", "paid", "processing", "shipped", "delivered", "cancelled"}

  /** `getStatusColor`: a colour per known status, grey otherwise. */
  function StatusColor(status: string): (r: string)
    ensures status !in KnownStatuses <==> r == "bg-gray-100 text-gray-800"
  {
    if status == "pending" then "bg-yellow-100 text-yellow-800"
    else if status == "paid" then "bg-green-100 text-green-800"
    else if status == "processing" then "bg-blue-100 text-blue-800"
    else if status == "shipped" then "bg-purple-100 text-purple-800"
    else if status == "delivered" then "bg-green-100 text-green-800"
    else if status == "cancelled" then "bg-red-100 text-red-800"
    else "bg-gray-100 text-gray-800"
  }

  /** The known labels tell the statuses apart, except that `paid` and
      `delivered` share a colour. */
  lemma LabelsDistinct(a: string, b: string)
    requires a in KnownStatuses && b in KnownStatuses && a != b
    ensures StatusText(a) != StatusText(b)
    ensures StatusColor("paid") == StatusColor("delivered")
  {
  }

  /** Two of the options the status selects offer have no label. */
  lemma SelectableButUnlabelled()
    ensures StatusText("failed") == "failed" && StatusColor("failed") == "bg-gray-100 text-gray-800"
    ensures StatusText("returned") == "returned" && StatusColor("returned") == "bg-gray-100 text-gray-800"
  {
  }

  /** The stored `orders` collection. */
  type Store = Collection<Order>

  /** The payment-status patch: only the payment status changes. */
  function PaymentPatch(newStatus: string): Order -> Order {
    (o: Order) => o.(paymentStatus := newStatus)
  }

  /** The shipping-status patch: the shipping status, and the tracking
      number only when one was typed (an empty one is not written). */
  function ShippingPatch(newStatus: string, tracking: string): Order -> Order {
    (o: Order) => if tracking != "" then o.(shippingStatus := newStatus, trackingNumber := Some(tracking))
                  else o.(shippingStatus := newStatus)
  }

  /** The shipping patch changes the shipping status, writes the tracking
      number exactly when one was typed and leaves everything else. */
  lemma ShippingPatchFields(o: Order, newStatus: string, tracking: string)
    ensures var p := ShippingPatch(newStatus, tracking)(o);
      && p.shippingStatus == newStatus
      && p.trackingNumber == (if tracking != "" then Some(tracking) else o.trackingNumber)
      && p.(shippingStatus := o.shippingStatus, trackingNumber := o.trackingNumber) == o
  {
  }

  /** A listed order: the store's document id next to the data the page
      works with. */
  datatype Listed = Listed(docId: string, data: Order)

  /** The listing as the store service builds it, `{ id: doc.id,
      ...doc.data() }`: the data's own `id` field, which checkout always
      writes (the generated order id), wins over the document id. */
  function ListedId(l: Listed): string {
    l.data.id
  }

  /** `handleUpdatePaymentStatus(selectedOrder.id, …)` as written: the
      update addresses the document named by the listed `id`. */
  function UpdatePaymentAsWritten(store: Store, l: Listed, newStatus: string): (r: Option<Store>)
    ensures r.None? <==> ListedId(l) !in store
    ensures r.Some? ==> (r.value.Keys == store.Keys
      && r.value[ListedId(l)] == store[ListedId(l)].(paymentStatus := newStatus))
    ensures r.Some? ==> forall d :: d in store && d != ListedId(l) ==> r.value[d] == store[d]
  {
    Update(store, ListedId(l), PaymentPatch(newStatus))
  }

  /** The same for the shipping status. */
  function UpdateShippingAsWritten(store: Store, l: Listed, newStatus: string, tracking: string): (r: Option<Store>)
    ensures r.None? <==> ListedId(l) !in store
    ensures r.Some? ==> (r.value.Keys == store.Keys
      && r.value[ListedId(l)].shippingStatus == newStatus
      && r.value[ListedId(l)].paymentStatus == store[ListedId(l)].paymentStatus)
    ensures r.Some? ==> forall d :: d in store && d != ListedId(l) ==> r.value[d] == store[d]
  {
    if ListedId(l) in store then
      ShippingPatchFields(store[ListedId(l)], newStatus, tracking);
      Update(store, ListedId(l), ShippingPatch(newStatus, tracking))
    else Update(store, ListedId(l), ShippingPatch(newStatus, tracking))
  }

  /** The updates as intended: addressed by the document id. */
  function UpdatePayment(store: Store, l: Listed, newStatus: string): (r: Option<Store>)
    requires l.docId in store
    ensures r.Some? && r.value.Keys == store.Keys
    ensures r.value[l.docId] == store[l.docId].(paymentStatus := newStatus)
    ensures forall d :: d in store && d != l.docId ==> r.value[d] == store[d]
  {
    Update(store, l.docId, PaymentPatch(newStatus))
  }

  function UpdateShipping(store: Store, l: Listed, newStatus: string, tracking: string): (r: Option<Store>)
    requires l.docId in store
    ensures r.Some? && r.value.Keys == store.Keys
    ensures r.value[l.docId].shippingStatus == newStatus
    ensures r.value[l.docId].paymentStatus == store[l.docId].paymentStatus
    ensures forall d :: d in store && d != l.docId ==> r.value[d] == store[d]
  {
    ShippingPatchFields(store[l.docId], newStatus, tracking);
    Update(store, l.docId, ShippingPatch(newStatus, tracking))
  }

  /** An order placed at checkout is stored under a fresh document id that
      differs from its generated order id. As written, both admin updates
      of that order then fail, and the order can never be marked paid or
      shipped; addressed by the document id they succeed. */
  lemma CheckoutOrderCannotBeUpdated(store: Store, freshId: string, o: Order, newStatus: string, tracking: string)
    requires freshId !in store && o.id !in store && o.id != freshId
    ensures var s := Create(store, freshId, o);
      var l := Listed(freshId, o);
      && UpdatePaymentAsWritten(s, l, newStatus) == None
      && UpdateShippingAsWritten(s, l, newStatus, tracking) == None
      && UpdatePayment(s, l, newStatus).value[freshId].paymentStatus == newStatus
      && UpdateShipping(s, l, newStatus, tracking).value[freshId].shippingStatus == newStatus
  {
  }

  /** A concrete case: one order, order id `FB-1-AB`, stored under the
      document id `d1`. */
  lemma UpdateByOrderIdFailsExample(o: Order)
    requires o.id == "FB-1-AB"
    ensures UpdatePaymentAsWritten(map["d1" := o], Listed("d1", o), "paid") == None
    ensures UpdatePayment(map["d1" := o], Listed("d1", o), "paid") == Some(map["d1" := o.(paymentStatus := "paid")])
  {
    var paid := o.(paymentStatus := "paid");
    assert "d1" != o.id;
    assert map["d1" := o]["d1" := paid] == map["d1" := paid];
  }
}
