/** One collection of the hosted document store: a map from document id
    to the stored data, with the writes the pages use. */
module DocStore {
  import opened Wrappers

  type Collection<D> = map<string, D>

  /** `updateDocument`: the patch applied to the document, or `None` (the
      call throws) when no document has the id. */
  function Update<D>(store: Collection<D>, docId: string, patch: D -> D): (r: Option<Collection<D>>)
    ensures r.None? <==> docId !in store
    ensures r.Some? ==> r.value.Keys == store.Keys && r.value[docId] == patch(store[docId])
    ensures r.Some? ==> forall d :: d in store && d != docId ==> r.value[d] == store[d]
  {
    if docId in store then Some(store[docId := patch(store[docId])]) else None
  }

  /** `createDocument`: the store picks a fresh document id. */
  function Create<D>(store: Collection<D>, freshId: string, data: D): (r: Collection<D>)
    requires freshId !in store
    ensures r.Keys == store.Keys + {freshId} && r[freshId] == data
    ensures forall d :: d in store ==> r[d] == store[d]
  {
    store[freshId := data]
  }

  /** `deleteDocument`: removing a document that is not there is not an
      error. */
  function Delete<D>(store: Collection<D>, docId: string): (r: Collection<D>)
    ensures r.Keys == store.Keys - {docId}
    ensures forall d :: d in r ==> r[d] == store[d]
  {
    store - {docId}
  }

  /** The admin pages' `handleDelete`: after the browser's confirmation the
      document is deleted; without it nothing happens. */
  function ConfirmedDelete<D>(store: Collection<D>, docId: string, confirmed: bool): (r: Collection<D>)
    ensures confirmed ==> docId !in r && r.Keys == store.Keys - {docId}
    ensures !confirmed ==> r == store
    ensures forall d :: d in r ==> d in store && r[d] == store[d]
  {
    if confirmed then Delete(store, docId) else store
  }
}
