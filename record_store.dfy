/** The record store that all three entity modules follow: a JSON document is one
    object keyed by record id, read whole, changed in memory and written back whole. */
module RecordStore {

  datatype Option<T> = None | Some(value: T)

  /** The decoded contents of one document: record id to record fields. */
  type Store<R> = map<string, R>

  /** Reading a document: one that does not exist reads as the empty mapping. */
  function Load<R>(f: Option<Store<R>>): (r: Store<R>)
  {
    match f
    case None => map[]
    case Some(m) => m
  }

  /** `store[id] = record`: insert a new entry or overwrite the old one. */
  function Put<R>(m: Store<R>, id: string, rec: R): (r: Store<R>)
    ensures r.Keys == m.Keys + {id}
    ensures r[id] == rec
    ensures forall k :: k in m && k != id ==> r[k] == m[k]
  {
    m[id := rec]
  }

  /** Whether `delete(id)` removes an entry (and so writes the document). */
  predicate Removes<R>(f: Option<Store<R>>, id: string)
  {
    f.Some? && id in f.value
  }

  /** The document after `delete(id)`: a missing document stays missing, an id that
      is not there leaves the document as it was, otherwise exactly that entry goes. */
  function Remove<R>(f: Option<Store<R>>, id: string): (r: Option<Store<R>>)
    ensures r.Some? <==> f.Some?
    ensures !Removes(f, id) ==> r == f
    ensures r.Some? ==> r.value.Keys == f.value.Keys - {id}
    ensures r.Some? ==> forall k :: k in r.value ==> r.value[k] == f.value[k]
  {
    match f
    case None => None
    case Some(m) => if id in m then Some(m - {id}) else f
  }

  /** Saving the same record twice gives the same store as saving it once. */
  lemma PutIdempotent<R>(m: Store<R>, id: string, rec: R)
    ensures Put(Put(m, id, rec), id, rec) == Put(m, id, rec)
  {
  }

  /** Deleting an entry that was just inserted under a fresh id gives back the
      store as it was before the insertion. */
  lemma PutThenRemove<R>(m: Store<R>, id: string, rec: R)
    requires id !in m
    ensures Remove(Some(Put(m, id, rec)), id) == Some(m)
  {
    assert Put(m, id, rec) - {id} == m;
  }
}
