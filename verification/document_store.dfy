/** The keyed document collection the repository writes to, reduced to a
    map from key to document. Each primitive takes the failure oracle's
    verdict for that one call: `Some(reason)` makes the call fail with an
    error other than not-found and leave the collection as it was. */
module DocumentStore {
  import opened Results

  /** The two kinds of failure the repository tells apart: the document is
      missing, or the store could not serve the call. */
  datatype StoreError = DocumentNotFound | Unavailable(reason: string)

  datatype Reply<D> = Reply(docs: map<string, D>, outcome: Outcome<StoreError>)

  function Get<D>(docs: map<string, D>, key: string, fault: Option<string>): Result<D, StoreError> {
    match fault
    case Some(reason) => Err(Unavailable(reason))
    case None => if key in docs then Ok(docs[key]) else Err(DocumentNotFound)
  }

  /** Insert or overwrite the document stored under `key`. */
  function Upsert<D>(docs: map<string, D>, key: string, doc: D, fault: Option<string>): Reply<D> {
    match fault
    case Some(reason) => Reply(docs, Fail(Unavailable(reason)))
    case None => Reply(docs[key := doc], Pass)
  }

  /** Delete the document stored under `key`; a missing key is reported. */
  function Remove<D>(docs: map<string, D>, key: string, fault: Option<string>): Reply<D> {
    match fault
    case Some(reason) => Reply(docs, Fail(Unavailable(reason)))
    case None => if key in docs then Reply(docs - {key}, Pass) else Reply(docs, Fail(DocumentNotFound))
  }
}
