/** Shared wrappers: optional values, the response envelope every repository
    returns, and the outcome of persisting pending changes. */
module Common {

  datatype Option<+T> = None | Some(value: T)

  /** The `ActionResponse<T>` envelope: a success carries the result, a
      failure carries a short coded message such as "ERR004". */
  datatype ActionResponse<+T> = Success(result: T) | Failure(message: string)

  /** What `SaveChangesAsync` did with the pending changes: it stored them, it
      threw a `DbUpdateException`, or it threw some other exception whose
      message is reported verbatim. The store is left as it was unless Saved. */
  datatype SaveOutcome = Saved | DbUpdateFailed | Faulted(message: string)

  const ERR001: string := "ERR001"  // record not found
  const ERR003: string := "ERR003"  // the store rejected the update
  const ERR004: string := "ERR004"  // unknown country
  const ERR005: string := "ERR005"  // record to update not found
  const ERR009: string := "ERR009"  // unknown tournament
  const ERR013: string := "ERR013"  // unknown group administrator
  const ERR014: string := "ERR014"  // group to update not found

  /** Message of the model's bounded join-code draw when every draw was taken. */
  const CodeExhausted: string := "CodeExhausted"

  /** The response a repository builds around `SaveChangesAsync`. */
  function SaveResponse<T>(outcome: SaveOutcome, entity: T): (r: ActionResponse<T>)
    ensures r.Success? <==> outcome.Saved?
    ensures r.Success? ==> r.result == entity
    ensures outcome.DbUpdateFailed? ==> r == Failure(ERR003)
    ensures outcome.Faulted? ==> r == Failure(outcome.message)
  {
    match outcome
    case Saved => Success(entity)
    case DbUpdateFailed => Failure(ERR003)
    case Faulted(m) => Failure(m)
  }
}
