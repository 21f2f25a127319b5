/** How a settled network call looks to the pages: a success, or a rejection
    carrying whatever value was thrown. */
module Outcomes {

  datatype Option<+T> = None | Some(value: T)

  /** The three shapes a caught `err: unknown` is told apart by:
      an axios error (whose `err.response?.data?.message` may be absent),
      an `Error` instance (with its `message`), or any other thrown value. */
  datatype Failure =
    | AxiosError(responseMessage: Option<string>)
    | ErrorInstance(message: string)
    | OtherValue

  /** The result of an awaited call whose value the page does not inspect. */
  datatype Outcome = Succeeded | Failed(failure: Failure)

  /** The message a failure carries, if any. */
  function Carried(f: Failure): Option<string>
  {
    match f
    case AxiosError(m) => m
    case ErrorInstance(m) => Some(m)
    case OtherValue => None
  }

  /** The nested conditional the pages use to pick the text shown for a
      failure: `isAxiosError(err) ? msg ?? fallback : err instanceof Error ?
      err.message : fallback`. `??` falls back only on a missing value, so a
      carried empty message is shown as it is. */
  function Message(f: Failure, fallback: string): (m: string)
    ensures Carried(f).Some? ==> m == Carried(f).value
    ensures Carried(f).None? ==> m == fallback
  {
    if f.AxiosError? then
      (if f.responseMessage.Some? then f.responseMessage.value else fallback)
    else if f.ErrorInstance? then
      f.message
    else
      fallback
  }
}
