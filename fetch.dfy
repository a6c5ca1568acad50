/**
 * How the browser components see a `fetch` inside `try`/`catch`: the
 * request either yields a decoded body, or answers with a non-success status
 * (which the components turn into a thrown `Error` with their own message),
 * or throws by itself.
 */
module Fetch {
  import opened Wrappers

  const UnknownError: string := "An unknown error occurred"

  /**
   * `Threw(Some(m))` is a thrown `Error` with message `m`; `Threw(None)` is
   * a thrown value that is not an `Error`.
   */
  datatype FetchOutcome<T> = Fetched(value: T) | NotOk | Threw(message: Option<string>)

  /** The text a `catch` block shows: `err instanceof Error ? err.message : fallback`. */
  function CaughtMessage<T>(outcome: FetchOutcome<T>, notOkMessage: string, fallback: string): string
    requires !outcome.Fetched?
  {
    match outcome
    case NotOk => notOkMessage
    case Threw(m) => if m.Some? then m.value else fallback
  }
}
