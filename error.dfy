/** The engine's error kinds, their messages, and the outcome of an operation that may fail or panic. */
module Errors {

  datatype Error = InvalidSpace | InvalidMove | HistoryFull

  /** `Display for Error`. */
  function Message(e: Error): (s: string)
    ensures s == "invalid space" <==> e == InvalidSpace
    ensures s == "invalid move" <==> e == InvalidMove
    ensures s == "game history full" <==> e == HistoryFull
  {
    match e
    case InvalidSpace => "invalid space"
    case InvalidMove => "invalid move"
    case HistoryFull => "game history full"
  }

  /** Different error kinds never share a message. */
  lemma MessageInjective(a: Error, b: Error)
    requires Message(a) == Message(b)
    ensures a == b
  {
  }

  /** `Result<T, Error>`. */
  datatype Result<+T> = Ok(value: T) | Err(error: Error)

  /**
   * The outcome of an engine operation returning `Result<(), Error>`, plus the
   * outcome the Rust code reaches by indexing past the end of an array: a panic.
   */
  datatype Status = Success | Failure(error: Error) | Panic
}
