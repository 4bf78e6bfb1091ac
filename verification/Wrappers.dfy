/** Results and optional values, in the sense of Rust's `io::Result` and `Option`. */
module Wrappers {

  datatype Option<+T> = None | Some(value: T)

  /** Every `io::Error` the modelled code can return, by cause. */
  datatype Error =
    | InvalidInput   // a malformed path, symlink target or missing temp file
    | Storage        // the filesystem refused an operation
    | Protocol       // the peer's answer is missing or stale
    | InvalidTicket  // a ticket that does not decode
    | Rejected       // an operation the membership ledger refuses

  /** Works with `:-`, as the source's results do with `?`. */
  datatype Result<+T> = Ok(value: T) | Err(error: Error) {
    predicate IsFailure() {
      Err?
    }

    function PropagateFailure<U>(): Result<U>
      requires Err?
    {
      Err(error)
    }

    function Extract(): T
      requires Ok?
    {
      value
    }
  }
}
