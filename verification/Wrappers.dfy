/** Error-carrying results, as the source's `(value, error)` returns. */
module Wrappers {

  datatype Option<+T> = None | Some(value: T)

  /** A write to a remote store. One that reports failure may nevertheless be applied. */
  datatype Write = Done | Failed(applied: bool) {
    predicate Applied() { Done? || applied }
  }

  datatype Error =
    | OffsetOutOfRange          // storage.ErrOffsetOutOfRange
    | Malformed                 // a parser refused its input
    | NotFound                  // no such object
    | InvalidRange              // a byte range outside the object
    | Unavailable               // the object store or the metadata store failed the call
    | NoBatches                 // BuildSegment called with nothing to serialize
    | EmptyPayload              // BuildSegment met a batch without bytes
    | Panic                     // the source panics

  datatype Result<+T> = Ok(value: T) | Err(error: Error) {
    predicate IsFailure() { Err? }

    function PropagateFailure<U>(): Result<U>
      requires Err?
    {
      Err(error)
    }

    function Extract(): T
      requires Ok?
    {
      value
    }
  }
}
