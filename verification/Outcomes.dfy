/** Optional values, results that may be failures, and the error codes the
    collector's failures carry. */
module Outcomes {
  datatype Option<+T> = None | Some(value: T)

  datatype Result<+T, +E> = Success(value: T) | Failure(error: E) {
    predicate IsFailure() { Failure? }

    function PropagateFailure<U>(): Result<U, E>
      requires Failure?
    {
      Failure(error)
    }

    function Extract(): T
      requires Success?
    {
      value
    }
  }

  datatype ErrorCode =
    | EXISTING_OUTPUT | STORAGE_IO
    | RECORD_INVALID | RECORD_IO
    | SOURCE_EXISTS | SOURCE_IO | SOURCE_OVER_BOUND
    | ATTEMPT_DIR_EXISTS | ATTEMPT_DIR_IO
    | SESSION_IO | SESSION_FILE_COUNT | SESSION_OVER_BOUND
    | ATTEMPT_START_FAILED | ATTEMPT_UNREPRESENTABLE

  /** What a hook throws: an error with one of the collector's codes, or any
      other value. */
  datatype Thrown = Coded(code: ErrorCode) | Uncoded
}
