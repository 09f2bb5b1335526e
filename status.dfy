/** The status values the runner passes around: absl's canonical codes, a
    Status (code and message), an errors-only subset of it, and StatusOr,
    which holds either a value or a non-OK status. */
module Status {

  /** absl's canonical status codes, in their numeric order (0 .. 16). */
  datatype StatusCode =
    | Ok | Cancelled | Unknown | InvalidArgument | DeadlineExceeded
    | NotFound | AlreadyExists | PermissionDenied | ResourceExhausted
    | FailedPrecondition | Aborted | OutOfRange | Unimplemented | Internal
    | Unavailable | DataLoss | Unauthenticated

  datatype Status = Status(code: StatusCode, message: string) {
    predicate IsOk() { code == Ok }
  }

  /** A status that reports a failure; what a StatusOr carries instead of a value. */
  type ErrorStatus = s: Status | !s.IsOk() witness Status(Unknown, "")

  function OkStatus(): Status { Status(Ok, "") }

  function InvalidArgumentError(message: string): ErrorStatus { Status(InvalidArgument, message) }

  function UnknownError(message: string): ErrorStatus { Status(Unknown, message) }

  /** absl::StatusOr: a value, or the non-OK status that explains its absence. */
  datatype StatusOr<T> = Value(value: T) | Error(error: ErrorStatus) {
    predicate IsOk() { Value? }
  }

  datatype Option<T> = None | Some(value: T)
}
