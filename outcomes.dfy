/** Outcomes of the registry and orchestrator operations.
    The package's exception classes become the kinds of `Error`; an operation
    that raises returns `Err(kind)` instead. Message texts are not modelled. */
module Outcomes {

  /** The three exception classes the core raises. Hitting the capacity
      ceiling reuses `AlreadyRegistered`, as the registry does. */
  datatype Error =
    | AlreadyRegistered   // AgentAlreadyRegisteredError
    | NotFound            // AgentNotFoundError
    | InvalidTask         // InvalidTaskError

  /** A value, or the kind of error raised instead of returning it. */
  datatype Result<T> = Ok(value: T) | Err(error: Error)

  /** Python's `Optional`: `None` or a value. */
  datatype Option<T> = None | Some(value: T)
}
