/** Values that may be missing, results that may fail, and the errors of the identity service. */
module Results {

  datatype Option<+T> = None | Some(value: T)

  datatype Result<+T, +E> = Success(value: T) | Failure(error: E) {
    predicate IsFailure() { Failure? }

    function PropagateFailure<U>(): Result<U, E>
      requires Failure?
    {
      Failure(error)
    }

    function Extract(): T
      requires Success?
    {
      value
    }
  }

  datatype Outcome<+E> = Pass | Fail(error: E) {
    predicate IsFailure() { Fail? }

    function PropagateFailure(): Outcome<E>
      requires Fail?
    {
      this
    }
  }

  function Need<E>(condition: bool, error: E): Outcome<E> {
    if condition then Pass else Fail(error)
  }

  /** The error kinds a request can end in; `param` names the offending parameter. */
  datatype Error =
    | RequiredParameter(param: string)
    | InvalidParameterValue(param: string)
    | InvalidElement(param: string, index: nat)
    | LengthOverflow(param: string)
    | ConflictParameterValue(param: string)
    | FormatMismatch(param: string)
    | UnavailableParameterValue(param: string)
    | UnchangeableParameter(param: string)
    | OutOfRange(param: string)
    | InvalidRequest
    | UnauthenticatedRequest
    | UnauthorizedRequest
    | UnusableDatabase
    | Unknown
    | NilDereference
    | NotFoundUser
    | NotFoundTenant
    | NotFoundGroup
    | UndeletableUser
    | UndeletableGroup
    | AlreadyDeletedGroup
    | UnassignableRole
    | CurrentPasswordMismatch
    | NotReusableOldPassword
    | AlreadyLogin
    | LoginRestricted
    | IncorrectPassword
    | UnknownSession
    | ExpiredSession
    | UnverifiedSession
    | InvalidSession
    | NotFoundTenantConfig
    | InvalidTenantConfig
    | NoSolutionRole
}
