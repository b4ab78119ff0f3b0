/**
 * The platform's error kinds (`PlatformError` and `SchemaValidationError`)
 * and the failure-compatible result types every operation returns instead of
 * throwing.
 */
module Errors {

  /** One entry of a `SchemaValidationError`: a message about one parameter. */
  datatype ParamError = ParamError(message: string, param: string)

  datatype Error =
    | ResourceNotFound(resource: string)
    | ResourceExists(resource: string)
    | NotAllowedAccess
    | InvalidCredentials
    | SchemaValidation(params: seq<ParamError>)
    | NeedSignin
    | AccountNotFound
      /** `Jwt.verify` rejected a token (bad signature, malformed, expired). */
    | InvalidToken
      /** The authentication middleware's rejection (that middleware is not part of this model). */
    | Unauthenticated
      /** Prisma's error for an `update` whose `where` matches no row. */
    | RecordNotFound

  /** Resource names carried by `ResourceNotFound` / `ResourceExists`. */
  const OrganizationResource: string := "Organization"
  const RoleResource: string := "Role"
  const UserResource: string := "User"
  const StaffResource: string := "Staff"
  const BlogResource: string := "Blog"
  const EmailResource: string := "Email address"

  datatype Result<+T> = Success(value: T) | Failure(error: Error) {

    predicate IsFailure() { Failure? }

    function PropagateFailure<U>(): Result<U>
      requires Failure?
    {
      Failure(error)
    }

    function Extract(): T
      requires Success?
    {
      value
    }
  }

  /** A check that either lets the request through or rejects it. */
  datatype Outcome = Pass | Fail(error: Error)
}
