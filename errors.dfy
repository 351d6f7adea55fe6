/**
 * The application's error hierarchy (`AppError` and its subclasses) as one
 * datatype, and everything else that a handler may throw.
 */
module Errors {
  import opened Wrappers

  /** One entry of a validation failure: which field, and what is wrong with it. */
  datatype FieldError = FieldError(field: string, message: string)

  /** Which subclass of `AppError` an error was built by. */
  datatype ErrorClass =
    | Base
    | Validation(errors: seq<FieldError>)
    | Unauthorized
    | Forbidden
    | NotFound
    | Conflict
    | InternalServer
    | BadRequest

  datatype AppError = AppError(cls: ErrorClass, statusCode: int, message: string, isOperational: bool)

  /** The HTTP status each subclass fixes. */
  function StatusOf(cls: ErrorClass): int
    requires !cls.Base?
  {
    match cls
    case Validation(_) => 400
    case Unauthorized => 401
    case Forbidden => 403
    case NotFound => 404
    case Conflict => 409
    case InternalServer => 500
    case BadRequest => 400
  }

  /** What every subclass constructor guarantees: its own status, and operational unless internal. */
  predicate WellFormed(e: AppError) {
    !e.cls.Base? && e.statusCode == StatusOf(e.cls) && (e.isOperational <==> !e.cls.InternalServer?)
  }

  /** `new AppError(statusCode, message, isOperational = true)`. */
  function NewAppError(statusCode: int, message: string, isOperational: Option<bool>): (e: AppError)
    ensures e.cls.Base? && e.statusCode == statusCode && e.message == message
    ensures e.isOperational == isOperational.GetOr(true)
  {
    AppError(Base, statusCode, message, isOperational.GetOr(true))
  }

  function ValidationError(message: string, errors: seq<FieldError>): (e: AppError)
    ensures WellFormed(e) && e.statusCode == 400 && e.isOperational
    ensures e.message == message && e.cls.Validation? && e.cls.errors == errors
  {
    AppError(Validation(errors), 400, message, true)
  }

  const DefaultUnauthorizedMessage := "Unauthorized"
  const DefaultForbiddenMessage := "Akses ditolak"
  const DefaultInternalMessage := "Terjadi kesalahan pada server"

  function UnauthorizedError(message: Option<string>): (e: AppError)
    ensures WellFormed(e) && e.cls == Unauthorized && e.statusCode == 401
    ensures e.message == (if message.Some? then message.value else "Unauthorized")
  {
    AppError(Unauthorized, 401, message.GetOr(DefaultUnauthorizedMessage), true)
  }

  function ForbiddenError(message: Option<string>): (e: AppError)
    ensures WellFormed(e) && e.cls == Forbidden && e.statusCode == 403
    ensures e.message == (if message.Some? then message.value else "Akses ditolak")
  {
    AppError(Forbidden, 403, message.GetOr(DefaultForbiddenMessage), true)
  }

  /** `new NotFoundError(resource)`: the message names the resource. */
  function NotFoundError(resource: string): (e: AppError)
    ensures WellFormed(e) && e.cls == NotFound && e.statusCode == 404 && e.isOperational
    ensures e.message == resource + " tidak ditemukan"
  {
    AppError(NotFound, 404, resource + " tidak ditemukan", true)
  }

  function ConflictError(message: string): (e: AppError)
    ensures WellFormed(e) && e.cls == Conflict && e.statusCode == 409 && e.message == message
  {
    AppError(Conflict, 409, message, true)
  }

  /** The one subclass that marks its errors as not operational. */
  function InternalServerError(message: Option<string>): (e: AppError)
    ensures WellFormed(e) && e.cls == InternalServer && e.statusCode == 500 && !e.isOperational
    ensures e.message == (if message.Some? then message.value else "Terjadi kesalahan pada server")
  {
    AppError(InternalServer, 500, message.GetOr(DefaultInternalMessage), false)
  }

  function BadRequestError(message: string): (e: AppError)
    ensures WellFormed(e) && e.cls == BadRequest && e.statusCode == 400 && e.message == message
  {
    AppError(BadRequest, 400, message, true)
  }

  /** `NotFoundError` keeps the resource name recoverable from the message. */
  lemma NotFoundMessageInjective(r1: string, r2: string)
    requires NotFoundError(r1).message == NotFoundError(r2).message
    ensures r1 == r2
  {
    var suffix := " tidak ditemukan";
    assert r1 == (r1 + suffix)[..|r1|];
    assert r2 == (r2 + suffix)[..|r2|];
  }

  /**
   * Anything a handler can throw: an application error, one of the two
   * database-client error classes the error handler recognises, another
   * `Error` (with its message), or a thrown value that is not an `Error`.
   */
  datatype Thrown =
    | App(error: AppError)
    | PrismaKnownRequest(code: string, target: Option<seq<string>>, knownMessage: string)
    | PrismaValidation(prismaMessage: string)
    | PlainError(plainMessage: string)
    | NonError

  /** `error.message` where the thrown value is an `Error`. */
  function MessageOf(t: Thrown): (m: Option<string>)
    ensures m.None? <==> t.NonError?
  {
    match t
    case App(e) => Some(e.message)
    case PrismaKnownRequest(_, _, msg) => Some(msg)
    case PrismaValidation(msg) => Some(msg)
    case PlainError(msg) => Some(msg)
    case NonError => None
  }
}
