/**
 * The last two middlewares of the application: the handler that turns
 * whatever a route threw into a status and an error envelope, and the
 * handler for routes that do not exist. Whether `NODE_ENV` is `production`,
 * the request path and the response time stamp are parameters; the console
 * logging is left out.
 */
module ErrorMiddleware {
  import opened Wrappers
  import opened Errors
  import opened Response
  import Store

  const DatabaseError := "Database error"
  const InvalidData := "Data tidak valid"
  const UnknownField := FieldError("unknown", "Format data tidak sesuai")
  const StillReferenced := "Data terkait dengan data lain dan tidak dapat dihapus"

  /**
   * `${field ? field[0] : 'field'}`: the first column of the P2002 target,
   * `field` when there is no target, and `undefined` (the text JavaScript
   * renders for a missing element) when the target is empty.
   */
  function FieldName(target: Option<seq<string>>): (name: string)
    ensures target.None? ==> name == "field"
    ensures target.Some? && target.value != [] ==> name == target.value[0]
  {
    if target.None? then "field"
    else if target.value == [] then "undefined"
    else target.value[0]
  }

  /**
   * `handlePrismaError`: a duplicate and a still-referenced row are 409s, a
   * missing row a 404, a malformed query a 400 with one `unknown` field, and
   * every other database error a 500.
   */
  function HandlePrismaError(t: Thrown): (e: AppError)
    ensures WellFormed(e)
    ensures t.PrismaKnownRequest? && t.code == "P2002" ==> e == ConflictError(FieldName(t.target) + " sudah terdaftar")
    ensures t.PrismaKnownRequest? && t.code == "P2025" ==> e == NotFoundError("Data")
    ensures t.PrismaKnownRequest? && t.code == "P2003" ==> e == ConflictError(StillReferenced)
    ensures t.PrismaValidation? ==> e == ValidationError(InvalidData, [UnknownField])
    ensures !t.PrismaValidation? && !(t.PrismaKnownRequest? && t.code in {"P2002", "P2025", "P2003"}) ==>
      e == InternalServerError(Some(DatabaseError))
  {
    if t.PrismaKnownRequest? && t.code == "P2002" then ConflictError(FieldName(t.target) + " sudah terdaftar")
    else if t.PrismaKnownRequest? && t.code == "P2025" then NotFoundError("Data")
    else if t.PrismaKnownRequest? && t.code == "P2003" then ConflictError(StillReferenced)
    else if t.PrismaValidation? then ValidationError(InvalidData, [UnknownField])
    else InternalServerError(Some(DatabaseError))
  }

  /**
   * The error `errorHandler` answers with: an application error as it is,
   * a database error through `handlePrismaError`, anything else as a 500
   * whose message is the thrown message outside production and the generic
   * one in production (or when there is no message).
   */
  function Resolve(err: Thrown, production: bool): (e: AppError)
    ensures err.App? ==> e == err.error
    ensures err.PrismaKnownRequest? || err.PrismaValidation? ==> e == HandlePrismaError(err)
    ensures err.PlainError? || err.NonError? ==>
      e == InternalServerError(if production then None else MessageOf(err))
  {
    match err
    case App(error) => error
    case PrismaKnownRequest(_, _, _) => HandlePrismaError(err)
    case PrismaValidation(_) => HandlePrismaError(err)
    case _ => InternalServerError(if production then Some(DefaultInternalMessage) else MessageOf(err))
  }

  /** The validation entries of an error: present only on a `ValidationError`. */
  function ErrorsOf(e: AppError): (errors: Option<seq<FieldError>>)
    ensures errors.Some? <==> e.cls.Validation?
    ensures errors.Some? ==> errors.value == e.cls.errors
  {
    if e.cls.Validation? then Some(e.cls.errors) else None
  }

  /**
   * `errorHandler`: the status and the JSON body it sends. The body is an
   * error envelope carrying the resolved error's message and the request
   * path, with the field errors of a validation failure and of nothing else.
   */
  function ErrorHandler(err: Thrown, path: string, production: bool, timestamp: string): (r: (int, ApiResponse<()>))
    ensures r.0 == Resolve(err, production).statusCode
    ensures !r.1.success && r.1.data.None? && r.1.path == Some(path) && r.1.timestamp == timestamp
    ensures r.1.message == Resolve(err, production).message
    ensures r.1.errors.Some? <==> Resolve(err, production).cls.Validation?
  {
    var error := Resolve(err, production);
    var response := ErrorResponse(error.message, ErrorsOf(error), Some(path), timestamp);
    (error.statusCode, response)
  }

  /** `notFoundHandler`: every unknown route is a 404 naming the method and the path. */
  function NotFoundHandler(verb: string, path: string): (e: AppError)
    ensures WellFormed(e) && e.statusCode == 404
    ensures e.message == "Route " + verb + " " + path + " tidak ditemukan"
  {
    NotFoundError("Route " + verb + " " + path)
  }

  /** The statuses a client can see, whenever every application error thrown was built by a subclass. */
  lemma StatusesSeen(err: Thrown, path: string, production: bool, timestamp: string)
    requires err.App? ==> WellFormed(err.error)
    ensures ErrorHandler(err, path, production, timestamp).0 in {400, 401, 403, 404, 409, 500}
    ensures ErrorHandler(err, path, production, timestamp).0 == 500 <==> !Resolve(err, production).isOperational
  {
    var e := Resolve(err, production);
    assert WellFormed(e);
  }

  /** Each constraint failure of the store reaches the client as its own status and message. */
  lemma StoreErrorsAnswered(column: string, path: string, production: bool, timestamp: string)
    ensures var r := ErrorHandler(Store.UniqueViolation(column), path, production, timestamp);
      r.0 == 409 && r.1.message == column + " sudah terdaftar" && r.1.errors.None?
    ensures var r := ErrorHandler(Store.RecordNotFound(), path, production, timestamp);
      r.0 == 404 && r.1.message == "Data tidak ditemukan"
    ensures var r := ErrorHandler(Store.ForeignKeyViolation(column), path, production, timestamp);
      r.0 == 409 && r.1.message == StillReferenced
  {
  }

  /** In production the client never sees the message of an unexpected error. */
  lemma ProductionHidesMessages(message: string, path: string, timestamp: string)
    ensures var r := ErrorHandler(PlainError(message), path, true, timestamp);
      r.0 == 500 && r.1.message == DefaultInternalMessage
    ensures var r := ErrorHandler(PlainError(message), path, false, timestamp);
      r.0 == 500 && r.1.message == message
  {
  }

  /** A thrown value that is not an `Error` has no message, so the generic one is used even outside production. */
  lemma NonErrorAnswered(path: string, production: bool, timestamp: string)
    ensures var r := ErrorHandler(NonError, path, production, timestamp);
      r.0 == 500 && r.1.message == DefaultInternalMessage
  {
  }

  /** A malformed query is a 400 that names one `unknown` field. */
  lemma QueryValidationAnswered(message: string, path: string, production: bool, timestamp: string)
    ensures var r := ErrorHandler(PrismaValidation(message), path, production, timestamp);
      r.0 == 400 && r.1.message == InvalidData && r.1.errors == Some([UnknownField])
  {
  }

  /** An unknown route, passed on to `errorHandler`, answers 404 with its own description. */
  lemma UnknownRouteAnswered(verb: string, path: string, production: bool, timestamp: string)
    ensures var r := ErrorHandler(App(NotFoundHandler(verb, path)), path, production, timestamp);
      r.0 == 404 && r.1.message == "Route " + verb + " " + path + " tidak ditemukan" && r.1.errors.None?
  {
  }

  /** An empty P2002 target reaches the client as the literal text `undefined`. */
  lemma EmptyTargetMessage(message: string)
    ensures HandlePrismaError(PrismaKnownRequest("P2002", Some([]), message)).message == "undefined sudah terdaftar"
  {
  }
}
