/**
 * Application errors and the central error handler
 * (src/middlewares/error.middleware.ts).
 */
module Errors {
  import opened Wrappers
  import opened Config

  /**
   * `ApiError`: an HTTP status, a message and an optional list of details.
   * The record keeps exactly the values it was built with.
   */
  datatype ApiError = ApiError(statusCode: int, message: string, errors: Option<seq<string>>)

  /** The `code` property of a thrown value that is not an `ApiError`. */
  datatype ErrorCode = NoCode | StringCode(code: string) | NonStringCode

  /** Any other thrown `Error`: a database-client error, a mail failure, ... */
  datatype OtherError = OtherError(code: ErrorCode, message: string, stack: Option<string>)

  /** What a service call or handler can throw. */
  datatype Thrown = ThrownApi(api: ApiError) | ThrownOther(other: OtherError)

  /** The envelope's `status` field: "success", "error" or "pending". */
  datatype Status = Success | Failed | Pending

  /** How a handler's result appears in the envelope: spread into it, or under `data`. */
  datatype Extra<D> = NoExtra | Merged(value: D) | DataField(value: D)

  /** The JSON envelope `{ status, message?, errors?, details?, stack?, ...extra }`. */
  datatype Body<D> = Body(status: Status, message: Option<string>, errors: Option<seq<string>>,
                          details: Option<string>, stack: Option<string>, extra: Extra<D>)

  datatype Response<D> = Response(statusCode: int, body: Body<D>)

  function Message<D>(status: Status, message: string): Body<D>
  {
    Body(status, Some(message), None, None, None, NoExtra)
  }

  /** The error handler either hands the error on (`next(err)`) or writes one response. */
  datatype Handled<D> = PassToNext(err: Thrown) | Respond(response: Response<D>)

  const UniqueViolation := "P2002"
  const DuplicateMessage := "A record with this value already exists"
  const DatabaseFailedMessage := "Database operation failed"
  const InternalMessage := "Internal server error"

  /** `errorHandler`: the decision tree from a thrown value to what is written. */
  function ErrorHandler<D>(err: Thrown, headersSent: bool, env: Env): (h: Handled<D>)
    ensures h.PassToNext? <==> headersSent
    ensures h.PassToNext? ==> h.err == err
    ensures h.Respond? ==> h.response.body.status == Failed && h.response.body.extra == NoExtra
    ensures h.Respond? && err.ThrownApi? ==>
      h.response == Response(err.api.statusCode, Body(Failed, Some(err.api.message), err.api.errors, None, None, NoExtra))
    ensures h.Respond? && err.ThrownOther? && err.other.code.StringCode? ==>
      h.response == Response(if err.other.code.code == UniqueViolation then 400 else 500,
                             Message(Failed, if err.other.code.code == UniqueViolation then DuplicateMessage else DatabaseFailedMessage))
    ensures h.Respond? && err.ThrownOther? && !err.other.code.StringCode? ==>
      && h.response.statusCode == 500
      && h.response.body.message == Some(InternalMessage)
      && h.response.body.errors == None
      && (h.response.body.details.Some? <==> IsDevelopment(env))
      && (IsDevelopment(env) ==> h.response.body.details == Some(err.other.message)
                                 && h.response.body.stack == err.other.stack)
  {
    if headersSent then PassToNext(err)
    else match err
      case ThrownApi(e) =>
        Respond(Response(e.statusCode, Body(Failed, Some(e.message), e.errors, None, None, NoExtra)))
      case ThrownOther(o) =>
        match o.code
        case StringCode(code) =>
          if code == UniqueViolation then Respond(Response(400, Message(Failed, DuplicateMessage)))
          else Respond(Response(500, Message(Failed, DatabaseFailedMessage)))
        case _ =>
          if IsDevelopment(env) then
            Respond(Response(500, Body(Failed, Some(InternalMessage), None, Some(o.message), o.stack, NoExtra)))
          else Respond(Response(500, Message(Failed, InternalMessage)))
  }

  /** Outside development mode no error text or stack trace reaches the client,
      except what an ApiError was built with. */
  lemma NoInternalsOutsideDevelopment<D>(err: Thrown, env: Env)
    requires !IsDevelopment(env)
    ensures var h := ErrorHandler<D>(err, false, env);
      h.response.body.details == None && h.response.body.stack == None
      && (err.ThrownOther? ==> h.response.body.message in {Some(DuplicateMessage), Some(DatabaseFailedMessage), Some(InternalMessage)})
  {
  }

  /** Only an ApiError can produce a status other than 400 or 500. */
  lemma StatusOfNonApiErrors<D>(err: Thrown, env: Env)
    requires err.ThrownOther?
    ensures ErrorHandler<D>(err, false, env).response.statusCode in {400, 500}
    ensures ErrorHandler<D>(err, false, env).response.statusCode == 400 <==> err.other.code == StringCode(UniqueViolation)
  {
  }
}
