/** backend/src/utils/ApiResponse.ts: the helpers that shape every JSON reply the
    controllers send. `D` is the type of the data and of the error details. */
module ApiResponse {
  import opened Wrappers
  import opened Constants

  /** The JSON envelope; an absent key is `None`. */
  datatype Envelope<D> = Envelope(success: bool, message: string, data: Option<D>, errors: Option<D>)

  /** A reply: its status and its body, absent for 204. */
  datatype Reply<D> = Reply(status: int, body: Option<Envelope<D>>)

  /** `ApiResponse.success` */
  function Success<D>(data: D, message: string := "Success", statusCode: int := HttpOk): (r: Reply<D>)
    ensures r.status == statusCode
    ensures r.body == Some(Envelope(true, message, Some(data), None))
  {
    Reply(statusCode, Some(Envelope(true, message, Some(data), None)))
  }

  /** `ApiResponse.created`: a success with status 201. */
  function Created<D>(data: D, message: string := "Created successfully"): (r: Reply<D>)
    ensures r == Success(data, message, HttpCreated)
    ensures r.status == HttpCreated && r.body.Some? && r.body.value.success
  {
    Success(data, message, HttpCreated)
  }

  /** `ApiResponse.noContent` */
  function NoContent<D>(): (r: Reply<D>)
    ensures r.status == HttpNoContent && r.body.None?
  {
    Reply(HttpNoContent, None)
  }

  /** `ApiResponse.error`: `errors` is a key of the body exactly when it is given. */
  function Error<D>(statusCode: int, message: string, errors: Option<D> := None): (r: Reply<D>)
    ensures r.status == statusCode
    ensures r.body.Some? && !r.body.value.success && r.body.value.message == message
    ensures r.body.value.data.None?
    ensures r.body.value.errors == errors
  {
    Reply(statusCode, Some(Envelope(false, message, None, errors)))
  }

  function BadRequest<D>(message: string := "Bad Request", errors: Option<D> := None): (r: Reply<D>)
    ensures r == Error(HttpBadRequest, message, errors)
  {
    Error(HttpBadRequest, message, errors)
  }

  function Unauthorized<D>(message: string := "Unauthorized"): (r: Reply<D>)
    ensures r == Error(HttpUnauthorized, message, None)
  {
    Error(HttpUnauthorized, message)
  }

  function Forbidden<D>(message: string := "Forbidden"): (r: Reply<D>)
    ensures r == Error(HttpForbidden, message, None)
  {
    Error(HttpForbidden, message)
  }

  function NotFound<D>(message: string := "Not Found"): (r: Reply<D>)
    ensures r == Error(HttpNotFound, message, None)
  {
    Error(HttpNotFound, message)
  }

  function Conflict<D>(message: string := "Conflict"): (r: Reply<D>)
    ensures r == Error(HttpConflict, message, None)
  {
    Error(HttpConflict, message)
  }

  function Internal<D>(message: string := "Internal Server Error"): (r: Reply<D>)
    ensures r == Error(HttpInternalServerError, message, None)
  {
    Error(HttpInternalServerError, message)
  }

  // ---------------------------------------------------------------------------

  /** A body's `success` flag tells success replies from error replies, and only a success
      carries data. */
  predicate WellShaped<D>(r: Reply<D>) {
    r.body.Some? ==> (r.body.value.success <==> r.body.value.data.Some?)
                     && (r.body.value.success ==> r.body.value.errors.None?)
  }

  lemma EveryHelperWellShaped<D>(d: D, m: string, s: int, e: Option<D>)
    ensures WellShaped(Success(d, m, s)) && WellShaped(Created(d, m)) && WellShaped(NoContent<D>())
    ensures WellShaped(Error(s, m, e)) && WellShaped(BadRequest(m, e)) && WellShaped(Unauthorized<D>(m))
    ensures WellShaped(Forbidden<D>(m)) && WellShaped(NotFound<D>(m)) && WellShaped(Conflict<D>(m))
    ensures WellShaped(Internal<D>(m))
  {
  }

  /** The default messages and the status each helper announces. */
  lemma Defaults<D>(d: D)
    ensures Success(d).status == 200 && Success(d).body.value.message == "Success"
    ensures Created(d).status == 201 && Created(d).body.value.message == "Created successfully"
    ensures NoContent<D>().status == 204
    ensures BadRequest<D>().status == 400 && BadRequest<D>().body.value.message == "Bad Request"
    ensures Unauthorized<D>().status == 401 && Unauthorized<D>().body.value.message == "Unauthorized"
    ensures Forbidden<D>().status == 403 && Forbidden<D>().body.value.message == "Forbidden"
    ensures NotFound<D>().status == 404 && NotFound<D>().body.value.message == "Not Found"
    ensures Conflict<D>().status == 409 && Conflict<D>().body.value.message == "Conflict"
    ensures Internal<D>().status == 500 && Internal<D>().body.value.message == "Internal Server Error"
  {
  }
}
