/** backend/src/middlewares/errorHandler.ts: the last Express middleware, which turns
    a thrown error into a JSON reply. The first matching case decides the reply. */
module ErrorHandler {
  import opened Wrappers
  import opened Constants

  /** The classes the handler tells apart with `instanceof`. */
  datatype ErrorClass =
    | ApiErrorClass(statusCode: int)
    | ValidationErrorClass(messages: seq<string>)   // the messages of `err.errors`, in key order
    | CastErrorClass(path: string, value: string)   // `value` as string interpolation renders it
    | OtherClass

  /** A thrown error: its class and the properties the handler reads. `keyValueKeys` are
      the keys of `err.keyValue`, empty when it is absent. */
  datatype Thrown = Thrown(
    cls: ErrorClass,
    name: string,
    message: string,
    code: Option<int>,
    keyValueKeys: seq<string>,
    stack: Option<string>)

  /** The JSON body; an absent key is `None`. */
  datatype Body = Body(
    success: bool,
    message: string,
    errors: Option<seq<string>>,
    error: Option<string>,
    stack: Option<string>)

  datatype Reply = Reply(status: int, body: Body)

  /** MongoDB's duplicate-key error. */
  predicate IsDuplicateKey(err: Thrown) {
    err.name == "MongoServerError" && err.code == Some(11000)
  }

  /** The first key of `keyValue`, or what `undefined` interpolates to. */
  function DuplicateField(keys: seq<string>): string {
    if keys == [] then "undefined" else keys[0]
  }

  /** The reply for `err`; `development` is `NODE_ENV === "development"`. */
  function Handle(err: Thrown, development: bool): (r: Reply)
    ensures !r.body.success
    ensures !development ==> r.body.stack.None? && r.body.error.None?
    ensures r.status in {HttpBadRequest, HttpUnauthorized, HttpConflict, HttpInternalServerError}
      || err.cls.ApiErrorClass?
    ensures err.cls.ApiErrorClass? ==>
      r == Reply(err.cls.statusCode, Body(false, err.message, None, None,
                                          if development then err.stack else None))
    ensures err.cls.ValidationErrorClass? ==>
      r == Reply(HttpBadRequest, Body(false, "Validation Error", Some(err.cls.messages), None, None))
    ensures err.cls.CastErrorClass? ==>
      r == Reply(HttpBadRequest, Body(false, "Invalid " + err.cls.path + ": " + err.cls.value, None, None, None))
    ensures err.cls.OtherClass? && IsDuplicateKey(err) ==>
      r == Reply(HttpConflict, Body(false, DuplicateField(err.keyValueKeys) + " already exists", None, None, None))
    ensures err.cls.OtherClass? && !IsDuplicateKey(err) ==>
      r == (if err.name == "JsonWebTokenError" then Reply(HttpUnauthorized, Body(false, "Invalid token", None, None, None))
            else if err.name == "TokenExpiredError" then Reply(HttpUnauthorized, Body(false, "Token expired", None, None, None))
            else Reply(HttpInternalServerError,
                       Body(false, "Internal Server Error", None,
                            if development then Some(err.message) else None,
                            if development then err.stack else None)))
  {
    match err.cls
    case ApiErrorClass(statusCode) =>
      Reply(statusCode, Body(false, err.message, None, None, if development then err.stack else None))
    case ValidationErrorClass(messages) =>
      Reply(HttpBadRequest, Body(false, "Validation Error", Some(messages), None, None))
    case CastErrorClass(path, value) =>
      Reply(HttpBadRequest, Body(false, "Invalid " + path + ": " + value, None, None, None))
    case OtherClass =>
      if IsDuplicateKey(err) then
        Reply(HttpConflict, Body(false, DuplicateField(err.keyValueKeys) + " already exists", None, None, None))
      else if err.name == "JsonWebTokenError" then
        Reply(HttpUnauthorized, Body(false, "Invalid token", None, None, None))
      else if err.name == "TokenExpiredError" then
        Reply(HttpUnauthorized, Body(false, "Token expired", None, None, None))
      else
        Reply(HttpInternalServerError,
              Body(false, "Internal Server Error", None,
                   if development then Some(err.message) else None,
                   if development then err.stack else None))
  }

  // ---------------------------------------------------------------------------

  /** The class test comes first: an ApiError keeps its own status and message whatever
      its name or code says. */
  lemma ClassBeforeName(err: Thrown, development: bool)
    requires err.cls.ApiErrorClass?
    ensures Handle(err, development).status == err.cls.statusCode
    ensures Handle(err, development).body.message == err.message
  {
  }

  /** Outside development, the reply for an error depends only on its class, name, code and
      `keyValue` keys: the message of an unexpected error and every stack stay on the server. */
  lemma ProductionHidesDetails(a: Thrown, b: Thrown)
    requires a.cls == b.cls && a.name == b.name && a.code == b.code && a.keyValueKeys == b.keyValueKeys
    requires !a.cls.ApiErrorClass?
    ensures Handle(a, false) == Handle(b, false)
  {
  }

  /** A duplicate-key error without `keyValue` names the field "undefined". */
  lemma DuplicateWithoutKeyValue(err: Thrown)
    requires err.cls.OtherClass? && IsDuplicateKey(err) && err.keyValueKeys == []
    ensures Handle(err, false).body.message == "undefined already exists"
  {
  }
}
