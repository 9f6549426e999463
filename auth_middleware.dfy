/** backend/src/middlewares/auth.middleware.ts: bearer-token authentication and the
    role check. The token verifier is a parameter. */
module AuthMiddleware {
  import opened Wrappers
  import opened Text
  import opened Constants
  import opened ApiErrors

  const MissingHeader: string := "Authorization header is missing"
  const BadFormat: string := "Invalid authorization format. Use: Bearer <token>"
  const MissingToken: string := "Token is missing"

  /** The claims a verified token carries; either may be absent from the payload. */
  datatype Claims = Claims(userId: Option<string>, role: Option<string>)

  /** What the token verifier does with a token: it returns the claims, or it throws an
      error, of which the middleware inspects the two classes it names. */
  datatype Verification =
    | Verified(claims: Claims)
    | Threw(isJsonWebTokenError: bool, isTokenExpiredError: bool)

  /** What `next` is called with. */
  datatype NextCall = Next | NextError(error: ApiError)

  /** The header checks: the token is the second space-separated piece of a header that
      starts with "Bearer ". */
  function TokenOf(header: Option<string>): (r: Result<string, ApiError>)
    ensures !Truthy(header) ==> r == Err(Unauthorized(MissingHeader))
    ensures Truthy(header) && !StartsWith(header.value, "Bearer ") ==> r == Err(Unauthorized(BadFormat))
    ensures Truthy(header) && StartsWith(header.value, "Bearer ") ==>
      ((r.Err? <==> |header.value| == 7 || header.value[7] == ' ')
       && (r.Err? ==> r.error == Unauthorized(MissingToken)))
    ensures r.Ok? ==> header.Some? && IsBearerToken(header.value, r.value)
    ensures r.Err? ==> r.error.statusCode == HttpUnauthorized
  {
    if !Truthy(header) then Err(Unauthorized(MissingHeader))
    else if !StartsWith(header.value, "Bearer ") then Err(Unauthorized(BadFormat))
    else
      var h := header.value;
      BearerSplit(h);
      var token := Split(h, ' ')[1];
      if token == "" then Err(Unauthorized(MissingToken)) else Ok(token)
  }

  /** `t` is the non-empty run of non-space characters right after "Bearer " in `h`. */
  predicate IsBearerToken(h: string, t: string) {
    t != [] && (forall k :: 0 <= k < |t| ==> t[k] != ' ')
    && StartsWith(h, "Bearer " + t)
    && (|h| == 7 + |t| || h[7 + |t|] == ' ')
  }

  /** The outcome of authentication, before it is applied to the request. */
  datatype Outcome = Authenticated(userId: Option<string>, role: Option<string>) | Rejected(error: ApiError)

  /** The whole decision of `authMiddleware`, including its catch block. */
  function Authenticate(header: Option<string>, verify: string -> Verification): (r: Outcome)
    ensures r.Rejected? ==> r.error.statusCode == HttpUnauthorized
    ensures TokenOf(header).Err? ==> r == Rejected(TokenOf(header).error)
    ensures r.Authenticated? <==> TokenOf(header).Ok? && verify(TokenOf(header).value).Verified?
    ensures r.Authenticated? ==>
      var c := verify(TokenOf(header).value).claims;
      r.userId == c.userId && r.role == c.role
    ensures TokenOf(header).Ok? && verify(TokenOf(header).value).Threw? ==>
      var v := verify(TokenOf(header).value);
      r == Rejected(Unauthorized(
        if v.isJsonWebTokenError then "Invalid token"
        else if v.isTokenExpiredError then "Token has expired"
        else "Authentication failed"))
  {
    match TokenOf(header)
    case Err(e) => Rejected(e)
    case Ok(token) =>
      match verify(token)
      case Verified(c) => Authenticated(c.userId, c.role)
      case Threw(jsonWebTokenError, tokenExpired) =>
        if jsonWebTokenError then Rejected(Unauthorized("Invalid token"))
        else if tokenExpired then Rejected(Unauthorized("Token has expired"))
        else Rejected(Unauthorized("Authentication failed"))
  }

  /** The request fields the middleware reads and writes. */
  class AuthRequest {
    const authorization: Option<string>
    var userId: Option<string>
    var userRole: Option<string>

    constructor(authorization: Option<string>)
      ensures this.authorization == authorization && userId == None && userRole == None
    {
      this.authorization := authorization;
      userId := None;
      userRole := None;
    }
  }

  /** `authMiddleware`: on success the claims are copied onto the request and `next` is
      called with nothing; every failure reaches `next` as a 401 and the request keeps its
      fields. */
  method Authenticator(req: AuthRequest, verify: string -> Verification) returns (next: NextCall)
    modifies req
    ensures var o := Authenticate(req.authorization, verify);
      match o
      case Authenticated(userId, role) =>
        next == Next && req.userId == userId && req.userRole == role
      case Rejected(e) =>
        next == NextError(e) && req.userId == old(req.userId) && req.userRole == old(req.userRole)
    ensures next.NextError? ==> next.error.statusCode == HttpUnauthorized
  {
    var header := req.authorization;
    if !Truthy(header) {
      return NextError(Unauthorized(MissingHeader));
    }
    if !StartsWith(header.value, "Bearer ") {
      return NextError(Unauthorized(BadFormat));
    }
    BearerSplit(header.value);
    var token := Split(header.value, ' ')[1];
    if token == "" {
      return NextError(Unauthorized(MissingToken));
    }
    var v := verify(token);
    if v.Threw? {
      if v.isJsonWebTokenError {
        return NextError(Unauthorized("Invalid token"));
      }
      if v.isTokenExpiredError {
        return NextError(Unauthorized("Token has expired"));
      }
      return NextError(Unauthorized("Authentication failed"));
    }
    req.userId := v.claims.userId;
    req.userRole := v.claims.role;
    next := Next;
  }

  /** `authorize(...allowedRoles)` applied to the role left on the request. */
  function Authorize(allowedRoles: seq<string>, role: Option<string>): (r: NextCall)
    ensures r == Next <==> Truthy(role) && role.value in allowedRoles
    ensures !Truthy(role) ==> r == NextError(Forbidden("Access denied. No role assigned."))
    ensures Truthy(role) && role.value !in allowedRoles ==>
      r == NextError(Forbidden("Access denied. Insufficient permissions."))
  {
    if !Truthy(role) then NextError(Forbidden("Access denied. No role assigned."))
    else if role.value !in allowedRoles then NextError(Forbidden("Access denied. Insufficient permissions."))
    else Next
  }

  // ---------------------------------------------------------------------------

  /** In a header starting with "Bearer ", the first space is the one at index 6, so the
      second piece of the split is what follows it up to the next space. */
  lemma BearerSplit(h: string)
    requires StartsWith(h, "Bearer ")
    ensures |Split(h, ' ')| >= 2
    ensures var rest := h[7..]; Split(h, ' ')[1] == rest[..IndexOf(rest, ' ')]
  {
    assert h[..7] == "Bearer ";
    assert forall k :: 0 <= k < 6 ==> h[k] == "Bearer "[k];
    assert IndexOf(h, ' ') == 6 by {
      assert h[6] == ' ';
      if IndexOf(h, ' ') < 6 {
        assert false;
      }
    }
    SplitSecondPiece(h, ' ');
  }

  /** The header checks recover exactly the token a client put after "Bearer ", whatever
      follows it after a space. */
  lemma {:induction false} TokenRoundTrip(t: string, tail: string)
    requires t != [] && forall k :: 0 <= k < |t| ==> t[k] != ' '
    ensures TokenOf(Some("Bearer " + t)) == Ok(t)
    ensures TokenOf(Some("Bearer " + t + " " + tail)) == Ok(t)
  {
    BearerTokenUnique("Bearer " + t, t);
    BearerTokenUnique("Bearer " + t + " " + tail, t);
  }

  /** A header has at most one bearer token, so the header checks return it. */
  lemma BearerTokenUnique(h: string, t: string)
    requires IsBearerToken(h, t)
    ensures TokenOf(Some(h)) == Ok(t)
  {
    assert h[..7] == "Bearer " by { assert h[..7] == (h[..7 + |t|])[..7]; }
    assert h[7] == t[0] by { assert h[..7 + |t|][7] == h[7]; }
    var r := TokenOf(Some(h));
    assert r.Ok?;
    var u := r.value;
    assert ("Bearer " + u)[7..] == u && ("Bearer " + t)[7..] == t;
    assert h[..7 + |t|][7..] == h[7..7 + |t|];
  }

  /** A verified token whose payload has no role passes authentication but is refused by
      every role check. */
  lemma NoRoleClaimRefused(header: Option<string>, verify: string -> Verification, allowedRoles: seq<string>)
    requires TokenOf(header).Ok?
    requires verify(TokenOf(header).value) == Verified(Claims(Some("u"), None))
    ensures Authenticate(header, verify).Authenticated?
    ensures Authorize(allowedRoles, Authenticate(header, verify).role).NextError?
  {
  }
}
