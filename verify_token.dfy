/**
 * The request gates: the session-token middleware, which decodes the cookie
 * and attaches the caller's id and role to the request, and the three role
 * middlewares that run after it.
 */
module VerifyToken {
  import opened Wrappers
  import opened ResponseModel
  import opened Text

  const NoTokenMessage := "Unauthorized - no token provided"
  const InvalidTokenMessage := "Unauthorized - invalid token"
  const ServerErrorMessage := "Server error"
  const NotAdminMessage := "Unauthorized - not an admin"
  const NotUserMessage := "Unauthorized - not a user"
  const NotAdminOrUserMessage := "Unauthorized - not an admin or user"

  /** The claims a session token carries. */
  datatype Claims = Claims(userId: Option<string>, role: Option<string>)

  /**
   * What `jwt.verify(token, secret)` does with a token: return a payload
   * (possibly a falsy one), or throw (bad signature, expired, malformed).
   */
  datatype Decoding = Decoded(payload: Option<Claims>) | Threw(message: string)

  /** The parts of an Express request the gates read and write. */
  class Request {
    const token: Option<string>
    var userId: Option<string>
    var userRole: Option<string>

    constructor (token: Option<string>)
      ensures this.token == token && userId.None? && userRole.None?
    {
      this.token := token;
      userId, userRole := None, None;
    }
  }

  /**
   * `verifyToken`. `jwtVerify` stands for `jwt.verify` with the server's
   * secret, a library function whose inside is not modelled.
   */
  method Verify(req: Request, jwtVerify: string -> Decoding) returns (r: MiddlewareResult)
    modifies req
    ensures !Truthy(req.token) ==>
      r == Respond(401, CreateResponse(false, 401, NoTokenMessage)) && unchanged(req)
    ensures Truthy(req.token) && jwtVerify(req.token.value) == Decoded(None) ==>
      r == Respond(401, CreateResponse(false, 401, InvalidTokenMessage)) && unchanged(req)
    ensures Truthy(req.token) && jwtVerify(req.token.value).Threw? ==>
      && r == Respond(500, CreateResponse(false, 500, ServerErrorMessage, None,
                                          Some(jwtVerify(req.token.value).message)))
      && unchanged(req)
    ensures r.CallNext? <==> Truthy(req.token) && jwtVerify(req.token.value).Decoded?
                             && jwtVerify(req.token.value).payload.Some?
    ensures r.CallNext? ==>
      var claims := jwtVerify(req.token.value).payload.value;
      req.userId == claims.userId && req.userRole == claims.role
  {
    if !Truthy(req.token) {
      return Respond(401, CreateResponse(false, 401, NoTokenMessage));
    }
    match jwtVerify(req.token.value)
    case Threw(message) =>
      r := Respond(500, CreateResponse(false, 500, ServerErrorMessage, None, Some(message)));
    case Decoded(None) =>
      r := Respond(401, CreateResponse(false, 401, InvalidTokenMessage));
    case Decoded(Some(claims)) =>
      req.userId := claims.userId;
      req.userRole := claims.role;
      r := CallNext;
  }

  /** One role gate: pass on the exact role name, else answer 403 with `message`. */
  function RoleGate(allowed: set<string>, role: Option<string>, message: string): (r: MiddlewareResult)
    ensures r.CallNext? <==> role.Some? && role.value in allowed
    ensures r.Respond? ==> r == Respond(403, CreateResponse(false, 403, message))
  {
    if role.Some? && role.value in allowed then CallNext
    else Respond(403, CreateResponse(false, 403, message))
  }

  /** `isAdmin`. */
  function IsAdmin(role: Option<string>): (r: MiddlewareResult)
    ensures r.CallNext? <==> role == Some("ADMIN")
    ensures r.Respond? ==> r == Respond(403, CreateResponse(false, 403, NotAdminMessage))
  {
    RoleGate({"ADMIN"}, role, NotAdminMessage)
  }

  /** `isUser`. */
  function IsUser(role: Option<string>): (r: MiddlewareResult)
    ensures r.CallNext? <==> role == Some("USER")
    ensures r.Respond? ==> r == Respond(403, CreateResponse(false, 403, NotUserMessage))
  {
    RoleGate({"USER"}, role, NotUserMessage)
  }

  /** `isAdminOrUser`. */
  function IsAdminOrUser(role: Option<string>): (r: MiddlewareResult)
    ensures r.CallNext? <==> IsAdmin(role).CallNext? || IsUser(role).CallNext?
    ensures r.Respond? ==> r == Respond(403, CreateResponse(false, 403, NotAdminOrUserMessage))
  {
    RoleGate({"ADMIN", "USER"}, role, NotAdminOrUserMessage)
  }

  /** The role comparison is case-sensitive: lower-case names are turned away. */
  lemma RoleNamesAreCaseSensitive()
    ensures IsAdmin(Some("admin")).Respond?
    ensures IsUser(Some("user")).Respond?
    ensures IsAdminOrUser(Some("Admin")).Respond?
  {
    assert "admin" != "ADMIN" by { assert "admin"[0] != "ADMIN"[0]; }
    assert "user" != "USER" by { assert "user"[0] != "USER"[0]; }
    assert "Admin" != "ADMIN" by { assert "Admin"[1] != "ADMIN"[1]; }
    assert "Admin" != "USER" by { assert "Admin"[0] != "USER"[0]; }
  }

  /** A request without a role (the token gate did not run, or set none) passes no gate. */
  lemma NoRoleNoPass()
    ensures IsAdmin(None).Respond? && IsUser(None).Respond? && IsAdminOrUser(None).Respond?
  {
  }
}
