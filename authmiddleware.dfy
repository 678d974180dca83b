/** middleware/authMiddleware.js: `protect` (cookie token, then the user it
    names), the classification of what went wrong, `allowRoles`, and
    `generateToken`. */
module AuthMiddleware {
  import opened Wrappers
  import opened UserModel
  import opened Tokens
  import opened Store

  const NoTokenMessage := "Not authorized: No token found"
  const UserNotFoundMessage := "User not found"
  const ExpiredMessage := "Session expired. Please log in again."
  const InvalidTokenMessage := "Invalid token. Please log in again."
  const NotAuthorizedMessage := "Not authorized"
  const AccessDeniedMessage := "Access denied: Insufficient permissions"

  /** What `protect`'s catch block can receive: an error from `jwt.verify`,
      or any other error (the user lookup failing). */
  datatype Failure = VerifyFailed(e: JwtError) | LookupFailed

  /** The catch block of `protect`: the reply depends only on the error's
      name, and every reply is a 401. */
  function Classify(f: Failure): (r: Reply)
    ensures r.status == 401
    ensures r.message == ExpiredMessage <==> f == VerifyFailed(TokenExpiredError)
    ensures r.message == InvalidTokenMessage <==> f == VerifyFailed(JsonWebTokenError)
    ensures r.message == NotAuthorizedMessage <==> f == LookupFailed
  {
    match f
    case VerifyFailed(TokenExpiredError) => Reply(401, ExpiredMessage)
    case VerifyFailed(JsonWebTokenError) => Reply(401, InvalidTokenMessage)
    case LookupFailed => Reply(401, NotAuthorizedMessage)
  }

  /** `protect`: the id of the user the request acts for, or the 401 reply.
      `lookupFails` stands for `User.findById` throwing. */
  function Protect(db: Db, token: Option<Jwt>, nowMs: nat, lookupFails: bool): (r: Result<Id, Reply>)
    reads db
    ensures token.None? ==> r == Err(Reply(401, NoTokenMessage))
    ensures r.Err? ==> r.error.status == 401
    ensures r.Ok? <==>
              token.Some? && Verify(token.value, nowMs).Ok? && !lookupFails
              && token.value.claims.id.Some? && token.value.claims.id.value in db.users
    ensures r.Ok? ==> r.value == token.value.claims.id.value
    ensures token.Some? && Verify(token.value, nowMs).Err? ==> r == Err(Classify(VerifyFailed(Verify(token.value, nowMs).error)))
  {
    if token.None? then Err(Reply(401, NoTokenMessage))
    else
      match Verify(token.value, nowMs)
      case Err(e) => Err(Classify(VerifyFailed(e)))
      case Ok(decoded) =>
        if lookupFails then Err(Classify(LookupFailed))
        else if decoded.id.None? || decoded.id.value !in db.users then Err(Reply(401, UserNotFoundMessage))
        else Ok(decoded.id.value)
  }

  /** `allowRoles(...roles)`: passes exactly when there is a user whose account is listed. */
  function AllowRoles(user: Option<User>, roles: seq<int>): (r: Result<(), Reply>)
    ensures r.Ok? <==> user.Some? && user.value.account in roles
    ensures r.Err? ==> r.error == Reply(403, AccessDeniedMessage)
  {
    if user.None? || user.value.account !in roles then Err(Reply(403, AccessDeniedMessage)) else Ok(())
  }

  /** `protect` followed by `allowRoles(...roles)`: the user id when both pass. */
  function Gate(db: Db, token: Option<Jwt>, nowMs: nat, lookupFails: bool, roles: seq<int>): (r: Result<Id, Reply>)
    reads db
    ensures r.Ok? <==>
              Protect(db, token, nowMs, lookupFails).Ok?
              && db.users[Protect(db, token, nowMs, lookupFails).value].account in roles
    ensures r.Ok? ==> r == Protect(db, token, nowMs, lookupFails)
    ensures Protect(db, token, nowMs, lookupFails).Err? ==> r == Protect(db, token, nowMs, lookupFails)
  {
    match Protect(db, token, nowMs, lookupFails)
    case Err(e) => Err(e)
    case Ok(id) =>
      match AllowRoles(Some(db.users[id]), roles)
      case Err(e) => Err(e)
      case Ok(_) => Ok(id)
  }

  /** `generateToken`: a 30-day token naming the user, in a strict same-site
      cookie whose lifetime matches the token's. */
  function GenerateToken(userId: Id, nowMs: nat): (c: Cookie)
    ensures c.name == "token" && c.sameSite == "strict"
    ensures c.token == Sign(Claims(Some(userId), None, None, None), nowMs, LongLifetime)
    ensures c.maxAgeMs == (c.token.exp - c.token.iat) * 1000
  {
    Cookie("token", Sign(Claims(Some(userId), None, None, None), nowMs, LongLifetime), "strict", 30 * 24 * 60 * 60 * 1000)
  }
}
