/** JSON Web Tokens, abstractly: a token carries its claims, the second it was
    issued and the second it expires, and whether it bears this server's
    signature. `jwt.verify` rejects a token without that signature before it
    looks at the expiry, and treats a token as expired from its `exp` second on. */
module Tokens {
  import opened Wrappers
  import opened UserModel

  /** The claims the handlers put in tokens; an absent claim is `None`. */
  datatype Claims = Claims(id: Option<Id>, userId: Option<Id>, account: Option<int>, playId: Option<Id>)

  datatype Jwt = Jwt(claims: Claims, iat: int, exp: int, genuine: bool)

  /** The `name` of the error `jwt.verify` throws. */
  datatype JwtError = TokenExpiredError | JsonWebTokenError

  /** `expiresIn` values, in seconds: "15m", "7d" and "30d". */
  const EditLifetime := 15 * 60
  const LoginLifetime := 7 * 24 * 60 * 60
  const LongLifetime := 30 * 24 * 60 * 60

  /** `jwt.sign(claims, secret, { expiresIn })` at clock time `nowMs` (milliseconds). */
  function Sign(claims: Claims, nowMs: nat, lifetime: nat): (t: Jwt)
    ensures t.genuine && t.claims == claims
    ensures t.iat == nowMs / 1000 && t.exp == t.iat + lifetime
  {
    Jwt(claims, nowMs / 1000, nowMs / 1000 + lifetime, true)
  }

  /** `jwt.verify(token, secret)` at clock time `nowMs`. */
  function Verify(t: Jwt, nowMs: nat): (r: Result<Claims, JwtError>)
    ensures !t.genuine <==> r == Err(JsonWebTokenError)
    ensures r == Err(TokenExpiredError) <==> t.genuine && nowMs / 1000 >= t.exp
    ensures r.Ok? ==> r.value == t.claims
  {
    if !t.genuine then Err(JsonWebTokenError)
    else if nowMs / 1000 >= t.exp then Err(TokenExpiredError)
    else Ok(t.claims)
  }

  /** A token this server signed verifies, with its claims, exactly until
      `lifetime` seconds after the second it was issued. */
  lemma SignThenVerify(claims: Claims, issuedMs: nat, lifetime: nat, nowMs: nat)
    ensures Verify(Sign(claims, issuedMs, lifetime), nowMs) == Ok(claims)
        <==> nowMs / 1000 < issuedMs / 1000 + lifetime
    ensures Verify(Sign(claims, issuedMs, lifetime), nowMs) != Err(JsonWebTokenError)
  {
  }

  /** A token issued now with a positive lifetime verifies now. */
  lemma FreshTokenVerifies(claims: Claims, nowMs: nat, lifetime: nat)
    requires lifetime > 0
    ensures Verify(Sign(claims, nowMs, lifetime), nowMs) == Ok(claims)
  {
  }

  /** A cookie holding a token: its name, `sameSite` and `maxAge` in milliseconds. */
  datatype Cookie = Cookie(name: string, token: Jwt, sameSite: string, maxAgeMs: int)
}
