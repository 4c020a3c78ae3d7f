/**
 * Issuing session tokens (`createToken`, defined identically in routes/otp.js and
 * routes/auth.js) and the outcome of checking one (`jwt.verify`). Signing and signature
 * checking belong to the JWT library and are not modelled: a token is the claims it carries.
 */
module Tokens {
  import opened Wrappers
  import opened Config

  /** A signed token: subject claim, the secret it was signed with, its lifetime and issue time. */
  datatype Jwt = Jwt(sub: string, secret: string, expiresIn: string, issuedAt: nat)

  datatype TokenResult = Issued(token: Jwt) | MissingSecret

  const SecretVar := "JWT_SECRET"
  const LifetimeVar := "JWT_EXPIRES_IN"
  const DefaultLifetime := "7d"

  /**
   * `createToken(userId)`: fails, by throwing, when JWT_SECRET is unset or empty; otherwise a
   * token whose subject is the user id, signed with the secret, living JWT_EXPIRES_IN or 7 days.
   */
  function CreateToken(env: Env, userId: string, now: nat): (r: TokenResult)
    ensures r.MissingSecret? <==> !IsSet(env, SecretVar)
    ensures r.Issued? ==> r.token.sub == userId && r.token.secret == env[SecretVar] && r.token.issuedAt == now
    ensures r.Issued? ==> r.token.expiresIn == (if IsSet(env, LifetimeVar) then env[LifetimeVar] else DefaultLifetime)
  {
    if !IsSet(env, SecretVar) then MissingSecret
    else Issued(Jwt(userId, env[SecretVar], if IsSet(env, LifetimeVar) then env[LifetimeVar] else DefaultLifetime, now))
  }

  /**
   * What `jwt.verify(token, secret)` does with a bearer token: returns the payload (whose
   * `sub` claim may be missing), or throws TokenExpiredError, or throws any other error.
   */
  datatype JwtVerdict = Payload(sub: Option<string>) | Expired | Rejected
}
