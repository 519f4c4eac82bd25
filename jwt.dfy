/**
 * The JSON Web Tokens of the server, as far as the handlers depend on them.
 * Signing and verifying are done by the jsonwebtoken library; here they are
 * oracles. What is modelled is the claims set a token is signed over.
 */
module Jwt {
  import opened Json

  /** What `jwt.verify(token, secret)` does: return, throw a JsonWebTokenError, or throw anything else. */
  datatype Verification = Valid | Invalid | Broken

  /** What `jwt.sign(claims, secret)` does: return a token, or throw. */
  datatype Signing = Signed(token: string) | SignFailed

  /** `expiresIn: '1h'`, in seconds. */
  const OneHour := 3600

  /**
   * The claims `jwt.sign(payload, secret, { expiresIn: '1h' })` signs at time
   * `nowMs` (milliseconds since the epoch): the payload, plus "iat" (section
   * 4.1.6 of RFC 7519), the current time in whole seconds, and "exp" (section
   * 4.1.4), one hour later.
   */
  function SignedClaims(payload: map<string, Json>, nowMs: int): (claims: map<string, Json>)
    requires "iat" !in payload && "exp" !in payload
    ensures claims.Keys == payload.Keys + {"iat", "exp"}
    ensures forall k :: k in payload ==> claims[k] == payload[k]
    ensures claims["iat"].JNum? && claims["exp"].JNum?
    ensures claims["exp"].n == claims["iat"].n + OneHour
    ensures claims["iat"].n * 1000 <= nowMs < claims["iat"].n * 1000 + 1000
  {
    var iat := nowMs / 1000;
    payload["iat" := JNum(iat)]["exp" := JNum(iat + OneHour)]
  }
}
