/**
 * What the API handlers share: the outcome of token extraction and
 * verification (done by `lib/auth`, which is not part of this model), the
 * claims a token carries, a JSON reply and the session cookie.
 */
module Http {
  import UserModel

  /** The payload `generateToken` signs: `{ userId, email, role, companyName }`. */
  datatype Claims = Claims(userId: UserModel.UserId, email: string, role: UserModel.Role, companyName: string)

  /**
   * `getTokenFromRequest` then `verifyToken`: no (or an empty) token, a token
   * that does not verify, or the decoded claims.
   */
  datatype Auth = Missing | Unverifiable | Verified(claims: Claims)

  /** A reply: a status with a JSON body, or a status with `{ error }`. */
  datatype Reply<B> = Success(status: nat, body: B) | Failure(status: nat, error: string)

  /** The reply of every handler that requires a session, when there is none or it does not verify. */
  function AuthFailure<B>(auth: Auth): (r: Reply<B>)
    requires !auth.Verified?
    ensures r.Failure? && r.status == 401
    ensures r.error == (if auth.Missing? then "Unauthorized" else "Invalid token")
  {
    if auth.Missing? then Failure(401, "Unauthorized") else Failure(401, "Invalid token")
  }

  /** The `Max-Age` of the session cookie, in seconds: seven days. */
  const TokenMaxAge: nat := 604800

  /** The attributes of the `token` cookie: `HttpOnly`, `Path=/`, `SameSite=Lax` and an optional `Secure`. */
  datatype Cookie = Cookie(value: string, httpOnly: bool, path: string, maxAge: nat, sameSite: string, secure: bool)

  function SessionCookie(token: string, secure: bool): (c: Cookie)
    ensures c.value == token && c.httpOnly && c.path == "/" && c.sameSite == "Lax"
    ensures c.maxAge == 7 * 24 * 60 * 60 && c.secure == secure
  {
    Cookie(token, true, "/", TokenMaxAge, "Lax", secure)
  }
}
