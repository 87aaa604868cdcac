/**
 * What registration and login share: the claims put in a new session token,
 * the user fields echoed back, and the body of a successful reply together
 * with the cookie it sets.
 */
module Accounts {
  import opened UserModel
  import opened Http

  /** `{ userId: user._id, email, role, companyName }` */
  function ClaimsOf(id: UserId, u: User): (c: Claims)
    ensures c.userId == id && c.email == u.email && c.role == u.role && c.companyName == u.companyName
  {
    Claims(id, u.email, u.role, u.companyName)
  }

  /** The `user` object of the reply: `{ id, email, companyName, role, securityScore }`; never the password. */
  datatype UserView = UserView(id: UserId, email: string, companyName: string, role: Role, securityScore: int)

  function ViewOf(id: UserId, u: User): (v: UserView)
    ensures v.id == id && v.email == u.email && v.companyName == u.companyName
    ensures v.role == u.role && v.securityScore == u.securityScore
  {
    UserView(id, u.email, u.companyName, u.role, u.securityScore)
  }

  /** `{ message, token, user }` and the `Set-Cookie` header sent with it. */
  datatype SessionBody = SessionBody(message: string, token: string, user: UserView, cookie: Cookie)

  /**
   * The reply body for user `id`: the token is `sign` applied to its claims
   * (`generateToken`, part of `lib/auth`, which is not part of this model).
   */
  function SessionFor(message: string, id: UserId, u: User, sign: Claims -> string, secure: bool): (b: SessionBody)
    ensures b.message == message && b.token == sign(ClaimsOf(id, u)) && b.user == ViewOf(id, u)
    ensures b.cookie == SessionCookie(b.token, secure)
  {
    var token := sign(ClaimsOf(id, u));
    SessionBody(message, token, ViewOf(id, u), SessionCookie(token, secure))
  }
}
