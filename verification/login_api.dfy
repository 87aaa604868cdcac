/**
 * The `/api/auth/login` endpoint: looks the account up by the address as it
 * would be stored (lowercased and trimmed), checks the password against the stored hash and opens a
 * session. An unknown address and a wrong password get the same reply.
 * Nothing stored changes, so the handler is a function of the collection.
 * `compare` stands for `comparePassword` and `sign` for `generateToken`,
 * both part of `lib/auth`, which is not part of this model.
 */
module LoginApi {
  import opened Wrappers
  import Text
  import opened UserModel
  import opened Http
  import opened Accounts

  /** `req.body`; an absent field is the empty string (both are falsy). */
  datatype LoginRequest = LoginRequest(email: string, password: string)

  /** `findOne({ email: email.toLowerCase() })`, then `comparePassword` against the stored hash. */
  predicate Authenticates(users: seq<User>, body: LoginRequest, compare: (string, string) -> bool) {
    var found := FindOne(users, Text.Lower(body.email));
    found.Some? && compare(body.password, users[found.value].password)
  }

  /** The handler; `production` is `process.env.NODE_ENV === 'production'`, which adds `Secure` to the cookie. */
  function Login(users: seq<User>, httpMethod: string, body: LoginRequest, compare: (string, string) -> bool,
                 sign: Claims -> string, production: bool): (r: Reply<SessionBody>)
    ensures httpMethod != "POST" ==> r == Failure(405, "Method not allowed")
    ensures httpMethod == "POST" && (body.email == "" || body.password == "") ==>
      r == Failure(400, "Email and password are required")
    ensures httpMethod == "POST" && body.email != "" && body.password != "" && r.Failure? ==>
      r == Failure(401, "Invalid credentials")
    ensures r.Success? ==>
      && httpMethod == "POST" && body.email != "" && body.password != ""
      && exists id :: 0 <= id < |users|
           && users[id].email == NormalizeEmail(Text.Lower(body.email))
           && compare(body.password, users[id].password)
           && r == Success(200, SessionFor("Login successful", id, users[id], sign, production))
  {
    if httpMethod != "POST" then Failure(405, "Method not allowed")
    else if body.email == "" || body.password == "" then Failure(400, "Email and password are required")
    else
      var user := FindOne(users, Text.Lower(body.email));
      if user.None? then Failure(401, "Invalid credentials")
      else if !compare(body.password, users[user.value].password) then Failure(401, "Invalid credentials")
      else Success(200, SessionFor("Login successful", user.value, users[user.value], sign, production))
  }

  /**
   * With unique addresses, a well-formed request logs in exactly when some
   * account holds the address as it would be stored and the password
   * matches its hash.
   */
  lemma LoginSucceedsIffCredentialsMatch(users: seq<User>, body: LoginRequest, compare: (string, string) -> bool,
                                         sign: Claims -> string, production: bool)
    requires UniqueEmails(users) && body.email != "" && body.password != ""
    ensures Login(users, "POST", body, compare, sign, production).Success?
        <==> exists id :: 0 <= id < |users| && users[id].email == NormalizeEmail(Text.Lower(body.email))
                          && compare(body.password, users[id].password)
  {
    var key := NormalizeEmail(Text.Lower(body.email));
    if exists id :: 0 <= id < |users| && users[id].email == key && compare(body.password, users[id].password) {
      var id :| 0 <= id < |users| && users[id].email == key && compare(body.password, users[id].password);
      var found := FindOne(users, Text.Lower(body.email));
      assert found.Some?;
      assert found.value == id;
    }
  }

  /**
   * An account just created by registration can log in with the address and
   * password it registered with, provided `compare` accepts a password
   * against its own hash.
   */
  lemma RegisteredOwnerCanLogIn(users: seq<User>, u: User, body: LoginRequest, hash: string -> string,
                                compare: (string, string) -> bool, sign: Claims -> string, production: bool)
    requires forall i :: 0 <= i < |users| ==> users[i].email != u.email
    requires u.email == NormalizeEmail(Text.Lower(body.email)) && u.password == hash(body.password)
    requires body.email != "" && body.password != ""
    requires compare(body.password, hash(body.password))
    ensures Login(users + [u], "POST", body, compare, sign, production)
         == Success(200, SessionFor("Login successful", |users|, u, sign, production))
  {
    var all := users + [u];
    assert all[|users|].email == u.email;
    var found := FindOne(all, Text.Lower(body.email));
    assert found.Some?;
    assert found.value == |users|;
  }

  /**
   * White space around the address does not matter: a request logs in, or
   * fails, exactly as the same request with the address trimmed.
   */
  lemma PaddedAddressLogsIn(users: seq<User>, body: LoginRequest, compare: (string, string) -> bool,
                            sign: Claims -> string, production: bool)
    requires Text.Trim(body.email) != ""
    ensures Login(users, "POST", body, compare, sign, production)
         == Login(users, "POST", body.(email := Text.Trim(body.email)), compare, sign, production)
  {
    FindOneIgnoresPadding(users, body.email);
  }
}
