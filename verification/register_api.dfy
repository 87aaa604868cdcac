/**
 * The `/api/auth/register` endpoint: validates the form, rejects an address
 * already taken, stores the new owner account with a hashed password and
 * opens a session for it. `hash` stands for `hashPassword` and `sign` for
 * `generateToken`, both part of `lib/auth`, which is not part of this model.
 */
module RegisterApi {
  import opened Wrappers
  import Text
  import opened UserModel
  import opened Http
  import opened Store
  import opened Accounts

  /** `req.body`; an absent field is the empty string (both are falsy). */
  datatype RegisterRequest = RegisterRequest(
    email: string, password: string, companyName: string, companySize: string, industry: string)

  const MinPasswordLength: nat := 6
  /** The score a new account starts with, instead of the schema default. */
  const InitialSecurityScore: int := 25

  predicate MissingField(body: RegisterRequest) {
    body.email == "" || body.password == "" || body.companyName == "" || body.companySize == "" || body.industry == ""
  }

  /**
   * `new User({...})` from the form: the lowercased address (the schema also
   * trims it), the hashed password, role `owner` and score 25. `None` when
   * `companySize` or `industry` is not one of the schema's values, so that
   * `save()` rejects it.
   */
  function Candidate(body: RegisterRequest, hash: string -> string): (r: Option<User>)
    ensures r.Some? <==> ParseCompanySize(body.companySize).Some? && ParseIndustry(body.industry).Some?
    ensures r.Some? ==>
      && r.value.email == NormalizeEmail(Text.Lower(body.email))
      && r.value.password == hash(body.password)
      && r.value.companyName == Text.Trim(body.companyName)
      && CompanySizeName(r.value.companySize) == body.companySize
      && IndustryName(r.value.industry) == body.industry
      && r.value.role == Owner && r.value.securityScore == InitialSecurityScore
      && r.value.lastAssessment == None && r.value.isActive
  {
    var size := ParseCompanySize(body.companySize);
    var industry := ParseIndustry(body.industry);
    if size.Some? && industry.Some? then
      Some(User(NormalizeEmail(Text.Lower(body.email)), hash(body.password), Text.Trim(body.companyName),
                size.value, industry.value, Owner, InitialSecurityScore, None, true))
    else None
  }

  /** The candidate is the schema's document for those fields, with `role` and `securityScore` given explicitly. */
  lemma CandidateIsNewUser(body: RegisterRequest, hash: string -> string)
    requires Candidate(body, hash).Some?
    ensures Candidate(body, hash).value
         == NewUser(Text.Lower(body.email), hash(body.password), body.companyName,
                    Candidate(body, hash).value.companySize, Candidate(body, hash).value.industry,
                    Some(Owner), Some(InitialSecurityScore))
  {
    var size, industry := ParseCompanySize(body.companySize).value, ParseIndustry(body.industry).value;
    assert Candidate(body, hash).value
        == User(NormalizeEmail(Text.Lower(body.email)), hash(body.password), Text.Trim(body.companyName),
                size, industry, Owner, InitialSecurityScore, None, true);
  }

  /** `user.save()` succeeds: the document passes the schema and the unique index. */
  predicate Saves(users: seq<User>, u: User) {
    ValidUser(u) && FindByEmail(users, u.email).None?
  }

  /** `user.save()` once the document has passed: the collection gains it. */
  method Insert(db: Database, u: User)
    requires db.Valid() && Saves(db.users, u)
    modifies db
    ensures db.Valid()
    ensures db.users == old(db.users) + [u]
    ensures db.assessments == old(db.assessments) && db.threats == old(db.threats) && db.articles == old(db.articles)
  {
    InsertKeepsUnique(db.users, u);
    InsertKeepsValid(db.users, u);
    db.users := db.users + [u];
  }

  /** The handler. Every rejection leaves the store as it was. */
  method Register(db: Database, httpMethod: string, body: RegisterRequest, hash: string -> string, sign: Claims -> string)
    returns (reply: Reply<SessionBody>)
    requires db.Valid()
    modifies db
    ensures db.Valid()
    ensures db.assessments == old(db.assessments) && db.threats == old(db.threats) && db.articles == old(db.articles)
    ensures httpMethod != "POST" ==> reply == Failure(405, "Method not allowed") && db.users == old(db.users)
    ensures httpMethod == "POST" && MissingField(body) ==>
      reply == Failure(400, "All fields are required") && db.users == old(db.users)
    ensures httpMethod == "POST" && !MissingField(body) && Text.Utf16Length(body.password) < MinPasswordLength ==>
      reply == Failure(400, "Password must be at least 6 characters") && db.users == old(db.users)
    ensures httpMethod == "POST" && !MissingField(body) && Text.Utf16Length(body.password) >= MinPasswordLength
            && FindOne(old(db.users), Text.Lower(body.email)).Some? ==>
      reply == Failure(400, "User already exists") && db.users == old(db.users)
    ensures httpMethod == "POST" && !MissingField(body) && Text.Utf16Length(body.password) >= MinPasswordLength
            && FindOne(old(db.users), Text.Lower(body.email)).None? ==>
      var candidate := Candidate(body, hash);
      if candidate.Some? && ValidUser(candidate.value) then
        && db.users == old(db.users) + [candidate.value]
        && reply == Success(201, SessionFor("Registration successful", |old(db.users)|, candidate.value, sign, false))
      else
        reply == Failure(500, "Internal server error") && db.users == old(db.users)
  {
    if httpMethod != "POST" {
      return Failure(405, "Method not allowed");
    }
    if MissingField(body) {
      return Failure(400, "All fields are required");
    }
    if Text.Utf16Length(body.password) < MinPasswordLength {
      return Failure(400, "Password must be at least 6 characters");
    }
    var existingUser := FindOne(db.users, Text.Lower(body.email));
    if existingUser.Some? {
      return Failure(400, "User already exists");
    }
    var candidate := Candidate(body, hash);
    if candidate.None? || !ValidUser(candidate.value) {
      // `save()` throws a validation error; the duplicate check above already
      // looked up the address the document would be stored under.
      return Failure(500, "Internal server error");
    }
    var user := candidate.value;
    var id := |db.users|;
    Insert(db, user);
    reply := Success(201, SessionFor("Registration successful", id, user, sign, false));
  }

  /**
   * The duplicate check sees the address as it would be stored: a taken
   * address sent with white space around it is refused as "User already
   * exists", and it is the account that holds it that is found.
   */
  lemma PaddedDuplicateRejected(users: seq<User>, k: nat, body: RegisterRequest)
    requires UniqueEmails(users) && forall i :: 0 <= i < |users| ==> ValidUser(users[i])
    requires k < |users| && Text.Trim(body.email) == users[k].email
    ensures FindOne(users, Text.Lower(body.email)) == Some(k)
  {
    var e := users[k].email;
    FindOneIgnoresPadding(users, body.email);
    assert Text.Lower(e) == e;
    assert NormalizeEmail(e) == e;
  }

  /**
   * The length check counts UTF-16 code units: three emoji make a password
   * of length 6, long enough to register.
   */
  lemma EmojiPasswordLongEnough()
    ensures Text.Utf16Length("\U{1F600}\U{1F600}\U{1F600}") == MinPasswordLength
  {
    var p := "\U{1F600}\U{1F600}\U{1F600}";
    assert Text.Astral(p) == {0, 1, 2} by {
      assert 0 in Text.Astral(p) && 1 in Text.Astral(p) && 2 in Text.Astral(p);
    }
  }
}
