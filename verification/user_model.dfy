/**
 * The `User` schema: a company account. The enumerations are datatypes, and
 * `Parse…` functions read request strings the way the schema's `enum`
 * validators do. `ValidUser` collects what a document must satisfy to be
 * saved, and `UniqueEmails` is the unique index on `email`.
 */
module UserModel {
  import opened Wrappers
  import Text

  datatype CompanySize = Size1To10 | Size11To50 | Size51To200 | Size201To500

  function CompanySizeName(c: CompanySize): string {
    match c
    case Size1To10 => "1-10"
    case Size11To50 => "11-50"
    case Size51To200 => "51-200"
    case Size201To500 => "201-500"
  }

  function ParseCompanySize(s: string): (r: Option<CompanySize>)
    ensures r.Some? ==> CompanySizeName(r.value) == s
  {
    if s == "1-10" then Some(Size1To10)
    else if s == "11-50" then Some(Size11To50)
    else if s == "51-200" then Some(Size51To200)
    else if s == "201-500" then Some(Size201To500)
    else None
  }

  lemma ParseCompanySizeName(c: CompanySize)
    ensures ParseCompanySize(CompanySizeName(c)) == Some(c)
  {
  }

  datatype Industry = Retail | Manufacturing | Agriculture | Services | Technology | OtherIndustry

  function IndustryName(i: Industry): string {
    match i
    case Retail => "retail"
    case Manufacturing => "manufacturing"
    case Agriculture => "agriculture"
    case Services => "services"
    case Technology => "technology"
    case OtherIndustry => "other"
  }

  function ParseIndustry(s: string): (r: Option<Industry>)
    ensures r.Some? ==> IndustryName(r.value) == s
  {
    if s == "retail" then Some(Retail)
    else if s == "manufacturing" then Some(Manufacturing)
    else if s == "agriculture" then Some(Agriculture)
    else if s == "services" then Some(Services)
    else if s == "technology" then Some(Technology)
    else if s == "other" then Some(OtherIndustry)
    else None
  }

  lemma ParseIndustryName(i: Industry)
    ensures ParseIndustry(IndustryName(i)) == Some(i)
  {
  }

  datatype Role = Owner | Employee | Admin

  /** The schema default for `role`. */
  const DefaultRole: Role := Owner
  /** The schema default for `securityScore`. */
  const DefaultSecurityScore: int := 0

  /** `_id` of a user document: its position in the collection. */
  type UserId = nat

  datatype User = User(
    email: string,
    password: string,
    companyName: string,
    companySize: CompanySize,
    industry: Industry,
    role: Role,
    securityScore: int,
    lastAssessment: Option<nat>,
    isActive: bool)

  /** The `lowercase` and `trim` setters the schema applies to `email` before saving. */
  function NormalizeEmail(email: string): (r: string)
    ensures |r| <= |email|
    ensures r == Text.Lower(r) && Text.IsTrimmed(r)
    ensures Text.IsTrimmed(email) ==> r == Text.Lower(email)
  {
    Text.LowerTrimCommute(email);
    Text.LowerIdempotent(Text.Trim(email));
    Text.LowerKeepsTrimmed(email);
    Text.Trim(Text.Lower(email))
  }

  /** Normalising an already normalised address changes nothing. */
  lemma NormalizeEmailIdempotent(email: string)
    ensures NormalizeEmail(NormalizeEmail(email)) == NormalizeEmail(email)
  {
    var n := NormalizeEmail(email);
    Text.TrimIdempotent(n);
  }

  /** A user document built from its fields with the schema defaults filled in. */
  function NewUser(email: string, password: string, companyName: string,
                   companySize: CompanySize, industry: Industry,
                   role: Option<Role>, securityScore: Option<int>): (u: User)
    ensures u.email == NormalizeEmail(email) && u.companyName == Text.Trim(companyName)
    ensures u.role == role.GetOr(DefaultRole) && u.securityScore == securityScore.GetOr(DefaultSecurityScore)
    ensures u.lastAssessment == None && u.isActive
  {
    User(NormalizeEmail(email), password, Text.Trim(companyName), companySize, industry,
         role.GetOr(DefaultRole), securityScore.GetOr(DefaultSecurityScore), None, true)
  }

  /** The schema's validators: required strings non-empty, `password` at least 6 long, `securityScore` in 0..100. */
  predicate ValidUser(u: User) {
    && u.email != [] && u.email == NormalizeEmail(u.email)
    && Text.Utf16Length(u.password) >= 6
    && u.companyName != [] && Text.IsTrimmed(u.companyName)
    && 0 <= u.securityScore <= 100
  }

  /** Setting a score within 0..100 and an assessment time keeps a user valid. */
  lemma ScoreUpdateKeepsValid(u: User, score: int, now: nat)
    requires ValidUser(u) && 0 <= score <= 100
    ensures ValidUser(u.(securityScore := score, lastAssessment := Some(now)))
  {
    var v := u.(securityScore := score, lastAssessment := Some(now));
    assert v.email == u.email && v.password == u.password && v.companyName == u.companyName;
  }

  /** The unique index on `email`. */
  predicate UniqueEmails(users: seq<User>) {
    forall i, j :: 0 <= i < j < |users| ==> users[i].email != users[j].email
  }

  /** Inserting an address the collection does not hold keeps the index unique. */
  lemma InsertKeepsUnique(users: seq<User>, u: User)
    requires UniqueEmails(users) && forall i :: 0 <= i < |users| ==> users[i].email != u.email
    ensures UniqueEmails(users + [u])
  {
  }

  /** Inserting a valid document into a collection of valid documents. */
  lemma InsertKeepsValid(users: seq<User>, u: User)
    requires forall i :: 0 <= i < |users| ==> ValidUser(users[i])
    requires ValidUser(u)
    ensures forall i :: 0 <= i < |users + [u]| ==> ValidUser((users + [u])[i])
  {
  }

  /** `findOne({ email })`: the first user with that stored address. */
  function FindByEmail(users: seq<User>, email: string): (r: Option<UserId>)
    ensures r.Some? ==> r.value < |users| && users[r.value].email == email
    ensures r.Some? ==> forall i :: 0 <= i < r.value ==> users[i].email != email
    ensures r.None? <==> forall i :: 0 <= i < |users| ==> users[i].email != email
  {
    if users == [] then None
    else if users[0].email == email then Some(0)
    else match FindByEmail(users[1..], email)
      case Some(i) => Some(i + 1)
      case None => None
  }

  /**
   * `findOne({ email: value })` on the `User` model: Mongoose casts the filter
   * value through the path's `lowercase` and `trim` setters before querying,
   * so the lookup is by the normalised value.
   */
  function FindOne(users: seq<User>, value: string): (r: Option<UserId>)
    ensures r.Some? ==> r.value < |users| && users[r.value].email == NormalizeEmail(value)
    ensures r.None? <==> forall i :: 0 <= i < |users| ==> users[i].email != NormalizeEmail(value)
  {
    FindByEmail(users, NormalizeEmail(value))
  }

  /**
   * White space around the value does not change what the handlers' lookup
   * (`findOne` on the lowercased value) finds.
   */
  lemma FindOneIgnoresPadding(users: seq<User>, value: string)
    ensures FindOne(users, Text.Lower(Text.Trim(value))) == FindOne(users, Text.Lower(value))
  {
    var lowered := Text.Lower(value);
    Text.LowerTrimCommute(value);
    Text.LowerTrimCommute(lowered);
    Text.LowerTrimCommute(Text.Trim(lowered));
    Text.TrimIdempotent(lowered);
    Text.LowerIdempotent(value);
    Text.LowerIdempotent(Text.Trim(value));
  }

  /** `findById(id)` */
  function FindById(users: seq<User>, id: UserId): (r: Option<User>)
    ensures r.Some? <==> id < |users|
    ensures r.Some? ==> r.value == users[id]
  {
    if id < |users| then Some(users[id]) else None
  }
}
