/**
 * The `/api/threats` endpoint. `GET` gives the caller the active alerts that
 * concern their industry, most severe first; `POST` lets an administrator
 * add an alert. `seedThreats` fills an empty collection with two alerts.
 */
module ThreatsApi {
  import opened Wrappers
  import opened Seqs
  import Text
  import opened UserModel
  import opened ThreatAlertModel
  import opened Http
  import opened Store

  /** The JSON body of a successful reply: `{ threats }` or the created `{ threat }`. */
  datatype ThreatsBody = Feed(threats: seq<ThreatAlert>) | Created(threat: ThreatAlert)

  const FeedLimit: nat := 20

  /** `affectedIndustries` names the industry itself. */
  predicate NamesIndustry(tags: seq<IndustryTag>, industry: Industry) {
    exists t :: t in tags && TagName(t) == IndustryName(industry)
  }

  /**
   * `{ isActive: true, $or: [{ affectedIndustries: industry },
   * { affectedIndustries: 'all' }, { affectedIndustries: { $size: 0 } }] }`;
   * `expiresAt` plays no part.
   */
  predicate Relevant(industry: Industry, t: ThreatAlert) {
    t.isActive && (NamesIndustry(t.affectedIndustries, industry) || TagAll in t.affectedIndustries || t.affectedIndustries == [])
  }

  function RelevantTo(industry: Industry): ThreatAlert -> bool {
    (t: ThreatAlert) => Relevant(industry, t)
  }

  /** `.sort({ severity: -1, createdAt: -1 })`: by the stored severity string, then by age. */
  function BySeverity(t: ThreatAlert): SortKey {
    SortKey(SeverityRank(t.severity), t.createdAt)
  }

  /** The `GET` query: relevant alerts, sorted, at most 20. */
  function ThreatFeed(threats: seq<ThreatAlert>, industry: Industry): (r: seq<ThreatAlert>)
    ensures |r| <= FeedLimit
    ensures forall t :: t in r ==> t in threats && Relevant(industry, t)
    ensures multiset(r) <= multiset(Filter(threats, RelevantTo(industry)))
    ensures |r| == if |Filter(threats, RelevantTo(industry))| < FeedLimit then |Filter(threats, RelevantTo(industry))| else FeedLimit
    ensures forall i, j :: 0 <= i < j < |r| ==>
      || SeverityRank(r[j].severity) < SeverityRank(r[i].severity)
      || (r[j].severity == r[i].severity && r[j].createdAt <= r[i].createdAt)
  {
    SeverityOrdered(TopN(Filter(threats, RelevantTo(industry)), BySeverity, FeedLimit));
    TopN(Filter(threats, RelevantTo(industry)), BySeverity, FeedLimit)
  }

  /** A list sorted on the severity key descending, read back as severity rank and then age. */
  lemma SeverityOrdered(r: seq<ThreatAlert>)
    requires SortedDesc(r, BySeverity)
    ensures forall i, j :: 0 <= i < j < |r| ==>
      || SeverityRank(r[j].severity) < SeverityRank(r[i].severity)
      || (r[j].severity == r[i].severity && r[j].createdAt <= r[i].createdAt)
  {
    forall i, j | 0 <= i < j < |r|
      ensures || SeverityRank(r[j].severity) < SeverityRank(r[i].severity)
              || (r[j].severity == r[i].severity && r[j].createdAt <= r[i].createdAt)
    {
      assert KeyLe(BySeverity(r[j]), BySeverity(r[i]));
    }
  }

  /**
   * Sorting on the severity string descending puts "medium" first and
   * "critical" last: a critical alert follows every alert of another severity.
   */
  lemma CriticalAlertsListedLast(threats: seq<ThreatAlert>, industry: Industry, i: nat, j: nat)
    requires i < |ThreatFeed(threats, industry)| && j < |ThreatFeed(threats, industry)|
    requires ThreatFeed(threats, industry)[i].severity == Critical
    requires ThreatFeed(threats, industry)[j].severity != Critical
    ensures j < i
  {
    var feed := ThreatFeed(threats, industry);
    assert SeverityRank(feed[i].severity) == 0;
    assert SeverityRank(feed[j].severity) > 0;
    assert i != j;
    forall a, b | 0 <= a < b < |feed| ensures SeverityRank(feed[b].severity) <= SeverityRank(feed[a].severity) {
    }
  }

  /**
   * A relevant alert left out of the feed means the feed is full of alerts
   * ranked at least as high (by severity string, then newer).
   */
  lemma FeedKeepsHighestRanked(threats: seq<ThreatAlert>, industry: Industry, t: ThreatAlert)
    requires t in threats && Relevant(industry, t) && t !in ThreatFeed(threats, industry)
    ensures |ThreatFeed(threats, industry)| == FeedLimit
    ensures forall u :: u in ThreatFeed(threats, industry) ==> KeyLe(BySeverity(t), BySeverity(u))
  {
    var candidates := Filter(threats, RelevantTo(industry));
    assert t in candidates;
    TopNKeepsBest(candidates, BySeverity, FeedLimit, t);
  }

  /** With at most 20 relevant alerts, every one of them is in the feed. */
  lemma FeedShowsAllWhenFew(threats: seq<ThreatAlert>, industry: Industry, t: ThreatAlert)
    requires |Filter(threats, RelevantTo(industry))| <= FeedLimit
    requires t in threats && Relevant(industry, t)
    ensures t in ThreatFeed(threats, industry)
  {
    var candidates := Filter(threats, RelevantTo(industry));
    assert t in candidates;
    TopNKeepsAllWhenFew(candidates, BySeverity, FeedLimit, t);
  }

  /**
   * No alert can name the `other` industry, so a company in it sees only
   * alerts tagged `all` or with no industries at all.
   */
  lemma OtherIndustrySeesGeneralAlertsOnly(t: ThreatAlert)
    ensures Relevant(OtherIndustry, t) <==> t.isActive && (TagAll in t.affectedIndustries || t.affectedIndustries == [])
  {
    if NamesIndustry(t.affectedIndustries, OtherIndustry) {
      var tag :| tag in t.affectedIndustries && TagName(tag) == IndustryName(OtherIndustry);
      NoTagIsOther(tag);
    }
  }

  /** An alert's expiry date never changes whether it is shown. */
  lemma ExpiryIgnored(industry: Industry, t: ThreatAlert, expiresAt: Option<nat>)
    ensures Relevant(industry, t.(expiresAt := expiresAt)) == Relevant(industry, t)
  {
  }

  /**
   * The fields of an administrator's `POST` body; an absent string field is
   * the empty string, an absent array `None`.
   */
  datatype ThreatInput = ThreatInput(
    title: string,
    description: string,
    severity: string,
    category: string,
    affectedIndustries: Option<seq<string>>,
    recommendations: Option<seq<string>>)

  /** `!title || !description || !severity || !category` */
  predicate MissingRequired(input: ThreatInput) {
    input.title == "" || input.description == "" || input.severity == "" || input.category == ""
  }

  /**
   * `new ThreatAlert({...})` with `affectedIndustries || ['all']` and
   * `recommendations || []`, then the schema's casting and validation:
   * `None` when `save()` would reject it.
   */
  function BuildAlert(input: ThreatInput, now: nat): (r: Option<ThreatAlert>)
    ensures r.Some? <==>
      && ParseSeverity(input.severity).Some? && ParseCategory(input.category).Some?
      && ParseTags(input.affectedIndustries.GetOr(["all"])).Some?
      && Text.Trim(input.title) != [] && input.description != []
    ensures r.Some? ==> ValidThreatAlert(r.value)
    ensures r.Some? ==>
      && r.value.title == Text.Trim(input.title) && r.value.description == input.description
      && SeverityName(r.value.severity) == input.severity && CategoryName(r.value.category) == input.category
      && |r.value.affectedIndustries| == |input.affectedIndustries.GetOr(["all"])|
      && (forall i :: 0 <= i < |r.value.affectedIndustries| ==>
            TagName(r.value.affectedIndustries[i]) == input.affectedIndustries.GetOr(["all"])[i])
      && r.value.recommendations == input.recommendations.GetOr([])
      && r.value.isActive && r.value.expiresAt == None && r.value.source == DefaultSource && r.value.createdAt == now
  {
    match (ParseSeverity(input.severity), ParseCategory(input.category), ParseTags(input.affectedIndustries.GetOr(["all"])))
    case (Some(severity), Some(category), Some(tags)) =>
      var alert := NewThreatAlert(input.title, input.description, severity, category, tags,
                                  input.recommendations.GetOr([]), now);
      if ValidThreatAlert(alert) then Some(alert) else None
    case _ => None
  }

  /** An alert created without `affectedIndustries` is tagged `all` and reaches every industry. */
  lemma DefaultAlertReachesEveryone(input: ThreatInput, now: nat, industry: Industry)
    requires input.affectedIndustries.None? && BuildAlert(input, now).Some?
    ensures BuildAlert(input, now).value.affectedIndustries == [TagAll]
    ensures Relevant(industry, BuildAlert(input, now).value)
  {
    var tags := BuildAlert(input, now).value.affectedIndustries;
    assert |tags| == 1 && TagName(tags[0]) == "all";
  }

  /** `threat.save()` of an alert that passes validation: appended, nothing else changes. */
  method Publish(db: Database, alert: ThreatAlert)
    requires db.Valid() && ValidThreatAlert(alert)
    modifies db
    ensures db.Valid()
    ensures db.threats == old(db.threats) + [alert]
    ensures db.users == old(db.users) && db.assessments == old(db.assessments) && db.articles == old(db.articles)
  {
    var threats := db.threats + [alert];
    assert forall i :: 0 <= i < |threats| ==> ValidThreatAlert(threats[i]);
    db.threats := threats;
  }

  /** The handler. Only an administrator's `POST` reaches the creation branch; anyone else's gets 405. */
  method Handle(db: Database, auth: Auth, httpMethod: string, input: ThreatInput, now: nat)
    returns (reply: Reply<ThreatsBody>)
    requires db.Valid()
    modifies db
    ensures db.Valid()
    ensures !auth.Verified? ==> reply == AuthFailure(auth) && unchanged(db)
    ensures auth.Verified? && httpMethod == "GET" ==>
      && unchanged(db)
      && reply == match FindById(db.users, auth.claims.userId)
                  case None => Failure(404, "User not found")
                  case Some(user) => Success(200, Feed(ThreatFeed(db.threats, user.industry)))
    ensures auth.Verified? && httpMethod == "POST" && auth.claims.role == Admin && MissingRequired(input) ==>
      reply == Failure(400, "Required fields missing") && unchanged(db)
    ensures auth.Verified? && httpMethod == "POST" && auth.claims.role == Admin && !MissingRequired(input) ==>
      match BuildAlert(input, now)
      case None => reply == Failure(500, "Internal server error") && unchanged(db)
      case Some(alert) =>
        && reply == Success(201, Created(alert))
        && db.threats == old(db.threats) + [alert]
        && db.users == old(db.users) && db.assessments == old(db.assessments) && db.articles == old(db.articles)
    ensures auth.Verified? && httpMethod != "GET" && !(httpMethod == "POST" && auth.claims.role == Admin) ==>
      reply == Failure(405, "Method not allowed") && unchanged(db)
  {
    if !auth.Verified? {
      return AuthFailure(auth);
    }
    if httpMethod == "GET" {
      var user := FindById(db.users, auth.claims.userId);
      if user.None? {
        return Failure(404, "User not found");
      }
      reply := Success(200, Feed(ThreatFeed(db.threats, user.value.industry)));
    } else if httpMethod == "POST" && auth.claims.role == Admin {
      if MissingRequired(input) {
        return Failure(400, "Required fields missing");
      }
      var alert := BuildAlert(input, now);
      if alert.None? {
        // `threat.save()` throws a cast or validation error.
        return Failure(500, "Internal server error");
      }
      Publish(db, alert.value);
      reply := Success(201, Created(alert.value));
    } else {
      reply := Failure(405, "Method not allowed");
    }
  }

  const PhishingTitle: string := "Phishing Campaigns Targeting Kenyan SMEs"
  const PhishingDescription: string :=
    "Increased phishing attacks using fake M-Pesa and banking notifications to steal credentials."
  const PhishingAdvice: seq<string> := [
    "Verify sender authenticity before clicking links",
    "Never provide credentials via email or SMS",
    "Report suspicious messages to your bank"]
  const RansomwareTitle: string := "Ransomware Affecting Small Businesses"
  const RansomwareDescription: string :=
    "New ransomware variant specifically targeting small business networks with weak security."
  const RansomwareAdvice: seq<string> := [
    "Implement regular data backups",
    "Keep software updated",
    "Train employees on email security"]

  /** The seeded titles have no surrounding white space, so the `trim` setter keeps them. */
  lemma SeedTitlesTrimmed()
    ensures Text.Trim(PhishingTitle) == PhishingTitle && Text.Trim(RansomwareTitle) == RansomwareTitle
  {
    Text.AlreadyTrimmed(PhishingTitle);
    Text.AlreadyTrimmed(RansomwareTitle);
  }

  /**
   * The two alerts `seedThreats` inserts, with the schema defaults, stamped
   * with the insertion time; the titles are already trimmed (`SeedTitlesTrimmed`).
   */
  function InitialThreats(now: nat): (r: seq<ThreatAlert>)
    ensures |r| == 2
    ensures forall i :: 0 <= i < |r| ==> ValidThreatAlert(r[i]) && TagAll in r[i].affectedIndustries
  {
    [ThreatAlert(PhishingTitle, PhishingDescription, High, Phishing, [TagRetail, TagServices, TagAll],
                 PhishingAdvice, true, None, DefaultSource, now),
     ThreatAlert(RansomwareTitle, RansomwareDescription, Critical, Ransomware, [TagAll],
                 RansomwareAdvice, true, None, DefaultSource, now)]
  }

  /** The collection after `seedThreats`: the two alerts when it was empty, unchanged otherwise. */
  function Seeded(threats: seq<ThreatAlert>, now: nat): seq<ThreatAlert> {
    if |threats| == 0 then InitialThreats(now) else threats
  }

  /** Seeding twice is seeding once, whenever the second run happens. */
  lemma SeedIdempotent(threats: seq<ThreatAlert>, now: nat, later: nat)
    ensures Seeded(Seeded(threats, now), later) == Seeded(threats, now)
    ensures |Seeded(threats, now)| > 0
  {
  }

  /** Both seeded alerts are tagged `all`, so every company sees them. */
  lemma SeedReachesEveryone(now: nat, industry: Industry)
    ensures forall t :: t in InitialThreats(now) ==> Relevant(industry, t)
  {
  }

  /** `seedThreats()`: `countDocuments()`, then `insertMany` when it was 0. */
  method SeedThreats(db: Database, now: nat)
    requires db.Valid()
    modifies db
    ensures db.Valid()
    ensures db.threats == Seeded(old(db.threats), now)
    ensures db.users == old(db.users) && db.assessments == old(db.assessments) && db.articles == old(db.articles)
  {
    var existingCount := |db.threats|;
    if existingCount == 0 {
      db.threats := InitialThreats(now);
    }
  }
}
