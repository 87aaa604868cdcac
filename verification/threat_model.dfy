/**
 * The `ThreatAlert` schema: a security alert shown to companies in the
 * industries it names. The collection is sorted on the raw `severity`
 * string, so the severities are ordered here as their names compare.
 */
module ThreatAlertModel {
  import opened Wrappers
  import Text
  import UserModel

  datatype Severity = Low | Medium | High | Critical

  function SeverityName(s: Severity): string {
    match s
    case Low => "low"
    case Medium => "medium"
    case High => "high"
    case Critical => "critical"
  }

  function ParseSeverity(s: string): (r: Option<Severity>)
    ensures r.Some? ==> SeverityName(r.value) == s
  {
    if s == "low" then Some(Low)
    else if s == "medium" then Some(Medium)
    else if s == "high" then Some(High)
    else if s == "critical" then Some(Critical)
    else None
  }

  lemma ParseSeverityName(s: Severity)
    ensures ParseSeverity(SeverityName(s)) == Some(s)
  {
  }

  /**
   * The position of a severity when the names are compared as strings:
   * "critical" < "high" < "low" < "medium".
   */
  function SeverityRank(s: Severity): nat {
    match s
    case Critical => 0
    case High => 1
    case Low => 2
    case Medium => 3
  }

  /** Ranks order the severities exactly as MongoDB orders their stored names. */
  lemma {:induction false} RankIsNameOrder(a: Severity, b: Severity)
    ensures SeverityRank(a) < SeverityRank(b) <==> Text.Less(SeverityName(a), SeverityName(b))
  {
    // The four names start with four different letters: 'c' < 'h' < 'l' < 'm'.
    if a == b {
      LessIrreflexive(SeverityName(a));
    }
  }

  lemma {:induction false} LessIrreflexive(s: string)
    ensures !Text.Less(s, s)
  {
    if s != [] {
      LessIrreflexive(s[1..]);
    }
  }

  datatype ThreatCategory = Phishing | Malware | Ransomware | DataBreach | SocialEngineering | OtherThreat

  function CategoryName(c: ThreatCategory): string {
    match c
    case Phishing => "phishing"
    case Malware => "malware"
    case Ransomware => "ransomware"
    case DataBreach => "data-breach"
    case SocialEngineering => "social-engineering"
    case OtherThreat => "other"
  }

  function ParseCategory(s: string): (r: Option<ThreatCategory>)
    ensures r.Some? ==> CategoryName(r.value) == s
  {
    if s == "phishing" then Some(Phishing)
    else if s == "malware" then Some(Malware)
    else if s == "ransomware" then Some(Ransomware)
    else if s == "data-breach" then Some(DataBreach)
    else if s == "social-engineering" then Some(SocialEngineering)
    else if s == "other" then Some(OtherThreat)
    else None
  }

  lemma ParseCategoryName(c: ThreatCategory)
    ensures ParseCategory(CategoryName(c)) == Some(c)
  {
  }

  /** An entry of `affectedIndustries`: the five named industries or `all`; `other` is not allowed. */
  datatype IndustryTag = TagRetail | TagManufacturing | TagAgriculture | TagServices | TagTechnology | TagAll

  function TagName(t: IndustryTag): string {
    match t
    case TagRetail => "retail"
    case TagManufacturing => "manufacturing"
    case TagAgriculture => "agriculture"
    case TagServices => "services"
    case TagTechnology => "technology"
    case TagAll => "all"
  }

  function ParseTag(s: string): (r: Option<IndustryTag>)
    ensures r.Some? ==> TagName(r.value) == s
  {
    if s == "retail" then Some(TagRetail)
    else if s == "manufacturing" then Some(TagManufacturing)
    else if s == "agriculture" then Some(TagAgriculture)
    else if s == "services" then Some(TagServices)
    else if s == "technology" then Some(TagTechnology)
    else if s == "all" then Some(TagAll)
    else None
  }

  /** Every element parses, or the whole array is rejected. */
  function ParseTags(ss: seq<string>): (r: Option<seq<IndustryTag>>)
    ensures r.Some? ==> |r.value| == |ss| && forall i :: 0 <= i < |ss| ==> TagName(r.value[i]) == ss[i]
    ensures r.None? ==> exists i :: 0 <= i < |ss| && ParseTag(ss[i]).None?
  {
    if ss == [] then Some([])
    else match (ParseTag(ss[0]), ParseTags(ss[1..]))
      case (Some(t), Some(ts)) => Some([t] + ts)
      case (None, _) => None
      case (_, None) =>
        assert forall i :: 0 < i < |ss| ==> ss[1..][i - 1] == ss[i];
        None
  }

  /** No tag names the `other` industry. */
  lemma NoTagIsOther(t: IndustryTag)
    ensures TagName(t) != UserModel.IndustryName(UserModel.OtherIndustry)
  {
  }

  const DefaultSource: string := "SME SecuAware System"

  datatype ThreatAlert = ThreatAlert(
    title: string,
    description: string,
    severity: Severity,
    category: ThreatCategory,
    affectedIndustries: seq<IndustryTag>,
    recommendations: seq<string>,
    isActive: bool,
    expiresAt: Option<nat>,
    source: string,
    createdAt: nat)

  /** A new alert with the schema defaults: active, no expiry, the system as source; `title` is trimmed. */
  function NewThreatAlert(title: string, description: string, severity: Severity, category: ThreatCategory,
                          affectedIndustries: seq<IndustryTag>, recommendations: seq<string>, now: nat): (t: ThreatAlert)
    ensures t.title == Text.Trim(title) && t.description == description
    ensures t.isActive && t.expiresAt == None && t.source == DefaultSource && t.createdAt == now
  {
    ThreatAlert(Text.Trim(title), description, severity, category, affectedIndustries, recommendations,
                true, None, DefaultSource, now)
  }

  /** Required strings are non-empty (`title` after trimming). */
  predicate ValidThreatAlert(t: ThreatAlert) {
    t.title != [] && Text.IsTrimmed(t.title) && t.description != []
  }
}
