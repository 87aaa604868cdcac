/** The `EducationContent` schema: an article of the education catalog. */
module EducationContentModel {
  import opened Wrappers
  import Text

  datatype Category = Basics | Phishing | Passwords | Malware | Backup | Compliance | IncidentResponse

  function CategoryName(c: Category): string {
    match c
    case Basics => "basics"
    case Phishing => "phishing"
    case Passwords => "passwords"
    case Malware => "malware"
    case Backup => "backup"
    case Compliance => "compliance"
    case IncidentResponse => "incident-response"
  }

  function ParseCategory(s: string): (r: Option<Category>)
    ensures r.Some? ==> CategoryName(r.value) == s
  {
    if s == "basics" then Some(Basics)
    else if s == "phishing" then Some(Phishing)
    else if s == "passwords" then Some(Passwords)
    else if s == "malware" then Some(Malware)
    else if s == "backup" then Some(Backup)
    else if s == "compliance" then Some(Compliance)
    else if s == "incident-response" then Some(IncidentResponse)
    else None
  }

  lemma ParseCategoryName(c: Category)
    ensures ParseCategory(CategoryName(c)) == Some(c)
  {
  }

  /** No category is called "all", so the client's "all" choice can never be a category. */
  lemma NoCategoryIsAll(c: Category)
    ensures CategoryName(c) != "all"
  {
  }

  datatype Difficulty = Beginner | Intermediate | Advanced

  function DifficultyName(d: Difficulty): string {
    match d
    case Beginner => "beginner"
    case Intermediate => "intermediate"
    case Advanced => "advanced"
  }

  function ParseDifficulty(s: string): (r: Option<Difficulty>)
    ensures r.Some? ==> DifficultyName(r.value) == s
  {
    if s == "beginner" then Some(Beginner)
    else if s == "intermediate" then Some(Intermediate)
    else if s == "advanced" then Some(Advanced)
    else None
  }

  lemma ParseDifficultyName(d: Difficulty)
    ensures ParseDifficulty(DifficultyName(d)) == Some(d) && DifficultyName(d) != "all"
  {
  }

  const DefaultAuthor: string := "SME SecuAware Team"
  const MaxSummaryLength: nat := 200

  datatype EducationContent = EducationContent(
    title: string,
    content: string,
    summary: string,
    category: Category,
    difficulty: Difficulty,
    estimatedReadTime: int,
    tags: seq<string>,
    isPublished: bool,
    viewCount: int,
    author: string,
    createdAt: nat)

  /** Required strings are non-empty, the summary is at most 200 long, the read time at least 1 minute. */
  predicate ValidContent(a: EducationContent) {
    && a.title != [] && Text.IsTrimmed(a.title)
    && a.content != []
    && a.summary != [] && Text.Utf16Length(a.summary) <= MaxSummaryLength
    && a.estimatedReadTime >= 1
  }

  /** The fields the catalog endpoint selects: `title summary category difficulty estimatedReadTime tags createdAt`. */
  datatype ArticleCard = ArticleCard(
    title: string,
    summary: string,
    category: Category,
    difficulty: Difficulty,
    estimatedReadTime: int,
    tags: seq<string>,
    createdAt: nat)

  function Card(a: EducationContent): (c: ArticleCard)
    ensures c.title == a.title && c.summary == a.summary && c.tags == a.tags
    ensures c.estimatedReadTime == a.estimatedReadTime
    ensures c.category == a.category && c.difficulty == a.difficulty && c.createdAt == a.createdAt
  {
    ArticleCard(a.title, a.summary, a.category, a.difficulty, a.estimatedReadTime, a.tags, a.createdAt)
  }
}
