/**
 * The `/api/education` endpoint: the published catalog, optionally narrowed
 * to one category and one difficulty, newest first, as article cards.
 * `seedEducationContent` fills an empty collection with three articles.
 */
module EducationApi {
  import opened Wrappers
  import opened Seqs
  import Text
  import opened EducationContentModel
  import opened Http
  import opened Store

  /** The JSON body of a successful reply: `{ content }`. */
  datatype CatalogBody = Catalog(content: seq<ArticleCard>)

  /**
   * `req.query`: `category` and `difficulty` (empty when absent) and the
   * already parsed `limit` (`None` when absent).
   */
  datatype CatalogQuery = CatalogQuery(category: string, difficulty: string, limit: Option<nat>)

  const DefaultLimit: nat := 20

  /**
   * The query object: `{ isPublished: true }`, plus `category` and
   * `difficulty` equality when those parameters are non-empty.
   */
  predicate Matches(q: CatalogQuery, a: EducationContent) {
    && a.isPublished
    && (q.category == "" || CategoryName(a.category) == q.category)
    && (q.difficulty == "" || DifficultyName(a.difficulty) == q.difficulty)
  }

  function MatchesQuery(q: CatalogQuery): EducationContent -> bool {
    (a: EducationContent) => Matches(q, a)
  }

  function ByCreatedAt(a: EducationContent): SortKey {
    SortKey(a.createdAt, 0)
  }

  /** `find(query).sort({ createdAt: -1 }).limit(limit)`: the matching documents, newest first; a limit of 0 means no limit. */
  function CatalogRecords(articles: seq<EducationContent>, q: CatalogQuery): (r: seq<EducationContent>)
    ensures q.limit.GetOr(DefaultLimit) > 0 ==> |r| <= q.limit.GetOr(DefaultLimit)
    ensures forall a :: a in r ==> a in articles && Matches(q, a)
    ensures multiset(r) <= multiset(Filter(articles, MatchesQuery(q)))
    ensures |r| == if q.limit.GetOr(DefaultLimit) == 0 || |Filter(articles, MatchesQuery(q))| < q.limit.GetOr(DefaultLimit)
                   then |Filter(articles, MatchesQuery(q))| else q.limit.GetOr(DefaultLimit)
    ensures forall i, j :: 0 <= i < j < |r| ==> r[j].createdAt <= r[i].createdAt
  {
    CreationOrdered(TopN(Filter(articles, MatchesQuery(q)), ByCreatedAt, q.limit.GetOr(DefaultLimit)));
    TopN(Filter(articles, MatchesQuery(q)), ByCreatedAt, q.limit.GetOr(DefaultLimit))
  }

  /** A list sorted on the creation key descending is newest first. */
  lemma CreationOrdered(r: seq<EducationContent>)
    requires SortedDesc(r, ByCreatedAt)
    ensures forall i, j :: 0 <= i < j < |r| ==> r[j].createdAt <= r[i].createdAt
  {
    forall i, j | 0 <= i < j < |r| ensures r[j].createdAt <= r[i].createdAt {
      assert KeyLe(ByCreatedAt(r[j]), ByCreatedAt(r[i]));
    }
  }

  /** The same query with `.select(...)`: each document cut down to its card. */
  function CatalogOf(articles: seq<EducationContent>, q: CatalogQuery): (r: seq<ArticleCard>)
    ensures q.limit.GetOr(DefaultLimit) > 0 ==> |r| <= q.limit.GetOr(DefaultLimit)
    ensures forall i :: 0 <= i < |r| ==> exists a :: a in articles && Matches(q, a) && r[i] == Card(a)
    ensures multiset(r) <= multiset(Map(Filter(articles, MatchesQuery(q)), Card))
    ensures |r| == if q.limit.GetOr(DefaultLimit) == 0 || |Filter(articles, MatchesQuery(q))| < q.limit.GetOr(DefaultLimit)
                   then |Filter(articles, MatchesQuery(q))| else q.limit.GetOr(DefaultLimit)
    ensures forall i, j :: 0 <= i < j < |r| ==> r[j].createdAt <= r[i].createdAt
  {
    CatalogCards(articles, q);
    Map(CatalogRecords(articles, q), Card)
  }

  /** The cards cut from the kept records: cards of matching articles, in the same number and order. */
  lemma CatalogCards(articles: seq<EducationContent>, q: CatalogQuery)
    ensures forall i :: 0 <= i < |CatalogRecords(articles, q)| ==>
              exists a :: a in articles && Matches(q, a) && Map(CatalogRecords(articles, q), Card)[i] == Card(a)
    ensures multiset(Map(CatalogRecords(articles, q), Card)) <= multiset(Map(Filter(articles, MatchesQuery(q)), Card))
    ensures forall i, j :: 0 <= i < j < |CatalogRecords(articles, q)| ==>
              Map(CatalogRecords(articles, q), Card)[j].createdAt <= Map(CatalogRecords(articles, q), Card)[i].createdAt
  {
    var found := CatalogRecords(articles, q);
    var r := Map(found, Card);
    MapSubMultiset(found, Filter(articles, MatchesQuery(q)), Card);
    forall i | 0 <= i < |r| ensures exists a :: a in articles && Matches(q, a) && r[i] == Card(a) {
      assert found[i] in found;
    }
  }

  /** Every published article is listed when no filter is given and the limit is not reached. */
  lemma UnfilteredCatalogListsAllPublished(articles: seq<EducationContent>, q: CatalogQuery, a: EducationContent)
    requires q.category == "" && q.difficulty == ""
    requires a in articles && a.isPublished
    requires q.limit.GetOr(DefaultLimit) == 0 || |Filter(articles, MatchesQuery(q))| <= q.limit.GetOr(DefaultLimit)
    ensures Card(a) in CatalogOf(articles, q)
  {
    var found := Filter(articles, MatchesQuery(q));
    assert a in found;
    TopNKeepsAllWhenFew(found, ByCreatedAt, q.limit.GetOr(DefaultLimit), a);
    assert a in CatalogRecords(articles, q);
    MapHas(CatalogRecords(articles, q), Card, a);
  }

  /** A matching document left out of the query is no newer than any kept, and then the page is full. */
  lemma RecordsKeepNewest(articles: seq<EducationContent>, q: CatalogQuery, a: EducationContent)
    requires a in articles && Matches(q, a)
    requires a !in CatalogRecords(articles, q)
    ensures q.limit.GetOr(DefaultLimit) > 0 && |CatalogRecords(articles, q)| == q.limit.GetOr(DefaultLimit)
    ensures forall b :: b in CatalogRecords(articles, q) ==> a.createdAt <= b.createdAt
  {
    var found := Filter(articles, MatchesQuery(q));
    assert a in found;
    TopNKeepsBest(found, ByCreatedAt, q.limit.GetOr(DefaultLimit), a);
  }

  /** A matching article left out is no newer than any listed, and then the page is full. */
  lemma CatalogKeepsNewest(articles: seq<EducationContent>, q: CatalogQuery, a: EducationContent)
    requires a in articles && Matches(q, a)
    requires Card(a) !in CatalogOf(articles, q)
    ensures q.limit.GetOr(DefaultLimit) > 0 && |CatalogOf(articles, q)| == q.limit.GetOr(DefaultLimit)
    ensures forall c :: c in CatalogOf(articles, q) ==> a.createdAt <= c.createdAt
  {
    var kept := CatalogRecords(articles, q);
    var cards := CatalogOf(articles, q);
    if a in kept {
      MapHas(kept, Card, a);
    }
    RecordsKeepNewest(articles, q, a);
    forall c | c in cards ensures a.createdAt <= c.createdAt {
      var k :| 0 <= k < |cards| && cards[k] == c;
      assert kept[k] in kept;
    }
  }

  /** A category no article can have (a misspelling, say) lists nothing rather than being ignored. */
  lemma UnknownCategoryListsNothing(articles: seq<EducationContent>, q: CatalogQuery)
    requires q.category != "" && ParseCategory(q.category).None?
    ensures CatalogOf(articles, q) == []
  {
    forall a | a in articles ensures !Matches(q, a) {
      ParseCategoryName(a.category);
    }
    var kept := CatalogRecords(articles, q);
    assert forall a :: a !in kept;
  }

  /** The handler: every method needs a valid session; only `GET` is served. */
  function Handle(articles: seq<EducationContent>, auth: Auth, httpMethod: string, q: CatalogQuery): (r: Reply<CatalogBody>)
    ensures !auth.Verified? ==> r == AuthFailure(auth)
    ensures auth.Verified? && httpMethod == "GET" ==> r == Success(200, Catalog(CatalogOf(articles, q)))
    ensures auth.Verified? && httpMethod != "GET" ==> r == Failure(405, "Method not allowed")
  {
    if !auth.Verified? then AuthFailure(auth)
    else if httpMethod == "GET" then Success(200, Catalog(CatalogOf(articles, q)))
    else Failure(405, "Method not allowed")
  }

  const BasicsTitle: string := "Cybersecurity Basics for Small Business"
  const BasicsContent: string := "Learn the fundamental cybersecurity concepts every small business owner should know..."
  const BasicsSummary: string := "Essential cybersecurity knowledge for SME owners and managers."
  const PhishingTitle: string := "Recognizing and Preventing Phishing Attacks"
  const PhishingContent: string := "Phishing attacks are one of the most common threats facing SMEs..."
  const PhishingSummary: string := "How to identify and protect against phishing attempts."
  const PasswordsTitle: string := "Creating Strong Password Policies"
  const PasswordsContent: string := "Password security is the first line of defense for your business..."
  const PasswordsSummary: string := "Best practices for implementing effective password policies."

  /** The three articles `seedEducationContent` inserts, built with the schema defaults and stamped with the insertion time. */
  function InitialContent(now: nat): (r: seq<EducationContent>)
    ensures |r| == 3
    ensures forall i :: 0 <= i < |r| ==> ValidContent(r[i]) && r[i].isPublished
  {
    var basics := EducationContent(BasicsTitle, BasicsContent, BasicsSummary, Basics, Beginner, 5,
                                   ["fundamentals", "business-basics"], true, 0, DefaultAuthor, now);
    var phishing := EducationContent(PhishingTitle, PhishingContent, PhishingSummary, Phishing, Beginner, 7,
                                     ["phishing", "email-security"], true, 0, DefaultAuthor, now);
    var passwords := EducationContent(PasswordsTitle, PasswordsContent, PasswordsSummary, Passwords, Intermediate, 6,
                                      ["passwords", "authentication"], true, 0, DefaultAuthor, now);
    assert ValidContent(basics);
    assert ValidContent(phishing);
    assert ValidContent(passwords);
    [basics, phishing, passwords]
  }

  /** The collection after `seedEducationContent`: the three articles when it was empty, unchanged otherwise. */
  function Seeded(articles: seq<EducationContent>, now: nat): seq<EducationContent> {
    if |articles| == 0 then InitialContent(now) else articles
  }

  /** Seeding twice is seeding once, whenever the second run happens. */
  lemma SeedIdempotent(articles: seq<EducationContent>, now: nat, later: nat)
    ensures Seeded(Seeded(articles, now), later) == Seeded(articles, now)
    ensures |Seeded(articles, now)| > 0
  {
  }

  /** `seedEducationContent()`: `countDocuments()`, then `insertMany` when it was 0. */
  method SeedEducationContent(db: Database, now: nat)
    requires db.Valid()
    modifies db
    ensures db.Valid()
    ensures db.articles == Seeded(old(db.articles), now)
    ensures db.users == old(db.users) && db.assessments == old(db.assessments) && db.threats == old(db.threats)
  {
    var existingCount := |db.articles|;
    if existingCount == 0 {
      db.articles := InitialContent(now);
    }
  }
}
