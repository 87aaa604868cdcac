/**
 * The `/api/assessment` endpoint. `GET` lists the caller's five latest
 * assessments; `POST` scores a submitted questionnaire, saves the assessment
 * and then copies its score onto the caller's user document.
 */
module AssessmentApi {
  import opened Wrappers
  import opened Seqs
  import opened UserModel
  import opened AssessmentModel
  import opened Scoring
  import opened Http
  import opened Store

  /** The JSON body of a successful reply: `{ assessments }` or the completed assessment. */
  datatype AssessmentBody =
    | History(assessments: seq<Assessment>)
    | Completed(score: Score, riskLevel: RiskLevel, recommendations: seq<Recommendation>, completedAt: nat)

  const HistoryLimit: nat := 5
  /** `Object.keys(responses).length` must reach this. */
  const RequiredKeyCount: nat := 7

  function ByCompletedAt(a: Assessment): SortKey {
    SortKey(a.completedAt, 0)
  }

  function OwnedBy(userId: UserId): Assessment -> bool {
    (a: Assessment) => a.userId == userId
  }

  /** `Assessment.find({ userId }).sort({ completedAt: -1 }).limit(5)` */
  function LatestAssessments(all: seq<Assessment>, userId: UserId): (r: seq<Assessment>)
    ensures |r| <= HistoryLimit
    ensures forall a :: a in r ==> a in all && a.userId == userId
    ensures multiset(r) <= multiset(Filter(all, OwnedBy(userId)))
    ensures |r| == if |Filter(all, OwnedBy(userId))| < HistoryLimit then |Filter(all, OwnedBy(userId))| else HistoryLimit
    ensures forall i, j :: 0 <= i < j < |r| ==> r[j].completedAt <= r[i].completedAt
  {
    CompletionOrdered(TopN(Filter(all, OwnedBy(userId)), ByCompletedAt, HistoryLimit));
    TopN(Filter(all, OwnedBy(userId)), ByCompletedAt, HistoryLimit)
  }

  /** A list sorted on the completion key descending is newest first. */
  lemma CompletionOrdered(r: seq<Assessment>)
    requires SortedDesc(r, ByCompletedAt)
    ensures forall i, j :: 0 <= i < j < |r| ==> r[j].completedAt <= r[i].completedAt
  {
    forall i, j | 0 <= i < j < |r| ensures r[j].completedAt <= r[i].completedAt {
      assert KeyLe(ByCompletedAt(r[j]), ByCompletedAt(r[i]));
    }
  }

  /**
   * An assessment of the caller's that the history leaves out is no newer than
   * any it shows, and then the history is full.
   */
  lemma LatestAreNewest(all: seq<Assessment>, userId: UserId, a: Assessment)
    requires a in all && a.userId == userId && a !in LatestAssessments(all, userId)
    ensures |LatestAssessments(all, userId)| == HistoryLimit
    ensures forall b :: b in LatestAssessments(all, userId) ==> a.completedAt <= b.completedAt
  {
    var own := Filter(all, OwnedBy(userId));
    assert a in own;
    TopNKeepsBest(own, ByCompletedAt, HistoryLimit, a);
  }

  /** `!responses || Object.keys(responses).length < 7` */
  predicate Incomplete(responses: Option<Responses>) {
    responses.None? || |responses.value| < RequiredKeyCount
  }

  /** The document `new Assessment({...})` builds; `completedAt` takes its default, the current time. */
  function NewAssessment(userId: UserId, rs: Responses, now: nat): Assessment {
    var score := ScoreOf(rs);
    var riskLevel := RiskLevelOf(score);
    Assessment(userId, rs, score, riskLevel, GenerateRecommendations(rs, riskLevel), now)
  }

  /**
   * `User.findByIdAndUpdate(userId, { securityScore, lastAssessment })`: the
   * user with that id gets the two fields; without such a user nothing changes.
   */
  function RecordScore(users: seq<User>, userId: UserId, score: int, now: nat): (r: seq<User>)
    ensures |r| == |users|
    ensures forall i :: 0 <= i < |users| && i != userId ==> r[i] == users[i]
    ensures userId < |users| ==> r[userId] == users[userId].(securityScore := score, lastAssessment := Some(now))
  {
    if userId < |users| then users[userId := users[userId].(securityScore := score, lastAssessment := Some(now))]
    else users
  }

  /** Updating a score within 0..100 keeps every user valid and the addresses unique. */
  lemma RecordScoreKeepsValid(users: seq<User>, userId: UserId, score: int, now: nat)
    requires UniqueEmails(users) && forall i :: 0 <= i < |users| ==> ValidUser(users[i])
    requires 0 <= score <= 100
    ensures UniqueEmails(RecordScore(users, userId, score, now))
    ensures forall i :: 0 <= i < |users| ==> ValidUser(RecordScore(users, userId, score, now)[i])
  {
    var r := RecordScore(users, userId, score, now);
    assert forall i :: 0 <= i < |r| ==> r[i].email == users[i].email;
    forall i | 0 <= i < |users| ensures ValidUser(r[i]) {
      if i == userId {
        ScoreUpdateKeepsValid(users[i], score, now);
      }
    }
  }

  /**
   * `assessment.save()` followed by `User.findByIdAndUpdate`: the assessment
   * is appended and its owner gets the score and the time.
   */
  method Save(db: Database, a: Assessment)
    requires db.Valid() && ValidAssessment(a)
    modifies db
    ensures db.Valid()
    ensures db.assessments == old(db.assessments) + [a]
    ensures db.users == RecordScore(old(db.users), a.userId, a.score.n, a.completedAt)
    ensures db.threats == old(db.threats) && db.articles == old(db.articles)
  {
    RecordScoreKeepsValid(db.users, a.userId, a.score.n, a.completedAt);
    var assessments := db.assessments + [a];
    assert forall i :: 0 <= i < |assessments| ==> ValidAssessment(assessments[i]);
    db.assessments := assessments;
    db.users := RecordScore(db.users, a.userId, a.score.n, a.completedAt);
  }

  /** The handler. `now` is the clock reading `Date.now()` / `new Date()` take. */
  method Handle(db: Database, auth: Auth, httpMethod: string, responses: Option<Responses>, now: nat)
    returns (reply: Reply<AssessmentBody>)
    requires db.Valid()
    modifies db
    ensures db.Valid()
    ensures !auth.Verified? ==> reply == AuthFailure(auth) && unchanged(db)
    ensures auth.Verified? && httpMethod == "GET" ==>
      && reply == Success(200, History(LatestAssessments(db.assessments, auth.claims.userId)))
      && unchanged(db)
    ensures auth.Verified? && httpMethod == "POST" && Incomplete(responses) ==>
      reply == Failure(400, "Complete assessment responses required") && unchanged(db)
    ensures auth.Verified? && httpMethod == "POST" && !Incomplete(responses) ==>
      var a := NewAssessment(auth.claims.userId, responses.value, now);
      if ValidAssessment(a) then
        && reply == Success(201, Completed(a.score, a.riskLevel, a.recommendations, now))
        && db.assessments == old(db.assessments) + [a]
        && db.users == RecordScore(old(db.users), auth.claims.userId, a.score.n, now)
        && db.threats == old(db.threats) && db.articles == old(db.articles)
      else
        reply == Failure(500, "Internal server error") && unchanged(db)
    ensures auth.Verified? && httpMethod != "GET" && httpMethod != "POST" ==>
      reply == Failure(405, "Method not allowed") && unchanged(db)
  {
    if !auth.Verified? {
      return AuthFailure(auth);
    }
    var userId := auth.claims.userId;
    if httpMethod == "GET" {
      reply := Success(200, History(LatestAssessments(db.assessments, userId)));
    } else if httpMethod == "POST" {
      if responses.None? || |responses.value| < RequiredKeyCount {
        return Failure(400, "Complete assessment responses required");
      }
      var rs := responses.value;
      var score, riskLevel := CalculateAssessment(rs);
      var recommendations := GenerateRecommendations(rs, riskLevel);
      var assessment := Assessment(userId, rs, score, riskLevel, recommendations, now);
      if !ValidAssessment(assessment) {
        // `assessment.save()` throws: nothing has been written yet.
        return Failure(500, "Internal server error");
      }
      Save(db, assessment);
      reply := Success(201, Completed(score, riskLevel, recommendations, now));
    } else {
      reply := Failure(405, "Method not allowed");
    }
  }

  /** How many of the seven weighted questions `rs` answers, counting repeats. */
  function WeightedKeyCount(rs: Responses): nat {
    KeyCount(rs, "passwordPolicy") + KeyCount(rs, "dataBackup") + KeyCount(rs, "employeeTraining")
    + KeyCount(rs, "softwareUpdates") + KeyCount(rs, "networkSecurity")
    + KeyCount(rs, "incidentResponse") + KeyCount(rs, "accessControl")
  }

  /** Each entry answers at most one question. */
  lemma {:induction false} WeightedKeyCountBound(rs: Responses)
    ensures WeightedKeyCount(rs) <= |rs|
  {
    if rs != [] {
      WeightedKeyCountBound(rs[..|rs| - 1]);
    }
  }

  /**
   * A questionnaire answering all seven weighted questions within 1..5 (and
   * any other declared question within 1..5) passes the length check and is
   * saved: its score is a number in 20..100.
   */
  lemma CompleteSubmissionSaved(rs: Responses, userId: UserId, now: nat)
    requires Complete(rs) && ValidResponses(rs)
    ensures !Incomplete(Some(rs))
    ensures ValidAssessment(NewAssessment(userId, rs, now))
    ensures 20 <= NewAssessment(userId, rs, now).score.n <= 100
  {
    AnsweredOnce(rs, "passwordPolicy");
    AnsweredOnce(rs, "dataBackup");
    AnsweredOnce(rs, "employeeTraining");
    AnsweredOnce(rs, "softwareUpdates");
    AnsweredOnce(rs, "networkSecurity");
    AnsweredOnce(rs, "incidentResponse");
    AnsweredOnce(rs, "accessControl");
    WeightedKeyCountBound(rs);
    assert forall k :: k in Weights ==> k in SchemaKeys;
    assert WeightedInRange(rs);
    assert ValueOf(rs, "passwordPolicy").Some?;
    ScoreInRange(rs);
  }

  /**
   * A submission without any weighted question (seven unrelated keys pass the
   * length check) divides 0 by 0: the score is `NaN`, the save fails and the
   * reply is 500.
   */
  lemma UnweightedSubmissionRejected(rs: Responses, userId: UserId, now: nat)
    requires forall i :: 0 <= i < |rs| ==> rs[i].key !in Weights
    ensures NewAssessment(userId, rs, now).score == NaN
    ensures !ValidAssessment(NewAssessment(userId, rs, now))
  {
    if NoInheritedKeys(rs) {
      NoWeightedKeyIsNaN(rs);
    } else {
      var i :| 0 <= i < |rs| && LookupWeight(rs[i].key).InheritedMember?;
      InheritedKeyIsNaN(rs, i);
    }
  }
}
