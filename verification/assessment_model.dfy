/**
 * The `Assessment` schema: one completed questionnaire with its score, risk
 * level and recommendations. `ValidAssessment` is what `save()` checks; a
 * document that fails it is rejected with a validation (or cast) error.
 */
module AssessmentModel {
  import opened Wrappers
  import UserModel

  /** One `[key, value]` pair of the submitted `responses` object. */
  datatype Entry = Entry(key: string, value: int)

  /** The submitted `responses` object as its `Object.entries`. */
  type Responses = seq<Entry>

  /** The keys of a JavaScript object are distinct. */
  predicate DistinctKeys(rs: Responses) {
    forall i, j :: 0 <= i < j < |rs| ==> rs[i].key != rs[j].key
  }

  /** `responses[key]` for an own key, `undefined` otherwise. */
  function ValueOf(rs: Responses, key: string): (r: Option<int>)
    ensures r.Some? <==> exists i :: 0 <= i < |rs| && rs[i].key == key
    ensures r.Some? ==> exists i :: 0 <= i < |rs| && rs[i] == Entry(key, r.value)
  {
    if rs == [] then None
    else if rs[0].key == key then Some(rs[0].value)
    else
      var r := ValueOf(rs[1..], key);
      assert forall i :: 0 < i < |rs| ==> rs[i] == rs[1..][i - 1];
      r
  }

  /** The response paths the schema declares, each `{ type: Number, min: 1, max: 5 }`. */
  const SchemaKeys: set<string> := {
    "passwordPolicy", "dataBackup", "employeeTraining", "softwareUpdates",
    "networkSecurity", "incidentResponse", "accessControl", "dataEncryption" }

  /**
   * A computed score: a number, or `NaN` (what `0 / 0` and arithmetic on a
   * non-number give in JavaScript).
   */
  datatype Score = Num(n: int) | NaN

  datatype RiskLevel = LowRisk | MediumRisk | HighRisk | CriticalRisk

  function RiskLevelName(l: RiskLevel): string {
    match l
    case LowRisk => "low"
    case MediumRisk => "medium"
    case HighRisk => "high"
    case CriticalRisk => "critical"
  }

  datatype Priority = LowPriority | MediumPriority | HighPriority

  function PriorityName(p: Priority): string {
    match p
    case LowPriority => "low"
    case MediumPriority => "medium"
    case HighPriority => "high"
  }

  datatype Recommendation = Recommendation(
    category: string,
    priority: Priority,
    description: string,
    actionItems: seq<string>)

  datatype Assessment = Assessment(
    userId: UserModel.UserId,
    responses: Responses,
    score: Score,
    riskLevel: RiskLevel,
    recommendations: seq<Recommendation>,
    completedAt: nat)

  /** Every response the schema declares lies in 1..5; undeclared keys are not checked. */
  predicate ValidResponses(rs: Responses) {
    forall i :: 0 <= i < |rs| && rs[i].key in SchemaKeys ==> 1 <= rs[i].value <= 5
  }

  /** `score` is a required number in 0..100; `NaN` fails the cast to Number. */
  predicate ValidScore(s: Score) {
    s.Num? && 0 <= s.n <= 100
  }

  predicate ValidAssessment(a: Assessment) {
    ValidResponses(a.responses) && ValidScore(a.score)
  }
}
