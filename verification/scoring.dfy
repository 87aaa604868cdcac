/**
 * The scoring engine of the assessment endpoint: `calculateAssessment` turns
 * the submitted responses into a 0..100 score and a risk level, and
 * `generateRecommendations` picks the fixed advice records for weak answers.
 *
 * The weights are all multiples of 5, so for integer responses every term
 * `value * weight / 5` is an integer and the running total stays integral.
 * `Math.round(total / max * 100)` is modelled as half-up rounding of the
 * exact ratio, `(200 * total + max) / (2 * max)`. The source rounds a double,
 * which differs on some partial questionnaires (see the README).
 */
module Scoring {
  import opened Wrappers
  import opened AssessmentModel
  import Seqs

  /** The weight table of `calculateAssessment`; the weights add up to 100. */
  const Weights: map<string, nat> := map[
    "passwordPolicy" := 15,
    "dataBackup" := 20,
    "employeeTraining" := 15,
    "softwareUpdates" := 15,
    "networkSecurity" := 15,
    "incidentResponse" := 10,
    "accessControl" := 10]

  /**
   * Property names every object literal inherits from `Object.prototype`:
   * `weights[key]` is truthy for these too, and arithmetic on the inherited
   * member yields `NaN`.
   */
  const InheritedNames: set<string> := {
    "constructor", "hasOwnProperty", "isPrototypeOf", "propertyIsEnumerable",
    "toLocaleString", "toString", "valueOf", "__proto__",
    "__defineGetter__", "__defineSetter__", "__lookupGetter__", "__lookupSetter__" }

  /** What `weights[key]` evaluates to. */
  datatype WeightLookup = OwnWeight(w: nat) | InheritedMember | NoWeight

  function LookupWeight(key: string): (r: WeightLookup)
    ensures r.OwnWeight? <==> key in Weights
    ensures r.OwnWeight? ==> r.w == Weights[key] && r.w > 0 && r.w % 5 == 0
    ensures r.InheritedMember? <==> key !in Weights && key in InheritedNames
  {
    if key in Weights then OwnWeight(Weights[key])
    else if key in InheritedNames then InheritedMember
    else NoWeight
  }

  /** JavaScript `+` on numbers: `NaN` absorbs. */
  function Plus(a: Score, b: Score): Score {
    if a.Num? && b.Num? then Num(a.n + b.n) else NaN
  }

  /** The value of `totalScore` after the loop has visited the entries of `rs`. */
  function TotalScore(rs: Responses): Score {
    if rs == [] then Num(0)
    else
      var e := rs[|rs| - 1];
      match LookupWeight(e.key)
      case OwnWeight(w) => Plus(TotalScore(rs[..|rs| - 1]), Num(e.value * w / 5))
      case InheritedMember => NaN
      case NoWeight => TotalScore(rs[..|rs| - 1])
  }

  /**
   * The value of `maxPossibleScore` after the loop has visited the entries of
   * `rs`. After an inherited member JavaScript's `+=` concatenates the number
   * with the function's source text and the running maximum becomes a string;
   * it is `NaN` here. The score comes out `NaN` either way, since `totalScore`
   * is `NaN` from that entry on (`TotalScore`).
   */
  function MaxPossibleScore(rs: Responses): Score {
    if rs == [] then Num(0)
    else
      var e := rs[|rs| - 1];
      match LookupWeight(e.key)
      case OwnWeight(w) => Plus(MaxPossibleScore(rs[..|rs| - 1]), Num(w))
      case InheritedMember => NaN
      case NoWeight => MaxPossibleScore(rs[..|rs| - 1])
  }

  /**
   * `Math.round((total / max) * 100)` as half-up rounding of the exact ratio;
   * `0 / 0` is `NaN`. The result is the whole number nearest to
   * `100 * total / max`, the upper one on a tie.
   */
  function Percent(total: Score, max: Score): (r: Score)
    ensures r.Num? <==> total.Num? && max.Num? && max.n > 0
    ensures r.Num? ==> 2 * max.n * r.n - max.n <= 200 * total.n < 2 * max.n * r.n + max.n
  {
    if total.NaN? || max.NaN? || max.n == 0 then NaN
    else if max.n < 0 then NaN
    else
      var q := (200 * total.n + max.n) / (2 * max.n);
      DivBounds(200 * total.n + max.n, 2 * max.n);
      Num(q)
  }

  /** Euclidean division brackets the dividend. */
  lemma DivBounds(a: int, b: int)
    requires b > 0
    ensures b * (a / b) <= a < b * (a / b) + b
  {
  }

  /** The score `calculateAssessment` returns for `rs`. */
  function ScoreOf(rs: Responses): Score {
    Percent(TotalScore(rs), MaxPossibleScore(rs))
  }

  /** The risk tier of a score; every comparison with `NaN` is false, so `NaN` is critical. */
  function RiskLevelOf(s: Score): RiskLevel {
    if s.Num? && s.n >= 80 then LowRisk
    else if s.Num? && s.n >= 60 then MediumRisk
    else if s.Num? && s.n >= 40 then HighRisk
    else CriticalRisk
  }

  /** `calculateAssessment(responses)`: the `forEach` over the entries, then rounding and tiering. */
  method CalculateAssessment(rs: Responses) returns (score: Score, riskLevel: RiskLevel)
    ensures score == ScoreOf(rs)
    ensures riskLevel == RiskLevelOf(score)
  {
    var totalScore := Num(0);
    var maxPossibleScore := Num(0);
    for i := 0 to |rs|
      invariant totalScore == TotalScore(rs[..i])
      invariant maxPossibleScore == MaxPossibleScore(rs[..i])
    {
      assert rs[..i + 1][..i] == rs[..i];
      match LookupWeight(rs[i].key)
      case OwnWeight(w) =>
        totalScore := Plus(totalScore, Num(rs[i].value * w / 5));
        maxPossibleScore := Plus(maxPossibleScore, Num(w));
      case InheritedMember =>
        // `value * fn / 5` is `NaN`; `maxPossibleScore + fn` is a string, which
        // cannot turn a `NaN` total back into a number.
        totalScore := NaN;
        maxPossibleScore := NaN;
      case NoWeight =>
    }
    assert rs[..|rs|] == rs;
    score := Percent(totalScore, maxPossibleScore);
    if score.Num? && score.n >= 80 {
      riskLevel := LowRisk;
    } else if score.Num? && score.n >= 60 {
      riskLevel := MediumRisk;
    } else if score.Num? && score.n >= 40 {
      riskLevel := HighRisk;
    } else {
      riskLevel := CriticalRisk;
    }
  }

  // ---------------------------------------------------------------------------
  // What the score means

  /** No key of `rs` names an `Object.prototype` member outside the weight table. */
  predicate NoInheritedKeys(rs: Responses) {
    forall i :: 0 <= i < |rs| ==> !LookupWeight(rs[i].key).InheritedMember?
  }

  /** `key` counts in the score: it is in the weight table. */
  predicate IsWeighted(e: Entry) {
    e.key in Weights
  }

  /** The sum of the values given for `key` (the value itself when keys are distinct). */
  function ValueSum(rs: Responses, key: string): int {
    if rs == [] then 0
    else ValueSum(rs[..|rs| - 1], key) + (if rs[|rs| - 1].key == key then rs[|rs| - 1].value else 0)
  }

  /** The number of entries for `key` (at most one when keys are distinct). */
  function KeyCount(rs: Responses, key: string): nat {
    if rs == [] then 0
    else KeyCount(rs[..|rs| - 1], key) + (if rs[|rs| - 1].key == key then 1 else 0)
  }

  /** `Σ value · weight / 5` over the weight table. */
  function WeightedTotal(rs: Responses): int {
    3 * ValueSum(rs, "passwordPolicy") + 4 * ValueSum(rs, "dataBackup")
    + 3 * ValueSum(rs, "employeeTraining") + 3 * ValueSum(rs, "softwareUpdates")
    + 3 * ValueSum(rs, "networkSecurity") + 2 * ValueSum(rs, "incidentResponse")
    + 2 * ValueSum(rs, "accessControl")
  }

  /** `Σ weight` over the weight-table keys present. */
  function WeightPresent(rs: Responses): int {
    15 * KeyCount(rs, "passwordPolicy") + 20 * KeyCount(rs, "dataBackup")
    + 15 * KeyCount(rs, "employeeTraining") + 15 * KeyCount(rs, "softwareUpdates")
    + 15 * KeyCount(rs, "networkSecurity") + 10 * KeyCount(rs, "incidentResponse")
    + 10 * KeyCount(rs, "accessControl")
  }

  /** What the last entry adds to the two sums: its value and weight when the key is weighted. */
  lemma LastEntrySums(rs: Responses)
    requires rs != []
    ensures rs[|rs| - 1].key in Weights ==>
      && WeightedTotal(rs) == WeightedTotal(rs[..|rs| - 1]) + rs[|rs| - 1].value * (Weights[rs[|rs| - 1].key] / 5)
      && WeightPresent(rs) == WeightPresent(rs[..|rs| - 1]) + Weights[rs[|rs| - 1].key]
    ensures rs[|rs| - 1].key !in Weights ==>
      WeightedTotal(rs) == WeightedTotal(rs[..|rs| - 1]) && WeightPresent(rs) == WeightPresent(rs[..|rs| - 1])
  {
    SumStep(rs, "passwordPolicy");
    SumStep(rs, "dataBackup");
    SumStep(rs, "employeeTraining");
    SumStep(rs, "softwareUpdates");
    SumStep(rs, "networkSecurity");
    SumStep(rs, "incidentResponse");
    SumStep(rs, "accessControl");
  }

  /** One more entry moves the sum and the count for `key` only when it has that key. */
  lemma SumStep(rs: Responses, key: string)
    requires rs != []
    ensures ValueSum(rs, key) == ValueSum(rs[..|rs| - 1], key) + (if rs[|rs| - 1].key == key then rs[|rs| - 1].value else 0)
    ensures KeyCount(rs, key) == KeyCount(rs[..|rs| - 1], key) + (if rs[|rs| - 1].key == key then 1 else 0)
  {
  }

  /** Scaling a multiple of 5 and dividing by 5 commute. */
  lemma ScaleFive(v: int, w: int)
    requires w % 5 == 0
    ensures v * w / 5 == v * (w / 5)
  {
    var q := w / 5;
    assert v * w == 5 * (v * q);
  }

  /**
   * Without inherited names, the loop's two accumulators are the weighted sum
   * of the responses and the sum of the weights of the keys present.
   */
  lemma {:induction false} AccumulatorsAsSums(rs: Responses)
    requires NoInheritedKeys(rs)
    ensures TotalScore(rs) == Num(WeightedTotal(rs))
    ensures MaxPossibleScore(rs) == Num(WeightPresent(rs))
  {
    if rs != [] {
      var init := rs[..|rs| - 1];
      assert forall i :: 0 <= i < |init| ==> init[i] == rs[i];
      AccumulatorsAsSums(init);
      LastEntrySums(rs);
      var e := rs[|rs| - 1];
      var lw := LookupWeight(e.key);
      assert !lw.InheritedMember?;
      if lw.OwnWeight? {
        ScaleFive(e.value, lw.w);
      }
    }
  }

  /** Dropping the entries whose key is not in the weight table leaves `totalScore` unchanged. */
  lemma {:induction false} FilterKeepsTotal(rs: Responses)
    requires NoInheritedKeys(rs)
    ensures TotalScore(Seqs.Filter(rs, IsWeighted)) == TotalScore(rs)
  {
    if rs != [] {
      var init, e := rs[..|rs| - 1], rs[|rs| - 1];
      assert rs == init + [e];
      assert NoInheritedKeys(init) by {
        assert forall i :: 0 <= i < |init| ==> init[i] == rs[i];
      }
      FilterKeepsTotal(init);
      Seqs.FilterSnoc(init, e, IsWeighted);
      var kept := Seqs.Filter(init, IsWeighted);
      assert !LookupWeight(rs[|rs| - 1].key).InheritedMember?;
      if IsWeighted(e) {
        var k' := kept + [e];
        assert k'[..|k'| - 1] == kept && k'[|k'| - 1] == e;
        assert Seqs.Filter(rs, IsWeighted) == k';
        assert TotalScore(k') == Plus(TotalScore(kept), Num(e.value * Weights[e.key] / 5));
      } else {
        assert Seqs.Filter(rs, IsWeighted) == kept;
      }
    }
  }

  /** Dropping the entries whose key is not in the weight table leaves `maxPossibleScore` unchanged. */
  lemma {:induction false} FilterKeepsMax(rs: Responses)
    requires NoInheritedKeys(rs)
    ensures MaxPossibleScore(Seqs.Filter(rs, IsWeighted)) == MaxPossibleScore(rs)
  {
    if rs != [] {
      var init, e := rs[..|rs| - 1], rs[|rs| - 1];
      assert rs == init + [e];
      assert NoInheritedKeys(init) by {
        assert forall i :: 0 <= i < |init| ==> init[i] == rs[i];
      }
      FilterKeepsMax(init);
      Seqs.FilterSnoc(init, e, IsWeighted);
      var kept := Seqs.Filter(init, IsWeighted);
      assert !LookupWeight(rs[|rs| - 1].key).InheritedMember?;
      if IsWeighted(e) {
        var k' := kept + [e];
        assert k'[..|k'| - 1] == kept && k'[|k'| - 1] == e;
        assert Seqs.Filter(rs, IsWeighted) == k';
        assert MaxPossibleScore(k') == Plus(MaxPossibleScore(kept), Num(Weights[e.key]));
      } else {
        assert Seqs.Filter(rs, IsWeighted) == kept;
      }
    }
  }

  /** Only weight-table keys matter: dropping every other (non-inherited) key leaves the score unchanged. */
  lemma UnweightedKeysIgnored(rs: Responses)
    requires NoInheritedKeys(rs)
    ensures ScoreOf(Seqs.Filter(rs, IsWeighted)) == ScoreOf(rs)
  {
    FilterKeepsTotal(rs);
    FilterKeepsMax(rs);
  }

  /** All seven weighted questions are answered and no inherited name appears among the keys. */
  predicate Complete(rs: Responses) {
    && DistinctKeys(rs) && NoInheritedKeys(rs)
    && forall k :: k in Weights ==> ValueOf(rs, k).Some?
  }

  /** The answer to a question that `Complete` guarantees is present. */
  function Answer(rs: Responses, k: string): int
    requires Complete(rs) && k in Weights
  {
    ValueOf(rs, k).value
  }

  lemma {:induction false} DistinctCounts(rs: Responses, k: string)
    requires DistinctKeys(rs)
    ensures KeyCount(rs, k) == if ValueOf(rs, k).Some? then 1 else 0
    ensures ValueSum(rs, k) == ValueOf(rs, k).GetOr(0)
  {
    if rs != [] {
      var init := rs[..|rs| - 1];
      var e := rs[|rs| - 1];
      assert DistinctKeys(init);
      DistinctCounts(init, k);
      assert rs == init + [e];
      ValueOfSnoc(init, e, k);
      SumStep(rs, k);
    }
  }

  lemma {:induction false} ValueOfSnoc(rs: Responses, e: Entry, k: string)
    ensures ValueOf(rs + [e], k) == if ValueOf(rs, k).Some? then ValueOf(rs, k) else if e.key == k then Some(e.value) else None
  {
    if rs != [] {
      assert (rs + [e])[1..] == rs[1..] + [e];
      ValueOfSnoc(rs[1..], e, k);
    }
  }

  /**
   * With all seven weighted keys present the maximum is exactly 100, so the
   * score is exactly `3pp + 4db + 3et + 3su + 3ns + 2ir + 2ac`: no rounding happens.
   */
  lemma CompleteScore(rs: Responses)
    requires Complete(rs)
    ensures MaxPossibleScore(rs) == Num(100)
    ensures ScoreOf(rs) == Num(
      3 * Answer(rs, "passwordPolicy") + 4 * Answer(rs, "dataBackup")
      + 3 * Answer(rs, "employeeTraining") + 3 * Answer(rs, "softwareUpdates")
      + 3 * Answer(rs, "networkSecurity") + 2 * Answer(rs, "incidentResponse")
      + 2 * Answer(rs, "accessControl"))
  {
    CompleteSums(rs);
    PercentOfHundred(WeightedTotal(rs));
    assert ScoreOf(rs) == Percent(TotalScore(rs), MaxPossibleScore(rs));
  }

  lemma AnsweredOnce(rs: Responses, k: string)
    requires Complete(rs) && k in Weights
    ensures KeyCount(rs, k) == 1 && ValueSum(rs, k) == Answer(rs, k)
  {
    DistinctCounts(rs, k);
  }

  /** Rounding a whole percentage out of 100 changes nothing. */
  lemma PercentOfHundred(t: int)
    ensures Percent(Num(t), Num(100)) == Num(t)
  {
    assert (200 * t + 100) / 200 == t;
  }

  lemma CompleteSums(rs: Responses)
    requires Complete(rs)
    ensures MaxPossibleScore(rs) == Num(100)
    ensures TotalScore(rs) == Num(WeightedTotal(rs))
    ensures WeightedTotal(rs) ==
      3 * Answer(rs, "passwordPolicy") + 4 * Answer(rs, "dataBackup")
      + 3 * Answer(rs, "employeeTraining") + 3 * Answer(rs, "softwareUpdates")
      + 3 * Answer(rs, "networkSecurity") + 2 * Answer(rs, "incidentResponse")
      + 2 * Answer(rs, "accessControl")
  {
    AccumulatorsAsSums(rs);
    AnsweredOnce(rs, "passwordPolicy");
    AnsweredOnce(rs, "dataBackup");
    AnsweredOnce(rs, "employeeTraining");
    AnsweredOnce(rs, "softwareUpdates");
    AnsweredOnce(rs, "networkSecurity");
    AnsweredOnce(rs, "incidentResponse");
    AnsweredOnce(rs, "accessControl");
    assert WeightPresent(rs) == 100;
    assert MaxPossibleScore(rs) == Num(100);
  }

  /** Every weighted answer lies in 1..5. */
  predicate WeightedInRange(rs: Responses) {
    forall i :: 0 <= i < |rs| && rs[i].key in Weights ==> 1 <= rs[i].value <= 5
  }

  lemma {:induction false} TotalBetween(rs: Responses)
    requires NoInheritedKeys(rs) && WeightedInRange(rs)
    ensures WeightPresent(rs) <= 5 * WeightedTotal(rs) <= 5 * WeightPresent(rs)
  {
    if rs != [] {
      var init := rs[..|rs| - 1];
      assert forall i :: 0 <= i < |init| ==> init[i] == rs[i];
      TotalBetween(init);
      LastEntrySums(rs);
      var e := rs[|rs| - 1];
      if e.key in Weights {
        var c := Weights[e.key] / 5;
        assert 1 <= e.value <= 5;
        assert Weights[e.key] == 5 * c;
        MulLe(1, e.value, c);
        MulLe(e.value, 5, c);
      }
    }
  }

  lemma MulLe(a: int, b: int, d: int)
    requires a <= b && d >= 0
    ensures a * d <= b * d
  {
    assert b * d - a * d == (b - a) * d;
  }

  lemma DivBetween(n: int, d: int, lo: int, hi: int)
    requires d > 0 && lo * d <= n < (hi + 1) * d
    ensures lo <= n / d <= hi
  {
    var q, r := n / d, n % d;
    assert n == q * d + r && 0 <= r < d;
    if q < lo {
      MulLe(q + 1, lo, d);
      assert false;
    }
    if q > hi {
      MulLe(hi + 1, q, d);
      assert false;
    }
  }

  /**
   * Whenever some weighted key is answered and every weighted answer is in
   * 1..5, the score is a number in 20..100, whichever weighted keys are present.
   */
  lemma ScoreInRange(rs: Responses)
    requires NoInheritedKeys(rs) && WeightedInRange(rs)
    requires exists i :: 0 <= i < |rs| && rs[i].key in Weights
    ensures ScoreOf(rs).Num? && 20 <= ScoreOf(rs).n <= 100
  {
    AccumulatorsAsSums(rs);
    TotalBetween(rs);
    var i :| 0 <= i < |rs| && rs[i].key in Weights;
    WeightPresentPositive(rs, i);
    var t, m := WeightedTotal(rs), WeightPresent(rs);
    DivBetween(200 * t + m, 2 * m, 20, 100);
  }

  lemma {:induction false} WeightPresentPositive(rs: Responses, i: nat)
    requires i < |rs| && rs[i].key in Weights
    ensures WeightPresent(rs) > 0
  {
    var init := rs[..|rs| - 1];
    if i < |rs| - 1 {
      assert init[i] == rs[i];
      WeightPresentPositive(init, i);
    }
  }

  /** Without any weighted key the maximum stays 0 and the score is `NaN` (a division of 0 by 0). */
  lemma {:induction false} NoWeightedKeyIsNaN(rs: Responses)
    requires NoInheritedKeys(rs)
    requires forall i :: 0 <= i < |rs| ==> rs[i].key !in Weights
    ensures TotalScore(rs) == Num(0) && MaxPossibleScore(rs) == Num(0)
    ensures ScoreOf(rs) == NaN && RiskLevelOf(ScoreOf(rs)) == CriticalRisk
  {
    if rs != [] {
      var init := rs[..|rs| - 1];
      assert forall i :: 0 <= i < |init| ==> init[i] == rs[i];
      NoWeightedKeyIsNaN(init);
    }
  }

  /** A key that names an inherited `Object.prototype` member turns the score into `NaN`. */
  lemma {:induction false} InheritedKeyIsNaN(rs: Responses, i: nat)
    requires i < |rs| && rs[i].key !in Weights && rs[i].key in InheritedNames
    ensures TotalScore(rs) == NaN && ScoreOf(rs) == NaN
  {
    var init := rs[..|rs| - 1];
    if i < |rs| - 1 {
      assert init[i] == rs[i];
      InheritedKeyIsNaN(init, i);
    }
  }

  // ---------------------------------------------------------------------------
  // Risk tiers

  /** Each tier is exactly its score band; boundaries belong to the higher tier. */
  lemma RiskBands(n: int)
    ensures RiskLevelOf(Num(n)) == LowRisk <==> n >= 80
    ensures RiskLevelOf(Num(n)) == MediumRisk <==> 60 <= n < 80
    ensures RiskLevelOf(Num(n)) == HighRisk <==> 40 <= n < 60
    ensures RiskLevelOf(Num(n)) == CriticalRisk <==> n < 40
  {
  }

  /** How severe a tier is: low 0, medium 1, high 2, critical 3. */
  function Severity(l: RiskLevel): nat {
    match l
    case LowRisk => 0
    case MediumRisk => 1
    case HighRisk => 2
    case CriticalRisk => 3
  }

  /** A higher score never gives a more severe tier. */
  lemma RiskMonotone(a: int, b: int)
    requires a <= b
    ensures Severity(RiskLevelOf(Num(b))) <= Severity(RiskLevelOf(Num(a)))
  {
  }

  /** The seven questions of the weight table. */
  lemma WeightedKeys()
    ensures "passwordPolicy" in Weights && "dataBackup" in Weights && "employeeTraining" in Weights
    ensures "softwareUpdates" in Weights && "networkSecurity" in Weights
    ensures "incidentResponse" in Weights && "accessControl" in Weights
  {
  }

  /** All answers 1 score 20, which is critical. */
  lemma LowestAnswersScoreTwenty(rs: Responses)
    requires Complete(rs)
    requires forall k :: k in Weights ==> Answer(rs, k) == 1
    ensures ScoreOf(rs) == Num(20) && RiskLevelOf(ScoreOf(rs)) == CriticalRisk
  {
    CompleteScore(rs);
    WeightedKeys();
  }

  /** All answers 5 score 100, which is low risk. */
  lemma HighestAnswersScoreHundred(rs: Responses)
    requires Complete(rs)
    requires forall k :: k in Weights ==> Answer(rs, k) == 5
    ensures ScoreOf(rs) == Num(100) && RiskLevelOf(ScoreOf(rs)) == LowRisk
  {
    CompleteScore(rs);
    WeightedKeys();
  }

  // ---------------------------------------------------------------------------
  // Recommendations

  const PasswordRecommendation := Recommendation(
    "Password Security", HighPriority, "Implement strong password policies",
    ["Require minimum 8-character passwords",
     "Enable multi-factor authentication",
     "Use password managers for employees"])

  const BackupRecommendation := Recommendation(
    "Data Protection", HighPriority, "Establish regular data backup procedures",
    ["Implement automated daily backups",
     "Test backup restoration monthly",
     "Store backups in multiple locations"])

  const TrainingRecommendation := Recommendation(
    "Staff Training", MediumPriority, "Enhance cybersecurity awareness training",
    ["Conduct monthly security awareness sessions",
     "Run phishing simulation tests",
     "Create security incident reporting procedures"])

  /** `responses[key] <= 2`; a missing key is `undefined`, and `undefined <= 2` is false. */
  predicate Weak(rs: Responses, key: string) {
    ValueOf(rs, key).Some? && ValueOf(rs, key).value <= 2
  }

  /** Position of a recommendation in the fixed order password, backup, training. */
  function Rank(r: Recommendation): nat {
    if r == PasswordRecommendation then 0
    else if r == BackupRecommendation then 1
    else 2
  }

  /**
   * `generateRecommendations(responses, riskLevel)`: one fixed record per weak
   * answer among password policy, data backup and employee training, in that
   * order. `riskLevel` is accepted and ignored.
   */
  function GenerateRecommendations(rs: Responses, riskLevel: RiskLevel): (r: seq<Recommendation>)
    ensures PasswordRecommendation in r <==> Weak(rs, "passwordPolicy")
    ensures BackupRecommendation in r <==> Weak(rs, "dataBackup")
    ensures TrainingRecommendation in r <==> Weak(rs, "employeeTraining")
    ensures forall x :: x in r ==> x in {PasswordRecommendation, BackupRecommendation, TrainingRecommendation}
    ensures |r| <= 3
    ensures forall i, j :: 0 <= i < j < |r| ==> Rank(r[i]) < Rank(r[j])
    ensures forall x :: x in r ==> x.priority != LowPriority
  {
    var password := if Weak(rs, "passwordPolicy") then [PasswordRecommendation] else [];
    var backup := if Weak(rs, "dataBackup") then [BackupRecommendation] else [];
    var training := if Weak(rs, "employeeTraining") then [TrainingRecommendation] else [];
    password + backup + training
  }

  /** The recommendations depend on the three advised answers only, not on the risk level or the other keys. */
  lemma RecommendationsDependOnThreeAnswers(rs1: Responses, rs2: Responses, l1: RiskLevel, l2: RiskLevel)
    requires ValueOf(rs1, "passwordPolicy") == ValueOf(rs2, "passwordPolicy")
    requires ValueOf(rs1, "dataBackup") == ValueOf(rs2, "dataBackup")
    requires ValueOf(rs1, "employeeTraining") == ValueOf(rs2, "employeeTraining")
    ensures GenerateRecommendations(rs1, l1) == GenerateRecommendations(rs2, l2)
  {
  }

  /** A password-policy answer of 1 always brings the high-priority "Password Security" record, first. */
  lemma WorstPasswordAnswerAdvised(rs: Responses, l: RiskLevel)
    requires ValueOf(rs, "passwordPolicy") == Some(1)
    ensures GenerateRecommendations(rs, l) != []
    ensures GenerateRecommendations(rs, l)[0].category == "Password Security"
    ensures GenerateRecommendations(rs, l)[0].priority == HighPriority
  {
  }
}
