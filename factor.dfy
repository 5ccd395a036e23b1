/** The heuristic that names the input contributing most to a request's
    stress: one weight per cause, then the first cause of maximal weight. */
module Attribution {
  import opened StressRequest

  /** Cause keys, in the insertion order of the weight table. */
  const FactorKeys: seq<string> := ["assignments", "sleep", "class_hours", "exam_proximity"]

  /** Display label of each cause key. */
  const FactorLabels: map<string, string> := map[
    "assignments" := "Assignment load",
    "sleep" := "Sleep hours",
    "class_hours" := "Class load",
    "exam_proximity" := "Upcoming exam"]

  /** Label returned for a key without a display label. */
  const OtherLabel: string := "Other"

  function MaxZero(x: real): real { if x >= 0.0 then x else 0.0 }

  function AssignmentsWeight(r: Request): real { r.assignments as real * 8.0 }
  function SleepWeight(r: Request): real { MaxZero(7.0 - r.sleepHours) * 6.0 }
  function ClassHoursWeight(r: Request): real { MaxZero(r.classHours - 20.0) * 0.6 }
  function ExamWeight(r: Request): real
  {
    if r.daysToExam < NoExam then MaxZero((21 - r.daysToExam) as real) * 2.0 else 0.0
  }

  /** The weights of the four causes, in the order of FactorKeys. */
  function Weights(r: Request): (w: seq<real>)
    ensures |w| == |FactorKeys|
    ensures r.assignments >= 0 ==> forall j :: 0 <= j < |w| ==> w[j] >= 0.0
    ensures r.sleepHours >= 7.0 ==> w[1] == 0.0
    ensures r.classHours <= 20.0 ==> w[2] == 0.0
    ensures r.daysToExam == NoExam || r.daysToExam >= 21 ==> w[3] == 0.0
  {
    [AssignmentsWeight(r), SleepWeight(r), ClassHoursWeight(r), ExamWeight(r)]
  }

  /** Index of the first maximal element: a left-to-right scan that keeps
      the current best and moves only on a strictly greater element. */
  function ArgMax(w: seq<real>): (k: nat)
    requires |w| > 0
    ensures k < |w|
    ensures forall j :: 0 <= j < |w| ==> w[j] <= w[k]
    ensures forall j :: 0 <= j < k ==> w[j] < w[k]
  {
    if |w| == 1 then 0
    else
      var k := ArgMax(w[..|w| - 1]);
      if w[|w| - 1] > w[k] then |w| - 1 else k
  }

  /** The two properties of ArgMax single out one index. */
  lemma ArgMaxUnique(w: seq<real>, k: nat)
    requires k < |w|
    requires forall j :: 0 <= j < |w| ==> w[j] <= w[k]
    requires forall j :: 0 <= j < k ==> w[j] < w[k]
    ensures ArgMax(w) == k
  {
  }

  /** Display label of a cause key, with the "Other" fallback. */
  function LabelOf(key: string): (l: string)
    ensures key in FactorKeys ==> l != OtherLabel && l in FactorLabels.Values
    ensures key !in FactorLabels ==> l == OtherLabel
  {
    if key in FactorLabels then FactorLabels[key] else OtherLabel
  }

  /** The key of the winning cause. */
  function TopKey(r: Request): (key: string)
    ensures key in FactorKeys
  {
    FactorKeys[ArgMax(Weights(r))]
  }

  /** The label reported as the top factor of a request. */
  function TopFactor(r: Request): (l: string)
    ensures l in {"Assignment load", "Sleep hours", "Class load", "Upcoming exam"}
  {
    LabelOf(TopKey(r))
  }

  /** The reported label is one of the four cause labels; the "Other"
      fallback is never taken. */
  lemma TopFactorLabelled(r: Request)
    ensures TopFactor(r) in {"Assignment load", "Sleep hours", "Class load", "Upcoming exam"}
    ensures TopFactor(r) != OtherLabel
  {
    var k := ArgMax(Weights(r));
    assert FactorKeys[k] in FactorLabels;
  }

  /** The winning cause's weight is at least every other weight, and every
      cause earlier in the key order weighs strictly less. */
  lemma TopFactorIsFirstMax(r: Request)
    ensures var w, k := Weights(r), ArgMax(Weights(r));
            TopKey(r) == FactorKeys[k] &&
            (forall j :: 0 <= j < |w| ==> w[j] <= w[k]) &&
            (forall j :: 0 <= j < k ==> w[j] < w[k])
  {
  }

  /** Reference statement of the choice, one closed condition per label:
      a cause wins when it beats every earlier cause strictly and every
      later cause at least ties. */
  predicate Wins(r: Request, name: string)
  {
    var a, s, c, e := AssignmentsWeight(r), SleepWeight(r), ClassHoursWeight(r), ExamWeight(r);
    (name == "Assignment load" && a >= s && a >= c && a >= e) ||
    (name == "Sleep hours" && s > a && s >= c && s >= e) ||
    (name == "Class load" && c > a && c > s && c >= e) ||
    (name == "Upcoming exam" && e > a && e > s && e > c)
  }

  /** TopFactor reports exactly the label that wins by the reference rule. */
  lemma TopFactorWins(r: Request, name: string)
    ensures TopFactor(r) == name <==> Wins(r, name)
  {
    var w := Weights(r);
    var k := ArgMax(w);
    assert w == [AssignmentsWeight(r), SleepWeight(r), ClassHoursWeight(r), ExamWeight(r)];
    var labels := ["Assignment load", "Sleep hours", "Class load", "Upcoming exam"];
    assert TopFactor(r) == labels[k] by {
      assert FactorLabels[FactorKeys[k]] == labels[k];
    }
    assert Wins(r, labels[k]) by {
      assert w[0] <= w[k] && w[1] <= w[k] && w[2] <= w[k] && w[3] <= w[k];
      if k == 3 { assert w[0] < w[3] && w[1] < w[3] && w[2] < w[3]; }
      else if k == 2 { assert w[0] < w[2] && w[1] < w[2]; }
      else if k == 1 { assert w[0] < w[1]; }
    }
    if Wins(r, name) {
      var i := if name == labels[0] then 0
               else if name == labels[1] then 1
               else if name == labels[2] then 2
               else 3;
      assert name == labels[i];
      ArgMaxUnique(w, i);
    }
  }

  /** For a valid request every weight is non-negative; an absent or
      distant exam weighs nothing, and so do up to 20 class hours. */
  lemma WeightsOfValidRequest(r: Request)
    requires ValidRequest(r)
    ensures forall j :: 0 <= j < |Weights(r)| ==> Weights(r)[j] >= 0.0
    ensures r.daysToExam == NoExam || r.daysToExam >= 21 ==> ExamWeight(r) == 0.0
    ensures r.classHours <= 20.0 ==> ClassHoursWeight(r) == 0.0
  {
  }
}
