/** The feature vector handed to the regressor, and the clamp applied to
    the regressor's raw output. */
module FeatureVector {
  import opened StressRequest

  /** Days beyond this horizon are all treated alike by the regressor. */
  const DaysCap: int := 60
  /** An exam closer than this many days sets the exam-soon flag. */
  const ExamSoonDays: int := 21

  /** Column names, in the order the regressor was trained on. */
  const TrainingColumns: seq<string> :=
    ["assignments", "class_hours", "days_to_exam", "sleep_hours", "exam_soon"]

  function Min(a: int, b: int): int { if a <= b then a else b }

  /** The value the training table holds in `column` for the row `r`:
      the days column is capped at DaysCap, and the exam-soon flag is
      derived from the uncapped days. Unknown columns read as 0. */
  function TrainingFeature(r: Request, column: string): real
  {
    if column == "assignments" then r.assignments as real
    else if column == "class_hours" then r.classHours
    else if column == "days_to_exam" then Min(r.daysToExam, DaysCap) as real
    else if column == "sleep_hours" then r.sleepHours
    else if column == "exam_soon" then (if r.daysToExam < ExamSoonDays then 1.0 else 0.0)
    else 0.0
  }

  /** The 5-element vector built for one request. */
  function Features(r: Request): (v: seq<real>)
    ensures |v| == |TrainingColumns|
    ensures v[2] <= DaysCap as real
    ensures r.daysToExam <= DaysCap ==> v[2] == r.daysToExam as real
    ensures v[4] == 1.0 <==> r.daysToExam < ExamSoonDays
    ensures v[4] == 0.0 <==> r.daysToExam >= ExamSoonDays
  {
    var days := Min(r.daysToExam, DaysCap);
    var examSoon := if r.daysToExam < ExamSoonDays then 1.0 else 0.0;
    [r.assignments as real, r.classHours, days as real, r.sleepHours, examSoon]
  }

  /** Each position of the vector carries the feature of the training
      column at that position, so the regressor sees its inputs in the
      order it was fitted on. */
  lemma FeaturesMatchTraining(r: Request)
    ensures |Features(r)| == |TrainingColumns|
    ensures forall i :: 0 <= i < |TrainingColumns| ==>
              Features(r)[i] == TrainingFeature(r, TrainingColumns[i])
  {
    var v := Features(r);
    assert v[0] == TrainingFeature(r, "assignments");
    assert v[1] == TrainingFeature(r, "class_hours");
    assert v[2] == TrainingFeature(r, "days_to_exam");
    assert v[3] == TrainingFeature(r, "sleep_hours");
    assert v[4] == TrainingFeature(r, "exam_soon");
  }

  /** The regressor's raw output limited to [0, 100]. */
  function Clamp(raw: real): (s: real)
    ensures 0.0 <= s <= 100.0
    ensures 0.0 <= raw <= 100.0 ==> s == raw
    ensures raw < 0.0 ==> s == 0.0
    ensures raw > 100.0 ==> s == 100.0
  {
    var upper := if raw <= 100.0 then raw else 100.0;
    if upper >= 0.0 then upper else 0.0
  }

  /** The score of a request under the regressor `regress`: whatever the
      regressor returns, the score lies in [0, 100]. */
  function Score(regress: seq<real> -> real, r: Request): (s: real)
    ensures 0.0 <= s <= 100.0
    ensures 0.0 <= regress(Features(r)) <= 100.0 ==> s == regress(Features(r))
  {
    Clamp(regress(Features(r)))
  }
}
