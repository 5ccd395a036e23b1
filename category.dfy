/** The three-band classification of a clamped score. */
module Category {

  /** Lower bound of the Medium band. */
  const MediumFrom: real := 35.0
  /** Lower bound of the High band. */
  const HighFrom: real := 65.0

  datatype Band = Low | Medium | High

  /** The label the response carries for a band. */
  function Name(b: Band): (s: string)
    ensures s in {"Low", "Medium", "High"}
  {
    match b
    case Low => "Low"
    case Medium => "Medium"
    case High => "High"
  }

  /** Position of a band in the order Low < Medium < High. */
  function Rank(b: Band): nat
  {
    match b
    case Low => 0
    case Medium => 1
    case High => 2
  }

  /** Classifies a score: each threshold belongs to the band above it. */
  function ComputeCategory(score: real): (b: Band)
    ensures b == Low <==> score < MediumFrom
    ensures b == Medium <==> MediumFrom <= score < HighFrom
    ensures b == High <==> HighFrom <= score
  {
    if score < MediumFrom then Low
    else if score < HighFrom then Medium
    else High
  }

  /** A higher score never lands in a lower band. */
  lemma CategoryMonotone(s1: real, s2: real)
    requires s1 <= s2
    ensures Rank(ComputeCategory(s1)) <= Rank(ComputeCategory(s2))
  {
  }
}
