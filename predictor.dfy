/** One scoring request end to end: features, regressor, clamp, category,
    top factor and advice. */
module Predictor {
  import opened StressRequest
  import opened FeatureVector
  import opened Category
  import opened Attribution
  import opened Advice

  datatype Response = Response(
    stressScore: real,
    category: string,
    topFactor: string,
    advice: seq<string>)

  /** Scores a validated request with the regressor `regress`. The category
      is taken from the clamped score; the top factor and the advice from
      the raw request fields. */
  method Predict(regress: seq<real> -> real, r: Request) returns (resp: Response)
    requires ValidRequest(r)
    ensures resp.stressScore == Score(regress, r)
    ensures 0.0 <= resp.stressScore <= 100.0
    ensures resp.category == Name(ComputeCategory(resp.stressScore))
    ensures resp.topFactor == TopFactor(r)
    ensures resp.topFactor in {"Assignment load", "Sleep hours", "Class load", "Upcoming exam"}
    ensures resp.advice == AdviceFor(r) && |resp.advice| >= 1
  {
    var x := Features(r);
    var score := Clamp(regress(x));
    var category := ComputeCategory(score);
    var advice := GenerateAdvice(r);
    var tf := TopFactor(r);
    TopFactorLabelled(r);
    resp := Response(score, Name(category), tf, advice);
  }
}
