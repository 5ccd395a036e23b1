# Student stress estimator: the scoring rules

This project models the request-scoring rules of the stress estimator
service (`app.py`). A request carries four self-reported inputs: the
number of assignments due, weekly class hours, days until the next exam
(999 meaning "no exam") and nightly sleep hours. The service

1. builds a five-element feature vector
   `[assignments, class_hours, min(days_to_exam, 60), sleep_hours, exam_soon]`
   whose order is the column order the regressor was trained on;
2. hands it to a pre-trained regressor and clamps the raw output to [0, 100];
3. classifies the clamped score as Low (below 35), Medium (35 up to below
   65) or High (65 and above);
4. names the top stress factor: four heuristic weights computed from the
   raw inputs, the first cause of maximal weight in the order assignments,
   sleep, class hours, exam proximity, mapped to a display label;
5. selects advice: one fixed message per rule that fires (short sleep, many
   assignments, imminent exam, heavy class load), in that order, or a single
   "mild drivers" message when none fires.

Modules, one per component:

- `StressRequest` (`request.dfy`): the request record and `ValidRequest`,
  the field bounds of the request schema (app.py:15-18), used as a
  precondition rather than checked at run time.
- `FeatureVector` (`features.dfy`): the feature vector, the training column
  order, the clamp and the score. The regressor is a parameter
  `regress: seq<real> -> real`; nothing is assumed about its values.
- `Category` (`category.dfy`): the three bands.
- `Attribution` (`factor.dfy`): the weights, a stable arg-max written as
  the left-to-right scan that Python's `max` performs, and the label map
  with its "Other" fallback.
- `Advice` (`advice.dfy`): `GenerateAdvice` builds the list step by step as
  the service does; `AdviceFor` is its reference definition, a filter of the
  rule list followed by a map to messages, about which the lemmas are proved.
- `Predictor` (`predictor.dfy`): the request/response cycle of `predict`.

Class hours, sleep hours, weights and the score are exact `real`s.

The service implements one rule set: thresholds 35/65, weights 8, 6, 0.6
and 2, and the 999 sentinel for "no exam". The stored feature-column list
(app.py:12) is loaded but never compared with anything, so the column order
is fixed only by the code that builds the vector. The weights are
non-negative only within the request bounds, because a negative assignment
count gives a negative weight, so `WeightsOfValidRequest` requires
`ValidRequest`.

## Model

| member | source | states |
|---|---|---|
| `StressRequest.ValidRequest` | app.py:15-18 | the request schema's bounds: assignments 0..50, class hours 0..168, days to exam 0..999 (999 meaning no exam), sleep hours 0..24; used as the precondition of the pipeline |
| `FeatureVector.Features` | app.py:68-70 | the vector has five entries; the days entry is at most 60 and equals the day count when that is at most 60; the exam-soon entry is 1 exactly when the exam is under 21 days away and 0 otherwise |
| `FeatureVector.FeaturesMatchTraining` | train_model.py:54-58 | each position of the vector holds the training table's value for the column at that position (assignments, class_hours, capped days_to_exam, sleep_hours, exam_soon) |
| `FeatureVector.Clamp` | app.py:72 | the clamped score lies in [0, 100]; it equals the raw value when that is already in range, 0 below it and 100 above it |
| `FeatureVector.Score` | app.py:71-72 | whatever the regressor returns for the feature vector, the score lies in [0, 100], and it is the regressor's value when that is in range |
| `Category.ComputeCategory` | app.py:26-32 | Low exactly below 35, Medium exactly from 35 to below 65, High exactly from 65; a score at a threshold falls in the higher band |
| `Category.CategoryMonotone` | app.py:27-32 | a higher score never lands in a lower band (Low < Medium < High) |
| `Attribution.Weights` | app.py:50-55 | the four weights in insertion order; all non-negative when the assignment count is; the sleep weight is 0 from 7 hours of sleep, the class weight 0 up to 20 class hours, the exam weight 0 with no exam (999) or one 21 or more days away |
| `Attribution.ArgMax` | app.py:56 | the scan returns an index whose value is at least every value, and every earlier value is strictly smaller (ties go to the first) |
| `Attribution.ArgMaxUnique` | app.py:56 | those two properties determine the chosen index uniquely |
| `Attribution.TopKey` | app.py:50-56 | the winning key is one of the four weight-table keys |
| `Attribution.LabelOf` | app.py:57-63 | a weight-table key maps to its display label, never "Other"; a key without a label maps to "Other" |
| `Attribution.TopFactor` | app.py:48-63 | `top_factor` itself: the label of the winning key, always one of "Assignment load", "Sleep hours", "Class load", "Upcoming exam" |
| `Attribution.TopFactorIsFirstMax` | app.py:50-56 | the winning cause's weight is at least every other weight, and every cause before it in the order assignments, sleep, class_hours, exam_proximity weighs strictly less |
| `Attribution.TopFactorLabelled` | app.py:57-63 | the reported factor is one of "Assignment load", "Sleep hours", "Class load", "Upcoming exam"; the "Other" fallback is never returned |
| `Attribution.TopFactorWins` | app.py:48-63 | a label is reported exactly when its cause beats every earlier cause strictly and every later cause at least ties (both directions) |
| `Attribution.WeightsOfValidRequest` | app.py:51-54 | for a request within bounds all four weights are non-negative; the exam weight is 0 when there is no exam (999) or it is 21 or more days away; the class weight is 0 up to 20 class hours |
| `Advice.MessagesDistinct` | app.py:37-45 | the four rule messages are pairwise different and none is the fallback message |
| `Advice.FiringRulesMembers` | app.py:36-43 | a rule is among the firing rules exactly when it is listed and its condition holds |
| `Advice.FiringRulesInOrder` | app.py:36-43 | over the fixed rule list, the firing rules are the sleep, assignments, exam and class rules, each present when its own condition holds, in that order |
| `Advice.FiringRulesOrdered` | app.py:36-43 | filtering a list of rules in rule order keeps them in rule order |
| `Advice.GenerateAdvice` | app.py:34-46 | appending the firing rules' messages in order, then the fallback if nothing was appended, yields the reference advice list, of length 1 to 4 |
| `Advice.AdviceShape` | app.py:44-46 | the advice has 1 to 4 entries, and it is exactly the single fallback message if and only if no rule fires |
| `Advice.AdvicePresence` | app.py:36-43 | a rule's message is in the advice if and only if that rule's condition holds |
| `Advice.AdviceOrdered` | app.py:36-43 | of two advice entries, the earlier comes from the earlier rule in the order sleep, assignments, exam, class hours, and the two differ |
| `Advice.AdviceNoRepeats` | app.py:36-45 | no two entries of the advice are equal |
| `Predictor.Predict` | app.py:66-76 | the response's score is the clamped regressor output on the feature vector and lies in [0, 100]; its category is the band of that unrounded score; its top factor is one of the four labels; its advice is the reference advice list and is never empty |

## Left out

- Predictor.Predict: returns the unrounded clamped score; the presentation rounding `round(score, 1)` at app.py:76 is floating-point formatting and is not modelled. The category is computed from the unrounded score, as in the code.
- Floating point: all arithmetic is exact real arithmetic, so the rounding of `7 - sleep_hours`, of `class_hours - 20` and of the products with 6 and 0.6, and NaN or infinite regressor outputs, are not modelled. One visible consequence: where two weights tie exactly in reals, the model gives the earlier key, but the service's floats can break the tie the other way. For assignments 0, class hours 20.1, days 999 and sleep 6.99, the sleep and class weights tie at 0.06 in the model, which reports "Sleep hours". In double precision the sleep weight is about 0.0599999999999987 and the class weight about 0.0600000000000009, so the service reports "Class load".
- The regressor (a random forest loaded from disk) is a function parameter; nothing is proved about its values beyond what the clamp guarantees.
- Model loading and the web framework (app.py:7-12, app.py:65, app.py:78-80): I/O and plumbing. Only the request field bounds are kept, as `ValidRequest`, and rejection of out-of-range requests is not modelled.
- train_model.py: the random synthetic data and the training itself are stochastic and library-bound. Only its feature column order (train_model.py:54-58) is modelled.
- launcher.py (process start-up, readiness polling, shutdown) is not part of this model: process orchestration and network I/O.
- gradio_stress_visual.py (the visual front end) is not part of this model: UI layout and display-only colour banding, whose 40/60 thresholds differ from the 35/65 category thresholds.
