# Skill-test dashboard: comparison curve, syllabus bands, score record

This project models the logic of the "Skill Test" results page, `src/app/page.tsx`. The rest of the page is rendering. There are three modules:

- `ComparisonCurve` (`curve.dfy`) is the comparison-curve deriver, `generateGraphData`. It has two hand-authored peer-distribution curves. A percentile above 50 selects the 13-point high curve; any other percentile selects the 15-point low curve. A `reduce` then picks the point nearest the percentile. The reducer replaces the tracked point only when the new one is strictly closer. It is modelled as a left fold, `NearestFrom`. Finally, a `map` copies every point and adds `isPercentile`, which is set when the point's `x` equals the nearest point's `x`.
  The proofs show four things. The fold returns the first point at minimal distance. Both curves are strictly ascending in `x`. So exactly one output point is flagged, and among equidistant points it is the one with the lowest `x`. The output is the selected curve, unchanged apart from the flag.
- `SyllabusBands` (`syllabus.dfy`) is the percentage classifier used by the syllabus card. At 80 or above a topic is strong (blue). From 60 up to 80 it is moderate (orange). Below 60 it is weak (red). The page writes this split twice, once for the label's text colour and once for the bar's fill. Both ternary chains are modelled as written. The contract of each states that it is the shared classifier's colour behind its own prefix.
- `TestScores` (`scores.dfy`) is the score record. A form submit replaces the record as a whole, with the question count forced to 15. The module also has the donut's two slices, correct and `totalQuestions - correctAnswers`, and the "higher/lower than 72" word.

JavaScript `number`s are modelled as `real`: the percentile, the record's fields and the syllabus percentages. Curve buckets are `int`, as in the literal tables. Dafny functions are deterministic, so calling the deriver twice with the same percentile gives the same result by construction.

The low curve (`src/app/page.tsx:57-73`) has 15 points and the high curve (`src/app/page.tsx:75-89`) has 13, so the branch changes the number of points as well as the shape.

The contracts of `Annotate` and `GenerateGraphData` are stated through `Plain`. It is a projection that removes the highlight flag from each point and keeps `x`, `value` and `numberOfStudent`. `Plain(r) == pts` therefore says that the map only adds the flag. The page itself never removes the flag.

## Model

| member | source | states |
|---|---|---|
| ComparisonCurve.BasePoints | src/app/page.tsx:91-93 | a percentile above 50 selects the high curve (13 points), any other the low curve (15 points) |
| ComparisonCurve.Distance | src/app/page.tsx:97 | the distance `abs(x - percentile)` is non-negative and zero exactly at an exact hit |
| ComparisonCurve.Closer | src/app/page.tsx:96-99 | the reducer returns one of its two points, no farther than either, and keeps the tracked point on a tie |
| ComparisonCurve.NearestFrom | src/app/page.tsx:96-100 | the left fold of the strict-`<` reducer returns the accumulator or a scanned point, and no scanned point is strictly nearer |
| ComparisonCurve.Nearest | src/app/page.tsx:96-100 | the reduce returns a member of the curve that minimises the distance to the percentile |
| ComparisonCurve.FoldKeepsFirstNearest | src/app/page.tsx:96-100 | continuing the fold from the first nearest point of a prefix ends on the first nearest point of the whole curve |
| ComparisonCurve.NearestIsFirstNearest | src/app/page.tsx:96-100 | the reduce returns the earliest point of minimal distance (ties keep the earlier point) |
| ComparisonCurve.FirstNearestIsUnique | src/app/page.tsx:96-100 | there is at most one earliest point of minimal distance |
| ComparisonCurve.Annotate | src/app/page.tsx:102-105 | the map keeps the curve (order, x, value, numberOfStudent) and flags exactly the points whose x equals the nearest point's x |
| ComparisonCurve.GenerateGraphData | src/app/page.tsx:55-106 | the output, with flags removed, is the selected curve; its length is 13 above 50 and 15 otherwise |
| ComparisonCurve.CurvesAreWellFormed | src/app/page.tsx:57-89 | both tables are strictly ascending in x, lie on 0..100, and start at 0 and end at 100 |
| ComparisonCurve.BasePointsWellFormed | src/app/page.tsx:57-93 | whichever curve is selected is strictly ascending, on the axis, from 0 to 100 |
| ComparisonCurve.FirstNearestFlaggedAlone | src/app/page.tsx:102-105 | on an ascending curve, annotating with the first nearest point flags that index only, and it has the lowest x among equidistant points |
| ComparisonCurve.ExactlyOneFlagged | src/app/page.tsx:92-105 | for every percentile exactly one output point is flagged, namely the first nearest point of the selected curve, which is the lowest-x point among the equidistant ones |
| ComparisonCurve.ExactHitIsFirstNearest | src/app/page.tsx:96-100 | on an ascending curve a bucket equal to the percentile is the first nearest point |
| ComparisonCurve.ExactPercentileIsFlagged | src/app/page.tsx:92-105 | when the percentile equals a bucket of the selected curve, that bucket and only it is flagged |
| ComparisonCurve.LeftOfCurveIsFirst | src/app/page.tsx:96-100 | on an ascending curve a percentile at or left of the first bucket makes the first bucket the nearest |
| ComparisonCurve.RightOfCurveIsLast | src/app/page.tsx:96-100 | on an ascending curve a percentile at or right of the last bucket makes the last bucket the nearest |
| ComparisonCurve.BelowAxisFlagsFirst | src/app/page.tsx:92-105 | an exact real percentile at or below 0 (not clamped) flags x = 0 |
| ComparisonCurve.AboveAxisFlagsLast | src/app/page.tsx:92-105 | an exact real percentile at or above 100 (not clamped) flags x = 100 of the high curve |
| ComparisonCurve.NoNearerThanSecondIsFirst | src/app/page.tsx:96-100 | on an ascending curve a percentile between the first two buckets and no nearer the second makes the first bucket the first nearest |
| ComparisonCurve.InitialPercentileCase | src/app/page.tsx:75-105 | percentile 90 yields 13 points with only x = 90 flagged |
| ComparisonCurve.Percentile45Case | src/app/page.tsx:57-105 | percentile 45 yields 15 points with only x = 45 flagged |
| ComparisonCurve.Percentile50Case | src/app/page.tsx:57-105 | percentile 50 is not above 50: 15 points with only x = 50 flagged |
| ComparisonCurve.TieGoesToEarlierBucket | src/app/page.tsx:57-100 | percentile 6, equidistant from 0 and 12, flags x = 0 and not x = 12 |
| SyllabusBands.Classify | src/app/page.tsx:335-339 | at least 80 is strong, 60 up to 80 is moderate, below 60 is weak, each in both directions |
| SyllabusBands.LabelClass | src/app/page.tsx:334-339 | the label's text class, its own ternary chain as written, is the classifier's colour token behind `text-[` |
| SyllabusBands.BarClass | src/app/page.tsx:347-352 | the bar's fill class, its own ternary chain as written, is the classifier's colour token behind `bg-[` |
| SyllabusBands.HexIsInjective | src/app/page.tsx:335-352 | the three colour tokens are distinct |
| SyllabusBands.SitesAgree | src/app/page.tsx:333-353 | two percentages share a label colour iff they share a bar colour iff they fall in the same band |
| SyllabusBands.ClassifyIsMonotone | src/app/page.tsx:335-339 | a higher percentage is never in a weaker band |
| SyllabusBands.BoundaryCases | src/app/page.tsx:335-339 | 80 is strong, 79 and 60 are moderate, 59 is weak |
| SyllabusBands.PageTopicBands | src/app/page.tsx:47-52 | the four topics (80, 60, 24, 96) are strong, moderate, weak, strong |
| TestScores.FormDefaults | src/app/page.tsx:420-452 | the form opens with the record's rank, percentile and correct answers |
| TestScores.Submit | src/app/page.tsx:406-411 | the new record takes rank, percentile and score from the form, and 15 questions |
| TestScores.SubmitReplacesWholesale | src/app/page.tsx:406-411 | the new record does not depend on the old one |
| TestScores.SubmitIsIdempotent | src/app/page.tsx:406-411 | submitting the same form twice equals submitting it once |
| TestScores.SaveUnchangedRoundTrip | src/app/page.tsx:406-452 | saving the pre-filled form unchanged restores the record iff it already counts 15 questions |
| TestScores.DonutSlices | src/app/page.tsx:112-115 | two slices, the first the correct answers, together summing to the question count |
| TestScores.IncorrectAfterSubmit | src/app/page.tsx:113-114 | after a submit the incorrect slice is 15 minus the submitted score |
| TestScores.ComparisonWord | src/app/page.tsx:238 | the word is "higher" exactly when the percentile exceeds 72, otherwise "lower" |
| TestScores.InitialPageScenario | src/app/page.tsx:38-43 | the initial record {4, 90, 12, 15} shows "higher", slices 12 and 3, and the high curve flagged at x = 90 |
| TestScores.SubmitScenario | src/app/page.tsx:406-411 | submitting 7, 45, 9 gives {7, 45, 9, 15}, "lower", slices 9 and 6, and the low curve flagged at x = 45 |

## Left out

- `src/components/Layout.tsx` is not part of this model. It is a navigation shell whose only state is a sidebar-open flag.
- Chart and donut configuration, JSX markup, styling classes other than the two colour chains, images, tooltips and the reference line are left out. They are presentation and calls into charting libraries.
- `Number(...)` coercion of the form's strings is left out, and so are NaN, ±Infinity and IEEE double rounding. Values are exact reals. The model does not capture these source behaviours:
  - A NaN percentile leaves the first point flagged, because every comparison with NaN is false.
  - A percentile of ±Infinity (for example a submitted `1e400`) makes every distance Infinity. The strict `<` then never fires, and x = 0 stays flagged.
  - A very large finite percentile (for example `1e17`) rounds several distances to the same double, so an earlier bucket than x = 100 can stay flagged.
- BelowAxisFlagsFirst and AboveAxisFlagsLast: hold for exact real percentiles only, for the reasons in the previous line.
- An empty array passed to `reduce` without an initial value is left out. In JavaScript it throws. `Nearest` requires a non-empty curve, and both curves it is applied to are non-empty constants.
- The modal's open/close flag, React state hooks and re-rendering are left out. They are UI event plumbing. The form's HTML `min`/`max` attributes are not enforced by the code, so `Submit` has no range precondition.
