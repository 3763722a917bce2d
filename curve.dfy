/**
 * The comparison-curve deriver of the skill-test page: given the user's
 * percentile it picks one of two hand-authored peer-distribution curves and
 * marks the curve point nearest to the percentile.
 */
module ComparisonCurve {

  /** One bucket of a peer-distribution curve. */
  datatype Point = Point(x: int, value: int, numberOfStudent: int)

  /** A curve point together with the flag that highlights it on the chart. */
  datatype AnnotatedPoint = AnnotatedPoint(x: int, value: int, numberOfStudent: int, isPercentile: bool)

  /** The two hand-authored curves; the choice between them is coarse, not interpolated. */
  datatype Branch = LowBranch | HighBranch

  /** The curve shown for percentiles up to and including 50 (15 points). */
  const LowPercentilePoints: seq<Point> := [
    Point(0, 5, 2),
    Point(12, 8, 3),
    Point(25, 20, 3),
    Point(30, 35, 4),
    Point(35, 45, 4),
    Point(40, 55, 5),
    Point(45, 65, 4),
    Point(50, 100, 6),
    Point(55, 80, 5),
    Point(60, 60, 4),
    Point(70, 35, 3),
    Point(80, 20, 3),
    Point(90, 15, 4),
    Point(95, 10, 2),
    Point(100, 5, 2)
  ]

  /** The curve shown for percentiles above 50 (13 points). */
  const HighPercentilePoints: seq<Point> := [
    Point(0, 5, 2),
    Point(12, 8, 3),
    Point(25, 15, 3),
    Point(35, 25, 4),
    Point(45, 40, 4),
    Point(50, 100, 6),
    Point(55, 85, 5),
    Point(60, 65, 4),
    Point(70, 45, 3),
    Point(80, 30, 3),
    Point(90, 25, 4),
    Point(95, 15, 2),
    Point(100, 5, 2)
  ]

  // ---------------------------------------------------------------------------
  // Branch selection
  // ---------------------------------------------------------------------------

  function BranchFor(percentile: real): Branch {
    if percentile > 50.0 then HighBranch else LowBranch
  }

  function CurveOf(b: Branch): seq<Point> {
    match b
    case LowBranch => LowPercentilePoints
    case HighBranch => HighPercentilePoints
  }

  /** The curve the deriver scans for a given percentile. */
  function BasePoints(percentile: real): (pts: seq<Point>)
    ensures percentile > 50.0 ==> pts == HighPercentilePoints && |pts| == 13
    ensures percentile <= 50.0 ==> pts == LowPercentilePoints && |pts| == 15
  {
    CurveOf(BranchFor(percentile))
  }

  // ---------------------------------------------------------------------------
  // Nearest point: the reduce, as a left fold
  // ---------------------------------------------------------------------------

  /** |x - percentile| on the real line. */
  function Distance(x: int, percentile: real): (d: real)
    ensures d >= 0.0
    ensures d == 0.0 <==> x as real == percentile
  {
    if x as real < percentile then percentile - x as real else x as real - percentile
  }

  /** The reducer: the current point replaces the tracked one only when strictly closer. */
  function Closer(prev: Point, curr: Point, percentile: real): (r: Point)
    ensures r == prev || r == curr
    ensures Distance(r.x, percentile) <= Distance(prev.x, percentile)
    ensures Distance(r.x, percentile) <= Distance(curr.x, percentile)
    ensures Distance(curr.x, percentile) == Distance(prev.x, percentile) ==> r == prev
  {
    if Distance(curr.x, percentile) < Distance(prev.x, percentile) then curr else prev
  }

  /** Folds Closer over rest from left to right, starting with prev as accumulator. */
  function NearestFrom(prev: Point, rest: seq<Point>, percentile: real): (r: Point)
    ensures r == prev || r in rest
    ensures Distance(r.x, percentile) <= Distance(prev.x, percentile)
    ensures forall q | q in rest :: Distance(r.x, percentile) <= Distance(q.x, percentile)
    decreases |rest|
  {
    if rest == [] then prev
    else NearestFrom(Closer(prev, rest[0], percentile), rest[1..], percentile)
  }

  /**
   * A reduce without an initial value: the first point is the starting
   * accumulator. Such a reduce fails on an empty array; both curves are
   * non-empty.
   */
  function Nearest(pts: seq<Point>, percentile: real): (r: Point)
    requires |pts| > 0
    ensures r in pts
    ensures forall q | q in pts :: Distance(r.x, percentile) <= Distance(q.x, percentile)
  {
    NearestFrom(pts[0], pts[1..], percentile)
  }

  /**
   * Index k is, among the first n points, a nearest one to the percentile,
   * and every point before it is strictly farther.
   */
  ghost predicate FirstNearestAmong(pts: seq<Point>, n: nat, k: nat, percentile: real) {
    && k < n <= |pts|
    && (forall j | 0 <= j < n :: Distance(pts[k].x, percentile) <= Distance(pts[j].x, percentile))
    && (forall j | 0 <= j < k :: Distance(pts[k].x, percentile) < Distance(pts[j].x, percentile))
  }

  ghost predicate FirstNearest(pts: seq<Point>, k: nat, percentile: real) {
    FirstNearestAmong(pts, |pts|, k, percentile)
  }

  /**
   * Continuing the fold from the first nearest point among pts[..i] ends at
   * the first nearest point of the whole of pts.
   */
  lemma {:induction false} FoldKeepsFirstNearest(pts: seq<Point>, i: nat, k: nat, percentile: real)
    returns (m: nat)
    requires 0 < i <= |pts|
    requires FirstNearestAmong(pts, i, k, percentile)
    ensures FirstNearest(pts, m, percentile)
    ensures NearestFrom(pts[k], pts[i..], percentile) == pts[m]
    decreases |pts| - i
  {
    if i == |pts| {
      m := k;
    } else {
      assert pts[i..][0] == pts[i] && pts[i..][1..] == pts[i + 1..];
      var k' := if Distance(pts[i].x, percentile) < Distance(pts[k].x, percentile) then i else k;
      assert Closer(pts[k], pts[i], percentile) == pts[k'];
      assert FirstNearestAmong(pts, i + 1, k', percentile);
      m := FoldKeepsFirstNearest(pts, i + 1, k', percentile);
    }
  }

  /** The reduce returns the first point of minimal distance (strict-< tie-break). */
  lemma NearestIsFirstNearest(pts: seq<Point>, percentile: real) returns (k: nat)
    requires |pts| > 0
    ensures FirstNearest(pts, k, percentile)
    ensures Nearest(pts, percentile) == pts[k]
  {
    k := FoldKeepsFirstNearest(pts, 1, 0, percentile);
  }

  // ---------------------------------------------------------------------------
  // Annotation: the map
  // ---------------------------------------------------------------------------

  function Unannotated(a: AnnotatedPoint): Point {
    Point(a.x, a.value, a.numberOfStudent)
  }

  /** Drops the highlight flag from every point of an annotated curve. */
  function Plain(r: seq<AnnotatedPoint>): (pts: seq<Point>)
    ensures |pts| == |r|
    ensures forall i | 0 <= i < |r| :: pts[i] == Unannotated(r[i])
  {
    seq(|r|, i requires 0 <= i < |r| => Unannotated(r[i]))
  }

  /** Copies every point and flags those whose x equals the nearest point's x. */
  function Annotate(pts: seq<Point>, nearest: Point): (r: seq<AnnotatedPoint>)
    ensures Plain(r) == pts
    ensures forall i | 0 <= i < |r| :: r[i].isPercentile <==> pts[i].x == nearest.x
  {
    seq(|pts|, i requires 0 <= i < |pts| =>
      AnnotatedPoint(pts[i].x, pts[i].value, pts[i].numberOfStudent, pts[i].x == nearest.x))
  }

  /** The deriver as a whole. */
  function GenerateGraphData(percentile: real): (r: seq<AnnotatedPoint>)
    ensures Plain(r) == BasePoints(percentile)
    ensures |r| == if percentile > 50.0 then 13 else 15
  {
    var basePoints := BasePoints(percentile);
    Annotate(basePoints, Nearest(basePoints, percentile))
  }

  // ---------------------------------------------------------------------------
  // Properties of the curves and of the deriver
  // ---------------------------------------------------------------------------

  ghost predicate StrictlyAscending(pts: seq<Point>) {
    forall i, j | 0 <= i < j < |pts| :: pts[i].x < pts[j].x
  }

  /** Every bucket lies on the 0..100 axis. */
  ghost predicate OnAxis(pts: seq<Point>) {
    forall i | 0 <= i < |pts| :: 0 <= pts[i].x <= 100
  }

  lemma CurvesAreWellFormed()
    ensures StrictlyAscending(LowPercentilePoints) && OnAxis(LowPercentilePoints)
    ensures StrictlyAscending(HighPercentilePoints) && OnAxis(HighPercentilePoints)
    ensures LowPercentilePoints[0].x == 0 && HighPercentilePoints[0].x == 0
    ensures LowPercentilePoints[14].x == 100 && HighPercentilePoints[12].x == 100
  {
  }

  /** Every curve the deriver may scan is ascending and spans 0..100. */
  lemma BasePointsWellFormed(percentile: real)
    ensures StrictlyAscending(BasePoints(percentile)) && OnAxis(BasePoints(percentile))
    ensures BasePoints(percentile)[0].x == 0
    ensures BasePoints(percentile)[|BasePoints(percentile)| - 1].x == 100
  {
    CurvesAreWellFormed();
  }

  /**
   * On an ascending curve, annotating with the first nearest point flags that
   * point and no other, and that point has the lowest x among the points at
   * the same distance.
   */
  lemma FirstNearestFlaggedAlone(pts: seq<Point>, k: nat, percentile: real)
    requires StrictlyAscending(pts)
    requires FirstNearest(pts, k, percentile)
    ensures forall i | 0 <= i < |pts| :: Annotate(pts, pts[k])[i].isPercentile <==> i == k
    ensures forall j | 0 <= j < |pts| && Distance(pts[j].x, percentile) == Distance(pts[k].x, percentile) ::
      pts[k].x <= pts[j].x
  {
  }

  /**
   * Exactly one output point is flagged: the first point of the selected
   * curve at minimal distance, which is the one with the lowest x among the
   * equidistant points.
   */
  lemma ExactlyOneFlagged(percentile: real) returns (k: nat)
    ensures k < |GenerateGraphData(percentile)|
    ensures forall i | 0 <= i < |GenerateGraphData(percentile)| ::
      GenerateGraphData(percentile)[i].isPercentile <==> i == k
    ensures FirstNearest(BasePoints(percentile), k, percentile)
    ensures forall j | 0 <= j < |BasePoints(percentile)| ::
      Distance(BasePoints(percentile)[j].x, percentile) == Distance(BasePoints(percentile)[k].x, percentile)
      ==> BasePoints(percentile)[k].x <= BasePoints(percentile)[j].x
  {
    var pts := BasePoints(percentile);
    BasePointsWellFormed(percentile);
    k := NearestIsFirstNearest(pts, percentile);
    FirstNearestFlaggedAlone(pts, k, percentile);
  }

  /** On an ascending curve, a point at distance zero is the first nearest one. */
  lemma ExactHitIsFirstNearest(pts: seq<Point>, k: nat, j: nat, percentile: real)
    requires StrictlyAscending(pts)
    requires FirstNearest(pts, k, percentile)
    requires j < |pts| && pts[j].x as real == percentile
    ensures k == j
  {
  }

  /** When the percentile is exactly some bucket of the selected curve, that bucket is the one flagged. */
  lemma ExactPercentileIsFlagged(percentile: real, j: nat)
    requires j < |BasePoints(percentile)|
    requires BasePoints(percentile)[j].x as real == percentile
    ensures GenerateGraphData(percentile)[j].isPercentile
    ensures forall i | 0 <= i < |GenerateGraphData(percentile)| ::
      GenerateGraphData(percentile)[i].isPercentile ==> i == j
  {
    var k := ExactlyOneFlagged(percentile);
    BasePointsWellFormed(percentile);
    ExactHitIsFirstNearest(BasePoints(percentile), k, j, percentile);
  }

  /** On an ascending curve, a percentile at or left of the first bucket makes it the nearest. */
  lemma LeftOfCurveIsFirst(pts: seq<Point>, k: nat, percentile: real)
    requires StrictlyAscending(pts)
    requires FirstNearest(pts, k, percentile)
    requires percentile <= pts[0].x as real
    ensures k == 0
  {
  }

  /** On an ascending curve, a percentile at or right of the last bucket makes it the nearest. */
  lemma RightOfCurveIsLast(pts: seq<Point>, k: nat, percentile: real)
    requires StrictlyAscending(pts)
    requires FirstNearest(pts, k, percentile)
    requires percentile >= pts[|pts| - 1].x as real
    ensures k == |pts| - 1
  {
  }

  /** An exact percentile below the axis (no clamping) flags the first bucket, x = 0. */
  lemma BelowAxisFlagsFirst(percentile: real)
    requires percentile <= 0.0
    ensures GenerateGraphData(percentile)[0].isPercentile
    ensures GenerateGraphData(percentile)[0].x == 0
  {
    var k := ExactlyOneFlagged(percentile);
    BasePointsWellFormed(percentile);
    LeftOfCurveIsFirst(BasePoints(percentile), k, percentile);
  }

  /** An exact percentile above the axis (no clamping) flags the last bucket of the high curve, x = 100. */
  lemma AboveAxisFlagsLast(percentile: real)
    requires percentile >= 100.0
    ensures GenerateGraphData(percentile)[12].isPercentile
    ensures GenerateGraphData(percentile)[12].x == 100
  {
    var k := ExactlyOneFlagged(percentile);
    BasePointsWellFormed(percentile);
    RightOfCurveIsLast(BasePoints(percentile), k, percentile);
  }

  /** The page's initial percentile, 90, selects the high curve and flags x = 90. */
  lemma InitialPercentileCase()
    ensures |GenerateGraphData(90.0)| == 13
    ensures GenerateGraphData(90.0)[10] == AnnotatedPoint(90, 25, 4, true)
    ensures forall i | 0 <= i < 13 && i != 10 :: !GenerateGraphData(90.0)[i].isPercentile
  {
    ExactPercentileIsFlagged(90.0, 10);
  }

  /** Percentile 45 selects the low curve and flags x = 45. */
  lemma Percentile45Case()
    ensures |GenerateGraphData(45.0)| == 15
    ensures GenerateGraphData(45.0)[6] == AnnotatedPoint(45, 65, 4, true)
    ensures forall i | 0 <= i < 15 && i != 6 :: !GenerateGraphData(45.0)[i].isPercentile
  {
    ExactPercentileIsFlagged(45.0, 6);
  }

  /** Percentile 50 is not above 50: the low curve is used and its x = 50 bucket is flagged. */
  lemma Percentile50Case()
    ensures |GenerateGraphData(50.0)| == 15
    ensures GenerateGraphData(50.0)[7] == AnnotatedPoint(50, 100, 6, true)
    ensures forall i | 0 <= i < 15 && i != 7 :: !GenerateGraphData(50.0)[i].isPercentile
  {
    ExactPercentileIsFlagged(50.0, 7);
  }

  /** At most one index is the first nearest point. */
  lemma FirstNearestIsUnique(pts: seq<Point>, k: nat, m: nat, percentile: real)
    requires FirstNearest(pts, k, percentile) && FirstNearest(pts, m, percentile)
    ensures k == m
  {
    assert Distance(pts[k].x, percentile) <= Distance(pts[m].x, percentile);
    assert Distance(pts[m].x, percentile) <= Distance(pts[k].x, percentile);
    assert !(k < m) && !(m < k);
  }

  /**
   * On an ascending curve, a percentile between the first two buckets and no
   * nearer to the second makes the first bucket the first nearest one.
   */
  lemma NoNearerThanSecondIsFirst(pts: seq<Point>, percentile: real)
    requires StrictlyAscending(pts) && |pts| >= 2
    requires pts[0].x as real <= percentile
    requires percentile - pts[0].x as real <= pts[1].x as real - percentile
    ensures FirstNearest(pts, 0, percentile)
  {
  }

  /** Percentile 6 is equidistant from x = 0 and x = 12; the earlier bucket, x = 0, wins. */
  lemma TieGoesToEarlierBucket()
    ensures GenerateGraphData(6.0)[0].isPercentile
    ensures !GenerateGraphData(6.0)[1].isPercentile
  {
    var k := ExactlyOneFlagged(6.0);
    BasePointsWellFormed(6.0);
    NoNearerThanSecondIsFirst(BasePoints(6.0), 6.0);
    FirstNearestIsUnique(BasePoints(6.0), k, 0, 6.0);
  }
}
