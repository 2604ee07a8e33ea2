/**
  Aligned metric queries: the points inside a closed viewport, the nearest
  neighbour on each side, and the screen reduction of what is inside.
 */
module Alignment {
  import opened Values
  import opened Reduction
  import Metrics

  datatype Limit = Full | Screen(maxPoints: nat)

  // ------------------------------------------------------------ positions in ascending order

  /** The positions below `n` that are in the set, in order. */
  ghost function Filter(n: nat, s: set<nat>): seq<nat> {
    if n == 0 then [] else Filter(n - 1, s) + (if n - 1 in s then [n - 1] else [])
  }

  ghost predicate Increasing(positions: seq<nat>) {
    forall k, l :: 0 <= k < l < |positions| ==> positions[k] < positions[l]
  }

  lemma {:induction false} FilterMeans(n: nat, s: set<nat>)
    ensures Increasing(Filter(n, s))
    ensures forall k :: 0 <= k < |Filter(n, s)| ==> Filter(n, s)[k] < n && Filter(n, s)[k] in s
    ensures forall i :: 0 <= i < n && i in s ==> i in Filter(n, s)
  {
    if n > 0 {
      FilterMeans(n - 1, s);
    }
  }

  lemma {:induction false} FilterAdd(n: nat, s: set<nat>, x: nat)
    ensures |Filter(n, s)| <= |Filter(n, s + {x})| <= |Filter(n, s)| + 1
    ensures x >= n ==> |Filter(n, s + {x})| == |Filter(n, s)|
  {
    if n > 0 {
      FilterAdd(n - 1, s, x);
    }
  }

  /** Exactly the positions of an interval. */
  lemma {:induction false} FilterInterval(n: nat, s: set<nat>, low: nat, high: nat)
    requires low <= high <= n && forall i :: 0 <= i < n ==> (i in s <==> low <= i < high)
    ensures |Filter(n, s)| == high - low && forall k :: 0 <= k < high - low ==> Filter(n, s)[k] == low + k
  {
    if n > 0 {
      if high == n && low < high {
        FilterInterval(n - 1, s, low, n - 1);
      } else {
        FilterInterval(n - 1, s, if low > n - 1 then n - 1 else low, if high > n - 1 then n - 1 else high);
      }
    }
  }

  // ------------------------------------------------------------ the query

  predicate IsInside(p: Point, start: int, end: int) {
    start <= p.axis <= end
  }

  /** The last point before the viewport. */
  ghost predicate IsLeft(points: seq<Point>, start: int, i: nat)
    requires i < |points|
  {
    points[i].axis < start && forall j :: 0 <= j < |points| && j != i && points[j].axis < start ==> Earlier(points[j], points[i])
  }

  /** The first point after the viewport. */
  ghost predicate IsRight(points: seq<Point>, end: int, i: nat)
    requires i < |points|
  {
    points[i].axis > end && forall j :: 0 <= j < |points| && j != i && points[j].axis > end ==> Earlier(points[i], points[j])
  }

  ghost function InsideSet(points: seq<Point>, start: int, end: int): set<nat> {
    set i: nat | i < |points| && IsInside(points[i], start, end)
  }

  ghost function NeighbourSet(points: seq<Point>, start: int, end: int): set<nat> {
    set i: nat | i < |points| && (IsLeft(points, start, i) || IsRight(points, end, i))
  }

  /** Positions of the points inside, by ordinal. */
  ghost function Inside(points: seq<Point>, start: int, end: int): seq<nat> {
    Filter(|points|, InsideSet(points, start, end))
  }

  /** The point at position `i` has rank one in some ranking of its bucket of the inside points. */
  ghost predicate IsExtreme(points: seq<Point>, start: int, end: int, buckets: nat, i: nat) {
    exists k :: 0 <= k < |Inside(points, start, end)| && Inside(points, start, end)[k] == i && Kept(At(points, Inside(points, start, end)), buckets, k)
  }

  ghost function InsideKept(points: seq<Point>, start: int, end: int, limit: Limit): set<nat> {
    if limit.Full? || |Inside(points, start, end)| <= limit.maxPoints then InsideSet(points, start, end)
    else set i: nat | i < |points| && i in InsideSet(points, start, end) && IsExtreme(points, start, end, BucketCount(limit.maxPoints), i)
  }

  /** The positions of the returned points, `ORDER BY step`. */
  ghost function AlignedQuery(points: seq<Point>, start: int, end: int, limit: Limit): seq<nat> {
    Filter(|points|, InsideKept(points, start, end, limit) + NeighbourSet(points, start, end))
  }

  /** `count(*)` over what is visible before reduction. */
  ghost function SourceRowCount(points: seq<Point>, start: int, end: int): nat {
    |Filter(|points|, InsideSet(points, start, end) + NeighbourSet(points, start, end))|
  }

  // ------------------------------------------------------------ neighbours are at most two

  lemma NeighboursAreUnique(points: seq<Point>, start: int, end: int, i: nat, j: nat)
    requires i < |points| && j < |points|
    ensures IsLeft(points, start, i) && IsLeft(points, start, j) ==> i == j
    ensures IsRight(points, end, i) && IsRight(points, end, j) ==> i == j
  {
  }

  /** Two positions that cover the neighbours; a position past the end stands for none. */
  lemma NeighbourPositions(points: seq<Point>, start: int, end: int) returns (left: nat, right: nat)
    ensures NeighbourSet(points, start, end) <= {left, right}
  {
    left, right := |points|, |points|;
    if i :| 0 <= i < |points| && IsLeft(points, start, i) { left := i; }
    if i :| 0 <= i < |points| && IsRight(points, end, i) { right := i; }
    forall i | i in NeighbourSet(points, start, end) ensures i in {left, right} {
      if IsLeft(points, start, i) { NeighboursAreUnique(points, start, end, i, left); } else { NeighboursAreUnique(points, start, end, i, right); }
    }
  }

  lemma {:induction false} FilterMonotone(n: nat, s: set<nat>, t: set<nat>)
    requires s <= t
    ensures |Filter(n, s)| <= |Filter(n, t)|
  {
    if n > 0 {
      FilterMonotone(n - 1, s, t);
    }
  }

  lemma NeighboursAddTwo(points: seq<Point>, start: int, end: int, s: set<nat>)
    ensures |Filter(|points|, s + NeighbourSet(points, start, end))| <= |Filter(|points|, s)| + 2
  {
    var left, right := NeighbourPositions(points, start, end);
    FilterMonotone(|points|, s + NeighbourSet(points, start, end), s + {left} + {right});
    FilterAdd(|points|, s, left);
    FilterAdd(|points|, s + {left}, right);
  }

  /** The neighbours: the greatest coordinate before the viewport, at its last step, and the smallest one after it, at its first step. */
  lemma NeighboursMean(points: seq<Point>, start: int, end: int, i: nat)
    requires Ascending(points) && i < |points|
    ensures IsLeft(points, start, i) <==>
              points[i].axis < start && forall j :: 0 <= j < |points| && points[j].axis < start ==>
                points[j].axis <= points[i].axis && (points[j].axis == points[i].axis ==> j <= i)
    ensures IsRight(points, end, i) <==>
              points[i].axis > end && forall j :: 0 <= j < |points| && points[j].axis > end ==>
                points[j].axis >= points[i].axis && (points[j].axis == points[i].axis ==> j >= i)
  {
  }

  // ------------------------------------------------------------ size and content

  /** At most four extremes per bucket. */
  lemma ExtremesFit(points: seq<Point>, start: int, end: int, buckets: nat, chosen: seq<nat>)
    requires buckets >= 1 && Increasing(chosen) && forall c :: 0 <= c < |chosen| ==> IsExtreme(points, start, end, buckets, chosen[c])
    ensures |chosen| <= EXTREMA_PER_BUCKET * buckets
  {
    var inside := Inside(points, start, end);
    var at := At(points, inside);
    var places := seq(|chosen|, c requires 0 <= c < |chosen| => Place(at, buckets, Ordinal(points, start, end, buckets, chosen[c])));
    if |chosen| > EXTREMA_PER_BUCKET * buckets {
      var c, d := Pigeonhole(places, EXTREMA_PER_BUCKET * buckets);
      PlacesDiffer(at, buckets, Ordinal(points, start, end, buckets, chosen[c]), Ordinal(points, start, end, buckets, chosen[d]));
    }
  }

  ghost function Ordinal(points: seq<Point>, start: int, end: int, buckets: nat, i: nat): (k: nat)
    requires IsExtreme(points, start, end, buckets, i)
    ensures k < |Inside(points, start, end)| && Inside(points, start, end)[k] == i && Kept(At(points, Inside(points, start, end)), buckets, k)
  {
    var k: nat :| k < |Inside(points, start, end)| && Inside(points, start, end)[k] == i && Kept(At(points, Inside(points, start, end)), buckets, k);
    k
  }

  /** A screen query returns at most its budget of inside points, and at most two neighbours. */
  lemma AlignedQueryFits(points: seq<Point>, start: int, end: int, pixelWidth: nat, pointsPerPixel: nat)
    ensures var max := MaxPoints(pixelWidth, pointsPerPixel);
            && |Filter(|points|, InsideKept(points, start, end, Screen(max)))| <= max
            && |AlignedQuery(points, start, end, Screen(max))| <= max + 2
  {
    var max := MaxPoints(pixelWidth, pointsPerPixel);
    BudgetCoversBuckets(pixelWidth, pointsPerPixel);
    var kept := InsideKept(points, start, end, Screen(max));
    FilterMeans(|points|, kept);
    if |Inside(points, start, end)| > max {
      ExtremesFit(points, start, end, BucketCount(max), Filter(|points|, kept));
    }
    NeighboursAddTwo(points, start, end, kept);
  }

  /** Points come in step order, each once, and every one is inside or a neighbour. */
  lemma AlignedQueryInOrder(points: seq<Point>, start: int, end: int, limit: Limit)
    requires Ascending(points)
    ensures var positions := AlignedQuery(points, start, end, limit);
            && Increasing(positions) && Ascending(At(points, positions))
            && forall k :: 0 <= k < |positions| ==> positions[k] < |points| && positions[k] in InsideSet(points, start, end) + NeighbourSet(points, start, end)
  {
    FilterMeans(|points|, InsideKept(points, start, end, limit) + NeighbourSet(points, start, end));
    var positions := AlignedQuery(points, start, end, limit);
    hide AlignedQuery, NeighbourSet;
    forall k, l | 0 <= k < l < |positions| ensures At(points, positions)[k].step < At(points, positions)[l].step {
      assert points[positions[k]].step < points[positions[l]].step;
    }
  }

  /** When what is inside fits the budget, the screen query is the full query. */
  lemma AlignedQueryReturnsWhatFits(points: seq<Point>, start: int, end: int, maxPoints: nat)
    requires |Inside(points, start, end)| <= maxPoints
    ensures AlignedQuery(points, start, end, Screen(maxPoints)) == AlignedQuery(points, start, end, Full)
    ensures |AlignedQuery(points, start, end, Screen(maxPoints))| == SourceRowCount(points, start, end)
  {
  }

  /** Of the inside points, one that no other precedes is returned, in each ranking. */
  lemma AlignedQueryKeepsExtremes(points: seq<Point>, start: int, end: int, limit: Limit, ranking: Ranking)
    requires Ascending(points) && Inside(points, start, end) != []
    ensures exists best :: 0 <= best < |points| && best in AlignedQuery(points, start, end, limit) && IsInside(points[best], start, end)
              && forall j :: 0 <= j < |points| && j != best && IsInside(points[j], start, end) ==> Before(ranking, points[best], points[j])
  {
    var inside := Inside(points, start, end);
    InsideAscends(points, start, end);
    var at := At(points, inside);
    var buckets := if limit.Full? then 1 else BucketCount(limit.maxPoints);
    var k := SeriesKeepsExtremes(ranking, at, buckets);
    var best := inside[k];
    assert IsExtreme(points, start, end, buckets, best) && best in InsideKept(points, start, end, limit);
    FilterMeans(|points|, InsideKept(points, start, end, limit) + NeighbourSet(points, start, end));
    hide AlignedQuery, Inside, Kept, IsExtreme, Before, InsideKept, NeighbourSet;
    forall j | 0 <= j < |points| && j != best && IsInside(points[j], start, end) ensures Before(ranking, points[best], points[j]) {
      var l :| 0 <= l < |inside| && inside[l] == j;
      assert at[l] == points[j] && at[k] == points[best];
    }
  }

  /** For every inside point and ranking, a returned point of the same bucket is as good. */
  lemma AlignedQueryKeepsBucketExtremes(points: seq<Point>, start: int, end: int, maxPoints: nat, ranking: Ranking, k: nat) returns (l: nat)
    requires Ascending(points) && k < |Inside(points, start, end)|
    ensures l < |Inside(points, start, end)| && Together(k, l, |Inside(points, start, end)|, BucketCount(maxPoints))
    ensures Inside(points, start, end)[l] in AlignedQuery(points, start, end, Screen(maxPoints))
    ensures l == k || Before(ranking, At(points, Inside(points, start, end))[l], At(points, Inside(points, start, end))[k])
  {
    InsideAscends(points, start, end);
    l := BucketKeepsExtremes(ranking, At(points, Inside(points, start, end)), BucketCount(maxPoints), k);
    var best := Inside(points, start, end)[l];
    assert IsExtreme(points, start, end, BucketCount(maxPoints), best) && best in InsideKept(points, start, end, Screen(maxPoints));
    FilterMeans(|points|, InsideKept(points, start, end, Screen(maxPoints)) + NeighbourSet(points, start, end));
  }

  lemma InsideAscends(points: seq<Point>, start: int, end: int)
    requires Ascending(points)
    ensures Ascending(At(points, Inside(points, start, end)))
    ensures forall k :: 0 <= k < |Inside(points, start, end)| ==> Inside(points, start, end)[k] in InsideSet(points, start, end)
    ensures forall j :: 0 <= j < |points| && IsInside(points[j], start, end) ==> j in Inside(points, start, end)
  {
    FilterMeans(|points|, InsideSet(points, start, end));
    var inside := Inside(points, start, end);
    hide Inside;
    forall k, l | 0 <= k < l < |inside| ensures At(points, inside)[k].step < At(points, inside)[l].step {
      assert points[inside[k]].step < points[inside[l]].step;
    }
  }

  // ------------------------------------------------------------ derived coordinates

  /** Steps, or milliseconds since the run started. */
  datatype AxisKind = Steps | Elapsed(runStart: int)

  function Coordinate(axis: AxisKind, row: Metrics.Row): int {
    match axis
    case Steps => row.report.step
    case Elapsed(runStart) => row.report.timestamp - runStart
  }

  /** The effective series of one run and key with its horizontal coordinates, `ORDER BY step`. */
  function Derived(rows: seq<Metrics.Row>, run: Metrics.RunId, key: Metrics.MetricKey, axis: AxisKind): (points: seq<Point>)
  {
    var series := Metrics.Effective(rows, run, key);
    seq(|series|, i requires 0 <= i < |series| => Point(series[i].report.step, Coordinate(axis, series[i]), series[i].report.value))
  }

  lemma DerivedAscends(rows: seq<Metrics.Row>, run: Metrics.RunId, key: Metrics.MetricKey, axis: AxisKind)
    ensures Ascending(Derived(rows, run, key, axis)) && (axis.Steps? ==> OverSteps(Derived(rows, run, key, axis)))
  {
    Metrics.EffectiveAscends(rows, run, key);
  }

  /** The point stands for the stored row: its step, its value, and its place on the axis. */
  predicate StandsFor(axis: AxisKind, p: Point, row: Metrics.Row) {
    && p.step == row.report.step && p.value == row.report.value
    && (axis.Steps? ==> p.axis == row.report.step)
    && (axis.Elapsed? ==> axis.runStart + p.axis == row.report.timestamp)
  }

  /** Every derived point stands for a row that a reader sees ... */
  lemma PointHasRow(rows: seq<Metrics.Row>, run: Metrics.RunId, key: Metrics.MetricKey, axis: AxisKind, i: nat) returns (row: Metrics.Row)
    requires i < |Derived(rows, run, key, axis)|
    ensures Metrics.Seen(rows, run, key, row) && StandsFor(axis, Derived(rows, run, key, axis)[i], row)
  {
    row := Metrics.Effective(rows, run, key)[i];
    Metrics.SeriesIsSeen(rows, run, key, row);
  }

  /** ... and every such row has its derived point: at its step, or at its time since the run started. */
  lemma RowHasPoint(rows: seq<Metrics.Row>, run: Metrics.RunId, key: Metrics.MetricKey, axis: AxisKind, row: Metrics.Row) returns (i: nat)
    requires Metrics.Seen(rows, run, key, row)
    ensures i < |Derived(rows, run, key, axis)| && StandsFor(axis, Derived(rows, run, key, axis)[i], row)
  {
    Metrics.SeriesIsSeen(rows, run, key, row);
    var series := Metrics.Effective(rows, run, key);
    i :| 0 <= i < |series| && series[i] == row;
  }

  ghost predicate LoggedBefore(rows: seq<Metrics.Row>, run: Metrics.RunId, key: Metrics.MetricKey, row: Metrics.Row, time: int) {
    Metrics.Seen(rows, run, key, row) && row.report.timestamp < time
  }

  /** On the elapsed axis a point is negative exactly if its row was logged before the run started. */
  lemma NegativeMeansBeforeStart(rows: seq<Metrics.Row>, run: Metrics.RunId, key: Metrics.MetricKey, runStart: int)
    ensures HasNegativeAxis(Derived(rows, run, key, Elapsed(runStart))) <==> exists row :: LoggedBefore(rows, run, key, row, runStart)
  {
    var points := Derived(rows, run, key, Elapsed(runStart));
    hide Derived, Metrics.Seen;
    if i :| 0 <= i < |points| && points[i].axis < 0 {
      var row := PointHasRow(rows, run, key, Elapsed(runStart), i);
      assert LoggedBefore(rows, run, key, row, runStart);
    }
    if row :| LoggedBefore(rows, run, key, row, runStart) {
      var i := RowHasPoint(rows, run, key, Elapsed(runStart), row);
      assert points[i].axis < 0;
    }
  }

  /** Two rows that a reader sees, the one of the later step logged at an earlier time. */
  ghost predicate LoggedBack(rows: seq<Metrics.Row>, run: Metrics.RunId, key: Metrics.MetricKey, a: Metrics.Row, b: Metrics.Row) {
    && Metrics.Seen(rows, run, key, a) && Metrics.Seen(rows, run, key, b)
    && a.report.step < b.report.step && b.report.timestamp < a.report.timestamp
  }

  /** It goes back exactly if a later step was logged at an earlier time, whenever the run started. */
  lemma DecreasingMeansLoggedBack(rows: seq<Metrics.Row>, run: Metrics.RunId, key: Metrics.MetricKey, runStart: int)
    ensures HasDecreasingAxis(Derived(rows, run, key, Elapsed(runStart))) <==> exists a, b :: LoggedBack(rows, run, key, a, b)
  {
    var axis := Elapsed(runStart);
    var points := Derived(rows, run, key, axis);
    DerivedAscends(rows, run, key, axis);
    NoDropMeansAscending(points);
    hide Derived, Metrics.Seen, HasDecreasingAxis;
    if !AxisAscends(points) {
      var i, j :| 0 <= i < j < |points| && points[j].axis < points[i].axis;
      var a := PointHasRow(rows, run, key, axis, i);
      var b := PointHasRow(rows, run, key, axis, j);
      assert LoggedBack(rows, run, key, a, b);
    }
    if a, b :| LoggedBack(rows, run, key, a, b) {
      var i := RowHasPoint(rows, run, key, axis, a);
      var j := RowHasPoint(rows, run, key, axis, b);
      assert i < j && points[j].axis < points[i].axis;
    }
  }

  predicate HasNegativeAxis(points: seq<Point>) {
    exists i :: 0 <= i < |points| && points[i].axis < 0
  }

  /** `lag(axis_value) OVER (ORDER BY step)` exceeds the value somewhere. */
  predicate HasDecreasingAxis(points: seq<Point>) {
    exists i :: 1 <= i < |points| && DropsAt(points, i)
  }

  predicate DropsAt(points: seq<Point>, i: nat)
    requires 1 <= i < |points|
  {
    points[i].axis < points[i - 1].axis
  }

  /** The horizontal coordinate never goes back. */
  ghost predicate AxisAscends(points: seq<Point>) {
    forall i, j :: 0 <= i < j < |points| ==> points[i].axis <= points[j].axis
  }

  /** Looking at neighbours is enough to know that the axis never goes back. */
  lemma NoDropMeansAscending(points: seq<Point>)
    ensures !HasDecreasingAxis(points) <==> AxisAscends(points)
  {
    if !HasDecreasingAxis(points) {
      forall i, j | 0 <= i < j < |points| ensures points[i].axis <= points[j].axis {
        NoDropBetween(points, i, j);
      }
    }
  }

  lemma {:induction false} NoDropBetween(points: seq<Point>, i: nat, j: nat)
    requires !HasDecreasingAxis(points) && i < j < |points|
    ensures points[i].axis <= points[j].axis
    decreases j
  {
    assert !DropsAt(points, j);
    if i + 1 < j {
      NoDropBetween(points, i, j - 1);
    }
  }

  // ------------------------------------------------------------ reading the result

  /** One result row: statistics always, and a point unless nothing was selected. */
  datatype ResultRow = ResultRow(point: Option<Point>, sourceRowCount: nat, negative: bool, decreasing: bool)

  /** Why aligned points are missing or not what they seem; the first one comes with an elapsed axis of a run without a start. */
  datatype Reason = MissingRunStart | NegativeAxis | DecreasingAxis

  /** `... CROSS JOIN axis_stats LEFT JOIN selected ON true`. */
  ghost function ResultRows(points: seq<Point>, start: int, end: int, limit: Limit): (rows: seq<ResultRow>)
    ensures rows != []
  {
    var selected := At(points, AlignedQuery(points, start, end, limit));
    var count, negative, decreasing := SourceRowCount(points, start, end), HasNegativeAxis(points), HasDecreasingAxis(points);
    if selected == [] then [ResultRow(None, count, negative, decreasing)]
    else seq(|selected|, k requires 0 <= k < |selected| => ResultRow(Some(selected[k]), count, negative, decreasing))
  }

  /** Collects points and statistics row by row; the statistics arrive even when no point does. */
  method ReadAlignedRows(rows: seq<ResultRow>, ghost points: seq<Point>, ghost start: int, ghost end: int, ghost limit: Limit)
    returns (collected: seq<Point>, sourceRowCount: nat, reasons: seq<Reason>)
    requires rows == ResultRows(points, start, end, limit)
    ensures collected == At(points, AlignedQuery(points, start, end, limit)) && sourceRowCount == SourceRowCount(points, start, end)
    ensures reasons == (if HasNegativeAxis(points) then [NegativeAxis] else []) + (if HasDecreasingAxis(points) then [DecreasingAxis] else [])
  {
    ghost var selected := At(points, AlignedQuery(points, start, end, limit));
    collected, sourceRowCount, reasons := [], 0, [];
    var negative, decreasing := false, false;
    for i := 0 to |rows|
      invariant if selected == [] then collected == [] else collected == selected[..i]
      invariant i > 0 ==> sourceRowCount == SourceRowCount(points, start, end) && negative == HasNegativeAxis(points) && decreasing == HasDecreasingAxis(points)
    {
      if rows[i].point.Some? {
        collected := collected + [rows[i].point.value];
      }
      sourceRowCount, negative, decreasing := rows[i].sourceRowCount, rows[i].negative, rows[i].decreasing;
    }
    assert selected != [] ==> selected[..|rows|] == selected;
    if negative {
      reasons := reasons + [NegativeAxis];
    }
    if decreasing {
      reasons := reasons + [DecreasingAxis];
    }
  }
}
