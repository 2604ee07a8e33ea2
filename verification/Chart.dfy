/**
  Chart series: construction from points, and the window of points that a
  viewport shows. Coordinates are exact; the window of an aligned query and the
  window of the chart are compared on them.
 */
module Chart {
  import opened Values
  import opened Reduction
  import opened Alignment

  datatype DataPoint = DataPoint(x: Value, y: Value)

  datatype SeriesError = InvalidPoint(index: nat) | UnsortedSeries(index: nat)

  predicate FinitePoint(p: DataPoint) {
    p.x.IsFinite() && p.y.IsFinite()
  }

  /** Finite points, ordered by x. */
  ghost predicate IsSeries(points: seq<DataPoint>) {
    && (forall i :: 0 <= i < |points| ==> FinitePoint(points[i]))
    && (forall i, j :: 0 <= i < j < |points| ==> points[i].x.Finite? && points[j].x.Finite? && points[i].x.x <= points[j].x.x)
  }

  /** Accepts exactly the series; otherwise reports the first point that is not finite or goes back. */
  method NewSeries(points: seq<DataPoint>) returns (r: Result<seq<DataPoint>, SeriesError>)
    ensures r.Ok? <==> IsSeries(points)
    ensures r.Ok? ==> r.value == points
    ensures r.Err? ==> r.error.index < |points| && IsSeries(points[..r.error.index]) && !IsSeries(points[..r.error.index + 1])
    ensures r.Err? ==> (r.error.InvalidPoint? <==> !FinitePoint(points[r.error.index]))
  {
    for index := 0 to |points|
      invariant IsSeries(points[..index])
    {
      var p := points[index];
      if !p.x.IsFinite() || !p.y.IsFinite() {
        NotSeries(points, index);
        return Err(InvalidPoint(index));
      }
      if index > 0 && Less(p.x, points[index - 1].x) {
        NotSeries(points, index);
        return Err(UnsortedSeries(index));
      }
      LongerSeries(points, index);
    }
    assert points[..|points|] == points;
    return Ok(points);
  }

  lemma NotSeries(points: seq<DataPoint>, index: nat)
    requires index < |points| && (!FinitePoint(points[index]) || (index > 0 && Less(points[index].x, points[index - 1].x)))
    ensures !IsSeries(points[..index + 1]) && !IsSeries(points)
  {
    assert points[..index + 1][index] == points[index];
    if index > 0 {
      assert points[..index + 1][index - 1] == points[index - 1];
    }
  }

  lemma LongerSeries(points: seq<DataPoint>, index: nat)
    requires index < |points| && IsSeries(points[..index]) && FinitePoint(points[index])
    requires index > 0 ==> !Less(points[index].x, points[index - 1].x)
    ensures IsSeries(points[..index + 1])
  {
    var longer := points[..index + 1];
    assert forall i :: 0 <= i < index ==> longer[i] == points[..index][i];
    if index > 0 {
      assert FinitePoint(points[..index][index - 1]);
    }
  }

  // ------------------------------------------------------------ visible points

  /** `x < bound`, or `x <= bound` when closed. */
  predicate Precedes(p: DataPoint, bound: real, closed: bool) {
    p.x.Finite? && (p.x.x < bound || (closed && p.x.x == bound))
  }

  /** How many points precede the bound. */
  function Preceding(points: seq<DataPoint>, bound: real, closed: bool): (n: nat)
    ensures n <= |points|
  {
    if points == [] then 0
    else if Precedes(points[|points| - 1], bound, closed) then |points|
    else Preceding(points[..|points| - 1], bound, closed)
  }

  lemma {:induction false} PrecedingSplits(points: seq<DataPoint>, bound: real, closed: bool)
    requires IsSeries(points)
    ensures forall i :: 0 <= i < Preceding(points, bound, closed) ==> Precedes(points[i], bound, closed)
    ensures forall i :: Preceding(points, bound, closed) <= i < |points| ==> !Precedes(points[i], bound, closed)
  {
    if points != [] && !Precedes(points[|points| - 1], bound, closed) {
      PrecedingSplits(points[..|points| - 1], bound, closed);
    }
  }

  /** Any place that splits the series at the bound is the number of preceding points. */
  lemma SplitIsPreceding(points: seq<DataPoint>, bound: real, closed: bool, k: nat)
    requires IsSeries(points) && k <= |points|
    requires forall i :: 0 <= i < k ==> Precedes(points[i], bound, closed)
    requires forall i :: k <= i < |points| ==> !Precedes(points[i], bound, closed)
    ensures k == Preceding(points, bound, closed)
  {
    PrecedingSplits(points, bound, closed);
    var n := Preceding(points, bound, closed);
    assert k < |points| ==> !Precedes(points[k], bound, closed);
    assert n < |points| ==> !Precedes(points[n], bound, closed);
  }

  /** `partition_point`, by bisection. */
  method PartitionPoint(points: seq<DataPoint>, bound: real, closed: bool) returns (k: nat)
    requires IsSeries(points)
    ensures k == Preceding(points, bound, closed)
  {
    var low, high := 0, |points|;
    while low < high
      invariant low <= high <= |points|
      invariant forall i :: 0 <= i < low ==> Precedes(points[i], bound, closed)
      invariant forall i :: high <= i < |points| ==> !Precedes(points[i], bound, closed)
    {
      var middle := (low + high) / 2;
      if Precedes(points[middle], bound, closed) {
        low := middle + 1;
      } else {
        high := middle;
      }
    }
    SplitIsPreceding(points, bound, closed, low);
    return low;
  }

  function WindowStart(first: nat): nat {
    if first == 0 then 0 else first - 1
  }

  function WindowEnd(after: nat, count: nat): nat {
    if after + 1 < count then after + 1 else count
  }

  lemma StartsBeforeEnd(points: seq<DataPoint>, start: real, end: real)
    requires IsSeries(points) && start <= end
    ensures Preceding(points, start, false) <= Preceding(points, end, true)
  {
    PrecedingSplits(points, start, false);
    PrecedingSplits(points, end, true);
    var first, after := Preceding(points, start, false), Preceding(points, end, true);
    assert after < |points| ==> !Precedes(points[after], end, true) && !Precedes(points[after], start, false);
  }

  /** The points in the closed range with one neighbour on each side; nothing if the range misses the series. */
  function VisiblePoints(points: seq<DataPoint>, start: real, end: real): seq<DataPoint>
    requires IsSeries(points) && start <= end
  {
    var first, after := Preceding(points, start, false), Preceding(points, end, true);
    StartsBeforeEnd(points, start, end);
    if first == |points| || after == 0 then []
    else points[WindowStart(first)..WindowEnd(after, |points|)]
  }

  method ShowVisiblePoints(points: seq<DataPoint>, start: real, end: real) returns (shown: seq<DataPoint>)
    requires IsSeries(points) && start < end
    ensures shown == VisiblePoints(points, start, end)
  {
    var first := PartitionPoint(points, start, false);
    var after := PartitionPoint(points, end, true);
    StartsBeforeEnd(points, start, end);
    if first == |points| || after == 0 {
      return [];
    }
    return points[(if first == 0 then 0 else first - 1)..(if after + 1 < |points| then after + 1 else |points|)];
  }

  lemma SliceIsSeries(points: seq<DataPoint>, low: nat, high: nat)
    requires IsSeries(points) && low <= high <= |points|
    ensures IsSeries(points[low..high])
  {
  }

  lemma SlicePreceding(points: seq<DataPoint>, bound: real, closed: bool, low: nat, high: nat)
    requires IsSeries(points) && low <= Preceding(points, bound, closed) <= high <= |points|
    ensures IsSeries(points[low..high]) && Preceding(points[low..high], bound, closed) == Preceding(points, bound, closed) - low
  {
    PrecedingSplits(points, bound, closed);
    SliceIsSeries(points, low, high);
    SplitIsPreceding(points[low..high], bound, closed, Preceding(points, bound, closed) - low);
  }

  /** What is visible stays visible as a whole. */
  lemma VisiblePointsIdempotent(points: seq<DataPoint>, start: real, end: real)
    requires IsSeries(points) && start <= end
    ensures IsSeries(VisiblePoints(points, start, end))
    ensures VisiblePoints(VisiblePoints(points, start, end), start, end) == VisiblePoints(points, start, end)
  {
    var first, after := Preceding(points, start, false), Preceding(points, end, true);
    StartsBeforeEnd(points, start, end);
    var low, high := WindowStart(first), WindowEnd(after, |points|);
    if first < |points| && after > 0 {
      SlicePreceding(points, start, false, low, high);
      SlicePreceding(points, end, true, low, high);
      var shown := points[low..high];
      hide Preceding, IsSeries;
      assert shown[..|shown|] == shown;
    }
  }

  // ------------------------------------------------------------ the aligned query and the chart agree

  function ChartPoint(p: Point): DataPoint {
    DataPoint(Finite(p.axis as real), p.value)
  }

  function ChartPoints(points: seq<Point>): (chart: seq<DataPoint>)
    ensures |chart| == |points| && forall i :: 0 <= i < |points| ==> chart[i] == ChartPoint(points[i])
  {
    seq(|points|, i requires 0 <= i < |points| => ChartPoint(points[i]))
  }

  predicate FiniteValues(points: seq<Point>) {
    forall i :: 0 <= i < |points| ==> points[i].value.IsFinite()
  }

  /** Drawable evidence: its aligned points always make a chart series. */
  lemma DrawableMakesSeries(points: seq<Point>)
    requires AxisAscends(points) && FiniteValues(points)
    ensures IsSeries(ChartPoints(points))
  {
  }

  /** On an axis that never goes back, a full query is one slice: what is inside and the point next to it on either side. */
  lemma FullQueryIsSlice(points: seq<Point>, start: int, end: int)
    requires Ascending(points) && AxisAscends(points) && FiniteValues(points) && start <= end
    ensures var chart := ChartPoints(points);
            var first, after := Preceding(chart, start as real, false), Preceding(chart, end as real, true);
            var low, high := WindowStart(first), WindowEnd(after, |points|);
            && low <= high
            && (forall i :: 0 <= i < |points| ==> (IsInside(points[i], start, end) <==> first <= i < after))
            && At(points, AlignedQuery(points, start, end, Full)) == points[low..high]
  {
    DrawableMakesSeries(points);
    var chart := ChartPoints(points);
    var first, after := Preceding(chart, start as real, false), Preceding(chart, end as real, true);
    PrecedingSplits(chart, start as real, false);
    PrecedingSplits(chart, end as real, true);
    StartsBeforeEnd(chart, start as real, end as real);
    forall i | 0 <= i < |points| ensures (points[i].axis < start <==> i < first) && (points[i].axis <= end <==> i < after) {
      assert Precedes(chart[i], start as real, false) <==> points[i].axis < start;
      assert Precedes(chart[i], end as real, true) <==> points[i].axis <= end;
    }
    SliceOfPositions(points, start, end, first, after);
  }

  lemma SliceOfPositions(points: seq<Point>, start: int, end: int, first: nat, after: nat)
    requires Ascending(points) && AxisAscends(points) && first <= after <= |points|
    requires forall i :: 0 <= i < |points| ==> (points[i].axis < start <==> i < first) && (points[i].axis <= end <==> i < after)
    ensures WindowStart(first) <= WindowEnd(after, |points|)
    ensures At(points, AlignedQuery(points, start, end, Full)) == points[WindowStart(first)..WindowEnd(after, |points|)]
  {
    var low, high := WindowStart(first), WindowEnd(after, |points|);
    var s := InsideSet(points, start, end) + NeighbourSet(points, start, end);
    forall i | 0 <= i < |points| ensures i in s <==> low <= i < high {
      LeftIsBefore(points, start, first, i);
      RightIsAfter(points, end, after, i);
    }
    FilterInterval(|points|, s, low, high);
    hide Ascending, AxisAscends, InsideSet, NeighbourSet;
    var positions := Filter(|points|, s);
    forall k | 0 <= k < high - low ensures At(points, positions)[k] == points[low..high][k] {
      assert positions[k] == low + k;
    }
  }

  lemma LeftIsBefore(points: seq<Point>, start: int, first: nat, i: nat)
    requires Ascending(points) && AxisAscends(points) && first <= |points| && i < |points|
    requires forall j :: 0 <= j < |points| ==> (points[j].axis < start <==> j < first)
    ensures IsLeft(points, start, i) <==> i + 1 == first
  {
    assert i + 1 < |points| ==> !Earlier(points[i + 1], points[i]);
  }

  lemma RightIsAfter(points: seq<Point>, end: int, after: nat, i: nat)
    requires Ascending(points) && AxisAscends(points) && after <= |points| && i < |points|
    requires forall j :: 0 <= j < |points| ==> (points[j].axis <= end <==> j < after)
    ensures IsRight(points, end, i) <==> i == after
  {
    assert after < i ==> !Earlier(points[i], points[after]);
  }

  /**
    The full query returns what the chart shows exactly when the series is empty
    or reaches into the viewport from both sides; a viewport wholly beyond the
    series gets one neighbour from the query and nothing from the chart.
   */
  lemma FullQueryIsVisible(points: seq<Point>, start: int, end: int)
    requires Ascending(points) && AxisAscends(points) && FiniteValues(points) && start <= end
    ensures IsSeries(ChartPoints(points))
    ensures ChartPoints(At(points, AlignedQuery(points, start, end, Full))) == VisiblePoints(ChartPoints(points), start as real, end as real)
            <==> points == [] || (points[|points| - 1].axis >= start && points[0].axis <= end)
  {
    FullQueryIsSlice(points, start, end);
    DrawableMakesSeries(points);
    var chart := ChartPoints(points);
    var first, after := Preceding(chart, start as real, false), Preceding(chart, end as real, true);
    PrecedingSplits(chart, start as real, false);
    PrecedingSplits(chart, end as real, true);
    if points != [] {
      assert Precedes(chart[|points| - 1], start as real, false) <==> points[|points| - 1].axis < start;
      assert Precedes(chart[0], end as real, true) <==> points[0].axis <= end;
      var low, high := WindowStart(first), WindowEnd(after, |points|);
      StartsBeforeEnd(chart, start as real, end as real);
      hide AlignedQuery, At, Preceding, IsSeries, Ascending, AxisAscends, FiniteValues;
      assert ChartPoints(points[low..high]) == chart[low..high];
      assert low < high;
    }
  }

  /** Showing the answer of the query in the same viewport drops nothing of it. */
  lemma ChartShowsWholeAnswer(points: seq<Point>, start: int, end: int)
    requires Ascending(points) && AxisAscends(points) && FiniteValues(points) && start <= end
    requires points == [] || (points[|points| - 1].axis >= start && points[0].axis <= end)
    ensures var answer := ChartPoints(At(points, AlignedQuery(points, start, end, Full)));
            IsSeries(answer) && VisiblePoints(answer, start as real, end as real) == answer
  {
    FullQueryIsVisible(points, start, end);
    DrawableMakesSeries(points);
    VisiblePointsIdempotent(ChartPoints(points), start as real, end as real);
  }
}
