/**
  Screen reduction of a series: points are numbered, spread over buckets, and of
  every bucket the first, last, least and greatest point are kept. The bucket of
  a point is computed on doubles in SQL, which is exact while the ordinal times
  the bucket count stays below 2^53, and on integers here.
 */
module Reduction {
  import opened Values

  const EXTREMA_PER_BUCKET: nat := 4
  const MAX_SCREEN_QUERY_POINTS: nat := 1_000_000

  /** A point of the effective series with its horizontal coordinate. */
  datatype Point = Point(step: int, axis: int, value: Value)

  /** The four rankings within a bucket. */
  datatype Ranking = First | Last | Least | Greatest {
    function Code(): nat {
      match this
      case First => 0
      case Last => 1
      case Least => 2
      case Greatest => 3
    }
  }

  /** `(axis_value, step)` of `a` sorts before that of `b`. */
  predicate Earlier(a: Point, b: Point) {
    a.axis < b.axis || (a.axis == b.axis && a.step < b.step)
  }

  /** `a` sorts before `b` in the ranking's `ORDER BY`. */
  predicate Before(ranking: Ranking, a: Point, b: Point) {
    match ranking
    case First => Earlier(a, b)
    case Last => Earlier(b, a)
    case Least => Less(a.value, b.value) || (!Less(b.value, a.value) && Earlier(a, b))
    case Greatest => Less(b.value, a.value) || (!Less(a.value, b.value) && Earlier(a, b))
  }

  predicate Ascending(points: seq<Point>) {
    forall i, j :: 0 <= i < j < |points| ==> points[i].step < points[j].step
  }

  /** `floor(ordinal * buckets / count)`. */
  function Bucket(i: nat, count: nat, buckets: nat): nat
    requires i < count
  {
    i * buckets / count
  }

  /** The budget of a screen, within its limits. */
  function MaxPoints(pixelWidth: nat, pointsPerPixel: nat): nat {
    var product := pixelWidth * pointsPerPixel;
    if product < EXTREMA_PER_BUCKET then EXTREMA_PER_BUCKET
    else if product > MAX_SCREEN_QUERY_POINTS then MAX_SCREEN_QUERY_POINTS
    else product
  }

  function BucketCount(maxPoints: nat): nat {
    if maxPoints / EXTREMA_PER_BUCKET < 1 then 1 else maxPoints / EXTREMA_PER_BUCKET
  }

  predicate Together(i: nat, j: nat, count: nat, buckets: nat)
    requires i < count && j < count
  {
    Bucket(i, count, buckets) == Bucket(j, count, buckets)
  }

  /** `row_number() OVER (PARTITION BY bucket ORDER BY ...) = 1`. */
  ghost predicate RankOne(ranking: Ranking, points: seq<Point>, buckets: nat, i: nat)
    requires i < |points|
  {
    forall j :: 0 <= j < |points| && j != i && Together(i, j, |points|, buckets) ==> Before(ranking, points[i], points[j])
  }

  ghost predicate Kept(points: seq<Point>, buckets: nat, i: nat)
    requires i < |points|
  {
    exists ranking :: RankOne(ranking, points, buckets, i)
  }

  /** The positions below `n` that are kept, in order. */
  ghost function KeptBelow(points: seq<Point>, buckets: nat, n: nat): seq<nat>
    requires n <= |points|
  {
    if n == 0 then []
    else KeptBelow(points, buckets, n - 1) + (if Kept(points, buckets, n - 1) then [n - 1] else [])
  }

  // ------------------------------------------------------------ buckets

  lemma BucketInRange(i: nat, count: nat, buckets: nat)
    requires i < count && buckets >= 1
    ensures Bucket(i, count, buckets) < buckets
  {
    assert i * buckets == i * buckets / count * count + i * buckets % count;
    Product(count - i, buckets);
    assert (count - i) * buckets == count * buckets - i * buckets;
    SmallerFactor(i * buckets / count, buckets, count);
  }

  lemma Product(n: int, u: nat)
    requires n >= 0
    ensures n * u >= 0 && (n >= 1 ==> n * u >= u)
  {
    assert n * u == (n - 1) * u + u;
  }

  lemma SmallerFactor(p: int, q: int, u: nat)
    requires p * u < q * u
    ensures p < q
  {
    assert (p - q) * u == p * u - q * u;
    if p >= q {
      Product(p - q, u);
    }
  }

  /** Later points are in the same or a later bucket. */
  lemma BucketsAscend(i: nat, j: nat, count: nat, buckets: nat)
    requires i <= j < count
    ensures Bucket(i, count, buckets) <= Bucket(j, count, buckets)
  {
    var p, q := i * buckets / count, j * buckets / count;
    assert i * buckets == p * count + i * buckets % count;
    assert j * buckets == q * count + j * buckets % count;
    Product(j - i, buckets);
    assert (j - i) * buckets == j * buckets - i * buckets;
    assert (q + 1) * count == q * count + count;
    SmallerFactor(p, q + 1, count);
  }

  /** A budget of at least four leaves room for four points of every bucket. */
  lemma BudgetCoversBuckets(pixelWidth: nat, pointsPerPixel: nat)
    ensures var max := MaxPoints(pixelWidth, pointsPerPixel);
            && EXTREMA_PER_BUCKET <= max <= MAX_SCREEN_QUERY_POINTS
            && BucketCount(max) >= 1 && EXTREMA_PER_BUCKET * BucketCount(max) <= max
    ensures var (product, max) := (pixelWidth * pointsPerPixel, MaxPoints(pixelWidth, pointsPerPixel));
            && (4 <= product <= 1_000_000 ==> max == product) && (product < 4 ==> max == 4) && (product > 1_000_000 ==> max == 1_000_000)
            && 4 * BucketCount(max) <= max < 4 * BucketCount(max) + 4
  {
  }

  // ------------------------------------------------------------ rankings

  /** Each ranking is a strict total order on points of distinct steps. */
  lemma BeforeIsTotalOrder(ranking: Ranking, a: Point, b: Point, c: Point)
    ensures !(Before(ranking, a, b) && Before(ranking, b, a))
    ensures a.step != b.step ==> Before(ranking, a, b) || Before(ranking, b, a)
    ensures Before(ranking, a, b) && Before(ranking, b, c) ==> Before(ranking, a, c)
  {
  }

  /**
    The four rankings: the smallest and the greatest coordinate, and the least
    and the greatest value; among equal coordinates by step, and among equal
    values the earliest.
   */
  lemma RankingsMean(a: Point, b: Point)
    ensures Before(First, a, b) <==> a.axis < b.axis || (a.axis == b.axis && a.step < b.step)
    ensures Before(Last, a, b) <==> b.axis < a.axis || (b.axis == a.axis && b.step < a.step)
    ensures Before(Least, a, b) <==> AtMost(a.value, b.value) && (a.value == b.value ==> a.axis < b.axis || (a.axis == b.axis && a.step < b.step))
    ensures Before(Greatest, a, b) <==> AtMost(b.value, a.value) && (a.value == b.value ==> a.axis < b.axis || (a.axis == b.axis && a.step < b.step))
  {
  }

  /** Of one bucket, at most one point has rank one in each ranking. */
  lemma RankOneIsUnique(ranking: Ranking, points: seq<Point>, buckets: nat, i: nat, j: nat)
    requires i < |points| && j < |points| && Together(i, j, |points|, buckets)
    requires RankOne(ranking, points, buckets, i) && RankOne(ranking, points, buckets, j)
    ensures i == j
  {
    if i != j {
      BeforeIsTotalOrder(ranking, points[i], points[j], points[i]);
    }
  }

  /** The best position below `n` in the bucket of `i`. */
  lemma {:induction false} BestExists(ranking: Ranking, points: seq<Point>, buckets: nat, i: nat, n: nat) returns (best: nat)
    requires i < |points| && n <= |points| && Ascending(points)
    ensures best < |points| && Together(i, best, |points|, buckets)
    ensures forall j :: 0 <= j < |points| && (j < n || j == i) && j != best && Together(i, j, |points|, buckets) ==> Before(ranking, points[best], points[j])
    decreases n
  {
    if n == 0 {
      return i;
    }
    best := BestExists(ranking, points, buckets, i, n - 1);
    var k := n - 1;
    if k != best && Together(i, k, |points|, buckets) && !Before(ranking, points[best], points[k]) {
      BeforeIsTotalOrder(ranking, points[best], points[k], points[best]);
      forall j | 0 <= j < |points| && (j < n || j == i) && j != k && Together(i, j, |points|, buckets)
        ensures Before(ranking, points[k], points[j])
      {
        if j != best { BeforeIsTotalOrder(ranking, points[k], points[best], points[j]); }
      }
      best := k;
    }
  }

  /** Every bucket that has a point keeps its first, last, least and greatest. */
  lemma BucketKeepsExtremes(ranking: Ranking, points: seq<Point>, buckets: nat, i: nat) returns (best: nat)
    requires i < |points| && Ascending(points)
    ensures best < |points| && Together(i, best, |points|, buckets)
    ensures RankOne(ranking, points, buckets, best) && Kept(points, buckets, best)
    ensures best == i || Before(ranking, points[best], points[i])
  {
    best := BestExists(ranking, points, buckets, i, |points|);
  }

  /** The reduction keeps the extremes of the whole series, too. */
  lemma SeriesKeepsExtremes(ranking: Ranking, points: seq<Point>, buckets: nat) returns (best: nat)
    requires points != [] && Ascending(points)
    ensures best < |points| && Kept(points, buckets, best)
    ensures forall j :: 0 <= j < |points| && j != best ==> Before(ranking, points[best], points[j])
  {
    var whole := BestExists(ranking, points, 0, 0, |points|);
    assert forall j :: 0 <= j < |points| ==> Together(0, j, |points|, 0);
    best := whole;
    assert RankOne(ranking, points, buckets, best);
  }

  // ------------------------------------------------------------ size

  lemma {:induction false} KeptBelowMeans(points: seq<Point>, buckets: nat, n: nat)
    requires n <= |points|
    ensures forall k, l :: 0 <= k < l < |KeptBelow(points, buckets, n)| ==> KeptBelow(points, buckets, n)[k] < KeptBelow(points, buckets, n)[l]
    ensures forall k :: 0 <= k < |KeptBelow(points, buckets, n)| ==> KeptBelow(points, buckets, n)[k] < n && Kept(points, buckets, KeptBelow(points, buckets, n)[k])
    ensures forall i :: 0 <= i < n && Kept(points, buckets, i) ==> i in KeptBelow(points, buckets, n)
  {
    if n > 0 {
      KeptBelowMeans(points, buckets, n - 1);
    }
  }

  /** Where a kept point belongs: one of four places of its bucket. */
  ghost function Place(points: seq<Point>, buckets: nat, i: nat): (place: nat)
    requires i < |points| && Kept(points, buckets, i) && buckets >= 1
    ensures place < EXTREMA_PER_BUCKET * buckets
  {
    BucketInRange(i, |points|, buckets);
    EXTREMA_PER_BUCKET * Bucket(i, |points|, buckets) + RankingOf(points, buckets, i).Code()
  }

  ghost function RankingOf(points: seq<Point>, buckets: nat, i: nat): (ranking: Ranking)
    requires i < |points| && Kept(points, buckets, i)
    ensures RankOne(ranking, points, buckets, i)
  {
    if RankOne(First, points, buckets, i) then First
    else if RankOne(Last, points, buckets, i) then Last
    else if RankOne(Least, points, buckets, i) then Least
    else Greatest
  }

  /** Two kept points never share a place. */
  lemma PlacesDiffer(points: seq<Point>, buckets: nat, i: nat, j: nat)
    requires i < |points| && j < |points| && Kept(points, buckets, i) && Kept(points, buckets, j) && buckets >= 1
    requires Place(points, buckets, i) == Place(points, buckets, j)
    ensures i == j
  {
    assert Bucket(i, |points|, buckets) == Bucket(j, |points|, buckets);
    RankOneIsUnique(RankingOf(points, buckets, i), points, buckets, i, j);
  }

  /** More places than there are numbers below the limit: two of them are equal. */
  lemma {:induction false} Pigeonhole(places: seq<nat>, limit: nat) returns (k: nat, l: nat)
    requires |places| > limit && forall i :: 0 <= i < |places| ==> places[i] < limit
    ensures k < l < |places| && places[k] == places[l]
    decreases limit
  {
    assert places[0] < limit;
    if i :| 0 <= i < |places| && places[i] == limit - 1 {
      if j :| 0 <= j < |places| && j != i && places[j] == limit - 1 {
        k, l := if i < j then i else j, if i < j then j else i;
      } else {
        var rest := places[..i] + places[i + 1..];
        assert forall j :: 0 <= j < |rest| ==> rest[j] == places[if j < i then j else j + 1];
        k, l := Pigeonhole(rest, limit - 1);
        k, l := if k < i then k else k + 1, if l < i then l else l + 1;
      }
    } else {
      k, l := Pigeonhole(places, limit - 1);
    }
  }

  /** At most four points per bucket are kept. */
  lemma KeptFitsBudget(points: seq<Point>, buckets: nat)
    requires buckets >= 1
    ensures |KeptBelow(points, buckets, |points|)| <= EXTREMA_PER_BUCKET * buckets
  {
    KeptBelowMeans(points, buckets, |points|);
    var kept := KeptBelow(points, buckets, |points|);
    var places := seq(|kept|, k requires 0 <= k < |kept| => Place(points, buckets, kept[k]));
    if |places| > EXTREMA_PER_BUCKET * buckets {
      var k, l := Pigeonhole(places, EXTREMA_PER_BUCKET * buckets);
      PlacesDiffer(points, buckets, kept[k], kept[l]);
    }
  }

  // ------------------------------------------------------------ the plain screen query

  /** The horizontal coordinate is the step. */
  predicate OverSteps(points: seq<Point>) {
    forall i :: 0 <= i < |points| ==> points[i].axis == points[i].step
  }

  /** The points that a screen query over steps returns; the coordinate of every point is its step. */
  ghost function ScreenQuery(points: seq<Point>, maxPoints: nat): seq<Point>
    requires OverSteps(points)
  {
    At(points, KeptBelow(points, BucketCount(maxPoints), |points|))
  }

  ghost function At(points: seq<Point>, positions: seq<nat>): (chosen: seq<Point>)
    ensures |chosen| == |positions|
    ensures forall k :: 0 <= k < |positions| && positions[k] < |points| ==> chosen[k] == points[positions[k]]
  {
    seq(|positions|, k requires 0 <= k < |positions| => if positions[k] < |points| then points[positions[k]] else Point(0, 0, NotANumber))
  }

  /**
    A screen query returns points of the series in step order, each once, and no
    more than the budget.
   */
  lemma ScreenQueryFits(points: seq<Point>, pixelWidth: nat, pointsPerPixel: nat)
    requires Ascending(points) && OverSteps(points)
    ensures var kept := ScreenQuery(points, MaxPoints(pixelWidth, pointsPerPixel));
            && Ascending(kept) && |kept| <= MaxPoints(pixelWidth, pointsPerPixel)
            && (forall k :: 0 <= k < |kept| ==> kept[k] in points)
  {
    var buckets := BucketCount(MaxPoints(pixelWidth, pointsPerPixel));
    BudgetCoversBuckets(pixelWidth, pointsPerPixel);
    KeptFitsBudget(points, buckets);
    ChosenInOrder(points, buckets);
    hide KeptBelow, At, BucketCount, MaxPoints;
  }

  lemma ChosenInOrder(points: seq<Point>, buckets: nat)
    requires Ascending(points)
    ensures var kept := At(points, KeptBelow(points, buckets, |points|));
            Ascending(kept) && forall k :: 0 <= k < |kept| ==> kept[k] in points
  {
    KeptBelowMeans(points, buckets, |points|);
    var positions := KeptBelow(points, buckets, |points|);
    hide KeptBelow, Kept;
    var kept := At(points, positions);
    assert forall k :: 0 <= k < |kept| ==> kept[k] == points[positions[k]];
  }

  /** The first and the last point are returned, and the earliest of the least and of the greatest values. */
  lemma ScreenQueryHoldsExtremes(points: seq<Point>, maxPoints: nat)
    requires Ascending(points) && points != [] && OverSteps(points)
    ensures points[0] in ScreenQuery(points, maxPoints) && points[|points| - 1] in ScreenQuery(points, maxPoints)
    ensures exists p :: p in ScreenQuery(points, maxPoints) && LeastOf(points, p)
    ensures exists p :: p in ScreenQuery(points, maxPoints) && GreatestOf(points, p)
  {
    hide ScreenQuery;
    var first := ExtremeOf(points, maxPoints, First);
    var last := ExtremeOf(points, maxPoints, Last);
    var least := ExtremeOf(points, maxPoints, Least);
    var greatest := ExtremeOf(points, maxPoints, Greatest);
    if first != 0 { RankingsMean(points[first], points[0]); }
    if last != |points| - 1 { RankingsMean(points[last], points[|points| - 1]); }
    forall j | 0 <= j < |points| ensures AtMost(points[least].value, points[j].value) && AtMost(points[j].value, points[greatest].value) {
      if j != least { RankingsMean(points[least], points[j]); }
      if j != greatest { RankingsMean(points[greatest], points[j]); }
    }
    forall j | 0 <= j < |points| && points[j].value == points[least].value ensures points[least].step <= points[j].step {
      if j != least { RankingsMean(points[least], points[j]); }
    }
    forall j | 0 <= j < |points| && points[j].value == points[greatest].value ensures points[greatest].step <= points[j].step {
      if j != greatest { RankingsMean(points[greatest], points[j]); }
    }
    assert LeastOf(points, points[least]) && GreatestOf(points, points[greatest]);
  }

  /** No value is smaller, and none is as small at an earlier step. */
  predicate LeastOf(points: seq<Point>, p: Point) {
    forall j :: 0 <= j < |points| ==> AtMost(p.value, points[j].value) && (points[j].value == p.value ==> p.step <= points[j].step)
  }

  predicate GreatestOf(points: seq<Point>, p: Point) {
    forall j :: 0 <= j < |points| ==> AtMost(points[j].value, p.value) && (points[j].value == p.value ==> p.step <= points[j].step)
  }

  lemma ExtremeOf(points: seq<Point>, maxPoints: nat, ranking: Ranking) returns (best: nat)
    requires Ascending(points) && points != [] && OverSteps(points)
    ensures best < |points| && points[best] in ScreenQuery(points, maxPoints)
    ensures forall j :: 0 <= j < |points| && j != best ==> Before(ranking, points[best], points[j])
  {
    ScreenQueryKeepsExtremes(points, maxPoints, ranking);
    hide ScreenQuery, Before;
    best :| 0 <= best < |points| && points[best] in ScreenQuery(points, maxPoints)
            && forall j :: 0 <= j < |points| && j != best ==> Before(ranking, points[best], points[j]);
  }

  /** Among the returned points is one that no other point of the series precedes, in each ranking. */
  lemma ScreenQueryKeepsExtremes(points: seq<Point>, maxPoints: nat, ranking: Ranking)
    requires Ascending(points) && points != [] && OverSteps(points)
    ensures exists best :: 0 <= best < |points| && points[best] in ScreenQuery(points, maxPoints)
              && forall j :: 0 <= j < |points| && j != best ==> Before(ranking, points[best], points[j])
  {
    var buckets := BucketCount(maxPoints);
    KeptBelowMeans(points, buckets, |points|);
    var best := SeriesKeepsExtremes(ranking, points, buckets);
    var positions := KeptBelow(points, buckets, |points|);
    hide KeptBelow, Kept, Before;
    var k :| 0 <= k < |positions| && positions[k] == best;
    assert At(points, positions)[k] == points[best];
  }

  // ------------------------------------------------------------ when nothing is dropped

  /** Three neighbours in one bucket. */
  predicate ThreeTogether(i: nat, count: nat, buckets: nat) {
    i + 2 < count && Together(i, i + 2, count, buckets)
  }

  /** With at most two points per bucket on average, no bucket reaches over three positions. */
  lemma NoThreeTogether(i: nat, count: nat, buckets: nat)
    requires i + 2 < count <= 2 * buckets
    ensures !ThreeTogether(i, count, buckets)
  {
    var p, q := i * buckets / count, (i + 2) * buckets / count;
    assert i * buckets == p * count + i * buckets % count;
    assert (i + 2) * buckets == q * count + (i + 2) * buckets % count;
    assert (i + 2) * buckets == i * buckets + 2 * buckets;
  }

  /** With more than two points per bucket on average, some bucket holds three neighbours. */
  lemma SomeThreeTogether(count: nat, buckets: nat) returns (i: nat)
    requires buckets >= 1 && count > 2 * buckets
    ensures ThreeTogether(i, count, buckets) && Together(i, i + 1, count, buckets)
  {
    if k: nat :| ThreeTogether(k, count, buckets) {
      i := k;
      BucketsAscend(i, i + 1, count, buckets);
      BucketsAscend(i + 1, i + 2, count, buckets);
    } else {
      BucketsClimb(buckets, count, buckets);
      BucketInRange(2 * buckets, count, buckets);
    }
  }

  /** Were no three neighbours together, every second point would open a new bucket. */
  lemma {:induction false} BucketsClimb(k: nat, count: nat, buckets: nat)
    requires 2 * k < count && forall i: nat :: !ThreeTogether(i, count, buckets)
    ensures Bucket(2 * k, count, buckets) >= k
  {
    if k > 0 {
      BucketsClimb(k - 1, count, buckets);
      BucketsAscend(2 * k - 2, 2 * k, count, buckets);
      assert !ThreeTogether(2 * k - 2, count, buckets);
    }
  }

  /** In a bucket of at most two points every point is the first or the last. */
  lemma FewAreKept(points: seq<Point>, buckets: nat, i: nat)
    requires i < |points| <= 2 * buckets && Ascending(points) && OverSteps(points)
    ensures Kept(points, buckets, i)
  {
    if i + 1 < |points| && Together(i, i + 1, |points|, buckets) {
      forall j | 0 <= j < i ensures !Together(i, j, |points|, buckets) {
        NoThreeTogether(i - 1, |points|, buckets);
        BucketsAscend(j, i - 1, |points|, buckets);
        BucketsAscend(i - 1, i, |points|, buckets);
      }
      assert RankOne(First, points, buckets, i);
    } else {
      forall j | i < j < |points| ensures !Together(i, j, |points|, buckets) {
        BucketsAscend(i, i + 1, |points|, buckets);
        BucketsAscend(i + 1, j, |points|, buckets);
      }
      assert RankOne(Last, points, buckets, i);
    }
  }

  lemma {:induction false} AllKeptBelow(points: seq<Point>, buckets: nat, n: nat)
    requires n <= |points| && forall i :: 0 <= i < n ==> Kept(points, buckets, i)
    ensures |KeptBelow(points, buckets, n)| == n && forall i :: 0 <= i < n ==> KeptBelow(points, buckets, n)[i] == i
  {
    hide Kept;
    if n > 0 {
      AllKeptBelow(points, buckets, n - 1);
    }
  }

  lemma FewAreReturned(points: seq<Point>, maxPoints: nat)
    requires |points| <= 2 * BucketCount(maxPoints) && Ascending(points) && OverSteps(points)
    ensures ScreenQuery(points, maxPoints) == points
  {
    var buckets := BucketCount(maxPoints);
    forall i | 0 <= i < |points| ensures Kept(points, buckets, i) {
      FewAreKept(points, buckets, i);
    }
    hide BucketCount, Kept, KeptBelow;
    AllKeptBelow(points, buckets, |points|);
  }

  /** Values that rise with every step. */
  function Rising(n: nat): (points: seq<Point>)
    ensures |points| == n && Ascending(points) && OverSteps(points)
  {
    seq(n, i requires 0 <= i < n => Point(i, i, Finite(i as real)))
  }

  /** Between two neighbours of its bucket a rising point is no extreme. */
  lemma MiddleIsDropped(n: nat, buckets: nat, i: nat)
    requires ThreeTogether(i, n, buckets) && Together(i, i + 1, n, buckets)
    ensures !Kept(Rising(n), buckets, i + 1)
  {
    var points, middle := Rising(n), i + 1;
    forall ranking ensures !RankOne(ranking, points, buckets, middle) {
      assert Together(middle, i, n, buckets) && Together(middle, i + 2, n, buckets);
      assert !Before(ranking, points[middle], points[i]) || !Before(ranking, points[middle], points[i + 2]);
    }
  }

  lemma RisingLosesPoints(n: nat, maxPoints: nat)
    requires n > 2 * BucketCount(maxPoints)
    ensures |ScreenQuery(Rising(n), maxPoints)| < n
  {
    var points, buckets := Rising(n), BucketCount(maxPoints);
    var i := SomeThreeTogether(n, buckets);
    MiddleIsDropped(n, buckets, i);
    KeptBelowMeans(points, buckets, n);
    hide Kept, KeptBelow, BucketCount, Rising;
    FewerWithout(KeptBelow(points, buckets, n), n, i + 1);
    assert |ScreenQuery(points, maxPoints)| == |KeptBelow(points, buckets, n)|;
  }

  /** The query is sure to return all of a series of `n` points. */
  ghost predicate ReturnsAll(n: nat, maxPoints: nat) {
    forall points: seq<Point> :: |points| == n && Ascending(points) && OverSteps(points) ==> ScreenQuery(points, maxPoints) == points
  }

  /**
    Exactly when a screen query is sure to drop nothing: when there are no more
    than two points for every bucket. That is half of the budget, not the budget.
   */
  lemma ScreenQueryReturnsAllExactly(n: nat, maxPoints: nat)
    ensures ReturnsAll(n, maxPoints) <==> n <= 2 * BucketCount(maxPoints)
    ensures ReturnsAll(n, maxPoints) <==> n <= 2 || n <= 2 * (maxPoints / 4)
  {
    if n <= 2 * BucketCount(maxPoints) {
      forall points: seq<Point> | |points| == n && Ascending(points) && OverSteps(points) ensures ScreenQuery(points, maxPoints) == points {
        FewAreReturned(points, maxPoints);
      }
    } else {
      RisingLosesPoints(n, maxPoints);
      hide Rising, BucketCount;
      var points := Rising(n);
      assert ScreenQuery(points, maxPoints) != points;
    }
  }

  /**
    Unlike the aligned query, it drops points even when all of them fit the
    budget: for every budget there is such a series. With the smallest budget,
    four, it happens to four rising points.
   */
  lemma ScreenQueryMayDropPointsThatFit(pixelWidth: nat, pointsPerPixel: nat)
    ensures var max := MaxPoints(pixelWidth, pointsPerPixel);
            && !ReturnsAll(max, max)
            && (exists points: seq<Point> :: |points| <= max && Ascending(points) && OverSteps(points) && |ScreenQuery(points, max)| < |points|)
    ensures MaxPoints(1, 4) == 4 && |ScreenQuery(Rising(4), 4)| < 4
  {
    var max := MaxPoints(pixelWidth, pointsPerPixel);
    assert max > 2 * BucketCount(max) && BucketCount(4) == 1;
    ScreenQueryReturnsAllExactly(max, max);
    RisingLosesPoints(max, max);
    RisingLosesPoints(4, 4);
    hide Rising, BucketCount, ScreenQuery;
    assert |Rising(max)| <= max;
  }

  /** An ascending list of positions below `n` that misses one has fewer than `n`. */
  lemma FewerWithout(positions: seq<nat>, n: nat, missing: nat)
    requires missing < n && missing !in positions
    requires forall k :: 0 <= k < |positions| ==> positions[k] < n
    requires forall k, l :: 0 <= k < l < |positions| ==> positions[k] < positions[l]
    ensures |positions| < n
  {
    if |positions| >= n {
      var k, l := Pigeonhole(positions + [missing], n);
    }
  }
}
