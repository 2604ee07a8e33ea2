/**
  Metric reports, the rows they become, and what a reader makes of the rows:
  the last-write-wins effective series and its per-key summary.

  A row's position in the table is its `rowid`. Time stamps are milliseconds.
 */
module Metrics {
  import opened Values

  type RunId = string
  type MetricKey = string

  datatype RunStatus = Running | Finished | Failed

  /** One call of `run.log`, stamped with the writer-local enqueue sequence. */
  datatype Report = Report(run: RunId, key: MetricKey, step: int, value: Value, timestamp: int, sequence: nat)

  /** One stored metric point. `client` is the writer that appended it. */
  datatype Row = Row(client: nat, report: Report, ingestedAt: int)

  datatype Aggregate = Aggregate(count: nat, lastStep: int, lastValue: Value, minimum: Value, maximum: Value)

  predicate InSeries(row: Row, run: RunId, key: MetricKey) {
    row.report.run == run && row.report.key == key
  }

  /** What reports are deduplicated by: the last write of a point wins. */
  datatype MetricPoint = MetricPoint(run: RunId, key: MetricKey, step: int)

  function PointOf(report: Report): MetricPoint {
    MetricPoint(report.run, report.key, report.step)
  }

  predicate SamePoint(a: Report, b: Report) {
    a.run == b.run && a.key == b.key && a.step == b.step
  }

  /** `ORDER BY ingested_at DESC, rowid DESC` puts row `a` before row `b`. */
  predicate RankedBefore(rows: seq<Row>, a: nat, b: nat)
    requires a < |rows| && b < |rows|
  {
    rows[a].ingestedAt > rows[b].ingestedAt || (rows[a].ingestedAt == rows[b].ingestedAt && a > b)
  }

  /** `row_number() OVER (PARTITION BY run_id, metric_key, step ...) = 1`. */
  ghost predicate WriteRankOne(rows: seq<Row>, a: nat)
    requires a < |rows|
  {
    forall b :: 0 <= b < |rows| && b != a && SamePoint(rows[a].report, rows[b].report) ==> RankedBefore(rows, a, b)
  }

  /** The rowid of the effective point of every step of one run and key. */
  function Winners(rows: seq<Row>, run: RunId, key: MetricKey): map<int, nat> {
    if rows == [] then map[]
    else
      var last := |rows| - 1;
      var earlier := Winners(rows[..last], run, key);
      var step := rows[last].report.step;
      if !InSeries(rows[last], run, key) then earlier
      else if step in earlier && earlier[step] < last && rows[earlier[step]].ingestedAt > rows[last].ingestedAt then earlier
      else earlier[step := last]
  }

  lemma {:induction false} WinnersInSeries(rows: seq<Row>, run: RunId, key: MetricKey)
    ensures var w := Winners(rows, run, key);
            && (forall step :: step in w ==> w[step] < |rows|)
            && (forall step :: step in w ==> InSeries(rows[w[step]], run, key) && rows[w[step]].report.step == step)
            && (forall a :: 0 <= a < |rows| && InSeries(rows[a], run, key) ==> rows[a].report.step in w)
  {
    if rows != [] {
      WinnersInSeries(rows[..|rows| - 1], run, key);
    }
  }

  /** Exactly the rows that the ranking query keeps with `write_rank = 1`. */
  lemma {:induction false} WinnersAreRankOne(rows: seq<Row>, run: RunId, key: MetricKey)
    ensures forall step :: step in Winners(rows, run, key) ==>
              Winners(rows, run, key)[step] < |rows| && WriteRankOne(rows, Winners(rows, run, key)[step])
  {
    WinnersInSeries(rows, run, key);
    if rows != [] {
      WinnersInSeries(rows[..|rows| - 1], run, key);
      WinnersAreRankOne(rows[..|rows| - 1], run, key);
    }
  }

  lemma WriteRankOneIsUnique(rows: seq<Row>, a: nat, b: nat)
    requires a < |rows| && b < |rows| && SamePoint(rows[a].report, rows[b].report)
    requires WriteRankOne(rows, a) && WriteRankOne(rows, b)
    ensures a == b
  {
  }

  /** Rows of other runs never change a series; older rows keep their rowid. */
  lemma {:induction false} WinnersIgnoreOtherRuns(rows: seq<Row>, more: seq<Row>, run: RunId, key: MetricKey)
    requires forall i :: 0 <= i < |more| ==> more[i].report.run != run
    ensures Winners(rows + more, run, key) == Winners(rows, run, key)
  {
    if more == [] {
      assert rows + more == rows;
    } else {
      var last := |more| - 1;
      assert (rows + more)[..|rows + more| - 1] == rows + more[..last];
      WinnersIgnoreOtherRuns(rows, more[..last], run, key);
    }
  }

  ghost predicate Lists(steps: seq<int>, s: set<int>) {
    && (forall i :: 0 <= i < |steps| ==> steps[i] in s)
    && (forall x :: x in s ==> x in steps)
    && (forall i, j :: 0 <= i < j < |steps| ==> steps[i] < steps[j])
  }

  lemma ListIsUnique(a: seq<int>, b: seq<int>, s: set<int>)
    requires Lists(a, s) && Lists(b, s)
    ensures a == b
  {
    if a != [] {
      var x, y := a[|a| - 1], b[|b| - 1];
      var i :| 0 <= i < |b| && b[i] == x;
      var j :| 0 <= j < |a| && a[j] == y;
      assert x == y;
      ListWithoutLast(a, s);
      ListWithoutLast(b, s);
      ListIsUnique(a[..|a| - 1], b[..|b| - 1], s - {x});
      assert a == a[..|a| - 1] + [x] && b == b[..|b| - 1] + [y];
    }
  }

  lemma ListWithoutLast(a: seq<int>, s: set<int>)
    requires Lists(a, s) && a != []
    ensures Lists(a[..|a| - 1], s - {a[|a| - 1]})
  {
    var front, x := a[..|a| - 1], a[|a| - 1];
    assert x in s;
    forall y | y in s - {x} ensures y in front {
      var i :| 0 <= i < |a| && a[i] == y;
      assert front[i] == y;
    }
  }

  /** The place of `x` in an ascending list of steps. */
  function Insert(steps: seq<int>, x: int): seq<int> {
    if steps == [] then [x]
    else
      var last := steps[|steps| - 1];
      if last < x then steps + [x]
      else if last == x then steps
      else Insert(steps[..|steps| - 1], x) + [last]
  }

  lemma AppendLists(steps: seq<int>, s: set<int>, x: int)
    requires Lists(steps, s) && forall y :: y in s ==> y < x
    ensures Lists(steps + [x], s + {x})
  {
    var longer := steps + [x];
    forall y | y in s + {x} ensures y in longer {
      if y == x { assert longer[|steps|] == x; } else { assert y in steps; }
    }
    forall i, j | 0 <= i < j < |longer| ensures longer[i] < longer[j] {
      if j == |steps| { assert steps[i] in s; }
    }
  }

  lemma {:induction false} InsertLists(steps: seq<int>, s: set<int>, x: int)
    requires Lists(steps, s)
    ensures Lists(Insert(steps, x), s + {x})
    decreases |steps|
  {
    hide Lists, Insert;
    if steps == [] {
      ListsNothing(s, x);
    } else {
      var last, front := steps[|steps| - 1], steps[..|steps| - 1];
      LastIsGreatest(steps, s);
      InsertMeans(steps, x);
      OutAndIn(s, x, last);
      if last < x {
        AppendLists(steps, s, x);
      } else if last > x {
        ListWithoutLast(steps, s);
        InsertLists(front, s - {last}, x);
        AppendLists(Insert(front, x), (s - {last}) + {x}, last);
      }
    }
  }

  lemma ListsNothing(s: set<int>, x: int)
    requires Lists([], s)
    ensures Lists(Insert([], x), s + {x})
  {
    assert forall y :: y in s ==> y in [];
    AppendLists([], s, x);
  }

  /** Taking an element out and putting it in again. */
  lemma OutAndIn(s: set<int>, x: int, last: int)
    requires last in s
    ensures (s - {last}) + {x} + {last} == s + {x}
    ensures last == x ==> s + {x} == s
  {
  }

  lemma InsertMeans(steps: seq<int>, x: int)
    requires steps != []
    ensures var last, front := steps[|steps| - 1], steps[..|steps| - 1];
            Insert(steps, x) == if last < x then steps + [x] else if last == x then steps else Insert(front, x) + [last]
  {
  }

  lemma LastIsGreatest(steps: seq<int>, s: set<int>)
    requires Lists(steps, s) && steps != []
    ensures steps[|steps| - 1] in s && forall y :: y in s && y != steps[|steps| - 1] ==> y < steps[|steps| - 1]
  {
    forall y | y in s && y != steps[|steps| - 1] ensures y < steps[|steps| - 1] {
      var i :| 0 <= i < |steps| && steps[i] == y;
    }
  }

  /** The steps of one run and key, `ORDER BY step`. */
  function StepsOf(rows: seq<Row>, run: RunId, key: MetricKey): seq<int> {
    if rows == [] then []
    else
      var earlier := StepsOf(rows[..|rows| - 1], run, key);
      var row := rows[|rows| - 1];
      if InSeries(row, run, key) then Insert(earlier, row.report.step) else earlier
  }

  lemma {:induction false} StepsList(rows: seq<Row>, run: RunId, key: MetricKey)
    ensures Lists(StepsOf(rows, run, key), Winners(rows, run, key).Keys)
  {
    if rows != [] {
      var front, row := rows[..|rows| - 1], rows[|rows| - 1];
      StepsList(front, run, key);
      if InSeries(row, run, key) {
        InsertLists(StepsOf(front, run, key), Winners(front, run, key).Keys, row.report.step);
        assert Winners(rows, run, key).Keys == Winners(front, run, key).Keys + {row.report.step};
      }
    }
  }

  predicate HaveRows(rows: seq<Row>, w: map<int, nat>, steps: seq<int>) {
    forall i :: 0 <= i < |steps| ==> steps[i] in w && w[steps[i]] < |rows|
  }

  lemma StepsHaveRows(rows: seq<Row>, run: RunId, key: MetricKey)
    ensures HaveRows(rows, Winners(rows, run, key), StepsOf(rows, run, key))
    ensures forall step :: step in Winners(rows, run, key) ==> step in StepsOf(rows, run, key)
  {
    WinnersInSeries(rows, run, key);
    StepsList(rows, run, key);
    var w, steps := Winners(rows, run, key), StepsOf(rows, run, key);
    forall i | 0 <= i < |steps| ensures steps[i] in w && w[steps[i]] < |rows| {
      assert steps[i] in w.Keys;
    }
    forall step | step in w ensures step in steps {
      assert step in w.Keys;
    }
  }

  function RowsAt(rows: seq<Row>, w: map<int, nat>, steps: seq<int>): (series: seq<Row>)
    requires HaveRows(rows, w, steps)
    ensures |series| == |steps|
    ensures forall i :: 0 <= i < |steps| ==> series[i] == rows[w[steps[i]]]
  {
    seq(|steps|, i requires 0 <= i < |steps| => rows[w[steps[i]]])
  }

  /** The effective series of one run and key, in ascending step order. */
  function Effective(rows: seq<Row>, run: RunId, key: MetricKey): seq<Row> {
    var w := Winners(rows, run, key);
    StepsHaveRows(rows, run, key);
    RowsAt(rows, w, StepsOf(rows, run, key))
  }

  lemma EffectiveAscends(rows: seq<Row>, run: RunId, key: MetricKey)
    ensures var series := Effective(rows, run, key);
            && (forall i, j :: 0 <= i < j < |series| ==> series[i].report.step < series[j].report.step)
            && (forall i :: 0 <= i < |series| ==> InSeries(series[i], run, key))
  {
    StepsHaveRows(rows, run, key);
    StepsList(rows, run, key);
    var w, steps, series := Winners(rows, run, key), StepsOf(rows, run, key), Effective(rows, run, key);
    assert series == RowsAt(rows, w, steps);
    hide Winners, StepsOf, Effective, InSeries;
    forall i | 0 <= i < |series| ensures InSeries(series[i], run, key) && series[i].report.step == steps[i] {
      assert steps[i] in w && w[steps[i]] < |rows|;
      assert series[i] == rows[w[steps[i]]];
      WinnerInSeries(rows, run, key, steps[i]);
    }
  }

  lemma WinnerInSeries(rows: seq<Row>, run: RunId, key: MetricKey, step: int)
    requires step in Winners(rows, run, key)
    ensures var a := Winners(rows, run, key)[step]; a < |rows| && InSeries(rows[a], run, key) && rows[a].report.step == step
  {
    WinnersInSeries(rows, run, key);
  }

  /** Every point of the series is a `write_rank = 1` row of it ... */
  lemma EffectiveIsRankOne(rows: seq<Row>, run: RunId, key: MetricKey, i: nat)
    requires i < |Effective(rows, run, key)|
    ensures exists a :: 0 <= a < |rows| && rows[a] == Effective(rows, run, key)[i] && WriteRankOne(rows, a)
  {
    WinnersInSeries(rows, run, key);
    StepsList(rows, run, key);
    var w := Winners(rows, run, key);
    var step := StepsOf(rows, run, key)[i];
    assert step in w.Keys;
    WinnersAreRankOne(rows, run, key);
    assert WriteRankOne(rows, w[step]);
    assert rows[w[step]] == Effective(rows, run, key)[i];
  }

  /** ... and every such row is there. */
  lemma RankOneIsEffective(rows: seq<Row>, a: nat)
    requires a < |rows| && WriteRankOne(rows, a)
    ensures rows[a] in Effective(rows, rows[a].report.run, rows[a].report.key)
  {
    var report := rows[a].report;
    WinnersInSeries(rows, report.run, report.key);
    WinnersAreRankOne(rows, report.run, report.key);
    var w := Winners(rows, report.run, report.key);
    StepsList(rows, report.run, report.key);
    var steps := StepsOf(rows, report.run, report.key);
    assert report.step in w.Keys && report.step in steps;
    WriteRankOneIsUnique(rows, a, w[report.step]);
    var i :| 0 <= i < |steps| && steps[i] == report.step;
    assert RowsAt(rows, w, steps)[i] == rows[a];
  }

  function MinimumOf(series: seq<Row>): (v: Value)
    requires series != []
    ensures exists i :: 0 <= i < |series| && series[i].report.value == v
    ensures forall i :: 0 <= i < |series| ==> AtMost(v, series[i].report.value)
  {
    var first := series[0].report.value;
    if |series| == 1 then first
    else
      var rest := MinimumOf(series[1..]);
      if Less(rest, first) then rest else first
  }

  function MaximumOf(series: seq<Row>): (v: Value)
    requires series != []
    ensures exists i :: 0 <= i < |series| && series[i].report.value == v
    ensures forall i :: 0 <= i < |series| ==> AtMost(series[i].report.value, v)
  {
    var first := series[0].report.value;
    if |series| == 1 then first
    else
      var rest := MaximumOf(series[1..]);
      if Less(first, rest) then rest else first
  }

  function Summarize(series: seq<Row>): Aggregate
    requires series != []
  {
    var last := series[|series| - 1].report;
    Aggregate(|series|, last.step, last.value, MinimumOf(series), MaximumOf(series))
  }

  function KeysOf(rows: seq<Row>, run: RunId): set<MetricKey> {
    set a | 0 <= a < |rows| && rows[a].report.run == run :: rows[a].report.key
  }

  lemma EffectiveIsEmptyOnlyWithoutRows(rows: seq<Row>, run: RunId, key: MetricKey)
    ensures Effective(rows, run, key) == [] <==> key !in KeysOf(rows, run)
  {
    var steps := StepsOf(rows, run, key);
    WinnersInSeries(rows, run, key);
    StepsHaveRows(rows, run, key);
    assert |Effective(rows, run, key)| == |steps|;
    if key in KeysOf(rows, run) {
      var a :| 0 <= a < |rows| && rows[a].report.run == run && rows[a].report.key == key;
      assert InSeries(rows[a], run, key);
      assert rows[a].report.step in steps;
    } else if steps != [] {
      EffectiveAscends(rows, run, key);
      EffectiveIsRankOne(rows, run, key, 0);
    }
  }

  /** `GROUP BY run_id, metric_key` over the effective points of one run. */
  function Summaries(rows: seq<Row>, run: RunId): map<MetricKey, Aggregate> {
    map key | key in KeysOf(rows, run) ::
      EffectiveIsEmptyOnlyWithoutRows(rows, run, key);
      Summarize(Effective(rows, run, key))
  }

  /** The row is one of the run and key that a reader sees: nothing outranks it at its step. */
  ghost predicate Seen(rows: seq<Row>, run: RunId, key: MetricKey, row: Row) {
    InSeries(row, run, key) && exists a :: 0 <= a < |rows| && rows[a] == row && WriteRankOne(rows, a)
  }

  ghost predicate HasRow(rows: seq<Row>, run: RunId, key: MetricKey) {
    exists a :: 0 <= a < |rows| && InSeries(rows[a], run, key)
  }

  /** The steps for which the run and key have a row. */
  function StepSet(rows: seq<Row>, run: RunId, key: MetricKey): set<int> {
    set a | 0 <= a < |rows| && InSeries(rows[a], run, key) :: rows[a].report.step
  }

  lemma {:induction false} ListSize(steps: seq<int>, s: set<int>)
    requires Lists(steps, s)
    ensures |steps| == |s|
  {
    if steps == [] {
      assert forall x :: x in s ==> x in steps;
      assert s == {};
    } else {
      var last := steps[|steps| - 1];
      assert last in s;
      ListWithoutLast(steps, s);
      ListSize(steps[..|steps| - 1], s - {last});
    }
  }

  lemma SeriesSize(rows: seq<Row>, run: RunId, key: MetricKey)
    ensures |Effective(rows, run, key)| == |StepSet(rows, run, key)|
  {
    WinnersInSeries(rows, run, key);
    StepsList(rows, run, key);
    var w, steps := Winners(rows, run, key), StepsOf(rows, run, key);
    ListSize(steps, w.Keys);
    forall step ensures step in w.Keys <==> step in StepSet(rows, run, key) {
      if step in w { WinnerInSeries(rows, run, key, step); }
      if step in StepSet(rows, run, key) {
        var a :| 0 <= a < |rows| && InSeries(rows[a], run, key) && rows[a].report.step == step;
      }
    }
    assert w.Keys == StepSet(rows, run, key);
  }

  /** The effective series is exactly what a reader sees. */
  lemma SeriesIsSeen(rows: seq<Row>, run: RunId, key: MetricKey, row: Row)
    ensures row in Effective(rows, run, key) <==> Seen(rows, run, key, row)
  {
    var series := Effective(rows, run, key);
    EffectiveAscends(rows, run, key);
    if row in series {
      var i :| 0 <= i < |series| && series[i] == row;
      EffectiveIsRankOne(rows, run, key, i);
    }
    if Seen(rows, run, key, row) {
      var a :| 0 <= a < |rows| && rows[a] == row && WriteRankOne(rows, a);
      RankOneIsEffective(rows, a);
    }
  }

  /** At every step with a row there is something to see. */
  lemma StepIsSeen(rows: seq<Row>, run: RunId, key: MetricKey, a: nat) returns (row: Row)
    requires a < |rows| && InSeries(rows[a], run, key)
    ensures row in Effective(rows, run, key) && row.report.step == rows[a].report.step
  {
    var step := rows[a].report.step;
    WinnersInSeries(rows, run, key);
    WinnersAreRankOne(rows, run, key);
    var w := Winners(rows, run, key);
    row := rows[w[step]];
    assert Seen(rows, run, key, row);
    SeriesIsSeen(rows, run, key, row);
  }

  /** The step is the last one with a row, and the value is what a reader sees there. */
  ghost predicate IsLast(rows: seq<Row>, run: RunId, key: MetricKey, step: int, v: Value) {
    && (exists row :: Seen(rows, run, key, row) && row.report.step == step && row.report.value == v)
    && (forall a :: 0 <= a < |rows| && InSeries(rows[a], run, key) ==> rows[a].report.step <= step)
  }

  /** The value is seen at some step, and no smaller one at any. */
  ghost predicate IsLeast(rows: seq<Row>, run: RunId, key: MetricKey, v: Value) {
    && (exists row :: Seen(rows, run, key, row) && row.report.value == v)
    && (forall row :: Seen(rows, run, key, row) ==> AtMost(v, row.report.value))
  }

  ghost predicate IsGreatest(rows: seq<Row>, run: RunId, key: MetricKey, v: Value) {
    && (exists row :: Seen(rows, run, key, row) && row.report.value == v)
    && (forall row :: Seen(rows, run, key, row) ==> AtMost(row.report.value, v))
  }

  /**
    What a summary says, in terms of the rows: how many steps have a value, which
    is the last one and its value, and the least and the greatest value.
   */
  lemma SummariesMean(rows: seq<Row>, run: RunId, key: MetricKey)
    ensures key in Summaries(rows, run) <==> HasRow(rows, run, key)
    ensures key in Summaries(rows, run) ==>
              var s := Summaries(rows, run)[key];
              && s.count == |StepSet(rows, run, key)|
              && IsLast(rows, run, key, s.lastStep, s.lastValue)
              && IsLeast(rows, run, key, s.minimum) && IsGreatest(rows, run, key, s.maximum)
  {
    KeysHaveRows(rows, run, key);
    if key in Summaries(rows, run) {
      SeriesSize(rows, run, key);
      EffectiveIsEmptyOnlyWithoutRows(rows, run, key);
      hide Effective, Summarize, Seen, IsLast, IsLeast, IsGreatest;
      LastMeans(rows, run, key);
      RangeMeans(rows, run, key);
    }
  }

  lemma KeysHaveRows(rows: seq<Row>, run: RunId, key: MetricKey)
    ensures key in KeysOf(rows, run) <==> HasRow(rows, run, key)
  {
    if HasRow(rows, run, key) {
      var a :| 0 <= a < |rows| && InSeries(rows[a], run, key);
    }
  }

  lemma LastMeans(rows: seq<Row>, run: RunId, key: MetricKey)
    requires Effective(rows, run, key) != []
    ensures var s := Summarize(Effective(rows, run, key));
            s.count == |Effective(rows, run, key)| && IsLast(rows, run, key, s.lastStep, s.lastValue)
  {
    var series := Effective(rows, run, key);
    EffectiveAscends(rows, run, key);
    hide Effective, Seen;
    var last := series[|series| - 1];
    SeriesIsSeen(rows, run, key, last);
    forall a | 0 <= a < |rows| && InSeries(rows[a], run, key) ensures rows[a].report.step <= last.report.step {
      var row := StepIsSeen(rows, run, key, a);
      var i :| 0 <= i < |series| && series[i] == row;
    }
  }

  lemma RangeMeans(rows: seq<Row>, run: RunId, key: MetricKey)
    requires Effective(rows, run, key) != []
    ensures var s := Summarize(Effective(rows, run, key)); IsLeast(rows, run, key, s.minimum) && IsGreatest(rows, run, key, s.maximum)
  {
    var series := Effective(rows, run, key);
    hide Effective, Seen;
    var i :| 0 <= i < |series| && series[i].report.value == Summarize(series).minimum;
    var j :| 0 <= j < |series| && series[j].report.value == Summarize(series).maximum;
    SeriesIsSeen(rows, run, key, series[i]);
    SeriesIsSeen(rows, run, key, series[j]);
    forall row | Seen(rows, run, key, row) ensures AtMost(Summarize(series).minimum, row.report.value) && AtMost(row.report.value, Summarize(series).maximum) {
      SeriesIsSeen(rows, run, key, row);
    }
  }

  lemma SummariesIgnoreOtherRuns(rows: seq<Row>, more: seq<Row>, run: RunId)
    requires forall i :: 0 <= i < |more| ==> more[i].report.run != run
    ensures Summaries(rows + more, run) == Summaries(rows, run)
  {
    forall key ensures Effective(rows + more, run, key) == Effective(rows, run, key) {
      WinnersIgnoreOtherRuns(rows, more, run, key);
      WinnersInSeries(rows, run, key);
      StepsList(rows, run, key);
      StepsList(rows + more, run, key);
      ListIsUnique(StepsOf(rows + more, run, key), StepsOf(rows, run, key), Winners(rows, run, key).Keys);
      var w := Winners(rows, run, key);
      forall step | step in w.Keys ensures w[step] < |rows| && (rows + more)[w[step]] == rows[w[step]] {
      }
    }
    forall key ensures key in KeysOf(rows + more, run) <==> key in KeysOf(rows, run) {
      if key in KeysOf(rows, run) {
        var a :| 0 <= a < |rows| && rows[a].report.run == run && rows[a].report.key == key;
        assert (rows + more)[a] == rows[a];
      }
    }
    assert KeysOf(rows + more, run) == KeysOf(rows, run);
  }
}
