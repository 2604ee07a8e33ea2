/**
  What a reader sees of one append, exactly. An append does not look at the
  stored time stamps; whether its writes are the ones that are read afterwards is
  decided by them, whatever clock and failures led to them.
 */
module PipelineReading {
  import opened Values
  import opened Metrics
  import opened Pipeline
  import opened PipelineRows
  import opened PipelineTheorems

  /** The row of rank one is what a reader picks for its step. */
  lemma RankOneIsRead(rows: seq<Row>, a: nat)
    requires a < |rows|
    ensures var report := rows[a].report; var w := Winners(rows, report.run, report.key);
            report.step in w && (w[report.step] == a <==> WriteRankOne(rows, a))
  {
    var report := rows[a].report;
    WinnersInSeries(rows, report.run, report.key);
    WinnersAreRankOne(rows, report.run, report.key);
    var w := Winners(rows, report.run, report.key);
    hide Winners;
    if WriteRankOne(rows, a) {
      WriteRankOneIsUnique(rows, a, w[report.step]);
    }
  }

  predicate LastOfItsPoint(batch: seq<Report>, j: nat)
    requires j < |batch|
  {
    forall l :: j < l < |batch| ==> !SamePoint(batch[l], batch[j])
  }

  /** No stored row of the report's point is stamped after `limit`. */
  predicate PointStampedUpTo(rows: seq<Row>, report: Report, limit: int) {
    forall a :: 0 <= a < |rows| && SamePoint(rows[a].report, report) ==> rows[a].ingestedAt <= limit
  }

  lemma AppendedLastWrite(i: nat, p: Pipe, st: Store, now: int, j: nat)
    requires TableInv(st) && p.worker.Writing? && j < |p.worker.batch| && LastOfItsPoint(p.worker.batch, j)
    ensures var st' := Appended(i, p, st, now).1; var report := p.worker.batch[j];
            && AcksInTable(st')
            && var m := LastWrites(st'.rows, st'.acked, |st'.acked|, report.run, report.key);
               report.step in m && m[report.step] == |st.rows| + j
  {
    AppendedTable(i, p, st, now);
    var batch, report, n := p.worker.batch, p.worker.batch[j], |st.acked|;
    var st' := Appended(i, p, st, now).1;
    hide Appended, LastWrites;
    forall l | n + j < l < |st'.acked| ensures !AtStep(st'.rows[st'.acked[l]], report.run, report.key, report.step) {
      assert !SamePoint(batch[l - n], report);
    }
    LastAckDecides(st'.rows, st'.acked, n + j, report.run, report.key, report.step);
  }

  /** The acknowledged rows of a successful append, one for each report of the batch. */
  lemma AppendedTable(i: nat, p: Pipe, st: Store, now: int)
    requires TableInv(st) && p.worker.Writing?
    ensures var st' := Appended(i, p, st, now).1;
            && AcksInTable(st') && |st'.acked| == |st.acked| + |p.worker.batch| && |st'.rows| == |st.rows| + |p.worker.batch|
            && forall l :: |st.acked| <= l < |st'.acked| ==>
                 st'.acked[l] == |st.rows| + l - |st.acked| && st'.rows[st'.acked[l]].report == p.worker.batch[l - |st.acked|]
  {
  }

  lemma LastAckDecides(rows: seq<Row>, acked: seq<nat>, l: nat, run: RunId, key: MetricKey, step: int)
    requires l < |acked| && forall k :: 0 <= k < |acked| ==> acked[k] < |rows|
    requires AtStep(rows[acked[l]], run, key, step) && forall k :: l < k < |acked| ==> !AtStep(rows[acked[k]], run, key, step)
    ensures var m := LastWrites(rows, acked, |acked|, run, key); step in m && m[step] == acked[l]
  {
    var k := LastWritesAt(rows, acked, |acked|, run, key, step);
    hide LastWrites;
  }

  lemma AppendedRanksOne(i: nat, p: Pipe, st: Store, now: int, j: nat)
    requires p.worker.Writing? && j < |p.worker.batch| && LastOfItsPoint(p.worker.batch, j)
    ensures var st' := Appended(i, p, st, now).1;
            |st.rows| + j < |st'.rows| && st'.rows[|st.rows| + j].report == p.worker.batch[j]
            && (WriteRankOne(st'.rows, |st.rows| + j) <==> PointStampedUpTo(st.rows, p.worker.batch[j], Max(p.nextStamp, now) + j))
  {
    var batch, base := p.worker.batch, Max(p.nextStamp, now);
    assert Appended(i, p, st, now).1.rows == st.rows + RowsFor(i, batch, base);
    hide Appended;
    NewRowRanksOne(st.rows, i, batch, base, j);
  }

  /** A new row beats the rows appended with it; the stored ones decide. */
  lemma NewRowRanksOne(rows: seq<Row>, i: nat, batch: seq<Report>, base: int, j: nat)
    requires j < |batch| && LastOfItsPoint(batch, j)
    ensures WriteRankOne(rows + RowsFor(i, batch, base), |rows| + j) <==> PointStampedUpTo(rows, batch[j], base + j)
  {
    var more, b := RowsFor(i, batch, base), |rows| + j;
    var all := rows + more;
    assert all[b] == more[j];
    if PointStampedUpTo(rows, batch[j], base + j) {
      forall a | 0 <= a < |all| && a != b && SamePoint(all[b].report, all[a].report) ensures RankedBefore(all, b, a) {
        if a < |rows| {
          assert all[a] == rows[a];
        } else {
          assert all[a] == more[a - |rows|];
          assert SamePoint(batch[a - |rows|], batch[j]);
        }
      }
    } else {
      var a :| 0 <= a < |rows| && SamePoint(rows[a].report, batch[j]) && rows[a].ingestedAt > base + j;
      assert all[a] == rows[a] && SamePoint(all[b].report, all[a].report) && !RankedBefore(all, b, a);
    }
  }

  lemma TableInOrder(s: System)
    requires Reachable(s)
    ensures TableInv(s.store)
  {
    ReachableInv(s);
  }

  lemma AppendApplied(s: System, i: nat, now: int, s': System)
    requires i < |s.clients| && Apply(s, Work(i, Append(now))) == Some(s')
    ensures s.clients[i].pipe.worker.Writing? && s'.store == Appended(i, s.clients[i].pipe, s.store, now).1
  {
    hide Appended;
  }

  lemma FailureApplied(s: System, i: nat, now: int, committed: nat, s': System)
    requires i < |s.clients| && Apply(s, Work(i, AppendError(now, committed))) == Some(s')
    ensures var p := s.clients[i].pipe;
            && p.worker.Writing? && committed <= |p.worker.batch| && s'.store.acked == s.store.acked
            && s'.store.rows == s.store.rows + RowsFor(i, p.worker.batch[..committed], Max(p.nextStamp, now))
  {
  }

  /**
    The exact condition for a write to be read. After a successful append, a
    reader finds the last write of a point if and only if no row of that point
    was already stored with a later time stamp than the write gets. That one
    condition covers the rows that failed appends left, clocks that step back
    and earlier owners.
   */
  lemma AppendIsReadExactly(s: System, i: nat, now: int, s': System, j: nat)
    requires Reachable(s) && i < |s.clients| && Apply(s, Work(i, Append(now))) == Some(s')
    requires s.clients[i].pipe.worker.Writing? && j < |s.clients[i].pipe.worker.batch| && LastOfItsPoint(s.clients[i].pipe.worker.batch, j)
    ensures var p := s.clients[i].pipe; var report := p.worker.batch[j];
            && AcksInTable(s'.store)
            && (ReadsLastWrite(s'.store, report.run, report.key, report.step)
                <==> PointStampedUpTo(s.store.rows, report, Max(p.nextStamp, now) + j))
  {
    TableInOrder(s);
    AppendApplied(s, i, now, s');
    hide Apply, Reachable;
    var p, st := s.clients[i].pipe, s.store;
    AppendedLastWrite(i, p, st, now, j);
    AppendedRanksOne(i, p, st, now, j);
    hide Appended, TableInv, PointStampedUpTo, LastOfItsPoint, Winners, LastWrites, WriteRankOne;
    RankOneIsRead(s'.store.rows, |st.rows| + j);
  }

  /** No report of the point is among the committed ones, or what was read before is stamped later than all of them. */
  predicate LeavesReading(rows: seq<Row>, batch: seq<Report>, committed: nat, base: int, run: RunId, key: MetricKey, step: int)
    requires committed <= |batch|
  {
    var w := Winners(rows, run, key);
    forall j :: 0 <= j < committed && PointOf(batch[j]) == MetricPoint(run, key, step) ==>
      step in w && w[step] < |rows| && rows[w[step]].ingestedAt > base + j
  }

  /** Appending rows keeps what is read exactly if none of them is stamped as late. */
  lemma ReadingKept(rows: seq<Row>, more: seq<Row>, run: RunId, key: MetricKey, step: int)
    ensures var w, w' := Winners(rows, run, key), Winners(rows + more, run, key);
            && (step in w ==> step in w' && w[step] < |rows|)
            && ((forall j :: 0 <= j < |more| && AtStep(more[j], run, key, step) ==> step in w && rows[w[step]].ingestedAt > more[j].ingestedAt)
                <==> ((step in w <==> step in w') && (step in w ==> w'[step] == w[step])))
  {
    var all := rows + more;
    var w, w' := Winners(rows, run, key), Winners(all, run, key);
    WinnerAt(rows, run, key, step);
    WinnerAt(all, run, key, step);
    hide Winners;
    assert forall a :: 0 <= a < |rows| ==> all[a] == rows[a];
    assert forall j :: 0 <= j < |more| ==> all[|rows| + j] == more[j];
    if step in w {
      assert AtStep(all[w[step]], run, key, step);
      if forall j :: 0 <= j < |more| && AtStep(more[j], run, key, step) ==> rows[w[step]].ingestedAt > more[j].ingestedAt {
        KeepsRankOne(rows, more, w[step]);
        WriteRankOneIsUnique(all, w[step], w'[step]);
      } else {
        var j :| 0 <= j < |more| && AtStep(more[j], run, key, step) && rows[w[step]].ingestedAt <= more[j].ingestedAt;
        assert !RankedBefore(all, w[step], |rows| + j) && SamePoint(all[w[step]].report, all[|rows| + j].report);
      }
    } else if step in w' {
      assert w'[step] >= |rows| && AtStep(more[w'[step] - |rows|], run, key, step);
    }
  }

  lemma KeepsRankOne(rows: seq<Row>, more: seq<Row>, a: nat)
    requires a < |rows| && WriteRankOne(rows, a)
    requires forall j :: 0 <= j < |more| && SamePoint(rows[a].report, more[j].report) ==> rows[a].ingestedAt > more[j].ingestedAt
    ensures WriteRankOne(rows + more, a)
  {
  }

  /**
    The exact condition for a failed append to go unseen: a reader that saw the
    last write of a point still does so afterwards if and only if the failure
    committed no report of that point, or only ones that are stamped before it.
   */
  lemma FailureIsUnseenExactly(s: System, i: nat, now: int, committed: nat, s': System, run: RunId, key: MetricKey, step: int)
    requires Reachable(s) && i < |s.clients| && Apply(s, Work(i, AppendError(now, committed))) == Some(s')
    requires s.clients[i].pipe.worker.Writing? && committed <= |s.clients[i].pipe.worker.batch|
    requires AcksInTable(s.store) && ReadsLastWrite(s.store, run, key, step)
    ensures var p := s.clients[i].pipe;
            && AcksInTable(s'.store)
            && (ReadsLastWrite(s'.store, run, key, step)
                <==> LeavesReading(s.store.rows, p.worker.batch, committed, Max(p.nextStamp, now), run, key, step))
  {
    var p, st := s.clients[i].pipe, s.store;
    var more := RowsFor(i, p.worker.batch[..committed], Max(p.nextStamp, now));
    FailureApplied(s, i, now, committed, s');
    hide Reachable, Apply, Winners, LastWrites;
    ReadingKept(st.rows, more, run, key, step);
    LastWritesIgnoreRows(st.rows, more, st.acked, |st.acked|, run, key);
    assert forall j :: 0 <= j < committed ==> (PointOf(p.worker.batch[j]) == MetricPoint(run, key, step) <==> AtStep(more[j], run, key, step));
  }

  lemma {:induction false} LastWritesIgnoreRows(rows: seq<Row>, more: seq<Row>, acked: seq<nat>, n: nat, run: RunId, key: MetricKey)
    requires n <= |acked| && forall k :: 0 <= k < |acked| ==> acked[k] < |rows|
    ensures LastWrites(rows + more, acked, n, run, key) == LastWrites(rows, acked, n, run, key)
  {
    if n > 0 {
      LastWritesIgnoreRows(rows, more, acked, n - 1, run, key);
    }
  }
}
