/**
  The stored rows of each client, and why the last-write-wins reading of them
  is the fold of the acknowledged reports in the order they were enqueued.
 */
module PipelineRows {
  import opened Values
  import opened Metrics
  import opened Pipeline
  import opened PipelineCounts

  /** The clock never went backwards for this writer, or no failed append left rows behind. */
  predicate Steady(p: Pipe) {
    p.monotone || p.clean
  }

  /** A stored row whose report was not acknowledged. */
  predicate Dirty(p: Pipe, row: Row) {
    row.report.sequence > |p.rowAt|
  }

  /** A row of client `i` is a copy of one of its accepted reports; an unacknowledged one is still in hand. */
  predicate Logged(p: Pipe, row: Row) {
    && 1 <= row.report.sequence <= |p.accepted|
    && p.accepted[row.report.sequence - 1] == row.report
    && (Dirty(p, row) ==> !p.clean && (p.worker.Writing? || !MayAppend(p.worker)) && row.report.sequence <= |p.rowAt| + |InHand(p.worker)|)
  }

  ghost predicate FromLog(i: nat, p: Pipe, rows: seq<Row>) {
    forall a :: 0 <= a < |rows| && rows[a].client == i ==> Logged(p, rows[a])
  }

  /** Position `k` of the log was stored, by the row that acknowledged it. */
  predicate AckedBy(i: nat, p: Pipe, rows: seq<Row>, k: nat) {
    && k < |p.rowAt| && k < |p.accepted|
    && p.rowAt[k] < |rows| && rows[p.rowAt[k]].client == i && rows[p.rowAt[k]].report == p.accepted[k]
    && rows[p.rowAt[k]].ingestedAt < p.nextStamp
  }

  predicate AckedEarlier(p: Pipe, rows: seq<Row>, k: nat, l: nat) {
    && k < l < |p.rowAt| && p.rowAt[k] < p.rowAt[l] < |rows| && rows[p.rowAt[k]].ingestedAt < rows[p.rowAt[l]].ingestedAt
  }

  /** Every stored report has its acknowledging row; those rows and their stamps increase. */
  ghost predicate Acknowledging(i: nat, p: Pipe, rows: seq<Row>) {
    && |p.rowAt| <= |p.accepted|
    && (forall k :: 0 <= k < |p.rowAt| ==> AckedBy(i, p, rows, k))
    && (forall k, l :: 0 <= k < l < |p.rowAt| ==> AckedEarlier(p, rows, k, l))
  }

  /** No copy of a report outranks the acknowledging one. */
  predicate Outranked(p: Pipe, rows: seq<Row>, a: nat)
    requires a < |rows| && 1 <= rows[a].report.sequence <= |p.rowAt|
  {
    var ack := p.rowAt[rows[a].report.sequence - 1];
    a <= ack < |rows| && rows[a].ingestedAt <= rows[ack].ingestedAt
  }

  ghost predicate Dominating(i: nat, p: Pipe, rows: seq<Row>) {
    Steady(p) ==> forall a :: 0 <= a < |rows| && rows[a].client == i && 1 <= rows[a].report.sequence <= |p.rowAt| ==> Outranked(p, rows, a)
  }

  /** Rows left behind by failed appends are stamped no later than a retry would stamp them. */
  ghost predicate LeftBehind(i: nat, p: Pipe, rows: seq<Row>) {
    p.monotone && p.worker.Writing? ==> forall a :: 0 <= a < |rows| && rows[a].client == i && Dirty(p, rows[a]) ==>
      rows[a].ingestedAt <= Max(p.nextStamp, p.lastNow) + rows[a].report.sequence - 1 - |p.rowAt|
  }

  ghost predicate AckedAre(i: nat, p: Pipe, st: Store) {
    && (forall k :: 0 <= k < |p.rowAt| ==> p.rowAt[k] in st.acked)
    && (forall b :: b in st.acked ==> b < |st.rows|)
    && (forall b :: b in st.acked && st.rows[b].client == i ==>
          && 1 <= st.rows[b].report.sequence <= |p.rowAt| && p.rowAt[st.rows[b].report.sequence - 1] == b)
  }

  ghost predicate RowsInv(i: nat, p: Pipe, st: Store) {
    && FromLog(i, p, st.rows) && Acknowledging(i, p, st.rows) && Dominating(i, p, st.rows)
    && LeftBehind(i, p, st.rows) && AckedAre(i, p, st)
  }

  predicate HandedOver(st: Store, a: nat, b: nat)
    requires a < |st.rows| && b < |st.rows|
  {
    && SamePoint(st.rows[a].report, st.rows[b].report) && st.rows[a].client != st.rows[b].client
    && PointOf(st.rows[b].report) !in st.skewed
  }

  /** Acknowledged rows are listed in storage order, and only skewed points are stamped out of order between owners. */
  ghost predicate TableInv(st: Store) {
    && (forall k, l :: 0 <= k < l < |st.acked| ==> st.acked[k] < st.acked[l])
    && (forall k :: 0 <= k < |st.acked| ==> st.acked[k] < |st.rows|)
    && (forall a, b :: 0 <= a < b < |st.rows| && HandedOver(st, a, b) ==> st.rows[a].ingestedAt <= st.rows[b].ingestedAt)
  }

  /** The rows `count` reports from position `|rowAt|` on become, stamped from `base`. */
  ghost predicate Extends(i: nat, p: Pipe, rows: seq<Row>, rows': seq<Row>, count: nat, base: int) {
    && |p.rowAt| + count <= |p.accepted|
    && |rows'| == |rows| + count
    && (forall a :: 0 <= a < |rows| ==> rows'[a] == rows[a])
    && (forall a :: |rows| <= a < |rows'| ==> rows'[a] == Row(i, p.accepted[|p.rowAt| + a - |rows|], base + a - |rows|))
  }

  ghost predicate Acks(p: Pipe, p': Pipe, n: nat, count: nat) {
    && p'.accepted == p.accepted && |p'.rowAt| == |p.rowAt| + count
    && (forall k :: 0 <= k < |p.rowAt| ==> p'.rowAt[k] == p.rowAt[k])
    && (forall k :: |p.rowAt| <= k < |p'.rowAt| ==> p'.rowAt[k] == n + k - |p.rowAt|)
  }

  lemma AppendEffect(i: nat, p: Pipe, st: Store, now: int)
    requires Counts(p) && p.worker.Writing?
    ensures var (p', st') := Appended(i, p, st, now);
            && Extends(i, p, st.rows, st'.rows, |p.worker.batch|, Max(p.nextStamp, now))
            && Acks(p, p', |st.rows|, |p.worker.batch|)
  {
  }

  lemma AppendErrorEffect(i: nat, p: Pipe, st: Store, now: int, committed: nat)
    requires Counts(p) && p.worker.Writing? && committed <= |p.worker.batch|
    ensures Extends(i, p, st.rows, AppendFailed(i, p, st, now, committed).1.rows, committed, Max(p.nextStamp, now))
  {
  }

  lemma AppendKeepsLog(i: nat, p: Pipe, rows: seq<Row>, p': Pipe, rows': seq<Row>, count: nat, base: int)
    requires Numbered(p.accepted) && FromLog(i, p, rows) && Extends(i, p, rows, rows', count, base)
    requires p'.accepted == p.accepted
    requires forall row :: Logged(p, row) ==> Logged(p', row)
    requires |p.rowAt| + count <= |p'.rowAt| ||
             (|p'.rowAt| == |p.rowAt| && count <= |InHand(p'.worker)| && (count == 0 || !p'.clean) && (p'.worker.Writing? || p'.worker.Failing?))
    ensures FromLog(i, p', rows')
  {
    forall a | 0 <= a < |rows'| && rows'[a].client == i ensures Logged(p', rows'[a]) {
      if a < |rows| {
        assert rows'[a] == rows[a];
      } else {
        var k := |p.rowAt| + a - |rows|;
        assert rows'[a].report == p.accepted[k] && p.accepted[k].sequence == k + 1;
      }
    }
  }

  lemma AckKeepsAcknowledging(i: nat, p: Pipe, rows: seq<Row>, p': Pipe, rows': seq<Row>, count: nat, base: int)
    requires Acknowledging(i, p, rows) && Extends(i, p, rows, rows', count, base) && Acks(p, p', |rows|, count)
    requires base >= p.nextStamp && p'.nextStamp == base + count
    ensures Acknowledging(i, p', rows')
  {
    forall k | 0 <= k < |p'.rowAt| ensures AckedBy(i, p', rows', k) {
      if k < |p.rowAt| {
        assert AckedBy(i, p, rows, k) && p'.rowAt[k] == p.rowAt[k];
      } else {
        assert p'.rowAt[k] == |rows| + k - |p.rowAt|;
      }
    }
    forall k, l | 0 <= k < l < |p'.rowAt| ensures AckedEarlier(p', rows', k, l) {
      if l < |p.rowAt| {
        assert AckedEarlier(p, rows, k, l) && p'.rowAt[k] == p.rowAt[k] && p'.rowAt[l] == p.rowAt[l];
      } else {
        assert p'.rowAt[l] == |rows| + l - |p.rowAt|;
        if k < |p.rowAt| {
          assert AckedBy(i, p, rows, k) && p'.rowAt[k] == p.rowAt[k];
        } else {
          assert p'.rowAt[k] == |rows| + k - |p.rowAt|;
        }
      }
    }
  }

  /** After a successful append no copy left behind by a failed one outranks the acknowledging row. */
  lemma AckKeepsDominating(i: nat, p: Pipe, rows: seq<Row>, p': Pipe, rows': seq<Row>, count: nat, base: int)
    requires Numbered(p.accepted) && FromLog(i, p, rows) && Acknowledging(i, p, rows) && Dominating(i, p, rows) && LeftBehind(i, p, rows)
    requires p.worker.Writing? && Extends(i, p, rows, rows', count, base) && Acks(p, p', |rows|, count)
    requires p'.clean == p.clean && (p'.monotone ==> p.monotone && base >= p.lastNow) && base >= p.nextStamp
    ensures Dominating(i, p', rows')
  {
    if Steady(p') {
      forall a | 0 <= a < |rows'| && rows'[a].client == i && 1 <= rows'[a].report.sequence <= |p'.rowAt| ensures Outranked(p', rows', a) {
        var k := rows'[a].report.sequence - 1;
        if a >= |rows| {
          assert rows'[a].report == p.accepted[|p.rowAt| + a - |rows|];
          assert k == |p.rowAt| + a - |rows| && p'.rowAt[k] == a;
        } else if k < |p.rowAt| {
          assert rows'[a] == rows[a] && Outranked(p, rows, a) && p'.rowAt[k] == p.rowAt[k];
        } else {
          assert rows'[a] == rows[a] && Logged(p, rows[a]) && Dirty(p, rows[a]);
          assert p'.rowAt[k] == |rows| + k - |p.rowAt|;
          assert rows'[p'.rowAt[k]].ingestedAt == base + k - |p.rowAt|;
        }
      }
    }
  }

  lemma FailureKeepsDominating(i: nat, p: Pipe, rows: seq<Row>, p': Pipe, rows': seq<Row>, count: nat, base: int)
    requires Numbered(p.accepted) && Dominating(i, p, rows) && Extends(i, p, rows, rows', count, base)
    requires p'.rowAt == p.rowAt && p'.accepted == p.accepted && (Steady(p') ==> Steady(p))
    ensures Dominating(i, p', rows')
  {
    forall a | |rows| <= a < |rows'| ensures rows'[a].report.sequence > |p.rowAt| {
      assert rows'[a].report == p.accepted[|p.rowAt| + a - |rows|];
    }
    if Steady(p') {
      forall a | 0 <= a < |rows'| && rows'[a].client == i && 1 <= rows'[a].report.sequence <= |p'.rowAt| ensures Outranked(p', rows', a) {
        assert rows'[a] == rows[a] && Outranked(p, rows, a);
      }
    }
  }

  lemma FailureKeepsLeftBehind(i: nat, p: Pipe, rows: seq<Row>, p': Pipe, rows': seq<Row>, count: nat, base: int)
    requires Numbered(p.accepted) && LeftBehind(i, p, rows) && Extends(i, p, rows, rows', count, base)
    requires p.worker.Writing? && p'.rowAt == p.rowAt && p'.nextStamp == p.nextStamp && base == Max(p.nextStamp, p'.lastNow)
    requires p'.monotone ==> p.monotone && p.lastNow <= p'.lastNow
    ensures LeftBehind(i, p', rows')
  {
    forall a | p'.monotone && |rows| <= a < |rows'|
      ensures rows'[a].ingestedAt == base + rows'[a].report.sequence - 1 - |p.rowAt|
    {
      assert p.accepted[|p.rowAt| + a - |rows|].sequence == |p.rowAt| + a - |rows| + 1;
    }
  }

  lemma AckKeepsAcked(i: nat, p: Pipe, st: Store, p': Pipe, st': Store, count: nat, base: int)
    requires Numbered(p.accepted) && AckedAre(i, p, st) && Extends(i, p, st.rows, st'.rows, count, base) && Acks(p, p', |st.rows|, count)
    requires st'.acked == st.acked + Indices(|st.rows|, count)
    ensures AckedAre(i, p', st')
  {
    forall k | 0 <= k < |p'.rowAt| ensures p'.rowAt[k] in st'.acked {
      if k >= |p.rowAt| {
        assert Indices(|st.rows|, count)[k - |p.rowAt|] == p'.rowAt[k];
      }
    }
    forall b | b in st'.acked && b !in st.acked
      ensures |st.rows| <= b < |st'.rows| && st'.rows[b].report.sequence == |p.rowAt| + b - |st.rows| + 1
    {
      assert b in Indices(|st.rows|, count);
      assert p.accepted[|p.rowAt| + b - |st.rows|].sequence == |p.rowAt| + b - |st.rows| + 1;
    }
  }

  lemma WritingKeepsRows(i: nat, p: Pipe, st: Store, now: int)
    requires Counts(p) && RowsInv(i, p, st) && p.worker.Writing?
    ensures RowsInv(i, Appended(i, p, st, now).0, Appended(i, p, st, now).1)
  {
    var (p', st') := Appended(i, p, st, now);
    var count, base := |p.worker.batch|, Max(p.nextStamp, now);
    AppendEffect(i, p, st, now);
    assert forall row :: Logged(p, row) ==> Logged(p', row);
    AppendKeepsLog(i, p, st.rows, p', st'.rows, count, base);
    AckKeepsAcknowledging(i, p, st.rows, p', st'.rows, count, base);
    AckKeepsDominating(i, p, st.rows, p', st'.rows, count, base);
    AckKeepsAcked(i, p, st, p', st', count, base);
  }

  lemma FailureKeepsAcknowledging(i: nat, p: Pipe, rows: seq<Row>, p': Pipe, rows': seq<Row>, count: nat, base: int)
    requires Acknowledging(i, p, rows) && Extends(i, p, rows, rows', count, base)
    requires p'.rowAt == p.rowAt && p'.accepted == p.accepted && p'.nextStamp == p.nextStamp
    ensures Acknowledging(i, p', rows')
  {
    forall k | 0 <= k < |p'.rowAt| ensures AckedBy(i, p', rows', k) {
      assert AckedBy(i, p, rows, k);
    }
    forall k, l | 0 <= k < l < |p'.rowAt| ensures AckedEarlier(p', rows', k, l) {
      assert AckedEarlier(p, rows, k, l);
    }
  }

  lemma FailingKeepsRows(i: nat, p: Pipe, st: Store, now: int, committed: nat)
    requires Counts(p) && RowsInv(i, p, st) && p.worker.Writing? && committed <= |p.worker.batch|
    ensures RowsInv(i, AppendFailed(i, p, st, now, committed).0, AppendFailed(i, p, st, now, committed).1)
  {
    var (p', st') := AppendFailed(i, p, st, now, committed);
    var base := Max(p.nextStamp, now);
    AppendErrorEffect(i, p, st, now, committed);
    assert forall row :: Logged(p, row) ==> Logged(p', row);
    AppendKeepsLog(i, p, st.rows, p', st'.rows, committed, base);
    FailureKeepsAcknowledging(i, p, st.rows, p', st'.rows, committed, base);
    FailureKeepsDominating(i, p, st.rows, p', st'.rows, committed, base);
    FailureKeepsLeftBehind(i, p, st.rows, p', st'.rows, committed, base);
    forall b | b in st'.acked ensures st'.rows[b] == st.rows[b] {
    }
  }

  /** What a step that stores nothing may change. */
  ghost predicate SameStored(p: Pipe, p': Pipe) {
    && p.accepted <= p'.accepted && p'.rowAt == p.rowAt
    && p'.clean == p.clean && p'.monotone == p.monotone
    && (p'.nextStamp == p.nextStamp || p.rowAt == [])
    && (p.worker.Writing? || !MayAppend(p.worker) ==> (p'.worker.Writing? || !MayAppend(p'.worker)) && |InHand(p'.worker)| >= |InHand(p.worker)|)
    && (p'.worker.Writing? ==> p.worker.Collecting? || (p.worker.Writing? && p'.lastNow == p.lastNow && p'.nextStamp == p.nextStamp))
  }

  lemma SameStoredKeepsLog(i: nat, p: Pipe, st: Store, p': Pipe)
    requires FromLog(i, p, st.rows) && SameStored(p, p')
    ensures FromLog(i, p', st.rows)
    ensures p.worker.Collecting? ==> forall a :: 0 <= a < |st.rows| && st.rows[a].client == i ==> !Dirty(p', st.rows[a])
  {
    forall a | 0 <= a < |st.rows| && st.rows[a].client == i ensures Logged(p', st.rows[a]) && (p.worker.Collecting? ==> !Dirty(p', st.rows[a])) {
      assert Logged(p, st.rows[a]);
    }
  }

  lemma SameStoredKeepsAcks(i: nat, p: Pipe, st: Store, p': Pipe)
    requires Acknowledging(i, p, st.rows) && Dominating(i, p, st.rows) && SameStored(p, p')
    ensures Acknowledging(i, p', st.rows) && Dominating(i, p', st.rows)
  {
    forall k | 0 <= k < |p.rowAt| ensures AckedBy(i, p', st.rows, k) {
      assert AckedBy(i, p, st.rows, k);
    }
    forall k, l | 0 <= k < l < |p.rowAt| ensures AckedEarlier(p', st.rows, k, l) {
      assert AckedEarlier(p, st.rows, k, l);
    }
    forall a | Steady(p') && 0 <= a < |st.rows| && st.rows[a].client == i && 1 <= st.rows[a].report.sequence <= |p.rowAt|
      ensures Outranked(p', st.rows, a)
    {
      assert Outranked(p, st.rows, a);
    }
  }

  lemma SameStoredKeepsRows(i: nat, p: Pipe, st: Store, p': Pipe)
    requires RowsInv(i, p, st) && SameStored(p, p')
    ensures RowsInv(i, p', st)
  {
    SameStoredKeepsLog(i, p, st, p');
    SameStoredKeepsAcks(i, p, st, p');
  }

  lemma QuietWorkerKeepsStored(i: nat, p: Pipe, st: Store, e: WorkerEvent, p': Pipe, st': Store)
    requires Counts(p) && !e.Append? && !e.AppendError? && WorkerStep(i, p, st, e) == Some((p', st'))
    ensures st' == st && SameStored(p, p')
  {
  }

  lemma WorkerKeepsRows(i: nat, p: Pipe, st: Store, e: WorkerEvent, p': Pipe, st': Store)
    requires Counts(p) && RowsInv(i, p, st) && WorkerStep(i, p, st, e) == Some((p', st'))
    ensures RowsInv(i, p', st')
  {
    hide RowsInv, SameStored;
    match e {
      case Append(now) => WritingKeepsRows(i, p, st, now);
      case AppendError(now, committed) => FailingKeepsRows(i, p, st, now, committed);
      case _ =>
        QuietWorkerKeepsStored(i, p, st, e, p', st');
        SameStoredKeepsRows(i, p, st, p');
    }
  }

  lemma LoggerKeepsRows(i: nat, p: Pipe, runs: Runs, st: Store, e: LoggerEvent, p': Pipe, runs': Runs)
    requires RowsInv(i, p, st) && LoggerStep(p, runs, e) == Some((p', runs'))
    ensures RowsInv(i, p', st)
  {
    hide RowsInv;
    SameStoredKeepsRows(i, p, st, p');
  }

  lemma ControlKeepsRows(i: nat, c: Client, st: Store, e: ControlEvent, c': Client, st': Store)
    requires RowsInv(i, c.pipe, st) && ControlStep(i, c, st, e) == Some((c', st'))
    ensures RowsInv(i, c'.pipe, st')
    ensures st'.rows == st.rows && st'.acked == st.acked && st'.skewed == st.skewed
  {
    ControlLeavesTable(i, c, st, e, c', st');
    ControlLeavesPipe(i, c, st, e, c', st');
    hide RowsInv, ControlStep;
    if c'.pipe != c.pipe {
      SameStoredKeepsRows(i, c.pipe, st, c'.pipe);
    }
    StoredPartsDecideRows(i, c'.pipe, st, st');
  }

  predicate SameTable(st: Store, st': Store) {
    st'.rows == st.rows && st'.acked == st.acked && st'.skewed == st.skewed
  }

  lemma FinalizeLeavesTable(i: nat, p: Pipe, runs: Runs, st: Store, runs': Runs, st': Store)
    requires runs.control.Finalizing? && FinalizeStep(i, p, runs, st) == Some((runs', st'))
    ensures SameTable(st, st')
  {
    hide GateStep;
  }

  lemma RunsLeaveTable(i: nat, p: Pipe, runs: Runs, st: Store, e: ControlEvent, runs': Runs, st': Store)
    requires RunsStep(i, p, runs, st, e) == Some((runs', st'))
    ensures SameTable(st, st')
  {
    hide FinalizeStep, BeginStep, FailStep;
    if e.Advance? {
      FinalizeLeavesTable(i, p, runs, st, runs', st');
    }
  }

  lemma ControlLeavesTable(i: nat, c: Client, st: Store, e: ControlEvent, c': Client, st': Store)
    requires ControlStep(i, c, st, e) == Some((c', st'))
    ensures SameTable(st, st')
  {
    hide RunsStep;
    if !e.Crash? && !(e.Advance? && !c.runs.control.Finalizing?) {
      RunsLeaveTable(i, c.pipe, c.runs, st, e, c'.runs, st');
    }
  }

  lemma StoredPartsDecideRows(i: nat, p: Pipe, st: Store, st': Store)
    requires RowsInv(i, p, st) && st'.rows == st.rows && st'.acked == st.acked
    ensures RowsInv(i, p, st')
  {
  }

  // ----------------------------------------------------------------- other clients

  /** Another client only appends and acknowledges rows of its own. */
  ghost predicate OthersAppend(j: nat, st: Store, st': Store) {
    && st.rows <= st'.rows && st.acked <= st'.acked
    && (forall a :: |st.rows| <= a < |st'.rows| ==> st'.rows[a].client == j)
    && (forall k :: |st.acked| <= k < |st'.acked| ==> |st.rows| <= st'.acked[k] < |st'.rows|)
  }

  lemma WorkerOnlyAppends(i: nat, p: Pipe, st: Store, e: WorkerEvent, p': Pipe, st': Store)
    requires WorkerStep(i, p, st, e) == Some((p', st'))
    ensures OthersAppend(i, st, st')
  {
  }

  lemma OthersKeepAcks(i: nat, j: nat, p: Pipe, st: Store, st': Store)
    requires i != j && Acknowledging(i, p, st.rows) && Dominating(i, p, st.rows) && OthersAppend(j, st, st')
    ensures Acknowledging(i, p, st'.rows) && Dominating(i, p, st'.rows)
  {
    forall k | 0 <= k < |p.rowAt| ensures AckedBy(i, p, st'.rows, k) {
      assert AckedBy(i, p, st.rows, k);
    }
    forall k, l | 0 <= k < l < |p.rowAt| ensures AckedEarlier(p, st'.rows, k, l) {
      assert AckedEarlier(p, st.rows, k, l);
    }
    forall a | Steady(p) && 0 <= a < |st'.rows| && st'.rows[a].client == i && 1 <= st'.rows[a].report.sequence <= |p.rowAt|
      ensures Outranked(p, st'.rows, a)
    {
      assert a < |st.rows| && Outranked(p, st.rows, a);
    }
  }

  lemma OthersKeepRows(i: nat, j: nat, p: Pipe, st: Store, st': Store)
    requires i != j && RowsInv(i, p, st) && OthersAppend(j, st, st')
    ensures RowsInv(i, p, st')
  {
    OthersKeepAcks(i, j, p, st, st');
    forall b | b in st'.acked && b !in st.acked ensures b < |st'.rows| && st'.rows[b].client == j {
      var k :| 0 <= k < |st'.acked| && st'.acked[k] == b;
      assert k >= |st.acked|;
    }
    forall k | 0 <= k < |p.rowAt| ensures p.rowAt[k] in st'.acked {
      assert p.rowAt[k] in st.acked;
    }
  }

  // ----------------------------------------------------------------- the table

  lemma UnskewedInOrder(rows: seq<Row>, more: seq<Row>, a: nat, b: nat)
    requires a < |rows| && b < |more| && SamePoint(rows[a].report, more[b].report) && rows[a].client != more[b].client
    ensures PointOf(more[b].report) in NewlySkewed(rows, more) || rows[a].ingestedAt <= more[b].ingestedAt
  {
  }

  lemma AppendRowsKeepsOrder(i: nat, st: Store, more: seq<Row>)
    requires TableInv(st) && forall b :: 0 <= b < |more| ==> more[b].client == i
    ensures TableInv(AppendRows(st, more))
  {
    var st' := AppendRows(st, more);
    forall a, b | 0 <= a < b < |st'.rows| && HandedOver(st', a, b) ensures st'.rows[a].ingestedAt <= st'.rows[b].ingestedAt {
      if b < |st.rows| {
        assert HandedOver(st, a, b);
      } else if a < |st.rows| {
        assert st'.rows[b] == more[b - |st.rows|];
        UnskewedInOrder(st.rows, more, a, b - |st.rows|);
      }
    }
  }

  lemma AckingKeepsTable(st: Store, from: nat, count: nat)
    requires TableInv(st) && from + count <= |st.rows|
    requires forall k :: 0 <= k < |st.acked| ==> st.acked[k] < from
    ensures TableInv(st.(acked := st.acked + Indices(from, count)))
  {
    var st' := st.(acked := st.acked + Indices(from, count));
    assert forall a, b :: 0 <= a < b < |st.rows| && HandedOver(st', a, b) ==> HandedOver(st, a, b);
  }

  lemma WorkerKeepsTable(i: nat, p: Pipe, st: Store, e: WorkerEvent, p': Pipe, st': Store)
    requires TableInv(st) && WorkerStep(i, p, st, e) == Some((p', st'))
    ensures TableInv(st')
  {
    match e {
      case Append(now) =>
        var more := RowsFor(i, p.worker.batch, Max(p.nextStamp, now));
        AppendRowsKeepsOrder(i, st, more);
        AckingKeepsTable(AppendRows(st, more), |st.rows|, |more|);
      case AppendError(now, committed) =>
        AppendRowsKeepsOrder(i, st, RowsFor(i, p.worker.batch[..committed], Max(p.nextStamp, now)));
      case _ =>
    }
  }
}
