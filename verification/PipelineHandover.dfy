/**
  Handing a run over from one writer to the next. The next owner stamps from its
  own clock on, so whether its later writes win is decided by how far the stored
  rows of the run are stamped ahead of that, when it takes the lock.
 */
module PipelineHandover {
  import opened Values
  import opened Metrics
  import opened Pipeline
  import opened PipelineCounts
  import opened PipelineOwnership
  import opened PipelineRows
  import opened PipelineTheorems
  import opened PipelineContinuations
  import opened WriteSide

  /** No other client's row of the run is stamped later than `limit`. */
  ghost predicate StampedUpTo(st: Store, i: nat, run: RunId, limit: int) {
    forall a :: 0 <= a < |st.rows| && st.rows[a].report.run == run && st.rows[a].client != i ==> st.rows[a].ingestedAt <= limit
  }

  // ------------------------------------------------------------ a writer's stamps

  /** The writer has started, stamps from `floor` on, and its rows from position `n` on are stamped so. */
  ghost predicate StampsFrom(i: nat, p: Pipe, rows: seq<Row>, n: nat, floor: int) {
    && !p.worker.Starting? && p.nextStamp >= floor
    && forall b :: n <= b < |rows| && rows[b].client == i ==> rows[b].ingestedAt >= floor
  }

  lemma WorkerStampsFrom(i: nat, p: Pipe, st: Store, e: WorkerEvent, p': Pipe, st': Store, n: nat, floor: int)
    requires StampsFrom(i, p, st.rows, n, floor) && WorkerStep(i, p, st, e) == Some((p', st'))
    ensures StampsFrom(i, p', st'.rows, n, floor)
  {
  }

  lemma StepStampsFrom(i: nat, c: Client, st: Store, e: Event, c': Client, st': Store, n: nat, floor: int)
    requires StampsFrom(i, c.pipe, st.rows, n, floor) && ClientStep(i, c, st, e) == Some((c', st'))
    ensures StampsFrom(i, c'.pipe, st'.rows, n, floor)
  {
    match e {
      case Logger(_, logger) =>
      case Work(_, work) => WorkerStampsFrom(i, c.pipe, st, work, c'.pipe, st', n, floor);
      case Command(_, command) =>
        ControlLeavesTable(i, c, st, command, c', st');
        ControlLeavesPipe(i, c, st, command, c', st');
    }
  }

  lemma ApplyStampsFrom(s: System, e: Event, s': System, i: nat, n: nat, floor: int)
    requires SystemInv(s) && i < |s.clients| && StampsFrom(i, s.clients[i].pipe, s.store.rows, n, floor) && Apply(s, e) == Some(s')
    ensures i < |s'.clients| && StampsFrom(i, s'.clients[i].pipe, s'.store.rows, n, floor)
  {
    if !e.OpenClient? {
      var j := e.client;
      assert MemberInv(j, s.clients[j], s.store);
      hide MemberInv, StoreInv, TableInv, ClientStep, KnownClients, Guarantee;
      if i == j {
        StepStampsFrom(i, s.clients[i], s.store, e, s'.clients[i], s'.store, n, floor);
      } else {
        MemberStep(j, s.clients[j], s.store, e, s'.clients[j], s'.store);
      }
    }
  }

  lemma {:induction false} RunStampsFrom(s: System, events: seq<Event>, s': System, i: nat, n: nat, floor: int)
    requires SystemInv(s) && i < |s.clients| && StampsFrom(i, s.clients[i].pipe, s.store.rows, n, floor) && Run(s, events) == Some(s')
    ensures i < |s'.clients| && StampsFrom(i, s'.clients[i].pipe, s'.store.rows, n, floor)
    decreases |events|
  {
    hide SystemInv, Apply, StampsFrom;
    if events != [] {
      var next := Apply(s, events[0]).value;
      ApplyKeepsInv(s, events[0], next);
      ApplyStampsFrom(s, events[0], next, i, n, floor);
      RunStampsFrom(next, events[1..], s', i, n, floor);
    }
  }

  /** Between two batches a writer's next stamp is not behind the clock that it read last. */
  predicate StampsKeepUp(p: Pipe) {
    p.worker.Starting? || p.worker.Writing? || !MayAppend(p.worker) || p.lastNow <= p.nextStamp
  }

  lemma WorkerKeepsUp(i: nat, p: Pipe, st: Store, e: WorkerEvent, p': Pipe, st': Store)
    requires StampsKeepUp(p) && WorkerStep(i, p, st, e) == Some((p', st'))
    ensures StampsKeepUp(p')
  {
  }

  lemma StepKeepsUp(i: nat, c: Client, st: Store, e: Event, c': Client, st': Store)
    requires StampsKeepUp(c.pipe) && ClientStep(i, c, st, e) == Some((c', st'))
    ensures StampsKeepUp(c'.pipe)
  {
    match e {
      case Logger(_, logger) =>
      case Work(_, work) => WorkerKeepsUp(i, c.pipe, st, work, c'.pipe, st');
      case Command(_, command) => ControlLeavesPipe(i, c, st, command, c', st');
    }
  }

  ghost predicate AllKeepUp(s: System) {
    forall i :: 0 <= i < |s.clients| ==> StampsKeepUp(s.clients[i].pipe)
  }

  lemma ApplyKeepsUp(s: System, e: Event, s': System)
    requires AllKeepUp(s) && Apply(s, e) == Some(s')
    ensures AllKeepUp(s')
  {
    hide ClientStep;
    if !e.OpenClient? {
      var j := e.client;
      StepKeepsUp(j, s.clients[j], s.store, e, s'.clients[j], s'.store);
    }
  }

  lemma {:induction false} RunKeepsUp(s: System, events: seq<Event>, s': System)
    requires AllKeepUp(s) && Run(s, events) == Some(s')
    ensures AllKeepUp(s')
    decreases |events|
  {
    hide Apply, AllKeepUp;
    if events != [] {
      var next := Apply(s, events[0]).value;
      ApplyKeepsUp(s, events[0], next);
      RunKeepsUp(next, events[1..], s');
    }
  }

  lemma ReachableKeepsUp(s: System)
    requires Reachable(s)
    ensures AllKeepUp(s)
  {
    var events :| Run(INITIAL, events) == Some(s);
    RunKeepsUp(INITIAL, events, s);
  }

  // ------------------------------------------------------------ while the lock is held

  /** An active-run object that lost its lock never gets it back: a new lock comes with a new object. */
  lemma ControlNeverRegains(i: nat, c: Client, st: Store, e: ControlEvent, c': Client, st': Store, run: RunId, o: nat)
    requires ControlStep(i, c, st, e) == Some((c', st')) && o < |c.runs.objs| && Holds(st', i, run, o)
    ensures Holds(st, i, run, o)
  {
    if e.Crash? || (e.Advance? && !c.runs.control.Finalizing?) {
      hide RunsStep;
    } else {
      var (runs', _) := RunsStep(i, c.pipe, c.runs, st, e).value;
      hide ControlStep;
      RunsNeverRegain(i, c.pipe, c.runs, st, e, runs', st', run, o);
    }
  }

  lemma RunsNeverRegain(i: nat, p: Pipe, runs: Runs, st: Store, e: ControlEvent, runs': Runs, st': Store, run: RunId, o: nat)
    requires RunsStep(i, p, runs, st, e) == Some((runs', st')) && o < |runs.objs| && Holds(st', i, run, o)
    ensures Holds(st, i, run, o)
  {
    if e.Acquire? {
      hide FinalizeStep;
    } else {
      hide GateStep, BeginStep, Summaries, AcquireStep;
    }
  }

  lemma ControlKeepsObjects(i: nat, c: Client, st: Store, e: ControlEvent, c': Client, st': Store)
    requires ControlStep(i, c, st, e) == Some((c', st'))
    ensures |c.runs.objs| <= |c'.runs.objs|
  {
    hide StoreStep;
    if e.Advance? && c.runs.control.Finalizing? && InStore(c.runs.control.phase) {
      StorePhaseKeepsObjects(i, c.runs, st, c'.runs, st');
    }
  }

  lemma StorePhaseKeepsObjects(i: nat, runs: Runs, st: Store, runs': Runs, st': Store)
    requires runs.control.Finalizing? && StoreStep(i, runs, st) == Some((runs', st'))
    ensures runs'.objs == runs.objs
  {
    hide Summaries;
  }

  lemma StepNeverRegains(i: nat, c: Client, st: Store, e: Event, c': Client, st': Store, run: RunId, o: nat)
    requires ClientStep(i, c, st, e) == Some((c', st')) && o < |c.runs.objs|
    ensures o < |c'.runs.objs| && (Holds(st', i, run, o) ==> Holds(st, i, run, o))
  {
    match e {
      case Logger(_, logger) =>
      case Work(_, work) => hide Max;
      case Command(_, command) =>
        ControlKeepsObjects(i, c, st, command, c', st');
        hide ControlStep;
        if Holds(st', i, run, o) {
          ControlNeverRegains(i, c, st, command, c', st', run, o);
        }
    }
  }

  /** While the object holds the lock, only its client stores rows of the run. */
  lemma ApplyWhileHeld(s: System, e: Event, s': System, i: nat, run: RunId, o: nat)
    requires SystemInv(s) && i < |s.clients| && o < |s.clients[i].runs.objs| && Apply(s, e) == Some(s')
    ensures i < |s'.clients| && o < |s'.clients[i].runs.objs| && s.store.rows <= s'.store.rows
    ensures Holds(s'.store, i, run, o) ==> Holds(s.store, i, run, o)
    ensures Holds(s.store, i, run, o) ==>
              forall b :: |s.store.rows| <= b < |s'.store.rows| && s'.store.rows[b].report.run == run ==> s'.store.rows[b].client == i
  {
    if !e.OpenClient? {
      var j := e.client;
      assert MemberInv(j, s.clients[j], s.store);
      hide MemberInv, StoreInv, TableInv, ClientStep, KnownClients;
      MemberStep(j, s.clients[j], s.store, e, s'.clients[j], s'.store);
      if i == j {
        StepNeverRegains(i, s.clients[i], s.store, e, s'.clients[i], s'.store, run, o);
      }
    }
  }

  /** What a run of events under one lock leaves in the table. */
  ghost predicate OnlyOwn(rows: seq<Row>, rows': seq<Row>, i: nat, run: RunId) {
    rows <= rows' && forall b :: |rows| <= b < |rows'| && rows'[b].report.run == run ==> rows'[b].client == i
  }

  lemma {:induction false} RunWhileHeld(s: System, events: seq<Event>, s': System, i: nat, run: RunId, o: nat)
    requires SystemInv(s) && i < |s.clients| && o < |s.clients[i].runs.objs| && Run(s, events) == Some(s')
    ensures s.store.rows <= s'.store.rows
    ensures Holds(s'.store, i, run, o) ==> Holds(s.store, i, run, o) && OnlyOwn(s.store.rows, s'.store.rows, i, run)
    decreases |events|
  {
    hide SystemInv, Apply, Holds;
    if events != [] {
      var next := Apply(s, events[0]).value;
      ApplyKeepsInv(s, events[0], next);
      ApplyWhileHeld(s, events[0], next, i, run, o);
      RunWhileHeld(next, events[1..], s', i, run, o);
    }
  }

  // ------------------------------------------------------------ points stamped out of order

  /** Row `b` is a later write of the same point by another client, stamped earlier. */
  predicate Overtaken(rows: seq<Row>, a: nat, b: nat)
    requires a < b < |rows|
  {
    SamePoint(rows[a].report, rows[b].report) && rows[a].client != rows[b].client && rows[b].ingestedAt < rows[a].ingestedAt
  }

  /** A later write of the point, at position `n` or after, is overtaken by an earlier one. */
  ghost predicate OvertakenFrom(rows: seq<Row>, n: nat, point: MetricPoint) {
    exists a: nat, b: nat :: a < b < |rows| && n <= b && PointOf(rows[b].report) == point && Overtaken(rows, a, b)
  }

  lemma WorkerSkews(i: nat, p: Pipe, st: Store, e: WorkerEvent, p': Pipe, st': Store, point: MetricPoint)
    requires WorkerStep(i, p, st, e) == Some((p', st')) && point in st'.skewed && point !in st.skewed
    ensures OvertakenFrom(st'.rows, |st.rows|, point)
  {
    var more := st'.rows[|st.rows|..];
    assert st'.rows == st.rows + more;
    match e {
      case Append(now) =>
        assert st'.skewed == st.skewed + NewlySkewed(st.rows, RowsFor(i, p.worker.batch, Max(p.nextStamp, now)));
        SkewedIsOvertaken(st.rows, RowsFor(i, p.worker.batch, Max(p.nextStamp, now)), point);
      case AppendError(now, committed) =>
        SkewedIsOvertaken(st.rows, RowsFor(i, p.worker.batch[..committed], Max(p.nextStamp, now)), point);
      case _ =>
    }
  }

  lemma SkewedIsOvertaken(rows: seq<Row>, more: seq<Row>, point: MetricPoint)
    requires point in NewlySkewed(rows, more)
    ensures OvertakenFrom(rows + more, |rows|, point)
  {
    var b, a :| 0 <= b < |more| && 0 <= a < |rows| && SamePoint(rows[a].report, more[b].report) && rows[a].client != more[b].client
                && more[b].ingestedAt < rows[a].ingestedAt && PointOf(more[b].report) == point;
    assert Overtaken(rows + more, a, |rows| + b);
  }

  lemma StepSkews(i: nat, c: Client, st: Store, e: Event, c': Client, st': Store, point: MetricPoint)
    requires ClientStep(i, c, st, e) == Some((c', st')) && point in st'.skewed && point !in st.skewed
    ensures OvertakenFrom(st'.rows, |st.rows|, point)
  {
    match e {
      case Logger(_, logger) =>
      case Work(_, work) => WorkerSkews(i, c.pipe, st, work, c'.pipe, st', point);
      case Command(_, command) => ControlLeavesTable(i, c, st, command, c', st');
    }
  }

  lemma {:induction false} RunSkews(s: System, events: seq<Event>, s': System, point: MetricPoint)
    requires SystemInv(s) && Run(s, events) == Some(s') && point in s'.store.skewed && point !in s.store.skewed
    ensures s.store.rows <= s'.store.rows && OvertakenFrom(s'.store.rows, |s.store.rows|, point)
    decreases |events|
  {
    hide ClientStep, SystemInv, OvertakenFrom;
    assert events != [];
    var e, next := events[0], Apply(s, events[0]).value;
    RunAfter(s, events, s');
    ApplyKeepsInv(s, e, next);
    RowsGrow(s, e, next);
    RunRowsGrow(next, events[1..], s');
    if point in next.store.skewed {
      assert !e.OpenClient?;
      StepSkews(e.client, s.clients[e.client], s.store, e, next.clients[e.client], next.store, point);
      OvertakenStays(next.store.rows, s'.store.rows, |s.store.rows|, |s.store.rows|, point);
    } else {
      RunSkews(next, events[1..], s', point);
      OvertakenStays(s'.store.rows, s'.store.rows, |next.store.rows|, |s.store.rows|, point);
    }
  }

  lemma OvertakenStays(rows: seq<Row>, rows': seq<Row>, n: nat, m: nat, point: MetricPoint)
    requires OvertakenFrom(rows, n, point) && rows <= rows' && m <= n
    ensures OvertakenFrom(rows', m, point)
  {
    var a: nat, b: nat :| a < b < |rows| && n <= b && PointOf(rows[b].report) == point && Overtaken(rows, a, b);
    assert rows'[a] == rows[a] && rows'[b] == rows[b];
    assert Overtaken(rows', a, b);
  }

  lemma RowsGrow(s: System, e: Event, s': System)
    requires SystemInv(s) && Apply(s, e) == Some(s')
    ensures s.store.rows <= s'.store.rows
  {
    if !e.OpenClient? {
      var j := e.client;
      assert MemberInv(j, s.clients[j], s.store);
      hide MemberInv, StoreInv, TableInv, ClientStep, KnownClients, Guarantee;
      MemberStep(j, s.clients[j], s.store, e, s'.clients[j], s'.store);
    }
  }

  lemma {:induction false} RunRowsGrow(s: System, events: seq<Event>, s': System)
    requires SystemInv(s) && Run(s, events) == Some(s')
    ensures s.store.rows <= s'.store.rows
    decreases |events|
  {
    hide SystemInv, Apply;
    if events != [] {
      var next := Apply(s, events[0]).value;
      ApplyKeepsInv(s, events[0], next);
      RowsGrow(s, events[0], next);
      RunRowsGrow(next, events[1..], s');
    }
  }

  // ------------------------------------------------------------ handing over

  /** No row that client `i` stored since `s` is stamped before another client's earlier row of the same point. */
  ghost predicate NoneOvertaken(s: System, s': System, i: nat, run: RunId) {
    forall a: nat, b: nat :: a < |s.store.rows| <= b < |s'.store.rows| && s'.store.rows[b].client == i && s'.store.rows[b].report.run == run ==>
      !Overtaken(s'.store.rows, a, b)
  }

  /**
    Handing over safely. If no row of the run is stamped later than the next
    owner would stamp when it has the lock, no row that it stores from then on is
    stamped before an earlier owner's; and as long as it keeps the lock, every
    row of the run is its own, so no point of the run gets out of order.
   */
  lemma SafeHandOver(s: System, s': System, i: nat, run: RunId, o: nat)
    requires Reachable(s) && i < |s.clients| && Holds(s.store, i, run, o) && !s.clients[i].pipe.worker.Starting?
    requires StampedUpTo(s.store, i, run, s.clients[i].pipe.nextStamp) && Leads(s, s')
    ensures s.store.rows <= s'.store.rows && NoneOvertaken(s, s', i, run)
    ensures Holds(s'.store, i, run, o) ==> OnlyOwn(s.store.rows, s'.store.rows, i, run)
    ensures Holds(s'.store, i, run, o) ==> forall key, step :: Unskewed(s, run, key, step) ==> Unskewed(s', run, key, step)
  {
    ReachableInv(s);
    HolderInRange(s, i, run, o);
    var floor := s.clients[i].pipe.nextStamp;
    var events :| Run(s, events) == Some(s');
    hide SystemInv, Run, Leads, Reachable, Holds;
    RunStampsFrom(s, events, s', i, |s.store.rows|, floor);
    RunWhileHeld(s, events, s', i, run, o);
    assert forall a :: 0 <= a < |s.store.rows| ==> s'.store.rows[a] == s.store.rows[a];
    if Holds(s'.store, i, run, o) {
      forall key, step | Unskewed(s, run, key, step) ensures Unskewed(s', run, key, step) {
        if !Unskewed(s', run, key, step) {
          RunSkews(s, events, s', MetricPoint(run, key, step));
          OwnAreNotOvertaken(s, s', i, run, key, step);
        }
      }
    }
  }

  lemma OwnAreNotOvertaken(s: System, s': System, i: nat, run: RunId, key: MetricKey, step: int)
    requires OnlyOwn(s.store.rows, s'.store.rows, i, run) && NoneOvertaken(s, s', i, run)
    ensures !OvertakenFrom(s'.store.rows, |s.store.rows|, MetricPoint(run, key, step))
  {
    forall a: nat, b: nat | a < b < |s'.store.rows| && |s.store.rows| <= b && PointOf(s'.store.rows[b].report) == MetricPoint(run, key, step)
      ensures !Overtaken(s'.store.rows, a, b)
    {
      assert s'.store.rows[b].client == i;
      if a >= |s.store.rows| && s'.store.rows[a].report.run == run {
        assert s'.store.rows[a].client == i;
      }
    }
  }

  lemma HolderInRange(s: System, i: nat, run: RunId, o: nat)
    requires SystemInv(s) && i < |s.clients| && Holds(s.store, i, run, o)
    ensures o < |s.clients[i].runs.objs|
  {
    assert MemberInv(i, s.clients[i], s.store);
    assert OwnedBy(s.store, i, run);
  }

  /** A client at rest that holds the run and can log to it. */
  predicate AtRest(c: Client, o: nat, run: RunId) {
    CanLog(c, o, run) && c.pipe.worker.Receiving? && c.pipe.reporter.queue == []
  }

  /** A client at rest stores one more report of the run at a time of its choice. */
  lemma NextWrite(s: System, i: nat, run: RunId, o: nat, key: MetricKey, step: int, value: Value, now: int) returns (s': System)
    requires SystemInv(s) && i < |s.clients| && AtRest(s.clients[i], o, run)
    ensures Leads(s, s') && |s'.clients| == |s.clients|
    ensures var (p, report) := (s.clients[i].pipe, NextReport(s.clients[i].pipe, run, key, step, value, now));
            && s'.store.rows == s.store.rows + [Row(i, report, Max(p.nextStamp, now))]
            && s'.store.acked == s.store.acked + [|s.store.rows|]
            && s'.clients[i].pipe.monotone == (p.monotone && p.lastNow <= now)
  {
    var c, p, st := s.clients[i], s.clients[i].pipe, s.store;
    var ready := Collected(Enqueued(p, NextReport(p, run, key, step, value, now)));
    LeadsNowhere(s);
    assert s.clients[i := c] == s.clients;
    OneRowStored(i, p, st, run, key, step, value, now);
    assert Persisted(i, ready, st, now).monotone == (p.monotone && p.lastNow <= now);
    hide Leads, SystemInv, Persisted, Appended, Collected;
    StoresOne(s, s.clients, i, c, st, o, run, key, step, value, now);
    s' := With(s.clients, i, c.(pipe := Persisted(i, ready, st, now)), Appended(i, ready, st, now).1);
    assert s'.clients[i].pipe == Persisted(i, ready, st, now);
  }

  /**
    The bound is tight: any earlier row that is stamped later lets a next write
    of its point lose. The clock need not go back for that.
   */
  lemma LateRowWins(s: System, i: nat, run: RunId, o: nat, a: nat) returns (s': System)
    requires Reachable(s) && i < |s.clients| && AtRest(s.clients[i], o, run)
    requires a < |s.store.rows| && s.store.rows[a].report.run == run && s.store.rows[a].client != i
    requires s.store.rows[a].ingestedAt > s.clients[i].pipe.nextStamp
    ensures Leads(s, s') && i < |s'.clients| && !NoneOvertaken(s, s', i, run)
    ensures var point := PointOf(s.store.rows[a].report);
            AcksInTable(s'.store) && !ReadsLastWrite(s'.store, point.run, point.key, point.step)
    ensures s'.clients[i].pipe.monotone == s.clients[i].pipe.monotone
  {
    ReachableInv(s);
    ReachableKeepsUp(s);
    assert TableInv(s.store);
    hide Leads, SystemInv, Reachable, ReadsLastWrite;
    var report, b := s.store.rows[a].report, |s.store.rows|;
    s' := NextWrite(s, i, run, o, report.key, report.step, report.value, s.clients[i].pipe.nextStamp);
    assert Overtaken(s'.store.rows, a, b);
    EarlierStampIsNotRead(s'.store, a, b);
  }

  /** Whatever happens from here on, no later write of the client is stamped before an earlier owner's write. */
  ghost predicate NeverOvertaken(s: System, i: nat, run: RunId) {
    forall s' :: Leads(s, s') ==> NoneOvertaken(s, s', i, run)
  }

  /**
    The exact condition, which the next owner can check when it has the lock: no
    stored row of the run is stamped later than it would stamp itself.
   */
  lemma HandOverIsSafeExactly(s: System, i: nat, run: RunId, o: nat)
    requires Reachable(s) && i < |s.clients| && Holds(s.store, i, run, o) && AtRest(s.clients[i], o, run)
    ensures NeverOvertaken(s, i, run) <==> StampedUpTo(s.store, i, run, s.clients[i].pipe.nextStamp)
  {
    hide Leads, Reachable, NoneOvertaken, ReadsLastWrite, Unskewed, OnlyOwn;
    if StampedUpTo(s.store, i, run, s.clients[i].pipe.nextStamp) {
      forall s' | Leads(s, s') ensures NoneOvertaken(s, s', i, run) {
        SafeHandOver(s, s', i, run, o);
      }
    } else {
      var a :| 0 <= a < |s.store.rows| && s.store.rows[a].report.run == run && s.store.rows[a].client != i
               && s.store.rows[a].ingestedAt > s.clients[i].pipe.nextStamp;
      var s' := LateRowWins(s, i, run, o, a);
    }
  }
}
