/**
  Runs of the system that show where the promises stop: concrete reachable
  states for every condition that the theorems about the write path carry.
 */
module PipelineExamples {
  import opened Values
  import opened Metrics
  import opened Pipeline
  import opened PipelineTheorems
  import opened WriteSide
  import opened PipelineContinuations

  // ------------------------------------------------------------ two clients

  /** Two clients; `mine` is number `i`. */
  function Pair(i: nat, mine: Client, other: Client, st: Store): System {
    System(if i == 0 then [mine, other] else [other, mine], st)
  }

  lemma PairWith(i: nat, mine: Client, other: Client, st: Store)
    requires i < 2
    ensures With([other, other], i, mine, st) == Pair(i, mine, other, st)
  {
  }

  /** One step of client `i`, the other one unchanged. */
  lemma Move(i: nat, c: Client, other: Client, st: Store, e: Event, c': Client, st': Store)
    requires i < 2 && Reachable(Pair(i, c, other, st)) && !e.OpenClient? && e.client == i && c.alive
    requires ClientStep(i, c, st, e) == Some((c', st'))
    ensures Reachable(Pair(i, c', other, st'))
  {
    hide ClientStep, Leads;
    PairWith(i, c, other, st);
    PairWith(i, c', other, st');
    Moves(INITIAL, [other, other], i, c, st, e, c', st');
  }

  /** A run of worker steps of client `i`. */
  lemma Work(i: nat, c: Client, other: Client, st: Store, events: seq<WorkerEvent>, p': Pipe, st': Store)
    requires i < 2 && Reachable(Pair(i, c, other, st)) && c.alive && WorkerRun(i, c.pipe, st, events) == Some((p', st'))
    ensures Reachable(Pair(i, c.(pipe := p'), other, st'))
  {
    hide WorkerStep, Leads;
    PairWith(i, c, other, st);
    PairWith(i, c.(pipe := p'), other, st');
    Works(INITIAL, [other, other], i, c, st, events, p', st');
  }

  /** A client with a started worker, an empty queue and no runs. */
  function Started(now: int): Client {
    var c := NewClient(10);
    c.(pipe := c.pipe.(worker := Receiving, nextStamp := now, lastNow := now))
  }

  function OneRun(run: RunId, control: Control): Runs {
    Runs([ActiveRun(run, Open, true, Free)], map[run := 0], control, false)
  }

  function Owned(run: RunId, i: nat): Store {
    EMPTY_STORE.(status := map[run := Running], locks := map[run := Owner(i, 0)])
  }

  lemma OpenedClients()
    ensures Reachable(Pair(0, NewClient(10), NewClient(10), EMPTY_STORE))
  {
    assert Run(INITIAL, []) == Some(INITIAL);
    var one := System([NewClient(10)], EMPTY_STORE);
    assert INITIAL.clients + [NewClient(10)] == one.clients;
    Then(INITIAL, INITIAL, OpenClient(10), one);
    assert one.clients + [NewClient(10)] == [NewClient(10), NewClient(10)];
    Then(INITIAL, one, OpenClient(10), Pair(0, NewClient(10), NewClient(10), EMPTY_STORE));
  }

  lemma StartedClients(now0: int, now1: int)
    ensures Reachable(Pair(0, Started(now0), Started(now1), EMPTY_STORE))
  {
    OpenedClients();
    Move(0, NewClient(10), NewClient(10), EMPTY_STORE, Event.Work(0, Start(now0)), Started(now0), EMPTY_STORE);
    Move(1, NewClient(10), Started(now0), EMPTY_STORE, Event.Work(1, Start(now1)), Started(now1), EMPTY_STORE);
  }

  /** The first client has just created a run. */
  lemma CreatedRun(run: RunId, now0: int, now1: int)
    ensures Reachable(Pair(0, Started(now0).(runs := OneRun(run, Idle)), Started(now1), Owned(run, 0)))
  {
    hide Leads;
    StartedClients(now0, now1);
    var c1, other := Started(now0), Started(now1);
    var c2 := c1.(runs := c1.runs.(control := CreateAcquire(run)));
    Move(0, c1, other, EMPTY_STORE, Command(0, BeginCreate(run)), c2, EMPTY_STORE);
    var c3 := c1.(runs := Runs([ActiveRun(run, Open, false, Free)], map[run := 0], CreateInsert(run, 0), false));
    var st3 := EMPTY_STORE.(locks := map[run := Owner(0, 0)]);
    var got := Acquiring(0, c2.runs, EMPTY_STORE, run).value;
    assert got.0.active == map[run := 0] && got.0.objs == c3.runs.objs && got.1.locks == map[run := Owner(0, 0)];
    Move(0, c2, other, EMPTY_STORE, Command(0, Acquire), c3, st3);
    var c4 := c3.(runs := c3.runs.(control := Idle));
    assert st3.status[run := Running] == map[run := Running];
    Move(0, c3, other, st3, Command(0, InsertRun), c4, Owned(run, 0));
    var c5 := c4.(runs := OneRun(run, Idle));
    assert c4.runs.objs[0 := ActiveRun(run, Open, true, Free)] == c5.runs.objs;
    Move(0, c4, other, Owned(run, 0), Command(0, RunHandle(run)), c5, Owned(run, 0));
  }

  // ------------------------------------------------------------ building blocks

  /** A logging thread reports one point. */
  lemma Logs(i: nat, c: Client, other: Client, st: Store, run: RunId, key: MetricKey, step: int, value: Value, now: int)
    requires i < 2 && Reachable(Pair(i, c, other, st)) && CanLog(c, 0, run)
    ensures Reachable(Pair(i, c.(pipe := Enqueued(c.pipe, NextReport(c.pipe, run, key, step, value, now))), other, st))
  {
    hide Leads;
    var c' := c.(pipe := Enqueued(c.pipe, NextReport(c.pipe, run, key, step, value, now)));
    PairWith(i, c, other, st);
    PairWith(i, c', other, st);
    LogsOne(INITIAL, [other, other], i, c, st, 0, run, key, step, value, now);
  }

  /** The worker collects everything queued. */
  lemma Collects(i: nat, c: Client, other: Client, st: Store)
    requires i < 2 && c.alive && c.pipe.worker.Receiving? && c.pipe.reporter.queue != []
    requires Reachable(Pair(i, c, other, st))
    ensures Reachable(Pair(i, c.(pipe := Collected(c.pipe)), other, st))
  {
    hide Leads;
    var events := CollectedIsSteps(i, c.pipe, st);
    Work(i, c, other, st, events, Collected(c.pipe), st);
  }

  /** The worker stores its batch. */
  lemma Stores(i: nat, c: Client, other: Client, st: Store, now: int)
    requires i < 2 && c.alive && c.pipe.worker.Writing?
    requires Reachable(Pair(i, c, other, st))
    ensures Reachable(Pair(i, c.(pipe := Persisted(i, c.pipe, st, now)), other, Appended(i, c.pipe, st, now).1))
  {
    hide Leads, Persisted, Appended;
    var events := PersistedIsSteps(i, c.pipe, st, now);
    Work(i, c, other, st, events, Persisted(i, c.pipe, st, now), Appended(i, c.pipe, st, now).1);
  }

  /** One failed append. */
  lemma Fails(i: nat, c: Client, other: Client, st: Store, now: int, committed: nat)
    requires i < 2 && c.alive && c.pipe.worker.Writing? && committed <= |c.pipe.worker.batch|
    requires Reachable(Pair(i, c, other, st))
    ensures Reachable(Pair(i, c.(pipe := AppendFailed(i, c.pipe, st, now, committed).0), other, AppendFailed(i, c.pipe, st, now, committed).1))
  {
    hide Leads, AppendFailed;
    var (p1, st1) := AppendFailed(i, c.pipe, st, now, committed);
    Move(i, c, other, st, Event.Work(i, AppendError(now, committed)), c.(pipe := p1), st1);
  }

  // ------------------------------------------------------------ shutdown and late reports

  /** A shutdown whose drain is done, with the sender still in its slot. */
  lemma ShutdownBegun(run: RunId)
    ensures Reachable(Pair(0, Started(0).(runs := OneRun(run, ShutdownTake(true))), Started(0), Owned(run, 0)))
  {
    hide Leads;
    CreatedRun(run, 0, 0);
    var c, other, st := Started(0), Started(0), Owned(run, 0);
    Move(0, c.(runs := OneRun(run, Idle)), other, st, Command(0, BeginShutdown), c.(runs := OneRun(run, ShutdownDrain(0))), st);
    Move(0, c.(runs := OneRun(run, ShutdownDrain(0))), other, st, Command(0, Advance), c.(runs := OneRun(run, ShutdownCheck)), st);
    Move(0, c.(runs := OneRun(run, ShutdownCheck)), other, st, Command(0, Advance), c.(runs := OneRun(run, ShutdownTake(true))), st);
  }

  function Lost(p: Pipe): Pipe {
    p.(worker := Exited(true, p.reporter.queue),
       reporter := p.reporter.(queue := [], senderOpen := false, writer := WriterFailed))
  }

  /** Everything queued is lost, between the drain of a shutdown and its end. */
  lemma QueueIsLost(run: RunId, c: Client, other: Client, st: Store)
    requires Reachable(Pair(0, c, other, st)) && c.alive && c.runs == OneRun(run, ShutdownTake(true))
    requires c.pipe.sender.Unlocked? && c.pipe.worker.Receiving? && 0 < |c.pipe.reporter.queue| <= BATCH_MAX_REPORTS
    ensures Reachable(Pair(0, c.(pipe := Lost(c.pipe), runs := OneRun(run, ShutdownJoin(true))), other, st))
  {
    hide Leads;
    var batch := c.pipe.reporter.queue;
    var c1 := c.(pipe := c.pipe.(reporter := c.pipe.reporter.(senderOpen := false)), runs := OneRun(run, ShutdownJoin(true)));
    Move(0, c, other, st, Command(0, Advance), c1, st);
    Collects(0, c1, other, st);
    assert batch[..|batch|] == batch && batch[|batch|..] == [];
    var p2 := Collected(c1.pipe);
    var events := GivesUp(0, p2, st);
    Work(0, c1.(pipe := p2), other, st, events, GaveUp(p2), st);
  }

  /**
    A shutdown can report success, with the writer marked closed, although a
    report that was accepted after its drain was never stored and is still
    counted as pending.
   */
  lemma ShutdownCanLoseReports()
    ensures exists s :: Reachable(s) && |s.clients| == 2 && s.clients[0].runs.shutdown
              && s.clients[0].pipe.reporter.writer.WriterClosed? && s.clients[0].pipe.reporter.pending == 1
              && |s.clients[0].pipe.accepted| == 1 && s.store.rows == []
  {
    hide Leads;
    var run, other, st := "r", Started(0), Owned("r", 0);
    ShutdownBegun(run);
    var c1 := Started(0).(runs := OneRun(run, ShutdownTake(true)));
    Logs(0, c1, other, st, run, "k", 0, Finite(1.0), 0);
    var c2 := c1.(pipe := Enqueued(c1.pipe, NextReport(c1.pipe, run, "k", 0, Finite(1.0), 0)));
    QueueIsLost(run, c2, other, st);
    var lost := Lost(c2.pipe);
    var c3 := c2.(pipe := lost, runs := OneRun(run, ShutdownJoin(true)));
    var c4 := c3.(pipe := lost.(reporter := lost.reporter.(writer := WriterClosed)), runs := c3.runs.(control := Idle, active := map[], shutdown := true));
    Move(0, c3, other, st, Command(0, Advance), c4, UnlockAll(st, 0));
    var s := Pair(0, c4, other, UnlockAll(st, 0));
    assert Reachable(s) && s.clients[0] == c4;
  }

  // ------------------------------------------------------------ a lock taken too late

  function Finalizes(run: RunId, admission: Admission, phase: Phase): Runs {
    Runs([ActiveRun(run, admission, true, Free)], map[run := 0], Finalizing(run, 0, Finished, phase), false)
  }

  function Summarized(run: RunId): Store {
    Owned(run, 0).(aggregates := map[run := Summaries([], run)])
  }

  function Sealed(run: RunId): Store {
    Summarized(run).(status := map[run := Finished], sealedBy := map[run := 0])
  }

  /** `finalize_run` of a run without points, up to the update of its status. */
  lemma FinalizedUpToMark(run: RunId, other: Client)
    requires Reachable(Pair(0, Started(0).(runs := OneRun(run, Idle)), other, Owned(run, 0)))
    ensures Reachable(Pair(0, Started(0).(runs := Finalizes(run, Closing, MarkTerminal)), other, Summarized(run)))
  {
    hide Leads, Summaries;
    var c, st := Started(0), Owned(run, 0);
    var ajar, closing := ActiveRun(run, Open, true, Free), ActiveRun(run, Closing, true, Free);
    Move(0, c.(runs := OneRun(run, Idle)), other, st, Command(0, BeginFinalize(run, Finished)), c.(runs := OneRun(run, FinalizeAcquire(run, Finished))), st);
    Move(0, c.(runs := OneRun(run, FinalizeAcquire(run, Finished))), other, st, Command(0, Acquire), c.(runs := Finalizes(run, Open, Close)), st);
    assert [ajar][0 := closing] == [closing];
    Move(0, c.(runs := Finalizes(run, Open, Close)), other, st, Command(0, Advance), c.(runs := Finalizes(run, Closing, TakeBarrier)), st);
    Move(0, c.(runs := Finalizes(run, Closing, TakeBarrier)), other, st, Command(0, Advance), c.(runs := Finalizes(run, Closing, Drain(0))), st);
    Move(0, c.(runs := Finalizes(run, Closing, Drain(0))), other, st, Command(0, Advance), c.(runs := Finalizes(run, Closing, Check(0))), st);
    Move(0, c.(runs := Finalizes(run, Closing, Check(0))), other, st, Command(0, Advance), c.(runs := Finalizes(run, Closing, DeleteAggregates)), st);
    assert st.aggregates - {run} == st.aggregates;
    Move(0, c.(runs := Finalizes(run, Closing, DeleteAggregates)), other, st, Command(0, Advance), c.(runs := Finalizes(run, Closing, InsertAggregates)), st);
    assert st.aggregates[run := Summaries([], run)] == Summarized(run).aggregates;
    Move(0, c.(runs := Finalizes(run, Closing, InsertAggregates)), other, st, Command(0, Advance), c.(runs := Finalizes(run, Closing, MarkTerminal)), Summarized(run));
  }

  /** ... and up to the closing of its gate for good. */
  lemma FinalizedUpToSeal(run: RunId, other: Client)
    requires Reachable(Pair(0, Started(0).(runs := OneRun(run, Idle)), other, Owned(run, 0)))
    ensures Reachable(Pair(0, Started(0).(runs := Finalizes(run, Terminal, Release)), other, Sealed(run)))
  {
    FinalizedUpToMark(run, other);
    hide Leads, Summaries;
    var c, st := Started(0), Summarized(run);
    assert st.status[run := Finished] == map[run := Finished] && st.sealedBy[run := 0] == map[run := 0];
    Move(0, c.(runs := Finalizes(run, Closing, MarkTerminal)), other, st, Command(0, Advance), c.(runs := Finalizes(run, Closing, Seal)), Sealed(run));
    assert [ActiveRun(run, Closing, true, Free)][0 := ActiveRun(run, Terminal, true, Free)] == [ActiveRun(run, Terminal, true, Free)];
    Move(0, c.(runs := Finalizes(run, Closing, Seal)), other, Sealed(run), Command(0, Advance), c.(runs := Finalizes(run, Terminal, Release)), Sealed(run));
  }

  /** ... and up to the release of its lock. */
  lemma FinalizedUpToRelease(run: RunId, other: Client)
    requires Reachable(Pair(0, Started(0).(runs := OneRun(run, Idle)), other, Owned(run, 0)))
    ensures Reachable(Pair(0, Started(0).(runs := Finalizes(run, Terminal, Forget)), other, Sealed(run).(locks := map[])))
  {
    FinalizedUpToSeal(run, other);
    hide Leads, Summaries;
    var c, st := Started(0), Sealed(run);
    assert Unlock(st, 0, run).locks == map[];
    Move(0, c.(runs := Finalizes(run, Terminal, Release)), other, st, Command(0, Advance), c.(runs := Finalizes(run, Terminal, Forget)), st.(locks := map[]));
  }

  /** A client that read the status of a run takes its free lock and publishes a handle. */
  lemma Resumes(i: nat, c: Client, other: Client, st: Store, run: RunId)
    requires i < 2 && Reachable(Pair(i, c, other, st)) && c.alive && run !in st.locks
    requires c.runs == Runs([], map[], ResumeAcquire(run), false)
    ensures Reachable(Pair(i, c.(runs := OneRun(run, Idle)), other, Relocked(st, i, run)))
  {
    hide Leads;
    var got := Acquiring(i, c.runs, st, run).value;
    var mid := Runs([ActiveRun(run, Open, false, Free)], map[run := 0], Idle, false);
    assert got.0.objs == mid.objs && got.0.active == mid.active;
    Move(i, c, other, st, Command(i, Acquire), c.(runs := mid), Relocked(st, i, run));
    assert mid.objs[0 := ActiveRun(run, Open, true, Free)] == OneRun(run, Idle).objs;
    Move(i, c.(runs := mid), other, Relocked(st, i, run), Command(i, RunHandle(run)), c.(runs := OneRun(run, Idle)), Relocked(st, i, run));
  }

  function Relocked(st: Store, i: nat, run: RunId): Store {
    st.(locks := st.locks[run := Owner(i, 0)], raced := if IsTerminal(st, run) then st.raced + {run} else st.raced)
  }

  /** One report, from the log call to its row. */
  lemma LogsAndStores(i: nat, c: Client, other: Client, st: Store, run: RunId, key: MetricKey, step: int, value: Value, now: int)
    requires i < 2 && Reachable(Pair(i, c, other, st)) && CanLog(c, 0, run) && c.pipe.worker.Receiving? && c.pipe.reporter.queue == []
    ensures var ready := Collected(Enqueued(c.pipe, NextReport(c.pipe, run, key, step, value, now)));
            Reachable(Pair(i, c.(pipe := Persisted(i, ready, st, now)), other, Appended(i, ready, st, now).1))
  {
    hide Leads, Persisted, Appended;
    var ready := Collected(Enqueued(c.pipe, NextReport(c.pipe, run, key, step, value, now)));
    PairWith(i, c, other, st);
    PairWith(i, c.(pipe := Persisted(i, ready, st, now)), other, Appended(i, ready, st, now).1);
    StoresOne(INITIAL, [other, other], i, c, st, 0, run, key, step, value, now);
  }

  /**
    `resume_run` reads the status before it takes the lock. A client that read
    "running" can take the lock after another client finalized the run: the run
    then gets a row although it is terminal, and its summary is stale.
   */
  lemma StaleStatusReadReopensTerminalRun()
    ensures exists s, run :: Reachable(s) && IsTerminal(s.store, run) && s.store.raced == {run}
              && |s.store.rows| == 1 && s.store.rows[0].report.run == run
              && ListMetrics(s.store, run, Running) != ListMetrics(s.store, run, Finished)
  {
    var run := "r";
    var c0, c1 := Started(0).(runs := OneRun(run, Idle)), Started(0);
    CreatedRun(run, 0, 0);
    hide Leads, Summaries, Persisted, Appended;
    var c2 := c1.(runs := c1.runs.(control := ResumeAcquire(run)));
    Move(1, c1, c0, Owned(run, 0), Command(1, BeginResume(run)), c2, Owned(run, 0));
    FinalizedUpToRelease(run, c2);
    var done, st := Started(0).(runs := Finalizes(run, Terminal, Forget)), Sealed(run).(locks := map[]);
    Resumes(1, c2, done, st, run);
    LogsAndStores(1, c1.(runs := OneRun(run, Idle)), done, Relocked(st, 1, run), run, "k", 0, Finite(1.0), 0);
    var ready := Collected(Enqueued(c1.pipe, NextReport(c1.pipe, run, "k", 0, Finite(1.0), 0)));
    var last := Appended(1, ready, Relocked(st, 1, run), 0).1;
    StoredOne(ready, Relocked(st, 1, run));
    StaleSummary(last, run);
    var s := Pair(1, c1.(runs := OneRun(run, Idle), pipe := Persisted(1, ready, Relocked(st, 1, run), 0)), done, last);
    assert Reachable(s) && s.store == last;
  }

  lemma StoredOne(p: Pipe, st: Store)
    requires p.worker.Writing? && |p.worker.batch| == 1 && st.rows == []
    ensures var st' := Appended(1, p, st, 0).1;
            && |st'.rows| == 1 && st'.rows[0].report == p.worker.batch[0]
            && st'.status == st.status && st'.aggregates == st.aggregates && st'.raced == st.raced
  {
  }

  lemma StaleSummary(st: Store, run: RunId)
    requires |st.rows| == 1 && st.rows[0].report.run == run
    requires st.aggregates == map[run := Summaries([], run)]
    ensures ListMetrics(st, run, Running) != ListMetrics(st, run, Finished)
  {
    hide Effective, Summarize;
    assert st.rows[0].report.key in KeysOf(st.rows, run);
    assert st.rows[0].report.key in Summaries(st.rows, run);
    assert st.rows[0].report.key !in Summaries([], run);
  }

  // ------------------------------------------------------------ last write, lower time stamp

  function ReportOf(run: RunId, step: int, value: Value, sequence: nat): Report {
    Report(run, "k", step, value, 0, sequence)
  }

  /** A client that accepted the reports and has not collected any. */
  function Queued(run: RunId, reports: seq<Report>): Client {
    var c := Started(0);
    c.(pipe := c.pipe.(reporter := c.pipe.reporter.(queue := reports, pending := |reports|, nextSequence := |reports| + 1), accepted := reports),
       runs := OneRun(run, Idle))
  }

  /** The first client logged two points that the worker has collected into one batch. */
  lemma CollectedTwo(run: RunId, step1: int, value1: Value, step2: int, value2: Value)
    ensures var c := Queued(run, [ReportOf(run, step1, value1, 1), ReportOf(run, step2, value2, 2)]);
            Reachable(Pair(0, c.(pipe := Collected(c.pipe)), Started(0), Owned(run, 0)))
  {
    hide Leads;
    var other, st := Started(0), Owned(run, 0);
    CreatedRun(run, 0, 0);
    var c0 := Queued(run, []);
    var r1, r2 := ReportOf(run, step1, value1, 1), ReportOf(run, step2, value2, 2);
    assert c0 == Started(0).(runs := OneRun(run, Idle));
    Logs(0, c0, other, st, run, "k", step1, value1, 0);
    assert c0.(pipe := Enqueued(c0.pipe, r1)) == Queued(run, [r1]);
    Logs(0, Queued(run, [r1]), other, st, run, "k", step2, value2, 0);
    assert [r1] + [r2] == [r1, r2];
    assert Queued(run, [r1]).(pipe := Enqueued(Queued(run, [r1]).pipe, r2)) == Queued(run, [r1, r2]);
    Collects(0, Queued(run, [r1, r2]), other, st);
  }

  /** A failed append at time 100 that committed the first of two rows, and its retry at time 50. */
  lemma RetriedEarlier(p: Pipe, st: Store, r1: Report, r2: Report)
    requires p.worker == Writing([r1, r2], 0) && p.nextStamp == 0 && p.lastNow == 0 && p.rowAt == [] && p.monotone
    requires st.rows == [] && st.acked == [] && st.skewed == {}
    ensures var (p1, st1) := AppendFailed(0, p, st, 100, 1);
            && p1.worker == Writing([r1, r2], 1)
            && var st2 := Appended(0, p1, st1, 50).1; var p2 := Persisted(0, p1, st1, 50);
               && st2.rows == [Row(0, r1, 100), Row(0, r1, 50), Row(0, r2, 51)]
               && st2.acked == [1, 2] && st2.skewed == {}
               && |p2.rowAt| == 2 && !p2.monotone && !p2.clean
  {
    var (p1, st1) := AppendFailed(0, p, st, 100, 1);
    assert [r1, r2][..1] == [r1];
    assert st1.rows == [Row(0, r1, 100)];
    assert Appended(0, p1, st1, 50).1.rows == [Row(0, r1, 100), Row(0, r1, 50), Row(0, r2, 51)];
    assert Appended(0, p1, st1, 50).1.acked == [1, 2];
  }

  lemma CollectedPipe(run: RunId, reports: seq<Report>)
    requires |reports| <= BATCH_MAX_REPORTS
    ensures var p := Collected(Queued(run, reports).pipe);
            && p.worker == Writing(reports, 0) && p.nextStamp == 0 && p.lastNow == 0 && p.rowAt == [] && p.monotone && p.clean
  {
    assert reports[..|reports|] == reports;
  }

  /**
    With a clock that steps back, and a failed append that nevertheless left a
    row, the reader picks the row of the failed append over the report that was
    enqueued last, although every report was stored.
   */
  lemma BackwardClockCanReorder()
    ensures exists s, run, key, step :: Reachable(s) && AcksInTable(s.store) && !ReadsLastWrite(s.store, run, key, step)
              && NoLeftovers(s, run, key, step) && Unskewed(s, run, key, step) && !SteadyWriters(s, run, key, step)
  {
    var run, r1, r2 := "r", ReportOf("r", 0, Finite(1.0), 1), ReportOf("r", 0, Finite(2.0), 2);
    var c, other, st := Queued(run, [r1, r2]), Started(0), Owned(run, 0);
    CollectedTwo(run, 0, Finite(1.0), 0, Finite(2.0));
    CollectedPipe(run, [r1, r2]);
    hide Leads, Persisted, Collected, AppendFailed, Appended, Started, Winners, LastWrites;
    var p := Collected(c.pipe);
    RetriedEarlier(p, st, r1, r2);
    Fails(0, c.(pipe := p), other, st, 100, 1);
    var (p1, st1) := AppendFailed(0, p, st, 100, 1);
    Stores(0, c.(pipe := p1), other, st1, 50);
    var s := Pair(0, c.(pipe := Persisted(0, p1, st1, 50)), other, Appended(0, p1, st1, 50).1);
    EarlierStampIsNotRead(s.store, 0, 2);
    assert s.clients[0].pipe == Persisted(0, p1, st1, 50) && AtStep(s.store.rows[0], run, "k", 0);
    assert Reachable(s) && AcksInTable(s.store) && !ReadsLastWrite(s.store, run, "k", 0);
  }

  /** A failed append can leave a row that no counter knows of and that a reader sees. */
  lemma FailedAppendCanLeaveRows()
    ensures exists s, run, key, step :: Reachable(s) && AcksInTable(s.store) && !ReadsLastWrite(s.store, run, key, step)
              && s.store.acked == [] && Unskewed(s, run, key, step) && SteadyWriters(s, run, key, step)
  {
    var run, r1, r2 := "r", ReportOf("r", 0, Finite(1.0), 1), ReportOf("r", 0, Finite(2.0), 2);
    var c, other, st := Queued(run, [r1, r2]), Started(0), Owned(run, 0);
    CollectedTwo(run, 0, Finite(1.0), 0, Finite(2.0));
    CollectedPipe(run, [r1, r2]);
    hide Leads, Collected;
    var p := Collected(c.pipe);
    Fails(0, c.(pipe := p), other, st, 0, 1);
    var (p1, st1) := AppendFailed(0, p, st, 0, 1);
    assert [r1, r2][..1] == [r1];
    assert st1.rows == [Row(0, r1, 0)] && st1.skewed == {};
    assert 0 in Winners(st1.rows, run, "k");
    var s := Pair(0, c.(pipe := p1), other, st1);
    assert s.clients[0].pipe == p1 && s.clients[1] == other;
    assert Reachable(s) && AcksInTable(s.store) && !ReadsLastWrite(s.store, run, "k", 0);
  }

  // ------------------------------------------------------------ last write, next owner

  /** The first client stored two points of one batch at time 0 and has shut down. */
  function HandedOn(run: RunId, r1: Report, r2: Report): Store {
    Store([Row(0, r1, 0), Row(0, r2, 1)], map[run := Running], map[], map[], [0, 1], map[], {}, {})
  }

  predicate Drained(c: Client, run: RunId) {
    && |c.pipe.rowAt| == 2 && c.pipe.monotone && c.runs == OneRun(run, Idle) && c.alive
    && c.pipe.sender.Unlocked? && c.pipe.worker.Receiving? && c.pipe.reporter.queue == []
    && c.pipe.reporter.writer.WriterRunning? && c.pipe.reporter.through == 2 && c.pipe.reporter.nextSequence == 3
  }

  predicate ShutDown(c: Client) {
    |c.pipe.rowAt| == 2 && c.pipe.monotone && c.runs.shutdown
  }

  lemma StoredTwo(run: RunId, step1: int, value1: Value, step2: int, value2: Value)
    ensures var r1, r2 := ReportOf(run, step1, value1, 1), ReportOf(run, step2, value2, 2);
            exists c :: Drained(c, run) && Reachable(Pair(0, c, Started(0), HandedOn(run, r1, r2).(locks := map[run := Owner(0, 0)])))
  {
    var r1, r2 := ReportOf(run, step1, value1, 1), ReportOf(run, step2, value2, 2);
    var c, st := Queued(run, [r1, r2]), Owned(run, 0);
    CollectedTwo(run, step1, value1, step2, value2);
    hide Leads;
    var p := Collected(c.pipe);
    Stores(0, c.(pipe := p), Started(0), st, 0);
    var st' := HandedOn(run, r1, r2).(locks := map[run := Owner(0, 0)]);
    assert Appended(0, p, st, 0).1.rows == st'.rows && Appended(0, p, st, 0).1.acked == st'.acked;
    assert Appended(0, p, st, 0).1.skewed == {};
    var c' := c.(pipe := Persisted(0, p, st, 0));
    assert Reachable(Pair(0, c', Started(0), st'));
  }

  /** A shutdown of a drained client, up to the moment its sender is taken away. */
  lemma ShutsDown(c: Client, other: Client, st: Store, run: RunId)
    requires Drained(c, run) && Reachable(Pair(0, c, other, st))
    ensures Reachable(Pair(0, WithoutSender(c, run), other, st))
  {
    hide Leads;
    Move(0, c, other, st, Command(0, BeginShutdown), c.(runs := OneRun(run, ShutdownDrain(2))), st);
    Move(0, c.(runs := OneRun(run, ShutdownDrain(2))), other, st, Command(0, Advance), c.(runs := OneRun(run, ShutdownCheck)), st);
    Move(0, c.(runs := OneRun(run, ShutdownCheck)), other, st, Command(0, Advance), c.(runs := OneRun(run, ShutdownTake(true))), st);
    Move(0, c.(runs := OneRun(run, ShutdownTake(true))), other, st, Command(0, Advance), WithoutSender(c, run), st);
  }

  function WithoutSender(c: Client, run: RunId): Client {
    c.(pipe := c.pipe.(reporter := c.pipe.reporter.(senderOpen := false)), runs := OneRun(run, ShutdownJoin(true)))
  }

  lemma StoredAndShutDown(run: RunId, step1: int, value1: Value, step2: int, value2: Value)
    ensures var r1, r2 := ReportOf(run, step1, value1, 1), ReportOf(run, step2, value2, 2);
            exists c :: ShutDown(c) && Reachable(Pair(0, c, Started(0), HandedOn(run, r1, r2)))
  {
    StoredTwo(run, step1, value1, step2, value2);
    hide Leads, Started;
    var r1, r2 := ReportOf(run, step1, value1, 1), ReportOf(run, step2, value2, 2);
    var st, other := HandedOn(run, r1, r2).(locks := map[run := Owner(0, 0)]), Started(0);
    var c :| Drained(c, run) && Reachable(Pair(0, c, other, st));
    ShutsDown(c, other, st, run);
    var c1 := WithoutSender(c, run);
    var c2 := c1.(pipe := c1.pipe.(worker := Exited(false, [])));
    Move(0, c1, other, st, Event.Work(0, Hangup), c2, st);
    var c3 := c2.(pipe := c2.pipe.(reporter := c2.pipe.reporter.(writer := WriterClosed)), runs := c2.runs.(control := Idle, active := map[], shutdown := true));
    assert UnlockAll(st, 0).locks == map[];
    Move(0, c2, other, st, Command(0, Advance), c3, HandedOn(run, r1, r2));
  }

  /** What the second client stores: a new value of a point that the first one stamped ahead of the clock. */
  lemma StampedBehind(p: Pipe, st: Store, run: RunId, r1: Report, r2: Report, r3: Report)
    requires p.worker == Writing([r3], 0) && p.nextStamp == 0 && p.lastNow == 0 && p.rowAt == [] && p.monotone
    requires st.rows == [Row(0, r1, 0), Row(0, r2, 1)] && st.acked == [0, 1]
    ensures Appended(1, p, st, 0).1.rows == [Row(0, r1, 0), Row(0, r2, 1), Row(1, r3, 0)]
    ensures Appended(1, p, st, 0).1.acked == [0, 1, 2]
    ensures |Persisted(1, p, st, 0).rowAt| == 1 && Persisted(1, p, st, 0).monotone
  {
  }

  /** The second client resumes the run. */
  lemma ResumedByNext(run: RunId, r1: Report, r2: Report, other: Client)
    requires Reachable(Pair(0, other, Started(0), HandedOn(run, r1, r2)))
    ensures Reachable(Pair(1, Started(0).(runs := OneRun(run, Idle)), other, Relocked(HandedOn(run, r1, r2), 1, run)))
  {
    hide Leads;
    var c, st := Started(0), HandedOn(run, r1, r2);
    var resuming := c.(runs := c.runs.(control := ResumeAcquire(run)));
    assert Pair(0, other, c, st) == Pair(1, c, other, st);
    Move(1, c, other, st, Command(1, BeginResume(run)), resuming, st);
    Resumes(1, resuming, other, st, run);
  }

  predicate StoredThird(p: Pipe, st: Store, r1: Report, r2: Report, r3: Report) {
    && |p.rowAt| == 1 && p.monotone && st.acked == [0, 1, 2]
    && st.rows == [Row(0, r1, 0), Row(0, r2, 1), Row(1, r3, 0)]
  }

  lemma NextOwnerStores(run: RunId, r1: Report, r2: Report, other: Client)
    requires Reachable(Pair(0, other, Started(0), HandedOn(run, r1, r2)))
    ensures exists p, st :: StoredThird(p, st, r1, r2, ReportOf(run, 0, Finite(2.0), 1))
              && Reachable(Pair(1, Started(0).(runs := OneRun(run, Idle), pipe := p), other, st))
  {
    ResumedByNext(run, r1, r2, other);
    hide Leads, Persisted, Appended;
    var st, c := Relocked(HandedOn(run, r1, r2), 1, run), Started(0).(runs := OneRun(run, Idle));
    LogsAndStores(1, c, other, st, run, "k", 0, Finite(2.0), 0);
    var r3 := ReportOf(run, 0, Finite(2.0), 1);
    var ready := Collected(Enqueued(c.pipe, r3));
    assert [] + [r3] == [r3];
    StampedBehind(ready, st, run, r1, r2, r3);
    assert StoredThird(Persisted(1, ready, st, 0), Appended(1, ready, st, 0).1, r1, r2, r3);
  }

  /**
    One batch is stamped with consecutive milliseconds, so a writer's stamps can
    run ahead of the clock. The next owner of the run starts again from the
    clock: its later report of the same point then loses against the earlier one,
    although no clock ever went backwards and every report was stored.
   */
  lemma NextOwnerCanLoseItsWrite()
    ensures exists s, run, key, step :: Reachable(s) && AcksInTable(s.store) && !ReadsLastWrite(s.store, run, key, step)
              && NoLeftovers(s, run, key, step) && forall i :: 0 <= i < |s.clients| ==> s.clients[i].pipe.monotone
  {
    var run, r1, r2 := "r", ReportOf("r", 1, Finite(1.0), 1), ReportOf("r", 0, Finite(1.0), 2);
    StoredAndShutDown(run, 1, Finite(1.0), 0, Finite(1.0));
    hide Leads, Winners, LastWrites, Started;
    var other :| ShutDown(other) && Reachable(Pair(0, other, Started(0), HandedOn(run, r1, r2)));
    NextOwnerStores(run, r1, r2, other);
    var c := Started(0);
    var p, st :| StoredThird(p, st, r1, r2, ReportOf(run, 0, Finite(2.0), 1))
                 && Reachable(Pair(1, c.(runs := OneRun(run, Idle), pipe := p), other, st));
    var s := Pair(1, c.(runs := OneRun(run, Idle), pipe := p), other, st);
    ThirdIsClean(s, run, r1, r2, ReportOf(run, 0, Finite(2.0), 1));
    hide NoLeftovers;
    EarlierStampIsNotRead(st, 1, 2);
    assert Reachable(s) && AcksInTable(s.store) && !ReadsLastWrite(s.store, run, "k", 0);
  }

  lemma ThirdIsClean(s: System, run: RunId, r1: Report, r2: Report, r3: Report)
    requires |s.clients| == 2 && ShutDown(s.clients[0]) && StoredThird(s.clients[1].pipe, s.store, r1, r2, r3)
    requires r1.sequence == 1 && r2.sequence == 2 && r3.sequence == 1
    ensures NoLeftovers(s, run, "k", 0) && forall i :: 0 <= i < |s.clients| ==> s.clients[i].pipe.monotone
    ensures AcksInTable(s.store)
  {
  }
}
