/**
  The operations of the metric reporter as whole functions of the write side,
  and that each of them is a run of the atomic steps of the system.
 */
module WriteSide {
  import opened Values
  import opened Metrics
  import opened Pipeline
  import opened PipelineCounts
  import opened PipelineRows

  datatype ReportError = ClientClosed | MetricWriterFailed | MetricQueueFull

  /** One attempt to append: the clock it reads, and how many rows it leaves if it fails. */
  datatype Attempt = Attempt(now: int, fault: Option<nat>)

  function Min(a: nat, b: nat): nat {
    if a < b then a else b
  }

  // ----------------------------------------------------------------- report_metric

  function NextReport(p: Pipe, run: RunId, key: MetricKey, step: int, value: Value, now: int): Report {
    Report(run, key, step, value, now, p.reporter.nextSequence)
  }

  /** The write side after one more accepted report. */
  function Enqueued(p: Pipe, report: Report): Pipe {
    p.(reporter := p.reporter.(queue := p.reporter.queue + [report], pending := p.reporter.pending + 1,
                               nextSequence := p.reporter.nextSequence + 1, writer := WriterRunning),
       accepted := p.accepted + [report])
  }

  /** `report_metric` in one go. */
  function Reported(p: Pipe, run: RunId, key: MetricKey, step: int, value: Value, now: int): (Pipe, Option<ReportError>) {
    if !p.reporter.senderOpen then (p, Some(ClientClosed))
    else if p.reporter.writer.WriterFailed? then (p, Some(MetricWriterFailed))
    else if !ReceiverAlive(p.worker) then (p, Some(ClientClosed))
    else if !HasRoom(p) then (p.(reporter := p.reporter.(queueFull := p.reporter.queueFull + 1)), Some(MetricQueueFull))
    else (Enqueued(p, NextReport(p, run, key, step, value, now)), None)
  }

  /**
    What a caller is told: success exactly if the report, with the next sequence,
    is the last one accepted; and each refusal in exactly its case.
   */
  lemma ReportedMeans(p: Pipe, run: RunId, key: MetricKey, step: int, value: Value, now: int)
    ensures var (p', e) := Reported(p, run, key, step, value, now);
            var report := Report(run, key, step, value, now, p.reporter.nextSequence);
            && (e.None? <==> p'.accepted == p.accepted + [report])
            && (e.None? ==> p'.reporter.queue == p.reporter.queue + [report] && p'.reporter.pending == p.reporter.pending + 1
                            && p'.reporter.nextSequence == p.reporter.nextSequence + 1 && p'.reporter.writer.WriterRunning?)
            && (e.Some? ==> p' == p.(reporter := p.reporter.(queueFull := p'.reporter.queueFull)))
            && p'.reporter.queueFull == p.reporter.queueFull + (if e == Some(MetricQueueFull) then 1 else 0)
    ensures var e := Reported(p, run, key, step, value, now).1;
            var (isOpen, failed, ended) := (p.reporter.senderOpen, p.reporter.writer.WriterFailed?, p.worker.Dropped? || p.worker.Exited?);
            && (e == Some(ClientClosed) <==> !isOpen || (!failed && ended))
            && (e == Some(MetricWriterFailed) <==> isOpen && failed)
            && (e == Some(MetricQueueFull) <==> isOpen && !failed && !ended && !HasRoom(p))
            && (p.reporter.capacity > 0 ==> (HasRoom(p) <==> |p.reporter.queue| < p.reporter.capacity))
  {
  }

  function LoggerRun(p: Pipe, runs: Runs, events: seq<LoggerEvent>): Option<(Pipe, Runs)>
    decreases |events|
  {
    if events == [] then Some((p, runs))
    else match LoggerStep(p, runs, events[0])
      case None => None
      case Some((p', runs')) => LoggerRun(p', runs', events[1..])
  }

  /** The atomic steps of a thread that found the gate open. */
  function ReportEvents(p: Pipe, o: nat, now: int): seq<LoggerEvent> {
    if !p.reporter.senderOpen || p.reporter.writer.WriterFailed? then [Leave(o)]
    else if !ReceiverAlive(p.worker) then [Stamp(o, now), RefuseDisconnected]
    else if !HasRoom(p) then [Stamp(o, now), RefuseFull]
    else [Stamp(o, now), Push, Finish]
  }

  lemma LoggerRunOne(p: Pipe, runs: Runs, a: LoggerEvent)
    ensures LoggerRun(p, runs, [a]) == LoggerStep(p, runs, a)
  {
  }

  lemma LoggerRunNext(p: Pipe, runs: Runs, a: LoggerEvent, rest: seq<LoggerEvent>)
    requires LoggerStep(p, runs, a).Some?
    ensures LoggerRun(p, runs, [a] + rest) == LoggerRun(LoggerStep(p, runs, a).value.0, LoggerStep(p, runs, a).value.1, rest)
  {
    assert ([a] + rest)[1..] == rest;
  }

  /** `report_metric`, under the gate and the sender lock, is a run of the step system that ends outside both. */
  lemma ReportedIsSteps(p: Pipe, runs: Runs, o: nat, now: int)
    requires o < |runs.objs| && runs.objs[o].gate.Held? && p.sender.Unlocked?
    ensures var r := runs.objs[o];
            LoggerRun(p, runs, ReportEvents(p, o, now))
            == Some((Reported(p, r.run, r.gate.key, r.gate.step, r.gate.value, now).0, SetGate(runs, o, Free)))
  {
    var r := runs.objs[o];
    if !p.reporter.senderOpen || p.reporter.writer.WriterFailed? {
      LoggerRunOne(p, runs, Leave(o));
    } else {
      var (p1, runs1) := LoggerStep(p, runs, Stamp(o, now)).value;
      if !ReceiverAlive(p.worker) {
        assert ReportEvents(p, o, now) == [Stamp(o, now)] + [RefuseDisconnected];
        LoggerRunNext(p, runs, Stamp(o, now), [RefuseDisconnected]);
        LoggerRunOne(p1, runs, RefuseDisconnected);
      } else if !HasRoom(p) {
        assert ReportEvents(p, o, now) == [Stamp(o, now)] + [RefuseFull];
        LoggerRunNext(p, runs, Stamp(o, now), [RefuseFull]);
        LoggerRunOne(p1, runs, RefuseFull);
      } else {
        assert ReportEvents(p, o, now) == [Stamp(o, now)] + [Push, Finish];
        LoggerRunNext(p, runs, Stamp(o, now), [Push, Finish]);
        assert [Push, Finish] == [Push] + [Finish];
        LoggerRunNext(p1, runs, Push, [Finish]);
        LoggerRunOne(LoggerStep(p1, runs, Push).value.0, runs, Finish);
      }
    }
  }

  lemma ReportedKeeps(i: nat, p: Pipe, st: Store, run: RunId, key: MetricKey, step: int, value: Value, now: int)
    requires Counts(p) && RowsInv(i, p, st) && p.sender.Unlocked?
    ensures var p' := Reported(p, run, key, step, value, now).0; Counts(p') && RowsInv(i, p', st)
  {
    hide RowsInv, Counts;
    ReportedKeepsCounts(p, run, key, step, value, now);
    SameStoredKeepsRows(i, p, st, Reported(p, run, key, step, value, now).0);
  }

  lemma ReportedKeepsCounts(p: Pipe, run: RunId, key: MetricKey, step: int, value: Value, now: int)
    requires Counts(p) && p.sender.Unlocked?
    ensures Counts(Reported(p, run, key, step, value, now).0)
  {
    var report := NextReport(p, run, key, step, value, now);
    if Reported(p, run, key, step, value, now).1.None? {
      EnqueuedKeepsCounts(p, report);
    } else {
      hide InOrderOfAcceptance, Numbered;
      assert Counts(Reported(p, run, key, step, value, now).0);
    }
  }

  lemma EnqueuedKeepsCounts(p: Pipe, report: Report)
    requires Counts(p) && p.sender.Unlocked? && ReceiverAlive(p.worker) && p.reporter.senderOpen
    requires report.sequence == p.reporter.nextSequence
    ensures Counts(Enqueued(p, report))
  {
    assert Numbered(Enqueued(p, report).accepted);
    PushKeepsOrder(p.accepted, |p.rowAt|, p.worker, p.reporter.queue, report);
    hide InOrderOfAcceptance, Numbered;
    assert Counted(Enqueued(p, report));
  }

  // ----------------------------------------------------------------- the worker

  /** `collect_metric_batch`: everything queued, up to the batch limit. */
  function Collected(p: Pipe): Pipe {
    var n := Min(|p.reporter.queue|, BATCH_MAX_REPORTS);
    p.(worker := Writing(p.reporter.queue[..n], 0), reporter := p.reporter.(queue := p.reporter.queue[n..]))
  }

  /** `retry_metric_batch_write`: attempts until one succeeds or none is left. */
  function Tried(i: nat, p: Pipe, st: Store, attempts: seq<Attempt>): (Pipe, Store)
    requires p.worker.Writing? && p.worker.retries + |attempts| == MAX_RETRIES + 1 && attempts != []
    ensures Tried(i, p, st, attempts).0.worker == Counting(p.worker.batch) || Tried(i, p, st, attempts).0.worker == Failing(p.worker.batch)
    decreases |attempts|
  {
    var attempt := attempts[0];
    if attempt.fault.None? then Appended(i, p, st, attempt.now)
    else
      var (p', st') := AppendFailed(i, p, st, attempt.now, Min(attempt.fault.value, |p.worker.batch|));
      if p'.worker.Failing? then (p', st') else Tried(i, p', st', attempts[1..])
  }

  /** The counter updates of an acknowledged batch. */
  function Acked(p: Pipe): Pipe
    requires p.worker.Counting?
  {
    var batch := p.worker.batch;
    p.(worker := Receiving,
       reporter := p.reporter.(persisted := p.reporter.persisted + |batch|,
                               through := if batch == [] then p.reporter.through else Max(p.reporter.through, batch[|batch| - 1].sequence),
                               pending := p.reporter.pending - |batch|))
  }

  /** The worker thread ends with an error; its receiver and what it holds go with it. */
  function GivenUp(p: Pipe): Pipe
    requires p.worker.Failing?
  {
    p.(worker := Exited(true, p.worker.batch), reporter := p.reporter.(queue := [], writer := WriterFailed))
  }

  /** One pass of the worker loop over a queue that is not empty. */
  function Round(i: nat, p: Pipe, st: Store, attempts: seq<Attempt>): (Pipe, Store)
    requires p.worker.Receiving? && p.reporter.queue != [] && |attempts| == MAX_RETRIES + 1
  {
    var (p', st') := Tried(i, Collected(p), st, attempts);
    (if p'.worker.Counting? then Acked(p') else GivenUp(p'), st')
  }

  function WorkerRun(i: nat, p: Pipe, st: Store, events: seq<WorkerEvent>): Option<(Pipe, Store)>
    decreases |events|
  {
    if events == [] then Some((p, st))
    else match WorkerStep(i, p, st, events[0])
      case None => None
      case Some((p', st')) => WorkerRun(i, p', st', events[1..])
  }

  lemma {:induction false} WorkerRunConcat(i: nat, p: Pipe, st: Store, a: seq<WorkerEvent>, b: seq<WorkerEvent>)
    requires WorkerRun(i, p, st, a).Some?
    ensures WorkerRun(i, p, st, a + b) == WorkerRun(i, WorkerRun(i, p, st, a).value.0, WorkerRun(i, p, st, a).value.1, b)
    decreases |a|
  {
    hide WorkerStep;
    if a == [] {
      assert a + b == b;
    } else {
      assert (a + b)[1..] == a[1..] + b;
      var (p', st') := WorkerStep(i, p, st, a[0]).value;
      WorkerRunConcat(i, p', st', a[1..], b);
    }
  }

  lemma WorkerRunOne(i: nat, p: Pipe, st: Store, e: WorkerEvent)
    ensures WorkerRun(i, p, st, [e]) == WorkerStep(i, p, st, e)
  {
    hide WorkerStep;
  }

  lemma WorkerRunNext(i: nat, p: Pipe, st: Store, e: WorkerEvent, rest: seq<WorkerEvent>)
    requires WorkerStep(i, p, st, e).Some?
    ensures WorkerRun(i, p, st, [e] + rest) == WorkerRun(i, WorkerStep(i, p, st, e).value.0, WorkerStep(i, p, st, e).value.1, rest)
  {
    hide WorkerStep;
    assert ([e] + rest)[1..] == rest;
  }

  /** Any run of worker steps keeps the invariants of the write side. */
  lemma {:induction false} WorkerRunKeeps(i: nat, p: Pipe, st: Store, events: seq<WorkerEvent>, p': Pipe, st': Store)
    requires Counts(p) && RowsInv(i, p, st) && TableInv(st) && WorkerRun(i, p, st, events) == Some((p', st'))
    ensures Counts(p') && RowsInv(i, p', st') && TableInv(st')
    decreases |events|
  {
    hide WorkerStep, Counts, RowsInv, TableInv;
    if events != [] {
      var (p1, st1) := WorkerStep(i, p, st, events[0]).value;
      WorkerKeepsCounts(i, p, st, events[0], p1, st1);
      WorkerKeepsRows(i, p, st, events[0], p1, st1);
      WorkerKeepsTable(i, p, st, events[0], p1, st1);
      WorkerRunKeeps(i, p1, st1, events[1..], p', st');
    }
  }

  function Taken(p: Pipe, batch: seq<Report>, queue: seq<Report>): Pipe {
    p.(worker := Collecting(batch), reporter := p.reporter.(queue := queue))
  }

  lemma {:induction false} TakesMore(i: nat, p: Pipe, st: Store, batch: seq<Report>, queue: seq<Report>, n: nat) returns (events: seq<WorkerEvent>)
    requires n <= |queue| && |batch| + n <= BATCH_MAX_REPORTS && (n == |queue| || |batch| + n == BATCH_MAX_REPORTS)
    ensures WorkerRun(i, Taken(p, batch, queue), st, events)
            == Some((p.(worker := Writing(batch + queue[..n], 0), reporter := p.reporter.(queue := queue[n..])), st))
    decreases n
  {
    var p0 := Taken(p, batch, queue);
    if n == 0 {
      assert batch + queue[..0] == batch && queue[0..] == queue;
      events := [StopCollecting];
      WorkerRunOne(i, p0, st, StopCollecting);
    } else {
      var rest := TakesMore(i, p, st, batch + [queue[0]], queue[1..], n - 1);
      assert batch + [queue[0]] + queue[1..][..n - 1] == batch + queue[..n] && queue[1..][n - 1..] == queue[n..];
      WorkerRunNext(i, p0, st, TakeMore, rest);
      events := [TakeMore] + rest;
    }
  }

  lemma CollectedIsSteps(i: nat, p: Pipe, st: Store) returns (events: seq<WorkerEvent>)
    requires p.worker.Receiving? && p.reporter.queue != []
    ensures WorkerRun(i, p, st, events) == Some((Collected(p), st))
  {
    var queue := p.reporter.queue;
    var n := Min(|queue|, BATCH_MAX_REPORTS);
    var rest := TakesMore(i, p, st, [queue[0]], queue[1..], n - 1);
    assert [queue[0]] + queue[1..][..n - 1] == queue[..n] && queue[1..][n - 1..] == queue[n..];
    WorkerRunNext(i, p, st, TakeFirst, rest);
    events := [TakeFirst] + rest;
  }

  lemma {:induction false} TriedIsSteps(i: nat, p: Pipe, st: Store, attempts: seq<Attempt>) returns (events: seq<WorkerEvent>)
    requires p.worker.Writing? && p.worker.retries + |attempts| == MAX_RETRIES + 1 && attempts != []
    ensures WorkerRun(i, p, st, events) == Some(Tried(i, p, st, attempts))
    decreases |attempts|
  {
    hide Appended, AppendFailed;
    var attempt := attempts[0];
    if attempt.fault.None? {
      events := [Append(attempt.now)];
      WorkerRunOne(i, p, st, Append(attempt.now));
    } else {
      var committed := Min(attempt.fault.value, |p.worker.batch|);
      var e := AppendError(attempt.now, committed);
      var (p', st') := AppendFailed(i, p, st, attempt.now, committed);
      FailedAttempt(i, p, st, attempt.now, committed);
      if p'.worker.Failing? {
        events := [e];
        WorkerRunOne(i, p, st, e);
      } else {
        var rest := TriedIsSteps(i, p', st', attempts[1..]);
        WorkerRunNext(i, p, st, e, rest);
        events := [e] + rest;
      }
    }
  }

  /** What the diagnostics say after an attempt: running after a success, retrying while attempts are left, failed after the last one. */
  lemma AttemptsShow(i: nat, p: Pipe, st: Store, now: int, committed: nat)
    requires p.worker.Writing? && committed <= |p.worker.batch|
    ensures Appended(i, p, st, now).0.reporter == p.reporter.(writer := WriterRunning)
    ensures var p' := AppendFailed(i, p, st, now, committed).0;
            && (p.worker.retries < 5 ==> p'.reporter == p.reporter.(writer := WriterRetrying) && p'.worker == Writing(p.worker.batch, p.worker.retries + 1))
            && (p.worker.retries >= 5 ==> p'.reporter == p.reporter.(writer := WriterFailed) && p'.worker == Failing(p.worker.batch))
  {
  }

  lemma FailedAttempt(i: nat, p: Pipe, st: Store, now: int, committed: nat)
    requires p.worker.Writing? && committed <= |p.worker.batch|
    ensures var p' := AppendFailed(i, p, st, now, committed).0;
            p'.worker == if p.worker.retries < MAX_RETRIES then Writing(p.worker.batch, p.worker.retries + 1) else Failing(p.worker.batch)
  {
  }

  lemma AckedIsSteps(i: nat, p: Pipe, st: Store)
    requires p.worker.Counting?
    ensures WorkerRun(i, p, st, [CountPersisted, MarkThrough, SettlePending]) == Some((Acked(p), st))
  {
    var p1 := WorkerStep(i, p, st, CountPersisted).value.0;
    var p2 := WorkerStep(i, p1, st, MarkThrough).value.0;
    assert [CountPersisted, MarkThrough, SettlePending] == [CountPersisted] + ([MarkThrough] + [SettlePending]);
    WorkerRunNext(i, p, st, CountPersisted, [MarkThrough] + [SettlePending]);
    WorkerRunNext(i, p1, st, MarkThrough, [SettlePending]);
    WorkerRunOne(i, p2, st, SettlePending);
  }

  lemma GivenUpIsSteps(i: nat, p: Pipe, st: Store)
    requires p.worker.Failing?
    ensures WorkerRun(i, p, st, [DropReceiver, Die]) == Some((GivenUp(p), st))
  {
    var p1 := WorkerStep(i, p, st, DropReceiver).value.0;
    assert [DropReceiver, Die] == [DropReceiver] + [Die];
    WorkerRunNext(i, p, st, DropReceiver, [Die]);
    WorkerRunOne(i, p1, st, Die);
  }

  /** One pass of the worker loop is a run of the step system. */
  lemma RoundIsSteps(i: nat, p: Pipe, st: Store, attempts: seq<Attempt>) returns (events: seq<WorkerEvent>)
    requires p.worker.Receiving? && p.reporter.queue != [] && |attempts| == MAX_RETRIES + 1
    ensures WorkerRun(i, p, st, events) == Some(Round(i, p, st, attempts))
  {
    var collect := CollectedIsSteps(i, p, st);
    var try := TriedIsSteps(i, Collected(p), st, attempts);
    var (p1, st1) := Tried(i, Collected(p), st, attempts);
    hide WorkerStep, WorkerRun, Collected, Tried;
    WorkerRunConcat(i, p, st, collect, try);
    var settle;
    if p1.worker.Counting? {
      settle := [CountPersisted, MarkThrough, SettlePending];
      AckedIsSteps(i, p1, st1);
    } else {
      settle := [DropReceiver, Die];
      GivenUpIsSteps(i, p1, st1);
    }
    WorkerRunConcat(i, p, st, collect + try, settle);
    events := collect + try + settle;
  }
}
