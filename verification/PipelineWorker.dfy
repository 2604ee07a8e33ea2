/**
  What the worker of a client can still do, from any of its states: store
  everything that was accepted, or fail before it does.
 */
module PipelineWorker {
  import opened Values
  import opened Pipeline
  import opened PipelineCounts
  import opened PipelineSteps
  import opened PipelineContinuations
  import opened WriteSide

  /** The writer is marked failed only once the worker has given up. */
  predicate SoundWriter(p: Pipe) {
    p.reporter.writer.WriterFailed? ==> !MayAppend(p.worker)
  }

  lemma WorkerKeepsSound(i: nat, p: Pipe, st: Store, e: WorkerEvent, p': Pipe, st': Store)
    requires SoundWriter(p) && WorkerStep(i, p, st, e) == Some((p', st'))
    ensures SoundWriter(p')
  {
  }

  /** A run of worker steps keeps the counters and leaves the log and the sender alone. */
  lemma {:induction false} WorkerRunEffect(i: nat, p: Pipe, st: Store, events: seq<WorkerEvent>, p': Pipe, st': Store)
    requires Counts(p) && SoundWriter(p) && WorkerRun(i, p, st, events) == Some((p', st'))
    ensures Counts(p') && SoundWriter(p')
    ensures p'.accepted == p.accepted && p'.sender == p.sender && p'.reporter.senderOpen == p.reporter.senderOpen
    decreases |events|
  {
    hide WorkerStep, Counts, SoundWriter;
    if events != [] {
      var (p1, st1) := WorkerStep(i, p, st, events[0]).value;
      WorkerKeepsCounts(i, p, st, events[0], p1, st1);
      WorkerKeepsSound(i, p, st, events[0], p1, st1);
      WorkerLeavesLog(i, p, st, events[0], p1, st1);
      WorkerRunEffect(i, p1, st1, events[1..], p', st');
    }
  }

  /** The write side holds nothing that is not stored yet. */
  predicate NothingLeft(p: Pipe) {
    InHand(p.worker) == [] && p.reporter.queue == []
  }

  lemma NothingLeftMeans(p: Pipe)
    requires Counts(p)
    ensures NothingLeft(p) <==> |p.rowAt| == |p.accepted|
    ensures NothingLeft(p) && p.sender.Unlocked? && Acknowledged(p.worker) == [] <==> p.sender.Unlocked? && p.reporter.pending == 0
  {
  }

  // ------------------------------------------------------------ up to the next append

  /** About to append a batch, or idle. */
  predicate BetweenBatches(p: Pipe) {
    p.worker.Writing? || (p.worker.Receiving? && p.reporter.queue == [])
  }

  lemma FromIdle(i: nat, p: Pipe, st: Store) returns (events: seq<WorkerEvent>, p': Pipe)
    requires p.worker.Receiving?
    ensures WorkerRun(i, p, st, events) == Some((p', st))
    ensures BetweenBatches(p') && p'.accepted == p.accepted && p'.rowAt == p.rowAt
  {
    if p.reporter.queue == [] {
      events, p' := [], p;
    } else {
      events := CollectedIsSteps(i, p, st);
      p' := Collected(p);
    }
  }

  lemma ThenIdle(i: nat, p: Pipe, st: Store, first: seq<WorkerEvent>, p1: Pipe) returns (events: seq<WorkerEvent>, p': Pipe)
    requires WorkerRun(i, p, st, first) == Some((p1, st)) && p1.worker.Receiving? && p1.accepted == p.accepted && p1.rowAt == p.rowAt
    ensures WorkerRun(i, p, st, events) == Some((p', st))
    ensures BetweenBatches(p') && p'.accepted == p.accepted && p'.rowAt == p.rowAt
  {
    var rest;
    rest, p' := FromIdle(i, p1, st);
    WorkerRunConcat(i, p, st, first, rest);
    events := first + rest;
  }

  lemma StopsCollecting(i: nat, p: Pipe, st: Store) returns (events: seq<WorkerEvent>, p': Pipe)
    requires p.worker.Collecting?
    ensures WorkerRun(i, p, st, events) == Some((p', st))
    ensures p'.worker.Writing? && p'.accepted == p.accepted && p'.rowAt == p.rowAt
  {
    var batch, queue := p.worker.batch, p.reporter.queue;
    if |batch| >= BATCH_MAX_REPORTS {
      events, p' := [StopCollecting], p.(worker := Writing(batch, 0));
      WorkerRunOne(i, p, st, StopCollecting);
    } else {
      var n := Min(|queue|, BATCH_MAX_REPORTS - |batch|);
      assert p == Taken(p, batch, queue);
      events := TakesMore(i, p, st, batch, queue, n);
      p' := p.(worker := Writing(batch + queue[..n], 0), reporter := p.reporter.(queue := queue[n..]));
    }
  }

  lemma Settles(i: nat, p: Pipe, st: Store) returns (events: seq<WorkerEvent>, p': Pipe)
    requires p.worker.Counting? || p.worker.Marking? || p.worker.Settling?
    ensures WorkerRun(i, p, st, events) == Some((p', st))
    ensures p'.worker.Receiving? && p'.accepted == p.accepted && p'.rowAt == p.rowAt
  {
    if p.worker.Counting? {
      AckedIsSteps(i, p, st);
      events, p' := [CountPersisted, MarkThrough, SettlePending], Acked(p);
    } else if p.worker.Marking? {
      var p1 := WorkerStep(i, p, st, MarkThrough).value.0;
      WorkerRunNext(i, p, st, MarkThrough, [SettlePending]);
      WorkerRunOne(i, p1, st, SettlePending);
      events, p' := [MarkThrough] + [SettlePending], WorkerStep(i, p1, st, SettlePending).value.0;
    } else {
      WorkerRunOne(i, p, st, SettlePending);
      events, p' := [SettlePending], WorkerStep(i, p, st, SettlePending).value.0;
    }
  }

  /** A worker that has not given up gets to its next append, or runs out of reports. */
  lemma ToNextBatch(i: nat, p: Pipe, st: Store) returns (events: seq<WorkerEvent>, p': Pipe)
    requires MayAppend(p.worker)
    ensures WorkerRun(i, p, st, events) == Some((p', st))
    ensures BetweenBatches(p') && p'.accepted == p.accepted && p'.rowAt == p.rowAt
  {
    if p.worker.Starting? {
      var p1 := WorkerStep(i, p, st, Start(0)).value.0;
      WorkerRunOne(i, p, st, Start(0));
      events, p' := ThenIdle(i, p, st, [Start(0)], p1);
    } else if p.worker.Receiving? {
      events, p' := FromIdle(i, p, st);
    } else if p.worker.Collecting? {
      events, p' := StopsCollecting(i, p, st);
    } else if p.worker.Writing? {
      events, p' := [], p;
    } else {
      hide WorkerStep, WorkerRun;
      var first, p1 := Settles(i, p, st);
      events, p' := ThenIdle(i, p, st, first, p1);
    }
  }

  // ------------------------------------------------------------ failing, storing

  /** From every state with something unstored, the worker can fail before it stores it. */
  lemma WorkerCanFail(i: nat, p: Pipe, st: Store) returns (events: seq<WorkerEvent>, p': Pipe)
    requires Counts(p) && SoundWriter(p) && !NothingLeft(p)
    ensures WorkerRun(i, p, st, events) == Some((p', st))
    ensures p'.worker.Exited? && p'.accepted == p.accepted && p'.rowAt == p.rowAt
  {
    if MayAppend(p.worker) {
      NothingLeftMeans(p);
      var first, p1 := ToNextBatch(i, p, st);
      WorkerRunEffect(i, p, st, first, p1, st);
      NothingLeftMeans(p1);
      hide Counts, WorkerStep, WorkerRun;
      var rest := GivesUp(i, p1, st);
      WorkerRunConcat(i, p, st, first, rest);
      events, p' := first + rest, GaveUp(p1);
    } else {
      events, p' := Ends(i, p, st);
    }
  }

  /** A worker that has given up ends. */
  lemma Ends(i: nat, p: Pipe, st: Store) returns (events: seq<WorkerEvent>, p': Pipe)
    requires !MayAppend(p.worker)
    ensures WorkerRun(i, p, st, events) == Some((p', st))
    ensures p'.worker.Exited? && p'.accepted == p.accepted && p'.rowAt == p.rowAt
  {
    if p.worker.Failing? {
      GivenUpIsSteps(i, p, st);
      events, p' := [DropReceiver, Die], GivenUp(p);
    } else if p.worker.Dropped? {
      WorkerRunOne(i, p, st, Die);
      events, p' := [Die], WorkerStep(i, p, st, Die).value.0;
    } else {
      events, p' := [], p;
    }
  }

  lemma PersistedEffect(i: nat, p: Pipe, st: Store, now: int)
    requires p.worker.Writing?
    ensures var p' := Persisted(i, p, st, now);
            p'.worker.Receiving? && p'.accepted == p.accepted && |p'.rowAt| == |p.rowAt| + |p.worker.batch|
  {
  }

  lemma BatchIsNew(p: Pipe)
    requires Counts(p) && p.worker.Writing?
    ensures |p.worker.batch| >= 1 && |p.rowAt| < |p.accepted|
  {
  }

  /** A worker that has not given up can store everything that was accepted, and then waits. */
  lemma {:induction false} WorkerCanStore(i: nat, p: Pipe, st: Store) returns (events: seq<WorkerEvent>, p': Pipe, st': Store)
    requires Counts(p) && SoundWriter(p) && MayAppend(p.worker)
    ensures WorkerRun(i, p, st, events) == Some((p', st'))
    ensures p'.worker.Receiving? && p'.reporter.queue == [] && p'.accepted == p.accepted && |p'.rowAt| == |p.accepted|
    decreases |p.accepted| - |p.rowAt|
  {
    var first, p1 := ToNextBatch(i, p, st);
    WorkerRunEffect(i, p, st, first, p1, st);
    if p1.worker.Writing? {
      BatchIsNew(p1);
      PersistedEffect(i, p1, st, 0);
      hide Counts, WorkerStep, WorkerRun, SoundWriter, Persisted, Appended;
      var p2, st2 := Persisted(i, p1, st, 0), Appended(i, p1, st, 0).1;
      var second := PersistedIsSteps(i, p1, st, 0);
      WorkerRunEffect(i, p1, st, second, p2, st2);
      var rest;
      rest, p', st' := WorkerCanStore(i, p2, st2);
      WorkerRunConcat(i, p1, st, second, rest);
      WorkerRunConcat(i, p, st, first, second + rest);
      events := first + (second + rest);
    } else {
      NothingLeftMeans(p1);
      events, p', st' := first, p1, st;
    }
  }
}
