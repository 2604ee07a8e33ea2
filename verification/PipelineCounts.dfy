/**
  Numbering, queue order and counters of one client: what every step keeps.
 */
module PipelineCounts {
  import opened Values
  import opened Metrics
  import opened Pipeline

  /** Accepted sequences are 1, 2, 3, ... in queue order. */
  ghost predicate Numbered(accepted: seq<Report>) {
    forall k :: 0 <= k < |accepted| ==> accepted[k].sequence == k + 1
  }

  predicate HoldsBatch(w: Worker) {
    !w.Starting? && !w.Receiving? && (w.Exited? ==> w.failed)
  }

  /** `part` is what was accepted from position `from` on. */
  ghost predicate FoundAt(accepted: seq<Report>, from: nat, part: seq<Report>) {
    from + |part| <= |accepted| && forall k :: 0 <= k < |part| ==> part[k] == accepted[from + k]
  }

  /** What is stored, in hand and queued is the accepted log, in order. */
  ghost predicate InOrderOfAcceptance(accepted: seq<Report>, stored: nat, w: Worker, queue: seq<Report>) {
    && FoundAt(accepted, stored, InHand(w))
    && FoundAt(accepted, stored + |InHand(w)|, queue)
    && |Acknowledged(w)| <= stored
    && FoundAt(accepted, stored - |Acknowledged(w)|, Acknowledged(w))
    && (if ReceiverAlive(w) then stored + |InHand(w)| + |queue| == |accepted| else queue == [])
    && (HoldsBatch(w) ==> w.batch != [])
    && (w.Starting? ==> stored == 0)
    && (w == Exited(false, []) ==> stored == |accepted|)
    && (w.Exited? && !w.failed ==> w.batch == [])
  }

  /** The diagnostics counters, exactly, in every state in between as well. */
  predicate Counted(p: Pipe) {
    var stored, w, r := |p.rowAt|, p.worker, p.reporter;
    && r.persisted == stored - (if w.Counting? then |w.batch| else 0)
    && r.through == stored - (if w.Counting? || w.Marking? then |w.batch| else 0)
    && r.pending == |p.accepted| - stored + |Acknowledged(w)| + (if p.sender.Stamped? then 1 else 0)
    && r.nextSequence == |p.accepted| + (if p.sender.Pushed? then 0 else 1)
    && (p.sender.Pushed? ==> |p.accepted| > 0)
    && (p.sender.Stamped? ==> p.sender.report.sequence == r.nextSequence)
    && (w.Exited? && !w.failed ==> !r.senderOpen)
  }

  ghost predicate Counts(p: Pipe) {
    Numbered(p.accepted) && InOrderOfAcceptance(p.accepted, |p.rowAt|, p.worker, p.reporter.queue) && Counted(p)
  }

  lemma LoggerKeepsCounts(p: Pipe, runs: Runs, e: LoggerEvent, p': Pipe, runs': Runs)
    requires Counts(p) && LoggerStep(p, runs, e) == Some((p', runs'))
    ensures Counts(p')
  {
    if e.Push? {
      PushKeepsOrder(p.accepted, |p.rowAt|, p.worker, p.reporter.queue, p.sender.report);
      hide InOrderOfAcceptance;
    } else {
      QuietLoggerKeepsLog(p, runs, e, p', runs');
      hide InOrderOfAcceptance, Numbered;
    }
  }

  lemma QuietLoggerKeepsLog(p: Pipe, runs: Runs, e: LoggerEvent, p': Pipe, runs': Runs)
    requires LoggerStep(p, runs, e) == Some((p', runs')) && !e.Push?
    ensures p'.accepted == p.accepted && p'.rowAt == p.rowAt && p'.worker == p.worker && p'.reporter.queue == p.reporter.queue
  {
  }

  /** A report that enters the queue is the last one accepted. */
  lemma PushKeepsOrder(accepted: seq<Report>, stored: nat, w: Worker, queue: seq<Report>, report: Report)
    requires InOrderOfAcceptance(accepted, stored, w, queue) && ReceiverAlive(w)
    ensures InOrderOfAcceptance(accepted + [report], stored, w, queue + [report])
  {
  }

  lemma CollectingKeepsCounts(i: nat, p: Pipe, st: Store, e: WorkerEvent, p': Pipe, st': Store)
    requires Counts(p) && WorkerStep(i, p, st, e) == Some((p', st'))
    requires e.Start? || e.TakeFirst? || e.TakeMore? || e.StopCollecting?
    ensures Counts(p')
  {
    CollectingKeepsOrder(i, p, st, e, p', st');
    hide InOrderOfAcceptance, Numbered;
  }

  lemma CollectingKeepsOrder(i: nat, p: Pipe, st: Store, e: WorkerEvent, p': Pipe, st': Store)
    requires Counts(p) && WorkerStep(i, p, st, e) == Some((p', st'))
    requires e.Start? || e.TakeFirst? || e.TakeMore? || e.StopCollecting?
    ensures InOrderOfAcceptance(p'.accepted, |p'.rowAt|, p'.worker, p'.reporter.queue)
  {
    CollectingEffect(i, p, st, e, p', st');
    hide Counted, Numbered, WorkerStep, InOrderOfAcceptance;
    if e.TakeFirst? || e.TakeMore? {
      TakenKeepsOrder(p.accepted, |p.rowAt|, p.worker, p.reporter.queue);
    } else {
      SameHandKeepsOrder(p.accepted, |p.rowAt|, p.worker, p'.worker, p.reporter.queue);
    }
  }

  lemma CollectingEffect(i: nat, p: Pipe, st: Store, e: WorkerEvent, p': Pipe, st': Store)
    requires (e.Start? || e.TakeFirst? || e.TakeMore? || e.StopCollecting?) && WorkerStep(i, p, st, e) == Some((p', st'))
    ensures p'.accepted == p.accepted && p'.rowAt == p.rowAt
    ensures e.TakeFirst? || e.TakeMore? ==>
              && p.reporter.queue != [] && (p.worker.Receiving? || p.worker.Collecting?)
              && p'.reporter.queue == p.reporter.queue[1..] && p'.worker == Collecting(InHand(p.worker) + [p.reporter.queue[0]])
    ensures e.Start? || e.StopCollecting? ==> p'.reporter.queue == p.reporter.queue && SameHand(p.worker, p'.worker)
  {
  }

  predicate SameHand(w: Worker, w': Worker) {
    (w.Starting? && w'.Receiving?) || (w.Collecting? && w' == Writing(w.batch, 0))
  }

  lemma SameHandKeepsOrder(accepted: seq<Report>, stored: nat, w: Worker, w': Worker, queue: seq<Report>)
    requires InOrderOfAcceptance(accepted, stored, w, queue) && SameHand(w, w')
    ensures InOrderOfAcceptance(accepted, stored, w', queue)
  {
    hide FoundAt;
  }

  lemma TakenKeepsOrder(accepted: seq<Report>, stored: nat, w: Worker, queue: seq<Report>)
    requires InOrderOfAcceptance(accepted, stored, w, queue) && queue != [] && (w.Receiving? || w.Collecting?)
    ensures InOrderOfAcceptance(accepted, stored, Collecting(InHand(w) + [queue[0]]), queue[1..])
  {
    OneMoves(accepted, stored, InHand(w), queue);
    hide FoundAt;
    assert |InHand(w) + [queue[0]]| == |InHand(w)| + 1;
  }

  /** Moving the first queued report to the end of the batch keeps both in order of acceptance. */
  lemma OneMoves(accepted: seq<Report>, from: nat, batch: seq<Report>, queue: seq<Report>)
    requires FoundAt(accepted, from, batch) && FoundAt(accepted, from + |batch|, queue) && queue != []
    ensures FoundAt(accepted, from, batch + [queue[0]]) && FoundAt(accepted, from + |batch| + 1, queue[1..])
    ensures batch == [] ==> batch + [queue[0]] == [queue[0]]
  {
  }

  lemma AppendKeepsCounts(i: nat, p: Pipe, st: Store, now: int)
    requires Counts(p) && p.worker.Writing?
    ensures Counts(Appended(i, p, st, now).0)
  {
    var batch, p' := p.worker.batch, Appended(i, p, st, now).0;
    AppendKeepsOrder(p.accepted, |p.rowAt|, p.worker, p.reporter.queue);
    assert p'.accepted == p.accepted && p'.worker == Counting(batch) && |p'.rowAt| == |p.rowAt| + |batch|;
    assert p'.reporter == p.reporter.(writer := WriterRunning) && p'.sender == p.sender;
    hide InOrderOfAcceptance, Numbered, Appended;
  }

  /** An acknowledged batch counts as stored. */
  lemma AppendKeepsOrder(accepted: seq<Report>, stored: nat, w: Worker, queue: seq<Report>)
    requires InOrderOfAcceptance(accepted, stored, w, queue) && w.Writing?
    ensures InOrderOfAcceptance(accepted, stored + |w.batch|, Counting(w.batch), queue)
  {
    FoundNothing(accepted, stored + |w.batch|);
    hide FoundAt;
  }

  lemma AppendErrorKeepsCounts(i: nat, p: Pipe, st: Store, now: int, committed: nat)
    requires Counts(p) && p.worker.Writing? && committed <= |p.worker.batch|
    ensures Counts(AppendFailed(i, p, st, now, committed).0)
  {
  }

  lemma SettlingKeepsCounts(i: nat, p: Pipe, st: Store, e: WorkerEvent, p': Pipe, st': Store)
    requires Counts(p) && WorkerStep(i, p, st, e) == Some((p', st'))
    requires e.CountPersisted? || e.MarkThrough? || e.SettlePending?
    ensures Counts(p')
  {
    SettlingKeepsOrder(p.accepted, |p.rowAt|, p.worker, p'.worker, p.reporter.queue);
    if e.MarkThrough? {
      var batch := p.worker.batch;
      assert p.accepted[|p.rowAt| - |batch| + (|batch| - 1)] == batch[|batch| - 1];
    }
    hide InOrderOfAcceptance;
  }

  /** The acknowledged batch goes through the counters unchanged, and is dropped at the end. */
  lemma SettlingKeepsOrder(accepted: seq<Report>, stored: nat, w: Worker, w': Worker, queue: seq<Report>)
    requires InOrderOfAcceptance(accepted, stored, w, queue)
    requires (w.Counting? && w' == Marking(w.batch)) || (w.Marking? && w' == Settling(w.batch)) || (w.Settling? && w'.Receiving?)
    ensures InOrderOfAcceptance(accepted, stored, w', queue)
  {
    hide FoundAt;
    assert FoundAt(accepted, stored, []) by { FoundNothing(accepted, stored); }
  }

  lemma FoundNothing(accepted: seq<Report>, from: nat)
    requires from <= |accepted|
    ensures FoundAt(accepted, from, [])
  {
  }

  lemma StoppingKeepsCounts(i: nat, p: Pipe, st: Store, e: WorkerEvent, p': Pipe, st': Store)
    requires Counts(p) && WorkerStep(i, p, st, e) == Some((p', st'))
    requires e.DropReceiver? || e.Die? || e.Hangup?
    ensures Counts(p')
  {
  }

  lemma WorkerKeepsCounts(i: nat, p: Pipe, st: Store, e: WorkerEvent, p': Pipe, st': Store)
    requires Counts(p) && WorkerStep(i, p, st, e) == Some((p', st'))
    ensures Counts(p')
  {
    match e {
      case Append(now) => AppendKeepsCounts(i, p, st, now);
      case AppendError(now, committed) => AppendErrorKeepsCounts(i, p, st, now, committed);
      case _ =>
        if e.CountPersisted? || e.MarkThrough? || e.SettlePending? {
          SettlingKeepsCounts(i, p, st, e, p', st');
        } else if e.DropReceiver? || e.Die? || e.Hangup? {
          StoppingKeepsCounts(i, p, st, e, p', st');
        } else {
          CollectingKeepsCounts(i, p, st, e, p', st');
        }
    }
  }

  /** The control thread touches the write side only to shut it down. */
  lemma ControlLeavesPipe(i: nat, c: Client, st: Store, e: ControlEvent, c': Client, st': Store)
    requires ControlStep(i, c, st, e) == Some((c', st'))
    ensures c'.pipe == c.pipe || (e.Advance? && !c.runs.control.Finalizing?)
    ensures e.Advance? && !c.runs.control.Finalizing? ==> ShutdownStep(i, c, st) == Some((c', st'))
  {
  }

  lemma ShutdownKeepsCounts(i: nat, c: Client, st: Store, c': Client, st': Store)
    requires Counts(c.pipe) && ShutdownStep(i, c, st) == Some((c', st'))
    ensures Counts(c'.pipe)
  {
    var r := c'.pipe.reporter;
    assert c'.pipe == c.pipe.(reporter := c.pipe.reporter.(senderOpen := r.senderOpen, writer := r.writer));
    assert r.senderOpen ==> c.pipe.reporter.senderOpen;
    hide InOrderOfAcceptance, Numbered, ShutdownStep;
  }
}
