/**
  What a shutdown that reports success has stored. It drains up to a barrier and
  takes the sender away later; only reports that were accepted in between can be
  lost. Exactly when they can is said twice: for the moment at which the sender
  is taken, and for the moment at which the call begins.
 */
module PipelineShutdown {
  import opened Values
  import opened Metrics
  import opened Pipeline
  import opened PipelineCounts
  import opened PipelineOwnership
  import opened PipelineRows
  import opened PipelineSteps
  import opened PipelineTheorems
  import opened PipelineContinuations
  import opened PipelineStale
  import opened PipelineWorker
  import opened WriteSide

  // ------------------------------------------------------------ the barrier

  predicate InShutdown(control: Control) {
    control.ShutdownDrain? || control.ShutdownCheck? || control.ShutdownTake? || control.ShutdownJoin?
  }

  /** Whatever a shutdown of this client that is done draining was waiting for, it waited for the first `n` reports. */
  predicate Awaits(c: Client, n: nat) {
    && n <= |c.pipe.accepted|
    && (n <= |c.pipe.rowAt|
        || (!c.runs.shutdown && (InShutdown(c.runs.control) ==> DrainsTo(c.runs.control, n))))
  }

  /** The drain is still under way and waits for at least `n` reports, or it has failed. */
  predicate DrainsTo(control: Control, n: nat) {
    match control
    case ShutdownDrain(barrier) => n <= barrier
    case ShutdownTake(drained) => !drained
    case ShutdownJoin(drained) => !drained
    case _ => false
  }

  lemma StepKeepsAwaits(i: nat, c: Client, st: Store, e: Event, c': Client, st': Store, n: nat)
    requires Counts(c.pipe) && Awaits(c, n) && ShutdownStopped(c) && ClientStep(i, c, st, e) == Some((c', st'))
    ensures Awaits(c', n)
  {
    StepKeepsStopped(i, c, st, e, c', st');
    match e {
      case Logger(_, logger) => hide Counts;
      case Work(_, work) => hide Counts, WorkerStep;
      case Command(_, command) => ControlKeepsAwaits(i, c, st, command, c', st', n);
    }
  }

  lemma ControlKeepsAwaits(i: nat, c: Client, st: Store, e: ControlEvent, c': Client, st': Store, n: nat)
    requires Counts(c.pipe) && Awaits(c, n) && ControlStep(i, c, st, e) == Some((c', st'))
    ensures Awaits(c', n)
  {
    assert Counted(c.pipe);
    hide Counts;
    if !e.Crash? && !(e.Advance? && !c.runs.control.Finalizing?) {
      hide ControlStep;
      var (runs', _) := RunsStep(i, c.pipe, c.runs, st, e).value;
      RunsKeepAwaits(i, c, st, e, runs', RunsStep(i, c.pipe, c.runs, st, e).value.1, n);
    }
  }

  lemma RunsKeepAwaits(i: nat, c: Client, st: Store, e: ControlEvent, runs': Runs, st': Store, n: nat)
    requires Counted(c.pipe) && Awaits(c, n) && RunsStep(i, c.pipe, c.runs, st, e) == Some((runs', st'))
    ensures Awaits(c.(runs := runs'), n)
  {
    RunsKeepShutdown(i, c.pipe, c.runs, st, e, runs', st');
    hide FinalizeStep;
    if e.Advance? {
      FinalizeStaysUnraced(i, c.pipe, c.runs, st, runs', st');
    }
  }

  lemma {:induction false} RunKeepsAwaits(s: System, events: seq<Event>, s': System, i: nat, n: nat)
    requires SystemInv(s) && i < |s.clients| && Awaits(s.clients[i], n) && Run(s, events) == Some(s')
    ensures i < |s'.clients| && Awaits(s'.clients[i], n)
    decreases |events|
  {
    hide SystemInv, Apply, Awaits;
    if events != [] {
      var next := Apply(s, events[0]).value;
      ApplyKeepsInv(s, events[0], next);
      ApplyKeepsAwaits(s, events[0], next, i, n);
      RunKeepsAwaits(next, events[1..], s', i, n);
    }
  }

  lemma ApplyKeepsAwaits(s: System, e: Event, s': System, i: nat, n: nat)
    requires SystemInv(s) && i < |s.clients| && Awaits(s.clients[i], n) && Apply(s, e) == Some(s')
    ensures i < |s'.clients| && Awaits(s'.clients[i], n)
  {
    assert MemberInv(i, s.clients[i], s.store);
    hide ClientStep, Awaits, RowsInv, Counts, LocksMatch, Exclusive, FinalizeFacts, RunsRunning, SealedRunsStored, Gated;
    if !e.OpenClient? && e.client == i {
      StepKeepsAwaits(i, s.clients[i], s.store, e, s'.clients[i], s'.store, n);
    }
  }

  /** Everything the client ever accepted is stored. */
  ghost predicate AllStored(s: System, i: nat)
    requires i < |s.clients|
  {
    var p := s.clients[i].pipe;
    forall k :: 0 <= k < |p.accepted| ==> AckedBy(i, p, s.store.rows, k)
  }

  /**
    The barrier of a shutdown is the number of reports accepted when it began,
    and whenever a shutdown of this client later reports success, all of those
    are stored, whatever happened in between.
   */
  lemma ShutdownStoresItsBarrier(s: System, s1: System, s2: System, i: nat)
    requires Reachable(s) && i < |s.clients| && !s.clients[i].runs.shutdown
    requires Apply(s, Command(i, BeginShutdown)) == Some(s1) && Leads(s1, s2)
    ensures s1.clients[i].runs.control == ShutdownDrain(|s.clients[i].pipe.accepted|)
    ensures i < |s2.clients| && s.clients[i].pipe.accepted <= s2.clients[i].pipe.accepted
    ensures s2.clients[i].runs.shutdown ==>
              forall k :: 0 <= k < |s.clients[i].pipe.accepted| ==> AckedBy(i, s2.clients[i].pipe, s2.store.rows, k)
  {
    ReachableInv(s);
    ApplyKeepsInv(s, Command(i, BeginShutdown), s1);
    LeadsKeepsInv(s1, s2);
    var n := |s.clients[i].pipe.accepted|;
    BarrierIsAccepted(s, s1, i);
    var events :| Run(s1, events) == Some(s2);
    hide Apply, SystemInv, Reachable, Leads;
    RunKeepsAwaits(s1, events, s2, i, n);
    RunGrowsLogs(s1, events, s2, i);
    hide Run;
    StoredByCount(s2, i);
  }

  lemma BarrierIsAccepted(s: System, s1: System, i: nat)
    requires SystemInv(s) && i < |s.clients| && !s.clients[i].runs.shutdown
    requires Apply(s, Command(i, BeginShutdown)) == Some(s1)
    ensures s1.clients[i].pipe == s.clients[i].pipe && s1.clients[i].runs.control == ShutdownDrain(|s.clients[i].pipe.accepted|)
    ensures Awaits(s1.clients[i], |s.clients[i].pipe.accepted|)
  {
    assert MemberInv(i, s.clients[i], s.store);
    assert Counted(s.clients[i].pipe);
  }

  lemma StoredByCount(s: System, i: nat)
    requires SystemInv(s) && i < |s.clients|
    ensures var p := s.clients[i].pipe; |p.rowAt| <= |p.accepted| && forall k :: 0 <= k < |p.rowAt| ==> AckedBy(i, p, s.store.rows, k)
  {
    assert MemberInv(i, s.clients[i], s.store);
  }

  // ------------------------------------------------------------ the window

  /** Once the sender is taken away, nothing is accepted any more. */
  lemma StepKeepsClosed(i: nat, c: Client, st: Store, e: Event, c': Client, st': Store)
    requires Gated(c.pipe, c.runs) && !c.pipe.reporter.senderOpen && ClientStep(i, c, st, e) == Some((c', st'))
    ensures !c'.pipe.reporter.senderOpen && c'.pipe.accepted == c.pipe.accepted
  {
    assert c.pipe.sender.Unlocked?;
    match e {
      case Logger(_, logger) =>
      case Work(_, work) =>
        WorkerLeavesLog(i, c.pipe, st, work, c'.pipe, st');
      case Command(_, command) =>
        ControlLeavesPipe(i, c, st, command, c', st');
        hide ControlStep, Gated;
    }
  }

  lemma {:induction false} RunKeepsClosed(s: System, events: seq<Event>, s': System, i: nat)
    requires SystemInv(s) && i < |s.clients| && !s.clients[i].pipe.reporter.senderOpen && Run(s, events) == Some(s')
    ensures i < |s'.clients| && s'.clients[i].pipe.accepted == s.clients[i].pipe.accepted
    decreases |events|
  {
    if events != [] {
      var e, next := events[0], Apply(s, events[0]).value;
      ApplyKeepsInv(s, e, next);
      assert MemberInv(i, s.clients[i], s.store);
      hide ClientStep, SystemInv, Run;
      if !e.OpenClient? && e.client == i {
        StepKeepsClosed(i, s.clients[i], s.store, e, next.clients[i], next.store);
      }
      RunAfter(s, events, s');
      RunKeepsClosed(next, events[1..], s', i);
    }
  }

  /**
    A shutdown loses nothing but what was accepted between its barrier and the
    taking of the sender. If nothing was, it loses nothing: the worker has ended
    well, and no report is pending.
   */
  lemma ShutdownLosesOnlyLateReports(s: System, s1: System, t: System, s2: System, i: nat)
    requires Reachable(s) && i < |s.clients| && !s.clients[i].runs.shutdown
    requires Apply(s, Command(i, BeginShutdown)) == Some(s1) && Leads(s1, t) && Leads(t, s2)
    requires i < |t.clients| && !t.clients[i].pipe.reporter.senderOpen
    requires i < |s2.clients| && s2.clients[i].runs.shutdown
    ensures s2.clients[i].pipe.accepted == t.clients[i].pipe.accepted
    ensures forall k :: 0 <= k < |s2.clients[i].pipe.accepted| && !AckedBy(i, s2.clients[i].pipe, s2.store.rows, k) ==>
              |s.clients[i].pipe.accepted| <= k < |t.clients[i].pipe.accepted|
    ensures |t.clients[i].pipe.accepted| == |s.clients[i].pipe.accepted| ==>
              AllStored(s2, i) && s2.clients[i].pipe.worker == Exited(false, []) && s2.clients[i].pipe.reporter.pending == 0
  {
    ReachableInv(s);
    ApplyKeepsInv(s, Command(i, BeginShutdown), s1);
    LeadsKeepsInv(s1, t);
    LeadsKeepsInv(t, s2);
    LeadsOn(s1, t, s2);
    ShutdownStoresItsBarrier(s, s1, s2, i);
    var events :| Run(t, events) == Some(s2);
    hide Apply, Leads, Reachable;
    RunKeepsClosed(t, events, s2, i);
    assert MemberInv(i, s2.clients[i], s2.store);
    hide Run, SystemInv;
    EndedWell(i, s2.clients[i], s2.store);
  }

  lemma EndedWell(i: nat, c: Client, st: Store)
    requires MemberInv(i, c, st) && c.runs.shutdown
    ensures c.pipe.worker.Exited? && (|c.pipe.rowAt| == |c.pipe.accepted| ==> c.pipe.worker == Exited(false, []))
    ensures |c.pipe.rowAt| == |c.pipe.accepted| && !c.pipe.reporter.senderOpen ==> c.pipe.reporter.pending == 0
    ensures |c.pipe.rowAt| < |c.pipe.accepted| ==> !AckedBy(i, c.pipe, st.rows, |c.pipe.accepted| - 1)
  {
  }

  // ------------------------------------------------------------ exactly when reports can be lost

  lemma StepKeepsSound(i: nat, c: Client, st: Store, e: Event, c': Client, st': Store)
    requires SoundWriter(c.pipe) && ClientStep(i, c, st, e) == Some((c', st'))
    ensures SoundWriter(c'.pipe)
  {
    match e {
      case Logger(_, logger) =>
      case Work(_, work) => WorkerKeepsSound(i, c.pipe, st, work, c'.pipe, st');
      case Command(_, command) =>
        ControlLeavesPipe(i, c, st, command, c', st');
        hide ControlStep;
    }
  }

  ghost predicate AllSound(s: System) {
    forall i :: 0 <= i < |s.clients| ==> SoundWriter(s.clients[i].pipe)
  }

  lemma ApplyKeepsSound(s: System, e: Event, s': System)
    requires AllSound(s) && Apply(s, e) == Some(s')
    ensures AllSound(s')
  {
    hide ClientStep;
    if !e.OpenClient? {
      StepKeepsSound(e.client, s.clients[e.client], s.store, e, s'.clients[e.client], s'.store);
    }
  }

  lemma {:induction false} RunKeepsSound(s: System, events: seq<Event>, s': System)
    requires AllSound(s) && Run(s, events) == Some(s')
    ensures AllSound(s')
    decreases |events|
  {
    hide Apply, AllSound;
    if events != [] {
      var next := Apply(s, events[0]).value;
      ApplyKeepsSound(s, events[0], next);
      RunKeepsSound(next, events[1..], s');
    }
  }

  lemma ReachableSound(s: System)
    requires Reachable(s)
    ensures AllSound(s)
  {
    var events :| Run(INITIAL, events) == Some(s);
    RunKeepsSound(INITIAL, events, s);
  }

  /** However the shutdown goes on, if it reports success everything accepted is stored. */
  ghost predicate Lossless(s: System, i: nat) {
    forall s' :: Leads(s, s') && i < |s'.clients| && s'.clients[i].runs.shutdown ==> AllStored(s', i)
  }

  /** The worker fails on what is left, and the shutdown then reports success. */
  lemma LosesWhatIsLeft(s: System, i: nat) returns (s': System)
    requires SystemInv(s) && i < |s.clients| && s.clients[i].alive && s.clients[i].runs.control == ShutdownJoin(true)
    requires !NothingLeft(s.clients[i].pipe) && SoundWriter(s.clients[i].pipe)
    ensures LeadsCalmly(s, s', i) && i < |s'.clients| && s'.clients[i].runs.shutdown && !AllStored(s', i)
  {
    var c := s.clients[i];
    assert MemberInv(i, c, s.store);
    NothingLeftMeans(c.pipe);
    var events, p' := WorkerCanFail(i, c.pipe, s.store);
    CalmlyNowhere(s, i);
    assert s.clients[i := c] == s.clients;
    hide LeadsCalmly, SystemInv, MemberInv, WorkerStep, WorkerRun, Counts, NothingLeft, SoundWriter;
    WorksCalmly(s, s.clients, i, c, s.store, events, p', s.store);
    var done := p'.(reporter := p'.reporter.(writer := WriterClosed));
    var c2 := c.(pipe := done, runs := c.runs.(control := Idle, active := map[], shutdown := true));
    MovesCalmly(s, s.clients, i, c.(pipe := p'), s.store, Command(i, Advance), c2, UnlockAll(s.store, i));
    s' := With(s.clients, i, c2, UnlockAll(s.store, i));
    assert s'.clients[i] == c2 && !AckedBy(i, c2.pipe, s'.store.rows, |c2.pipe.accepted| - 1);
  }

  /**
    The exact condition. Once a drained shutdown has taken the sender away, it is
    sure to lose nothing if and only if at that moment the queue is empty and the
    worker holds no batch: the drain's check has to be made again, after no
    report can be accepted any more.
   */
  lemma ShutdownIsLosslessExactly(s: System, i: nat)
    requires Reachable(s) && i < |s.clients| && s.clients[i].alive && s.clients[i].runs.control == ShutdownJoin(true)
    ensures Lossless(s, i) <==> NothingLeft(s.clients[i].pipe)
  {
    ReachableInv(s);
    var p := s.clients[i].pipe;
    assert MemberInv(i, s.clients[i], s.store);
    NothingLeftMeans(p);
    hide Leads, LeadsCalmly, SystemInv, MemberInv, Counts;
    if NothingLeft(p) {
      forall s' | Leads(s, s') && i < |s'.clients| && s'.clients[i].runs.shutdown ensures AllStored(s', i) {
        StaysStored(s, s', i);
      }
    } else {
      ReachableSound(s);
      var s' := LosesWhatIsLeft(s, i);
      CalmLeads(s, s', i);
    }
  }

  lemma StaysStored(s: System, s': System, i: nat)
    requires SystemInv(s) && i < |s.clients| && s.clients[i].alive && s.clients[i].runs.control == ShutdownJoin(true)
    requires |s.clients[i].pipe.rowAt| == |s.clients[i].pipe.accepted| && Leads(s, s')
    ensures i < |s'.clients| && AllStored(s', i)
  {
    var events :| Run(s, events) == Some(s');
    assert MemberInv(i, s.clients[i], s.store);
    LeadsKeepsInv(s, s');
    hide SystemInv, Apply;
    RunGrowsLogs(s, events, s', i);
    RunKeepsClosed(s, events, s', i);
    StoredByCount(s', i);
  }

  // ------------------------------------------------------------ the same where the call begins

  /** No logging thread is inside a gate of the client, and none can enter one. */
  ghost predicate NobodyCanLog(runs: Runs) {
    forall o :: 0 <= o < |runs.objs| ==> !(runs.objs[o].published && runs.objs[o].admission.Open?)
  }

  predicate WorkerGone(w: Worker) {
    w.Failing? || w.Dropped? || (w.Exited? && w.failed)
  }

  /** However this call goes on, unless its drain fails: if it reports success, everything accepted is stored. */
  ghost predicate CallIsLossless(s: System, i: nat) {
    forall s' :: LeadsCalmly(s, s', i) && i < |s'.clients| && s'.clients[i].runs.shutdown ==> AllStored(s', i)
  }

  /** Nothing is accepted any more: no thread can log during the call, or the sender is gone. */
  ghost predicate Sealed(c: Client, accepted: seq<Report>) {
    c.pipe.accepted == accepted && (!c.pipe.reporter.senderOpen || (BeforeTake(c.runs.control) && NobodyCanLog(c.runs)) || !c.alive)
  }

  /** The shutdown has not taken the sender yet. */
  predicate BeforeTake(control: Control) {
    control.ShutdownDrain? || control.ShutdownCheck? || control.ShutdownTake?
  }

  lemma StepKeepsSealed(i: nat, c: Client, st: Store, e: Event, c': Client, st': Store, accepted: seq<Report>)
    requires Gated(c.pipe, c.runs) && c.alive && Sealed(c, accepted) && ClientStep(i, c, st, e) == Some((c', st')) && e != Command(i, Fail)
    requires !e.OpenClient? && e.client == i
    ensures Sealed(c', accepted)
  {
    if !c.pipe.reporter.senderOpen {
      StepKeepsClosed(i, c, st, e, c', st');
    } else {
      assert c.pipe.sender.Unlocked?;
      match e {
        case Logger(_, logger) =>
        case Work(_, work) => WorkerLeavesLog(i, c.pipe, st, work, c'.pipe, st');
        case Command(_, command) => ShutdownKeepsSealed(i, c, st, command, c', st', accepted);
      }
    }
  }

  lemma ShutdownKeepsSealed(i: nat, c: Client, st: Store, e: ControlEvent, c': Client, st': Store, accepted: seq<Report>)
    requires c.alive && c.pipe.reporter.senderOpen && Sealed(c, accepted) && ControlStep(i, c, st, e) == Some((c', st')) && !e.Fail?
    ensures Sealed(c', accepted)
  {
    hide FinalizeStep;
  }

  lemma {:induction false} RunKeepsSealed(s: System, events: seq<Event>, s': System, i: nat, accepted: seq<Report>)
    requires SystemInv(s) && i < |s.clients| && Sealed(s.clients[i], accepted) && Run(s, events) == Some(s') && Calm(events, i)
    ensures i < |s'.clients| && s'.clients[i].pipe.accepted == accepted
    decreases |events|
  {
    if events != [] {
      hide SystemInv, Sealed, Apply;
      RunAfter(s, events, s');
      var e, next := events[0], Apply(s, events[0]).value;
      ApplyKeepsInv(s, e, next);
      ApplyKeepsSealed(s, e, next, i, accepted);
      assert Calm(events[1..], i);
      RunKeepsSealed(next, events[1..], s', i, accepted);
    }
  }

  lemma ApplyKeepsSealed(s: System, e: Event, s': System, i: nat, accepted: seq<Report>)
    requires SystemInv(s) && i < |s.clients| && Sealed(s.clients[i], accepted) && Apply(s, e) == Some(s') && e != Command(i, Fail)
    ensures i < |s'.clients| && Sealed(s'.clients[i], accepted)
  {
    hide ClientStep, SystemInv, Sealed;
    if !e.OpenClient? && e.client == i {
      CountsOf(s, i);
      StepKeepsSealed(i, s.clients[i], s.store, e, s'.clients[i], s'.store, accepted);
    }
  }

  /** The drain waits for a report that the worker will never store. */
  predicate Stuck(c: Client, n: nat) {
    !c.runs.shutdown && (c.alive ==> c.runs.control == ShutdownDrain(n) && WorkerGone(c.pipe.worker) && |c.pipe.rowAt| < n)
  }

  lemma StepKeepsStuck(i: nat, c: Client, st: Store, e: Event, c': Client, st': Store, n: nat)
    requires Counts(c.pipe) && c.alive && Stuck(c, n) && ClientStep(i, c, st, e) == Some((c', st')) && e != Command(i, Fail)
    requires !e.OpenClient? && e.client == i
    ensures Stuck(c', n)
  {
    match e {
      case Logger(_, logger) => hide Counts;
      case Work(_, work) => hide Counts;
      case Command(_, command) =>
        assert c.pipe.reporter.through <= |c.pipe.rowAt|;
        hide Counts;
        DrainStaysStuck(i, c, st, command, c', st', n);
    }
  }

  lemma DrainStaysStuck(i: nat, c: Client, st: Store, e: ControlEvent, c': Client, st': Store, n: nat)
    requires c.alive && Stuck(c, n) && c.pipe.reporter.through <= |c.pipe.rowAt| && ControlStep(i, c, st, e) == Some((c', st')) && !e.Fail?
    ensures Stuck(c', n)
  {
    hide FinalizeStep;
  }

  lemma {:induction false} RunKeepsStuck(s: System, events: seq<Event>, s': System, i: nat, n: nat)
    requires SystemInv(s) && i < |s.clients| && Stuck(s.clients[i], n) && Run(s, events) == Some(s') && Calm(events, i)
    ensures i < |s'.clients| && !s'.clients[i].runs.shutdown
    decreases |events|
  {
    if events != [] {
      hide SystemInv, Stuck, Apply;
      RunAfter(s, events, s');
      var e, next := events[0], Apply(s, events[0]).value;
      ApplyKeepsInv(s, e, next);
      ApplyKeepsStuck(s, e, next, i, n);
      assert Calm(events[1..], i);
      RunKeepsStuck(next, events[1..], s', i, n);
    }
  }

  lemma ApplyKeepsStuck(s: System, e: Event, s': System, i: nat, n: nat)
    requires SystemInv(s) && i < |s.clients| && Stuck(s.clients[i], n) && Apply(s, e) == Some(s') && e != Command(i, Fail)
    ensures i < |s'.clients| && Stuck(s'.clients[i], n)
  {
    hide ClientStep, SystemInv, Stuck;
    if !e.OpenClient? && e.client == i {
      CountsOf(s, i);
      StepKeepsStuck(i, s.clients[i], s.store, e, s'.clients[i], s'.store, n);
    }
  }

  lemma CountsOf(s: System, i: nat)
    requires SystemInv(s) && i < |s.clients|
    ensures Counts(s.clients[i].pipe) && Gated(s.clients[i].pipe, s.clients[i].runs)
  {
    assert MemberInv(i, s.clients[i], s.store);
  }

  lemma LosslessWhenSealed(s1: System, i: nat)
    requires SystemInv(s1) && i < |s1.clients| && Awaits(s1.clients[i], |s1.clients[i].pipe.accepted|)
    requires s1.clients[i].runs.control.ShutdownDrain? && NobodyCanLog(s1.clients[i].runs)
    ensures CallIsLossless(s1, i)
  {
    forall s' | LeadsCalmly(s1, s', i) && i < |s'.clients| && s'.clients[i].runs.shutdown ensures AllStored(s', i) {
      var events :| Run(s1, events) == Some(s') && Calm(events, i);
      SealedIsStored(s1, events, s', i);
    }
  }

  lemma SealedIsStored(s1: System, events: seq<Event>, s': System, i: nat)
    requires SystemInv(s1) && i < |s1.clients| && Awaits(s1.clients[i], |s1.clients[i].pipe.accepted|)
    requires s1.clients[i].runs.control.ShutdownDrain? && NobodyCanLog(s1.clients[i].runs)
    requires Run(s1, events) == Some(s') && Calm(events, i) && i < |s'.clients| && s'.clients[i].runs.shutdown
    ensures AllStored(s', i)
  {
    var accepted := s1.clients[i].pipe.accepted;
    assert Sealed(s1.clients[i], accepted);
    hide SystemInv, Run, Apply, Calm, NobodyCanLog, Sealed;
    RunKeepsSealed(s1, events, s', i, accepted);
    RunKeepsAwaits(s1, events, s', i, |accepted|);
    RunKeepsInv(s1, events, s');
    StoredByCount(s', i);
  }

  lemma LosslessWhenStuck(s1: System, i: nat)
    requires SystemInv(s1) && i < |s1.clients| && Stuck(s1.clients[i], |s1.clients[i].pipe.accepted|)
    ensures CallIsLossless(s1, i)
  {
    var n := |s1.clients[i].pipe.accepted|;
    forall s' | LeadsCalmly(s1, s', i) && i < |s'.clients| ensures !s'.clients[i].runs.shutdown {
      var events :| Run(s1, events) == Some(s') && Calm(events, i);
      RunKeepsStuck(s1, events, s', i, n);
    }
  }

  lemma GoneIsStuck(p: Pipe)
    requires Counts(p) && WorkerGone(p.worker)
    ensures |p.rowAt| < |p.accepted|
  {
  }

  /** A client whose shutdown has drained, at rest, with a thread inside the gate of `o`. */
  predicate AboutToTake(c: Client, o: nat) {
    && c.alive && c.runs.control == ShutdownTake(true) && o < |c.runs.objs| && c.runs.objs[o].gate.Held? && CanSend(c.pipe)
  }

  /** The worker stores everything, and waits for more. */
  lemma EverythingGetsStored(s: System, i: nat) returns (p: Pipe, st: Store)
    requires SystemInv(s) && i < |s.clients| && s.clients[i].alive && SoundWriter(s.clients[i].pipe) && MayAppend(s.clients[i].pipe.worker)
    requires s.clients[i].pipe.sender.Unlocked? && s.clients[i].pipe.reporter.senderOpen
    ensures LeadsCalmly(s, With(s.clients, i, s.clients[i].(pipe := p), st), i)
    ensures CanSend(p) && p.reporter.through == |s.clients[i].pipe.accepted|
  {
    var c := s.clients[i];
    assert MemberInv(i, c, s.store);
    var events;
    events, p, st := WorkerCanStore(i, c.pipe, s.store);
    WorkerRunEffect(i, c.pipe, s.store, events, p, st);
    assert p.reporter.through == |p.accepted| && CanSend(p);
    CalmlyNowhere(s, i);
    assert s.clients[i := c] == s.clients;
    hide LeadsCalmly, SystemInv, MemberInv, WorkerRun, Counts, CanSend, SoundWriter;
    WorksCalmly(s, s.clients, i, c, s.store, events, p, st);
  }

  /** The drain of the call ends well. */
  lemma DrainEndsWell(s: System, clients: seq<Client>, i: nat, c: Client, st: Store)
    requires i < |clients| && LeadsCalmly(s, With(clients, i, c, st), i) && c.alive && CanSend(c.pipe)
    requires c.runs.control == ShutdownDrain(c.pipe.reporter.through)
    ensures LeadsCalmly(s, With(clients, i, c.(runs := c.runs.(control := ShutdownTake(true))), st), i)
  {
    hide LeadsCalmly;
    var c1 := c.(runs := c.runs.(control := ShutdownCheck));
    MovesCalmly(s, clients, i, c, st, Command(i, Advance), c1, st);
    MovesCalmly(s, clients, i, c1, st, Command(i, Advance), c.(runs := c.runs.(control := ShutdownTake(true))), st);
  }

  /** A logging thread is inside the gate before the sender is taken. */
  lemma DrainsThenEnters(s: System, i: nat, o: nat) returns (c: Client, st: Store)
    requires SystemInv(s) && i < |s.clients| && s.clients[i].alive && SoundWriter(s.clients[i].pipe)
    requires MayAppend(s.clients[i].pipe.worker) && s.clients[i].pipe.sender.Unlocked? && s.clients[i].pipe.reporter.senderOpen
    requires s.clients[i].runs.control == ShutdownDrain(|s.clients[i].pipe.accepted|)
    requires o < |s.clients[i].runs.objs| && s.clients[i].runs.objs[o].published && s.clients[i].runs.objs[o].admission.Open?
    ensures LeadsCalmly(s, With(s.clients, i, c, st), i) && AboutToTake(c, o)
  {
    hide LeadsCalmly, SystemInv, CanSend, SoundWriter;
    var p, st1 := EverythingGetsStored(s, i);
    var c0 := s.clients[i].(pipe := p);
    DrainEndsWell(s, s.clients, i, c0, st1);
    c, st := c0.(runs := c0.runs.(control := ShutdownTake(true))), st1;
    if !c.runs.objs[o].gate.Held? {
      var c' := c.(runs := SetGate(c.runs, o, Held("k", 0, NotANumber)));
      MovesCalmly(s, s.clients, i, c, st, Logger(i, Enter(o, "k", 0, NotANumber)), c', st);
      c := c';
    }
  }

  /** The late report gets into the queue, and the sender is taken away. */
  lemma LateReportIsLeft(s: System, i: nat, o: nat, c: Client, st: Store) returns (t: System)
    requires i < |s.clients| && LeadsCalmly(s, With(s.clients, i, c, st), i) && AboutToTake(c, o)
    ensures LeadsCalmly(s, t, i) && i < |t.clients| && t.clients[i].alive && t.clients[i].runs.control == ShutdownJoin(true)
    ensures !NothingLeft(t.clients[i].pipe)
  {
    hide LeadsCalmly;
    ReportsHeld(s, s.clients, i, c, st, o, 0);
    var gate := c.runs.objs[o].gate;
    var p := Enqueued(c.pipe, NextReport(c.pipe, c.runs.objs[o].run, gate.key, gate.step, gate.value, 0));
    var c1 := c.(pipe := p, runs := SetGate(c.runs, o, Free));
    var c2 := c1.(pipe := p.(reporter := p.reporter.(senderOpen := false)), runs := c1.runs.(control := ShutdownJoin(true)));
    MovesCalmly(s, s.clients, i, c1, st, Command(i, Advance), c2, st);
    t := With(s.clients, i, c2, st);
    assert t.clients[i] == c2 && p.reporter.queue != [];
  }

  lemma LosesThroughOpenGate(s: System, i: nat, o: nat)
    requires Reachable(s) && i < |s.clients| && s.clients[i].alive
    requires MayAppend(s.clients[i].pipe.worker) && s.clients[i].pipe.sender.Unlocked? && s.clients[i].pipe.reporter.senderOpen
    requires s.clients[i].runs.control == ShutdownDrain(|s.clients[i].pipe.accepted|)
    requires o < |s.clients[i].runs.objs| && s.clients[i].runs.objs[o].published && s.clients[i].runs.objs[o].admission.Open?
    ensures !CallIsLossless(s, i)
  {
    ReachableInv(s);
    ReachableSound(s);
    hide SystemInv, LeadsCalmly, Leads;
    var c, st := DrainsThenEnters(s, i, o);
    var t := LateReportIsLeft(s, i, o, c, st);
    CalmLeads(s, t, i);
    LeadsOn(INITIAL, s, t);
    ReachableInv(t);
    ReachableSound(t);
    var s' := LosesWhatIsLeft(t, i);
    CalmlyOn(s, t, s', i);
    assert LeadsCalmly(s, s', i) && !AllStored(s', i);
  }

  /**
    The exact condition at the start of the call. Take the state right after a
    shutdown has begun and read its barrier, on a client whose sender is open.
    However the call goes on from there, a success means that everything accepted
    is stored, if and only if no run of the client has an open gate that a
    logging thread can use, or the worker has already given up, in which case the
    call cannot succeed.
   */
  lemma ShutdownCallIsLosslessExactly(s: System, s1: System, i: nat)
    requires Reachable(s) && i < |s.clients| && !s.clients[i].runs.shutdown && s.clients[i].pipe.reporter.senderOpen
    requires Apply(s, Command(i, BeginShutdown)) == Some(s1)
    ensures i < |s1.clients| && (CallIsLossless(s1, i) <==> NobodyCanLog(s.clients[i].runs) || WorkerGone(s.clients[i].pipe.worker))
  {
    ReachableInv(s);
    ApplyKeepsInv(s, Command(i, BeginShutdown), s1);
    BarrierIsAccepted(s, s1, i);
    Begun(s, s1, i);
    Then(INITIAL, s, Command(i, BeginShutdown), s1);
    assert MemberInv(i, s1.clients[i], s1.store);
    var p := s1.clients[i].pipe;
    WorkerStates(p);
    hide SystemInv, MemberInv, Apply, Leads, LeadsCalmly, CallIsLossless;
    if NobodyCanLog(s.clients[i].runs) {
      LosslessWhenSealed(s1, i);
    } else if WorkerGone(p.worker) {
      GoneIsStuck(p);
      LosslessWhenStuck(s1, i);
    } else {
      var o :| 0 <= o < |s.clients[i].runs.objs| && s.clients[i].runs.objs[o].published && s.clients[i].runs.objs[o].admission.Open?;
      LosesThroughOpenGate(s1, i, o);
    }
  }

  lemma WorkerStates(p: Pipe)
    requires Counts(p) && p.reporter.senderOpen
    ensures WorkerGone(p.worker) || MayAppend(p.worker)
  {
  }

  lemma Begun(s: System, s1: System, i: nat)
    requires i < |s.clients| && Apply(s, Command(i, BeginShutdown)) == Some(s1)
    ensures |s1.clients| == |s.clients| && s.clients[i].alive && s.clients[i].pipe.sender.Unlocked?
    ensures s1.clients[i] == s.clients[i].(runs := s.clients[i].runs.(control := ShutdownDrain(Barrier(s.clients[i].pipe.reporter))))
  {
  }
}
