/**
  What holds over every run of the whole system: any number of clients, any
  interleaving, any clock, any failures.
 */
module PipelineTheorems {
  import opened Values
  import opened Metrics
  import opened Pipeline
  import opened PipelineOwnership
  import opened PipelineSteps
  import opened PipelineRows

  // ----------------------------------------------------------------- the system invariant

  /** Client numbers that occur in the store are clients of the system. */
  ghost predicate KnownClients(s: System) {
    && (forall run :: run in s.store.locks ==> s.store.locks[run].client < |s.clients|)
    && (forall run :: run in s.store.sealedBy ==> s.store.sealedBy[run] < |s.clients|)
    && (forall a :: 0 <= a < |s.store.rows| ==> s.store.rows[a].client < |s.clients|)
  }

  /** A client that reported a successful shutdown has stopped its worker. */
  predicate ShutdownStopped(c: Client) {
    c.runs.shutdown ==> c.pipe.worker.Exited?
  }

  ghost predicate MemberInv(i: nat, c: Client, st: Store) {
    ClientInv(i, c, st) && RowsInv(i, c.pipe, st) && ShutdownStopped(c)
  }

  ghost predicate SystemInv(s: System) {
    && StoreInv(s.store) && TableInv(s.store) && KnownClients(s)
    && forall i :: 0 <= i < |s.clients| ==> MemberInv(i, s.clients[i], s.store)
  }

  lemma InitialInv()
    ensures SystemInv(INITIAL)
  {
  }

  lemma NewClientInv(i: nat, capacity: nat, s: System)
    requires KnownClients(s) && TableInv(s.store) && i == |s.clients|
    ensures MemberInv(i, NewClient(capacity), s.store)
  {
    forall b | b in s.store.acked ensures b < |s.store.rows| && s.store.rows[b].client != i {
      var k :| 0 <= k < |s.store.acked| && s.store.acked[k] == b;
    }
  }

  lemma StepKeepsTable(i: nat, c: Client, st: Store, e: Event, c': Client, st': Store)
    requires MemberInv(i, c, st) && c.alive && TableInv(st)
    requires ClientStep(i, c, st, e) == Some((c', st'))
    ensures RowsInv(i, c'.pipe, st') && TableInv(st') && OthersAppend(i, st, st')
  {
    hide RowsInv, LoggerStep, WorkerStep, ControlStep;
    match e {
      case Logger(_, logger) => LoggerKeepsRows(i, c.pipe, c.runs, st, logger, c'.pipe, c'.runs);
      case Work(_, work) =>
        WorkerKeepsRows(i, c.pipe, st, work, c'.pipe, st');
        WorkerKeepsTable(i, c.pipe, st, work, c'.pipe, st');
        WorkerOnlyAppends(i, c.pipe, st, work, c'.pipe, st');
      case Command(_, command) =>
        ControlKeepsRows(i, c, st, command, c', st');
        assert forall a, b :: 0 <= a < b < |st.rows| && HandedOver(st', a, b) ==> HandedOver(st, a, b);
    }
  }

  lemma StepKeepsStopped(i: nat, c: Client, st: Store, e: Event, c': Client, st': Store)
    requires ShutdownStopped(c) && ClientStep(i, c, st, e) == Some((c', st'))
    ensures ShutdownStopped(c')
    ensures c.pipe.worker.Exited? ==> c'.pipe.worker == c.pipe.worker
    ensures c.pipe.accepted <= c'.pipe.accepted && c.pipe.rowAt <= c'.pipe.rowAt
  {
    match e {
      case Logger(_, logger) =>
      case Work(_, work) => WorkerGrowsLog(i, c.pipe, st, work, c'.pipe, st');
      case Command(_, command) =>
        hide RunsStep, WorkerStep, LoggerStep;
        if !command.Crash? && !(command.Advance? && !c.runs.control.Finalizing?) {
          RunsKeepShutdown(i, c.pipe, c.runs, st, command, c'.runs, st');
        }
    }
  }

  lemma WorkerGrowsLog(i: nat, p: Pipe, st: Store, e: WorkerEvent, p': Pipe, st': Store)
    requires WorkerStep(i, p, st, e) == Some((p', st'))
    ensures (p.worker.Exited? ==> p'.worker == p.worker) && p'.accepted == p.accepted && p.rowAt <= p'.rowAt
  {
  }

  lemma RunsKeepShutdown(i: nat, p: Pipe, runs: Runs, st: Store, e: ControlEvent, runs': Runs, st': Store)
    requires RunsStep(i, p, runs, st, e) == Some((runs', st'))
    ensures runs'.shutdown == runs.shutdown
  {
    hide FinalizeStep;
    if e.Advance? {
      FinalizeKeepsShutdown(i, p, runs, st, runs', st');
    }
  }

  lemma FinalizeKeepsShutdown(i: nat, p: Pipe, runs: Runs, st: Store, runs': Runs, st': Store)
    requires runs.control.Finalizing? && FinalizeStep(i, p, runs, st) == Some((runs', st'))
    ensures runs'.shutdown == runs.shutdown
  {
  }

  lemma GuaranteeKeepsKnown(s: System, j: nat, st': Store)
    requires KnownClients(s) && j < |s.clients| && Guarantee(j, s.store, st')
    ensures KnownClients(s.(store := st'))
  {
    forall a | 0 <= a < |st'.rows| ensures st'.rows[a].client < |s.clients| {
      if a < |s.store.rows| { assert st'.rows[a] == st'.rows[..|s.store.rows|][a]; }
    }
    forall run | run in st'.sealedBy ensures st'.sealedBy[run] < |s.clients| {
      assert st'.sealedBy[run] == j || (run in s.store.sealedBy && st'.sealedBy[run] == s.store.sealedBy[run]);
    }
  }

  lemma OpenKeepsInv(s: System, capacity: nat)
    requires SystemInv(s)
    ensures SystemInv(s.(clients := s.clients + [NewClient(capacity)]))
  {
    hide MemberInv, StoreInv, TableInv;
    var s' := s.(clients := s.clients + [NewClient(capacity)]);
    NewClientInv(|s.clients|, capacity, s);
    forall i | 0 <= i < |s'.clients| ensures MemberInv(i, s'.clients[i], s.store) {
      if i < |s.clients| { assert s'.clients[i] == s.clients[i]; }
    }
  }

  lemma OthersKeepMember(i: nat, j: nat, c: Client, st: Store, st': Store)
    requires i != j && MemberInv(i, c, st) && Guarantee(j, st, st') && OthersAppend(j, st, st')
    ensures MemberInv(i, c, st')
  {
    hide ClientInv, RowsInv, Guarantee, OthersAppend;
    OthersKeepClient(i, j, c, st, st');
    OthersKeepRows(i, j, c.pipe, st, st');
  }

  lemma MemberStep(i: nat, c: Client, st: Store, e: Event, c': Client, st': Store)
    requires MemberInv(i, c, st) && c.alive && StoreInv(st) && TableInv(st)
    requires ClientStep(i, c, st, e) == Some((c', st'))
    ensures MemberInv(i, c', st') && StoreInv(st') && TableInv(st') && Guarantee(i, st, st') && OthersAppend(i, st, st')
  {
    hide ClientInv, RowsInv, Guarantee, OthersAppend, StoreInv, TableInv, ClientStep;
    StepKeepsClient(i, c, st, e, c', st');
    StepKeepsTable(i, c, st, e, c', st');
    StepKeepsStopped(i, c, st, e, c', st');
  }

  /** Every event keeps the system invariant. */
  lemma ApplyKeepsInv(s: System, e: Event, s': System)
    requires SystemInv(s) && Apply(s, e) == Some(s')
    ensures SystemInv(s')
  {
    if e.OpenClient? {
      OpenKeepsInv(s, e.capacity);
    } else {
      hide MemberInv, StoreInv, TableInv, KnownClients, Guarantee, OthersAppend, ClientStep;
      var j := e.client;
      var st' := s'.store;
      MemberStep(j, s.clients[j], s.store, e, s'.clients[j], st');
      GuaranteeKeepsKnown(s, j, st');
      KnownByCount(s.(store := st'), s');
      forall i | 0 <= i < |s'.clients| ensures MemberInv(i, s'.clients[i], st') {
        if i != j {
          OthersKeepMember(i, j, s.clients[i], s.store, st');
        }
      }
    }
  }

  lemma KnownByCount(s: System, s': System)
    requires KnownClients(s) && s'.store == s.store && |s'.clients| == |s.clients|
    ensures KnownClients(s')
  {
  }

  lemma {:induction false} RunKeepsInv(s: System, events: seq<Event>, s': System)
    requires SystemInv(s) && Run(s, events) == Some(s')
    ensures SystemInv(s')
    decreases |events|
  {
    hide SystemInv, Apply;
    if events != [] {
      var next := Apply(s, events[0]).value;
      ApplyKeepsInv(s, events[0], next);
      RunKeepsInv(next, events[1..], s');
    }
  }

  lemma ReachableInv(s: System)
    requires Reachable(s)
    ensures SystemInv(s)
  {
    hide SystemInv;
    InitialInv();
    var events :| Run(INITIAL, events) == Some(s);
    RunKeepsInv(INITIAL, events, s);
  }

  // ----------------------------------------------------------------- counters and drains

  /**
    Accepted is persisted plus pending whenever neither the worker nor a logging
    thread is between two counter updates, and `pending` is never negative, also
    after the writer failed.
   */
  lemma CountersAreExact(s: System, i: nat)
    requires Reachable(s) && i < |s.clients|
    ensures var p := s.clients[i].pipe;
            && p.reporter.pending >= 0
            && (Acknowledged(p.worker) == [] && !p.sender.Stamped? ==> p.reporter.persisted + p.reporter.pending == |p.accepted|)
            && (p.worker.Settling? ==> p.reporter.pending >= |p.worker.batch|)
            && (p.sender.Stamped? ==> p.reporter.pending >= 1)
  {
    ReachableInv(s);
    assert MemberInv(i, s.clients[i], s.store);
  }

  /**
    `persisted_through = k` means that reports 1..k are stored, and, unless the
    worker is just about to say more, only those.
   */
  lemma ThroughMeansStored(s: System, i: nat, k: nat)
    requires Reachable(s) && i < |s.clients| && k < |s.clients[i].pipe.accepted|
    ensures var p := s.clients[i].pipe;
            && p.accepted[k].sequence == k + 1
            && (k < p.reporter.through ==> AckedBy(i, p, s.store.rows, k))
            && (!p.worker.Counting? && !p.worker.Marking? ==> (k < p.reporter.through <==> AckedBy(i, p, s.store.rows, k)))
  {
    ReachableInv(s);
    assert MemberInv(i, s.clients[i], s.store);
  }

  /** Logs only grow. */
  lemma ApplyGrowsLogs(s: System, e: Event, s': System, i: nat)
    requires Apply(s, e) == Some(s') && SystemInv(s) && i < |s.clients|
    ensures i < |s'.clients|
    ensures s.clients[i].pipe.accepted <= s'.clients[i].pipe.accepted && s.clients[i].pipe.rowAt <= s'.clients[i].pipe.rowAt
  {
    hide ClientStep, ClientInv, RowsInv;
    if !e.OpenClient? && e.client == i {
      assert MemberInv(i, s.clients[i], s.store);
      StepKeepsStopped(i, s.clients[i], s.store, e, s'.clients[i], s'.store);
    }
  }

  lemma {:induction false} RunGrowsLogs(s: System, events: seq<Event>, s': System, i: nat)
    requires Run(s, events) == Some(s') && SystemInv(s) && i < |s.clients|
    ensures i < |s'.clients|
    ensures s.clients[i].pipe.accepted <= s'.clients[i].pipe.accepted && s.clients[i].pipe.rowAt <= s'.clients[i].pipe.rowAt
    decreases |events|
  {
    hide SystemInv, Apply;
    if events != [] {
      var next := Apply(s, events[0]).value;
      ApplyKeepsInv(s, events[0], next);
      ApplyGrowsLogs(s, events[0], next, i);
      RunGrowsLogs(next, events[1..], s', i);
    }
  }

  /**
    A drain that ends well: once `persisted_through` reaches the barrier read
    under the sender lock, everything accepted before that reading is stored,
    whatever happened in between.
   */
  lemma DrainedMeansStored(s: System, events: seq<Event>, s': System, i: nat, k: nat)
    requires Reachable(s) && Run(s, events) == Some(s') && i < |s.clients|
    requires s.clients[i].pipe.sender.Unlocked? && k < |s.clients[i].pipe.accepted|
    requires i < |s'.clients| && s'.clients[i].pipe.reporter.through >= Barrier(s.clients[i].pipe.reporter)
    ensures var p := s'.clients[i].pipe;
            AckedBy(i, p, s'.store.rows, k) && s'.store.rows[p.rowAt[k]].report == s.clients[i].pipe.accepted[k]
  {
    ReachableInv(s);
    RunKeepsInv(s, events, s');
    RunGrowsLogs(s, events, s', i);
    assert MemberInv(i, s.clients[i], s.store) && MemberInv(i, s'.clients[i], s'.store);
    assert Barrier(s.clients[i].pipe.reporter) == |s.clients[i].pipe.accepted|;
  }

  /**
    After a shutdown that returned success nothing more is stored by the client,
    but everything it accepted is stored only if the worker did not fail on what
    was logged after the drain.
   */
  lemma ShutdownMeansStored(s: System, i: nat)
    requires Reachable(s) && i < |s.clients| && s.clients[i].runs.shutdown
    ensures var p := s.clients[i].pipe;
            && p.worker.Exited?
            && (!p.worker.failed <==> |p.rowAt| == |p.accepted|)
            && (!p.worker.failed ==> forall k :: 0 <= k < |p.accepted| ==> AckedBy(i, p, s.store.rows, k))
            && (p.sender.Unlocked? ==> (!p.worker.failed <==> p.reporter.pending == 0))
  {
    ReachableInv(s);
    assert MemberInv(i, s.clients[i], s.store);
  }

  // ----------------------------------------------------------------- finalization

  /** No thread of the client can get another report of the run accepted or stored. */
  ghost predicate ClosedTo(c: Client, run: RunId) {
    && (c.pipe.reporter.senderOpen ==> forall o :: 0 <= o < |c.runs.objs| && c.runs.objs[o].published && c.runs.objs[o].admission.Open? ==> c.runs.objs[o].run != run)
    && (c.pipe.sender.Stamped? ==> c.pipe.sender.report.run != run)
    && (forall k :: Live(c.pipe, k) ==> c.pipe.accepted[k].run != run)
  }

  /** The run is among the client's active runs, with its gate open. */
  predicate OpenTo(c: Client, run: RunId) {
    && run in c.runs.active && c.runs.active[run] < |c.runs.objs| && c.runs.objs[c.runs.active[run]].admission.Open?
    && !Creating(c.runs.control, run)
  }

  lemma TerminalIsClosed(i: nat, c: Client, st: Store, run: RunId)
    requires ClientInv(i, c, st) && c.alive && IsTerminal(st, run) && run !in st.raced
    ensures ClosedTo(c, run) && !OpenTo(c, run)
  {
    if c.pipe.sender.Stamped? {
      SenderOwnsRun(i, c, st);
    }
    if c.pipe.reporter.senderOpen {
      forall o | 0 <= o < |c.runs.objs| && c.runs.objs[o].published && c.runs.objs[o].admission.Open? ensures c.runs.objs[o].run != run {
        var other := c.runs.objs[o].run;
        assert Holds(st, i, other, o) && OwnedBy(st, i, other);
        assert c.runs.active[other] == o && RunningOrRaced(st, other);
      }
    }
  }

  /** The client's process ended, or its writer gave up: what it had not stored by then is lost. */
  predicate GaveOut(c: Client) {
    !c.alive || !MayAppend(c.pipe.worker)
  }

  /** All that finalization promises of a run. */
  ghost predicate Complete(s: System, run: RunId) {
    && run in s.store.sealedBy && s.store.sealedBy[run] < |s.clients|
    && (var i := s.store.sealedBy[run]; var p := s.clients[i].pipe;
        forall k :: 0 <= k < |p.accepted| && p.accepted[k].run == run ==> AckedBy(i, p, s.store.rows, k))
    && (forall i, k :: 0 <= i < |s.clients| && 0 <= k < |s.clients[i].pipe.accepted| && s.clients[i].pipe.accepted[k].run == run ==>
        AckedBy(i, s.clients[i].pipe, s.store.rows, k) || GaveOut(s.clients[i]))
    && run in s.store.aggregates && s.store.aggregates[run] == Summaries(s.store.rows, run)
    && (forall i :: 0 <= i < |s.clients| && s.clients[i].alive ==> ClosedTo(s.clients[i], run) && !OpenTo(s.clients[i], run))
  }

  /**
    Finalization. Once a run is terminal, every report ever accepted for it by
    the client that finalized it is stored, and of an earlier owner every one
    unless that owner crashed or its writer gave up; the summary matches the
    rows; and no client can accept or store another report for it. The one
    exception is a run whose lock was acquired, on a stale reading of its status,
    after it was terminal; `PipelineStale` says exactly when that can happen.
   */
  lemma TerminalRunIsComplete(s: System, run: RunId)
    requires Reachable(s) && IsTerminal(s.store, run) && run !in s.store.raced
    ensures Complete(s, run)
  {
    ReachableInv(s);
    TerminalIsComplete(s, run);
  }

  lemma TerminalIsComplete(s: System, run: RunId)
    requires SystemInv(s) && IsTerminal(s.store, run) && run !in s.store.raced
    ensures Complete(s, run)
  {
    var i := s.store.sealedBy[run];
    assert MemberInv(i, s.clients[i], s.store);
    forall j | 0 <= j < |s.clients| && s.clients[j].alive ensures ClosedTo(s.clients[j], run) && !OpenTo(s.clients[j], run) {
      assert MemberInv(j, s.clients[j], s.store);
      TerminalIsClosed(j, s.clients[j], s.store, run);
    }
    forall j, k | 0 <= j < |s.clients| && 0 <= k < |s.clients[j].pipe.accepted| && s.clients[j].pipe.accepted[k].run == run
      ensures AckedBy(j, s.clients[j].pipe, s.store.rows, k) || GaveOut(s.clients[j])
    {
      assert MemberInv(j, s.clients[j], s.store);
      assert GaveOut(s.clients[j]) || !Live(s.clients[j].pipe, k);
    }
  }

  /** Nothing about the run differs between the two systems. */
  ghost predicate Untouched(s: System, s': System, run: RunId) {
    && |s.clients| <= |s'.clients| && s.store.rows <= s'.store.rows
    && IsTerminal(s'.store, run) && run in s.store.status && s'.store.status[run] == s.store.status[run]
    && (forall a :: |s.store.rows| <= a < |s'.store.rows| ==> s'.store.rows[a].report.run != run)
    && (forall i :: 0 <= i < |s.clients| ==> AcceptsNoMore(s.clients[i].pipe.accepted, s'.clients[i].pipe.accepted, run))
    && (forall i :: |s.clients| <= i < |s'.clients| ==> AcceptsNoMore([], s'.clients[i].pipe.accepted, run))
  }

  ghost predicate AcceptsNoMore(accepted: seq<Report>, accepted': seq<Report>, run: RunId) {
    accepted <= accepted' && forall k :: |accepted| <= k < |accepted'| ==> accepted'[k].run != run
  }

  lemma StepLeavesTerminal(i: nat, c: Client, st: Store, e: Event, c': Client, st': Store, run: RunId)
    requires MemberInv(i, c, st) && c.alive && StoreInv(st) && TableInv(st)
    requires ClientStep(i, c, st, e) == Some((c', st')) && IsTerminal(st, run) && run !in st.raced
    ensures AcceptsNoMore(c.pipe.accepted, c'.pipe.accepted, run)
    ensures st.rows <= st'.rows && forall a :: |st.rows| <= a < |st'.rows| ==> st'.rows[a].report.run != run
    ensures IsTerminal(st', run) && st'.status[run] == st.status[run]
  {
    TerminalIsClosed(i, c, st, run);
    StepKeepsClient(i, c, st, e, c', st');
    StepAccepts(i, c, st, e, c', st');
  }

  lemma StepAccepts(i: nat, c: Client, st: Store, e: Event, c': Client, st': Store)
    requires ClientStep(i, c, st, e) == Some((c', st'))
    ensures c'.pipe.accepted == c.pipe.accepted || (c.pipe.sender.Stamped? && c'.pipe.accepted == c.pipe.accepted + [c.pipe.sender.report])
  {
    hide RunsStep;
  }

  lemma ApplyLeavesTerminal(s: System, e: Event, s': System, run: RunId)
    requires SystemInv(s) && Apply(s, e) == Some(s') && IsTerminal(s.store, run) && run !in s.store.raced
    ensures Untouched(s, s', run)
  {
    if !e.OpenClient? {
      var j := e.client;
      assert MemberInv(j, s.clients[j], s.store);
      hide MemberInv, StoreInv, TableInv, ClientStep, KnownClients, AcceptsNoMore;
      StepLeavesTerminal(j, s.clients[j], s.store, e, s'.clients[j], s'.store, run);
    }
    AcceptedStays(s, run);
  }

  lemma AcceptedStays(s: System, run: RunId)
    ensures forall i :: 0 <= i < |s.clients| ==> AcceptsNoMore(s.clients[i].pipe.accepted, s.clients[i].pipe.accepted, run)
    ensures AcceptsNoMore([], [], run)
  {
  }

  /** A client that is up has read that the run is running, and is about to take its lock. */
  predicate StaleReader(c: Client, run: RunId) {
    c.alive && Reacquiring(c.runs.control, run)
  }

  ghost predicate NoStaleReader(s: System, run: RunId) {
    forall i :: 0 <= i < |s.clients| ==> !StaleReader(s.clients[i], run)
  }

  /** Only a control thread that read the status earlier takes a terminal run's lock. */
  lemma StepStaysUnraced(i: nat, c: Client, st: Store, e: Event, c': Client, st': Store, run: RunId)
    requires ClientStep(i, c, st, e) == Some((c', st')) && run in st.status && run !in st.raced && c.alive
    requires IsTerminal(st, run) ==> !StaleReader(c, run)
    ensures run !in st'.raced && (IsTerminal(st, run) ==> !StaleReader(c', run))
  {
    if e.Command? {
      ControlStaysUnraced(i, c, st, e.command, c', st', run);
    }
  }

  lemma ControlStaysUnraced(i: nat, c: Client, st: Store, e: ControlEvent, c': Client, st': Store, run: RunId)
    requires ControlStep(i, c, st, e) == Some((c', st')) && run in st.status && run !in st.raced && c.alive
    requires IsTerminal(st, run) ==> !StaleReader(c, run)
    ensures run !in st'.raced && (IsTerminal(st, run) ==> !StaleReader(c', run))
  {
    hide FinalizeStep;
    if e.Advance? && c.runs.control.Finalizing? {
      FinalizeStaysUnraced(i, c.pipe, c.runs, st, c'.runs, st');
    }
  }

  lemma FinalizeStaysUnraced(i: nat, p: Pipe, runs: Runs, st: Store, runs': Runs, st': Store)
    requires runs.control.Finalizing? && FinalizeStep(i, p, runs, st) == Some((runs', st'))
    ensures st'.raced == st.raced && (runs'.control.Finalizing? || runs'.control.Idle?)
  {
    hide Summaries;
  }

  lemma ApplyStaysUnraced(s: System, e: Event, s': System, run: RunId)
    requires Apply(s, e) == Some(s') && IsTerminal(s.store, run) && run !in s.store.raced && NoStaleReader(s, run)
    ensures run !in s'.store.raced && NoStaleReader(s', run)
  {
    hide ClientStep;
    if !e.OpenClient? {
      assert !StaleReader(s.clients[e.client], run);
      StepStaysUnraced(e.client, s.clients[e.client], s.store, e, s'.clients[e.client], s'.store, run);
    }
  }

  /**
    A finished or failed run is frozen, if at present no client is about to
    resume or finalize it on an earlier reading of its status: then over any
    further events its status and rows stay, no client gets another report
    accepted for it, and none will ever take its lock again.
   */
  lemma {:induction false} TerminalRunIsFrozen(s: System, events: seq<Event>, s': System, run: RunId)
    requires SystemInv(s) && Run(s, events) == Some(s')
    requires IsTerminal(s.store, run) && run !in s.store.raced && NoStaleReader(s, run)
    ensures Untouched(s, s', run) && run !in s'.store.raced && NoStaleReader(s', run)
    decreases |events|
  {
    hide SystemInv, Apply, NoStaleReader;
    if events != [] {
      var next := Apply(s, events[0]).value;
      ApplyKeepsInv(s, events[0], next);
      ApplyStaysUnraced(s, events[0], next, run);
      ApplyLeavesTerminal(s, events[0], next, run);
      TerminalRunIsFrozen(next, events[1..], s', run);
    }
  }

  // ----------------------------------------------------------------- summaries

  /** `list_metrics`: live over the rows while running, from the stored summaries afterwards. */
  function ListMetrics(st: Store, run: RunId, status: RunStatus): map<MetricKey, Aggregate> {
    if status.Running? then Summaries(st.rows, run)
    else if run in st.aggregates then st.aggregates[run] else map[]
  }

  /** The two branches agree across the status change, so it does not matter when the status was read. */
  lemma SummaryBranchesAgree(s: System, run: RunId)
    requires Reachable(s) && IsTerminal(s.store, run) && run !in s.store.raced
    ensures ListMetrics(s.store, run, Running) == ListMetrics(s.store, run, s.store.status[run])
  {
    TerminalRunIsComplete(s, run);
  }

  // ----------------------------------------------------------------- what a failure leaves

  /**
    The statements and the failures of a finalization, one by one: the old summary
    is gone before the new one is there; a failed writer stops it; whatever fails
    before the update opens the gate again; an update that finds the run not
    running does, too; one that reports an error leaves the gate closed.
   */
  lemma FinalizationStepsMean(i: nat, p: Pipe, runs: Runs, st: Store)
    requires runs.control.Finalizing? && runs.control.obj < |runs.objs|
    ensures var (run, o, phase, next) := (runs.control.run, runs.control.obj, runs.control.phase, FinalizeStep(i, p, runs, st));
            && (phase.DeleteAggregates? ==> next.Some? && next.value.1 == st.(aggregates := st.aggregates - {run}) && next.value.0.control.phase.InsertAggregates?)
            && (phase.InsertAggregates? ==> next.Some? && next.value.1 == st.(aggregates := st.aggregates[run := Summaries(st.rows, run)])
                                            && next.value.0.control.phase.MarkTerminal?)
            && (phase.MarkTerminal? ==> next.Some? && next.value.0.control.phase == (if IsRunning(st, run) then Seal else Reopen)
                                        && next.value.1.status == (if IsRunning(st, run) then st.status[run := runs.control.target] else st.status))
            && (phase.Check? && p.reporter.writer.WriterFailed? ==> next.None?)
            && (phase.Reopen? && runs.objs[o].gate.Free? ==> next.Some? && next.value.0.objs[o].admission.Open? && next.value.0.control.Idle? && next.value.1 == st)
    ensures var failed := FailStep(p, runs);
            && (failed.Some? ==> failed.value == runs.(control := runs.control.(phase := Reopen)))
            && (failed.Some? <==> var phase := runs.control.phase;
                  phase.Drain? || (phase.Check? && p.reporter.writer.WriterFailed?) || phase.DeleteAggregates? || phase.InsertAggregates?)
    ensures forall committed :: MarkErrorStep(i, runs, st, committed).Some? ==> MarkErrorStep(i, runs, st, committed).value.0 == runs.(control := Idle)
  {
  }

  /** A shutdown that waits in vain ends, and leaves runs and locks as they were; one whose writer failed goes on, without success. */
  lemma ShutdownFailuresMean(p: Pipe, runs: Runs)
    requires runs.control.ShutdownDrain?
    ensures FailStep(p, runs) == Some(runs.(control := if p.reporter.writer.WriterFailed? then ShutdownTake(false) else Idle))
  {
  }

  // ----------------------------------------------------------------- last write wins

  /** One writer stamps strictly increasing times in enqueue order, and acknowledges in that order. */
  lemma StampsFollowEnqueueOrder(s: System, i: nat, k: nat, l: nat)
    requires Reachable(s) && i < |s.clients| && k < l < |s.clients[i].pipe.rowAt|
    ensures var p, rows := s.clients[i].pipe, s.store.rows;
            && AckedBy(i, p, rows, k) && AckedBy(i, p, rows, l)
            && p.rowAt[k] in s.store.acked && p.rowAt[l] in s.store.acked
            && p.rowAt[k] < p.rowAt[l] && rows[p.rowAt[k]].ingestedAt < rows[p.rowAt[l]].ingestedAt
  {
    ReachableInv(s);
    assert MemberInv(i, s.clients[i], s.store);
    assert AckedEarlier(s.clients[i].pipe, s.store.rows, k, l);
  }

  predicate AtStep(row: Row, run: RunId, key: MetricKey, step: int) {
    InSeries(row, run, key) && row.report.step == step
  }

  /** Folding the first `n` acknowledged reports, in the order they were acknowledged, into a map by step. */
  function LastWrites(rows: seq<Row>, acked: seq<nat>, n: nat, run: RunId, key: MetricKey): map<int, nat>
    requires n <= |acked| && forall k :: 0 <= k < |acked| ==> acked[k] < |rows|
  {
    if n == 0 then map[]
    else
      var earlier := LastWrites(rows, acked, n - 1, run, key);
      var row := rows[acked[n - 1]];
      if InSeries(row, run, key) then earlier[row.report.step := acked[n - 1]] else earlier
  }

  /** What the fold says about one step: the last acknowledged report of it, or that there is none. */
  lemma {:induction false} LastWritesAt(rows: seq<Row>, acked: seq<nat>, n: nat, run: RunId, key: MetricKey, step: int) returns (k: nat)
    requires n <= |acked| && forall k :: 0 <= k < |acked| ==> acked[k] < |rows|
    ensures k <= n && forall l :: k < l < n ==> !AtStep(rows[acked[l]], run, key, step)
    ensures var m := LastWrites(rows, acked, n, run, key);
            if step in m then k < n && m[step] == acked[k] && AtStep(rows[m[step]], run, key, step)
            else forall l :: 0 <= l < n ==> !AtStep(rows[acked[l]], run, key, step)
  {
    if n == 0 {
      return 0;
    }
    k := LastWritesAt(rows, acked, n - 1, run, key, step);
    if AtStep(rows[acked[n - 1]], run, key, step) {
      k := n - 1;
    } else if step !in LastWrites(rows, acked, n, run, key) {
      k := n;
    }
  }

  /** The clock and the append failures of every writer of the point allow last-write-wins to follow the log. */
  ghost predicate SteadyWriters(s: System, run: RunId, key: MetricKey, step: int) {
    forall a :: 0 <= a < |s.store.rows| && AtStep(s.store.rows[a], run, key, step) && s.store.rows[a].client < |s.clients| ==>
      Steady(s.clients[s.store.rows[a].client].pipe)
  }

  /** No row of the point was left behind by a failed append that was never made good. */
  ghost predicate NoLeftovers(s: System, run: RunId, key: MetricKey, step: int) {
    forall a :: 0 <= a < |s.store.rows| && AtStep(s.store.rows[a], run, key, step) && s.store.rows[a].client < |s.clients| ==>
      !Dirty(s.clients[s.store.rows[a].client].pipe, s.store.rows[a])
  }

  predicate AcksInTable(st: Store) {
    forall k :: 0 <= k < |st.acked| ==> st.acked[k] < |st.rows|
  }

  /** A reader picks for the step exactly the row of its last acknowledged report. */
  predicate ReadsLastWrite(st: Store, run: RunId, key: MetricKey, step: int)
    requires AcksInTable(st)
  {
    var w, m := Winners(st.rows, run, key), LastWrites(st.rows, st.acked, |st.acked|, run, key);
    (step in w <==> step in m) && (step in w ==> w[step] == m[step])
  }

  /** A row with a later time stamp is read instead of the last acknowledged one. */
  lemma EarlierStampIsNotRead(st: Store, a: nat, b: nat)
    requires AcksInTable(st) && st.acked != [] && st.acked[|st.acked| - 1] == b && a < |st.rows|
    requires SamePoint(st.rows[a].report, st.rows[b].report) && st.rows[b].ingestedAt < st.rows[a].ingestedAt
    ensures var point := PointOf(st.rows[b].report); !ReadsLastWrite(st, point.run, point.key, point.step)
  {
    var rows, report := st.rows, st.rows[b].report;
    WinnersAreRankOne(rows, report.run, report.key);
    var w := Winners(rows, report.run, report.key);
    assert !RankedBefore(rows, b, a) && !WriteRankOne(rows, b);
    assert report.step in w ==> WriteRankOne(rows, w[report.step]);
  }

  predicate Unskewed(s: System, run: RunId, key: MetricKey, step: int) {
    MetricPoint(run, key, step) !in s.store.skewed
  }

  /** Every row belongs to a client of the system, whose log it copies. */
  lemma RowHasWriter(s: System, a: nat)
    requires SystemInv(s) && a < |s.store.rows|
    ensures var i := s.store.rows[a].client; i < |s.clients| && RowsInv(i, s.clients[i].pipe, s.store)
  {
    var i := s.store.rows[a].client;
    assert MemberInv(i, s.clients[i], s.store);
  }

  /** The row a reader picks is an acknowledging row. */
  lemma WinnerIsAcked(s: System, w: nat, run: RunId, key: MetricKey, step: int)
    requires SystemInv(s) && w < |s.store.rows| && WriteRankOne(s.store.rows, w) && AtStep(s.store.rows[w], run, key, step)
    requires SteadyWriters(s, run, key, step) && NoLeftovers(s, run, key, step)
    ensures w in s.store.acked
  {
    RowHasWriter(s, w);
    hide SystemInv, RowsInv, WriteRankOne, Dirty, Steady;
    OwnWinnerIsAcked(s.store.rows[w].client, s.clients[s.store.rows[w].client].pipe, s.store, w);
  }

  lemma OwnWinnerIsAcked(i: nat, p: Pipe, st: Store, w: nat)
    requires RowsInv(i, p, st) && w < |st.rows| && WriteRankOne(st.rows, w)
    requires Steady(p) && st.rows[w].client == i && !Dirty(p, st.rows[w])
    ensures w in st.acked
  {
    var rows := st.rows;
    assert Logged(p, rows[w]);
    hide LeftBehind, Steady;
    var k := rows[w].report.sequence - 1;
    assert Outranked(p, rows, w) && AckedBy(i, p, rows, k);
    assert rows[p.rowAt[k]].report == rows[w].report;
    assert p.rowAt[k] == w;
  }

  /** Of two acknowledged rows of one point, the later one is ranked first. */
  lemma LaterAckRanksFirst(s: System, a: nat, b: nat)
    requires SystemInv(s) && a in s.store.acked && b in s.store.acked && a < b < |s.store.rows|
    requires SamePoint(s.store.rows[a].report, s.store.rows[b].report) && PointOf(s.store.rows[a].report) !in s.store.skewed
    ensures RankedBefore(s.store.rows, b, a)
  {
    var rows := s.store.rows;
    if rows[a].client == rows[b].client {
      RowHasWriter(s, a);
      hide SystemInv;
      OwnAcksRank(rows[a].client, s.clients[rows[a].client].pipe, s.store, a, b);
    } else {
      assert HandedOver(s.store, a, b);
    }
  }

  lemma OwnAcksRank(i: nat, p: Pipe, st: Store, a: nat, b: nat)
    requires RowsInv(i, p, st) && a in st.acked && b in st.acked && a < b < |st.rows|
    requires st.rows[a].client == i && st.rows[b].client == i
    ensures RankedBefore(st.rows, b, a)
  {
    var k, l := st.rows[a].report.sequence - 1, st.rows[b].report.sequence - 1;
    assert p.rowAt[k] == a && p.rowAt[l] == b;
    hide FromLog, Dominating, LeftBehind, AckedAre;
    assert l < k ==> AckedEarlier(p, st.rows, l, k);
    assert AckedEarlier(p, st.rows, k, l);
  }

  /**
    Last write wins. For every point, what a reader derives from the time stamps
    and rowids is the fold of the stored reports in the order they were enqueued:
    for any clock when failed appends leave nothing behind, and for a clock that
    does not go backwards whatever they leave behind. Each condition is about
    this point and its writers only.
   */
  lemma LastWriteWins(s: System, run: RunId, key: MetricKey, step: int)
    requires Reachable(s) && SteadyWriters(s, run, key, step) && Unskewed(s, run, key, step) && NoLeftovers(s, run, key, step)
    ensures AcksInTable(s.store) && ReadsLastWrite(s.store, run, key, step)
  {
    ReachableInv(s);
    assert TableInv(s.store);
    hide Reachable, Winners, LastWrites;
    StepsAgree(s, run, key, step);
  }

  lemma StepsAgree(s: System, run: RunId, key: MetricKey, step: int)
    requires SystemInv(s) && TableInv(s.store)
    requires SteadyWriters(s, run, key, step) && Unskewed(s, run, key, step) && NoLeftovers(s, run, key, step)
    ensures ReadsLastWrite(s.store, run, key, step)
  {
    var rows, acked := s.store.rows, s.store.acked;
    var k := LastWritesAt(rows, acked, |acked|, run, key, step);
    WinnerAt(rows, run, key, step);
    var w, m := Winners(rows, run, key), LastWrites(rows, acked, |acked|, run, key);
    assert AcksInTable(s.store);
    hide SystemInv, AtStep, NoLeftovers, SteadyWriters, Winners, LastWrites, TableInv, WriteRankOne, Unskewed;
    if step in w {
      WinnerIsAcked(s, w[step], run, key, step);
      LastAckIsWinner(s, w[step], k, run, key, step);
    }
  }

  /** The acknowledging row that a reader picks is the last one of its step. */
  lemma LastAckIsWinner(s: System, a: nat, k: nat, run: RunId, key: MetricKey, step: int)
    requires SystemInv(s) && TableInv(s.store) && Unskewed(s, run, key, step)
    requires a in s.store.acked && AtStep(s.store.rows[a], run, key, step) && WriteRankOne(s.store.rows, a)
    requires k <= |s.store.acked| && forall l :: k < l < |s.store.acked| ==> !AtStep(s.store.rows[s.store.acked[l]], run, key, step)
    ensures k < |s.store.acked| && AtStep(s.store.rows[s.store.acked[k]], run, key, step) ==> s.store.acked[k] == a
    ensures exists l :: 0 <= l < |s.store.acked| && l <= k && s.store.acked[l] == a
  {
    var rows, acked := s.store.rows, s.store.acked;
    var l :| 0 <= l < |acked| && acked[l] == a;
    assert l <= k;
    hide SystemInv, TableInv, WriteRankOne, Unskewed;
    if l < k < |acked| && AtStep(rows[acked[k]], run, key, step) {
      LaterAckWins(s, l, k, run, key, step);
    }
  }

  lemma LaterAckWins(s: System, l: nat, k: nat, run: RunId, key: MetricKey, step: int)
    requires SystemInv(s) && TableInv(s.store) && l < k < |s.store.acked| && Unskewed(s, run, key, step)
    requires AtStep(s.store.rows[s.store.acked[l]], run, key, step) && AtStep(s.store.rows[s.store.acked[k]], run, key, step)
    ensures !WriteRankOne(s.store.rows, s.store.acked[l])
  {
    var a, b := s.store.acked[l], s.store.acked[k];
    assert a < b < |s.store.rows| && a in s.store.acked && b in s.store.acked;
    hide SystemInv, TableInv;
    LaterAckRanksFirst(s, a, b);
    assert !RankedBefore(s.store.rows, a, b);
  }

  lemma WinnerAt(rows: seq<Row>, run: RunId, key: MetricKey, step: int)
    ensures var w := Winners(rows, run, key);
            if step in w then w[step] < |rows| && AtStep(rows[w[step]], run, key, step) && WriteRankOne(rows, w[step])
            else forall a :: 0 <= a < |rows| ==> !AtStep(rows[a], run, key, step)
  {
    WinnersInSeries(rows, run, key);
    WinnersAreRankOne(rows, run, key);
  }
}
