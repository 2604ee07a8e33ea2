/**
  One writer after another: the rows of a run come in one block per owner, and
  an owner that let go of a run never stores another row of it.
 */
module PipelineOwners {
  import opened Values
  import opened Metrics
  import opened Pipeline
  import opened PipelineOwnership
  import opened PipelineSteps
  import opened PipelineRows
  import opened PipelineTheorems

  predicate RowOf(rows: seq<Row>, a: nat, i: nat, run: RunId)
    requires a < |rows|
  {
    rows[a].client == i && rows[a].report.run == run
  }

  ghost predicate Wrote(i: nat, rows: seq<Row>, run: RunId) {
    exists a :: 0 <= a < |rows| && RowOf(rows, a, i, run)
  }

  /** After the client's first row of the run no other client stored one. */
  ghost predicate WroteLast(i: nat, rows: seq<Row>, run: RunId) {
    forall a, b :: 0 <= a < b < |rows| && RowOf(rows, a, i, run) && rows[b].report.run == run ==> rows[b].client == i
  }

  predicate CreatingAnew(control: Control, run: RunId) {
    (control.CreateAcquire? || control.CreateInsert?) && control.run == run
  }

  /** What a client that may still append knows about the runs it wrote to. */
  ghost predicate OwnerInv(i: nat, c: Client, st: Store) {
    c.alive && MayAppend(c.pipe.worker) ==>
      && (forall run :: OwnedBy(st, i, run) ==> WroteLast(i, st.rows, run))
      && (forall run :: Wrote(i, st.rows, run) && !OwnedBy(st, i, run) ==> IsTerminal(st, run) && !Reacquiring(c.runs.control, run))
      && (forall run :: CreatingAnew(c.runs.control, run) ==> !Wrote(i, st.rows, run))
  }

  /** Between two rows of one owner there is no row of another. */
  ghost predicate OwnerBlocks(st: Store) {
    && (forall a :: 0 <= a < |st.rows| ==> st.rows[a].report.run in st.status)
    && (forall a, b, d :: 0 <= a < b < d < |st.rows| && SameOwnerAround(st.rows, a, b, d) ==> st.rows[b].client == st.rows[a].client)
  }

  /** Three rows of one run, the outer two stored by one client. */
  predicate SameOwnerAround(rows: seq<Row>, a: nat, b: nat, d: nat)
    requires a < b < d < |rows|
  {
    rows[a].report.run == rows[b].report.run == rows[d].report.run && rows[a].client == rows[d].client
  }

  /** How the control thread moves locks and what it is about to acquire. */
  ghost predicate Transfers(i: nat, c: Client, st: Store, c': Client, st': Store) {
    && st'.rows == st.rows && c'.pipe.worker == c.pipe.worker
    && (forall run :: OwnedBy(st', i, run) && !OwnedBy(st, i, run) ==> Reacquiring(c.runs.control, run) || CreatingAnew(c.runs.control, run))
    && (c'.alive && MayAppend(c.pipe.worker) ==> forall run :: OwnedBy(st, i, run) && !OwnedBy(st', i, run) ==>
          CreatingAnew(c.runs.control, run) || (IsTerminal(st, run) && !Reacquiring(c'.runs.control, run)))
    && (forall run :: Reacquiring(c'.runs.control, run) ==> Reacquiring(c.runs.control, run) || IsRunning(st, run))
    && (forall run :: CreatingAnew(c'.runs.control, run) ==> CreatingAnew(c.runs.control, run) || run !in st.status)
  }

  lemma AcquireTransfers(i: nat, c: Client, st: Store, runs': Runs, st': Store)
    requires AcquireStep(i, c.runs, st) == Some((runs', st'))
    ensures Transfers(i, c, st, c.(runs := runs'), st')
  {
    AcquireEffect(i, c.runs, st, runs', st');
    hide AcquireStep;
  }

  lemma GateTransfers(i: nat, c: Client, st: Store, runs': Runs)
    requires c.runs.control.Finalizing? && GateStep(c.pipe, c.runs) == Some(runs')
    ensures Transfers(i, c, st, c.(runs := runs'), st)
  {
    assert runs'.control.Finalizing? || runs'.control.Idle?;
  }

  lemma ReleaseTransfers(i: nat, c: Client, st: Store, runs': Runs)
    requires c.runs.control.Finalizing? && IsTerminal(st, c.runs.control.run)
    requires runs'.control.Finalizing?
    ensures Transfers(i, c, st, c.(runs := runs'), Unlock(st, i, c.runs.control.run))
  {
  }

  lemma AggregatesTransfer(i: nat, c: Client, st: Store, runs': Runs, st': Store)
    requires c.runs.control.Finalizing? && (runs'.control.Finalizing? || runs'.control.Idle?)
    requires st'.rows == st.rows && st'.locks == st.locks
    ensures Transfers(i, c, st, c.(runs := runs'), st')
  {
  }

  lemma StoreTransfers(i: nat, c: Client, st: Store, runs': Runs, st': Store)
    requires c.runs.control.Finalizing? && FinalizeFacts(i, c.pipe, c.runs, st) && c.runs.control.obj < |c.runs.objs|
    requires StoreStep(i, c.runs, st) == Some((runs', st'))
    ensures Transfers(i, c, st, c.(runs := runs'), st')
  {
    hide Summaries, Transfers;
    if c.runs.control.phase.Release? {
      ReleaseTransfers(i, c, st, runs');
    } else {
      AggregatesTransfer(i, c, st, runs', st');
    }
  }

  lemma FinalizeTransfers(i: nat, c: Client, st: Store, runs': Runs, st': Store)
    requires c.runs.control.Finalizing? && FinalizeFacts(i, c.pipe, c.runs, st) && c.runs.control.obj < |c.runs.objs|
    requires FinalizeStep(i, c.pipe, c.runs, st) == Some((runs', st'))
    ensures Transfers(i, c, st, c.(runs := runs'), st')
  {
    hide StoreStep, GateStep, Transfers, FinalizeFacts;
    if InStore(c.runs.control.phase) {
      StoreTransfers(i, c, st, runs', st');
    } else {
      GateTransfers(i, c, st, runs');
    }
  }

  lemma RunsTransfer(i: nat, c: Client, st: Store, e: ControlEvent, runs': Runs, st': Store)
    requires ClientInv(i, c, st) && c.alive
    requires RunsStep(i, c.pipe, c.runs, st, e) == Some((runs', st'))
    ensures Transfers(i, c, st, c.(runs := runs'), st')
  {
    hide ClientInv, FinalizeStep, AcquireStep, Transfers;
    if e.Advance? {
      FinalizingInRange(i, c, st);
      FinalizeTransfers(i, c, st, runs', st');
    } else if e.Acquire? {
      AcquireTransfers(i, c, st, runs', st');
    } else {
      OtherTransfers(i, c, st, e, runs', st');
    }
  }

  lemma FinalizingInRange(i: nat, c: Client, st: Store)
    requires ClientInv(i, c, st) && c.alive && c.runs.control.Finalizing?
    ensures FinalizeFacts(i, c.pipe, c.runs, st) && c.runs.control.obj < |c.runs.objs|
  {
  }

  lemma OtherTransfers(i: nat, c: Client, st: Store, e: ControlEvent, runs': Runs, st': Store)
    requires RunsStep(i, c.pipe, c.runs, st, e) == Some((runs', st')) && !e.Advance? && !e.Acquire?
    ensures Transfers(i, c, st, c.(runs := runs'), st')
  {
    if e.InsertError? || e.InsertRun? {
      InsertTransfers(i, c, st, e, runs', st');
    } else {
      hide InsertRunStep, InsertErrorStep, FinalizeStep, AcquireStep;
      assert st'.rows == st.rows && st'.locks == st.locks;
    }
  }

  lemma InsertTransfers(i: nat, c: Client, st: Store, e: ControlEvent, runs': Runs, st': Store)
    requires RunsStep(i, c.pipe, c.runs, st, e) == Some((runs', st')) && (e.InsertError? || e.InsertRun?)
    ensures Transfers(i, c, st, c.(runs := runs'), st')
  {
  }

  lemma ControlTransfers(i: nat, c: Client, st: Store, e: ControlEvent, c': Client, st': Store)
    requires ClientInv(i, c, st) && c.alive
    requires ControlStep(i, c, st, e) == Some((c', st'))
    ensures Transfers(i, c, st, c', st')
  {
    hide ClientInv, RunsStep;
    if e.Crash? || (e.Advance? && !c.runs.control.Finalizing?) {
    } else {
      RunsTransfer(i, c, st, e, c'.runs, st');
    }
  }

  lemma TransfersKeepOwner(i: nat, c: Client, st: Store, c': Client, st': Store)
    requires OwnerInv(i, c, st) && OwnerBlocks(st) && c.alive && Transfers(i, c, st, c', st') && Guarantee(i, st, st')
    ensures OwnerInv(i, c', st') && OwnerBlocks(st')
  {
    forall run | Wrote(i, st.rows, run) ensures run in st.status {
      var a :| 0 <= a < |st.rows| && RowOf(st.rows, a, i, run);
    }
    forall run | CreatingAnew(c.runs.control, run) && OwnedBy(st', i, run) && c'.alive && MayAppend(c.pipe.worker)
      ensures WroteLast(i, st'.rows, run)
    {
      assert !Wrote(i, st.rows, run);
    }
  }

  lemma WorkerKeepsOwner(i: nat, c: Client, st: Store, e: WorkerEvent, p': Pipe, st': Store)
    requires ClientInv(i, c, st) && c.alive && OwnerInv(i, c, st) && OwnerBlocks(st)
    requires WorkerStep(i, c.pipe, st, e) == Some((p', st'))
    ensures OwnerInv(i, c.(pipe := p'), st') && OwnerBlocks(st')
  {
    WorkerAppends(i, c.pipe, st, e, p', st');
    WorkerLeavesLog(i, c.pipe, st, e, p', st');
    forall a | |st.rows| <= a < |st'.rows|
      ensures OwnsRow(i, c, st, st'.rows[a])
    {
      assert CopiesLive(i, c.pipe, st'.rows[a]);
    }
    hide ClientInv, WorkerStep;
    OwnRowsKeepOwner(i, c, st, p', st');
  }

  predicate OwnsRow(i: nat, c: Client, st: Store, row: Row) {
    && row.client == i && OwnedBy(st, i, row.report.run) && row.report.run in st.status
    && !CreatingAnew(c.runs.control, row.report.run) && MayAppend(c.pipe.worker)
  }

  lemma OwnRowsKeepOwner(i: nat, c: Client, st: Store, p': Pipe, st': Store)
    requires c.alive && OwnerInv(i, c, st) && OwnerBlocks(st)
    requires MayAppend(p'.worker) ==> MayAppend(c.pipe.worker)
    requires st' == st.(rows := st'.rows, acked := st'.acked, skewed := st'.skewed)
    requires |st.rows| <= |st'.rows| && st'.rows[..|st.rows|] == st.rows
    requires forall a :: |st.rows| <= a < |st'.rows| ==> OwnsRow(i, c, st, st'.rows[a])
    ensures OwnerInv(i, c.(pipe := p'), st') && OwnerBlocks(st')
  {
    assert forall a :: 0 <= a < |st.rows| ==> st'.rows[a] == st.rows[a];
    forall run ensures Wrote(i, st'.rows, run) ==> Wrote(i, st.rows, run) || (OwnedBy(st, i, run) && !CreatingAnew(c.runs.control, run)) {
      if Wrote(i, st'.rows, run) {
        var a :| 0 <= a < |st'.rows| && RowOf(st'.rows, a, i, run);
        if a < |st.rows| { assert RowOf(st.rows, a, i, run); } else { assert OwnsRow(i, c, st, st'.rows[a]); }
      }
    }
    forall run | OwnedBy(st, i, run) && MayAppend(c.pipe.worker) ensures WroteLast(i, st'.rows, run) {
      assert WroteLast(i, st.rows, run);
      forall a, b | 0 <= a < b < |st'.rows| && RowOf(st'.rows, a, i, run) && st'.rows[b].report.run == run ensures st'.rows[b].client == i {
        if b < |st.rows| { assert RowOf(st.rows, a, i, run); } else { assert OwnsRow(i, c, st, st'.rows[b]); }
      }
    }
    forall a, b, d | 0 <= a < b < d < |st'.rows| && SameOwnerAround(st'.rows, a, b, d)
      ensures st'.rows[b].client == st'.rows[a].client
    {
      if d < |st.rows| {
        assert SameOwnerAround(st.rows, a, b, d);
      } else {
        var run := st'.rows[d].report.run;
        assert OwnsRow(i, c, st, st'.rows[d]);
        assert WroteLast(i, st'.rows, run) && RowOf(st'.rows, a, i, run);
      }
    }
    forall a | 0 <= a < |st'.rows| ensures st'.rows[a].report.run in st'.status {
      if a >= |st.rows| { assert OwnsRow(i, c, st, st'.rows[a]); }
    }
  }

  lemma OthersKeepOwner(i: nat, j: nat, c: Client, st: Store, st': Store)
    requires i != j && OwnerInv(i, c, st) && Guarantee(j, st, st')
    ensures OwnerInv(i, c, st')
  {
    assert forall a :: 0 <= a < |st.rows| ==> st'.rows[a] == st'.rows[..|st.rows|][a];
    forall run ensures OwnedBy(st, i, run) <==> OwnedBy(st', i, run) {
      if run in st'.locks && st'.locks[run].client == i { assert run in st.locks; }
    }
    forall run ensures Wrote(i, st.rows, run) <==> Wrote(i, st'.rows, run) {
      if Wrote(i, st.rows, run) {
        var a :| 0 <= a < |st.rows| && RowOf(st.rows, a, i, run);
        assert RowOf(st'.rows, a, i, run);
      }
      if Wrote(i, st'.rows, run) {
        var a :| 0 <= a < |st'.rows| && RowOf(st'.rows, a, i, run);
        assert RowOf(st.rows, a, i, run);
      }
    }
    if c.alive && MayAppend(c.pipe.worker) {
      forall run | OwnedBy(st', i, run) ensures WroteLast(i, st'.rows, run) {
        assert WroteLast(i, st.rows, run);
        forall a, b | 0 <= a < b < |st'.rows| && RowOf(st'.rows, a, i, run) && st'.rows[b].report.run == run ensures st'.rows[b].client == i {
          assert a < |st.rows| && RowOf(st.rows, a, i, run);
          assert b < |st.rows|;
        }
      }
    }
  }

  ghost predicate OwnersInv(s: System) {
    OwnerBlocks(s.store) && forall i :: 0 <= i < |s.clients| ==> OwnerInv(i, s.clients[i], s.store)
  }

  lemma StepKeepsOwner(i: nat, c: Client, st: Store, e: Event, c': Client, st': Store)
    requires MemberInv(i, c, st) && c.alive && StoreInv(st) && TableInv(st) && OwnerInv(i, c, st) && OwnerBlocks(st)
    requires ClientStep(i, c, st, e) == Some((c', st'))
    ensures OwnerInv(i, c', st') && OwnerBlocks(st') && Guarantee(i, st, st')
  {
    MemberStep(i, c, st, e, c', st');
    hide ClientInv, RowsInv, StoreInv, TableInv, OwnerInv, OwnerBlocks, Guarantee, Transfers, ControlStep, WorkerStep;
    match e {
      case Logger(_, logger) => LoggerKeepsOwner(i, c, st, logger, c'.pipe, c'.runs);
      case Work(_, work) => WorkerKeepsOwner(i, c, st, work, c'.pipe, st');
      case Command(_, command) =>
        ControlTransfers(i, c, st, command, c', st');
        TransfersKeepOwner(i, c, st, c', st');
    }
  }

  lemma LoggerKeepsOwner(i: nat, c: Client, st: Store, e: LoggerEvent, p': Pipe, runs': Runs)
    requires OwnerInv(i, c, st) && LoggerStep(c.pipe, c.runs, e) == Some((p', runs'))
    ensures OwnerInv(i, c.(pipe := p', runs := runs'), st)
  {
    assert p'.worker == c.pipe.worker && runs'.control == c.runs.control;
  }

  lemma ApplyKeepsOwners(s: System, e: Event, s': System)
    requires SystemInv(s) && OwnersInv(s) && Apply(s, e) == Some(s')
    ensures OwnersInv(s')
  {
    if e.OpenClient? {
      forall run ensures !Wrote(|s.clients|, s.store.rows, run) && !OwnedBy(s.store, |s.clients|, run) {
      }
    } else {
      var j := e.client;
      assert MemberInv(j, s.clients[j], s.store);
      hide MemberInv, OwnerInv, OwnerBlocks, StoreInv, TableInv, KnownClients, Guarantee, ClientStep;
      StepKeepsOwner(j, s.clients[j], s.store, e, s'.clients[j], s'.store);
      forall i | 0 <= i < |s'.clients| ensures OwnerInv(i, s'.clients[i], s'.store) {
        if i != j { OthersKeepOwner(i, j, s.clients[i], s.store, s'.store); }
      }
    }
  }

  lemma {:induction false} RunKeepsOwners(s: System, events: seq<Event>, s': System)
    requires SystemInv(s) && OwnersInv(s) && Run(s, events) == Some(s')
    ensures OwnersInv(s')
    decreases |events|
  {
    hide SystemInv, OwnersInv, Apply;
    if events != [] {
      var next := Apply(s, events[0]).value;
      ApplyKeepsInv(s, events[0], next);
      ApplyKeepsOwners(s, events[0], next);
      RunKeepsOwners(next, events[1..], s');
    }
  }

  /** The client is up and has a report of the run that may still be stored. */
  ghost predicate MayStore(c: Client, run: RunId) {
    c.alive && exists k :: Live(c.pipe, k) && c.pipe.accepted[k].run == run
  }

  /**
    One writer at a time. Two clients never hold one run's lock, only the holder
    has reports of the run that may still be stored, and the stored rows of a run
    come in one uninterrupted block per owner, whatever ended each ownership.
   */
  lemma OneWriterAtATime(s: System, run: RunId)
    requires Reachable(s)
    ensures forall i, j :: 0 <= i < |s.clients| && 0 <= j < |s.clients| && MayStore(s.clients[i], run) && MayStore(s.clients[j], run) ==> i == j
    ensures forall i :: 0 <= i < |s.clients| && MayStore(s.clients[i], run) ==> OwnedBy(s.store, i, run)
    ensures OwnerBlocks(s.store)
  {
    ReachableInv(s);
    var events :| Run(INITIAL, events) == Some(s);
    InitialInv();
    RunKeepsOwners(INITIAL, events, s);
    forall i | 0 <= i < |s.clients| && MayStore(s.clients[i], run) ensures OwnedBy(s.store, i, run) {
      assert MemberInv(i, s.clients[i], s.store);
    }
  }
}
