/**
  Who may write to a run: admission gates, active runs and lock files of one
  client, what finalization knows in each phase, and what a client may rely on
  while other clients move.
 */
module PipelineOwnership {
  import opened Metrics
  import opened Pipeline
  import opened PipelineCounts

  /** The reports that were accepted and may still be appended. */
  predicate Live(p: Pipe, k: int) {
    MayAppend(p.worker) && |p.rowAt| <= k < |p.accepted|
  }

  /** Every accepted report of the run precedes position `bound`. */
  ghost predicate AllBefore(accepted: seq<Report>, run: RunId, bound: int) {
    forall k :: bound <= k < |accepted| && 0 <= k ==> accepted[k].run != run
  }

  /** Gate and sender lock agree with each other, within one client. */
  ghost predicate Gated(p: Pipe, runs: Runs) {
    && (forall o :: 0 <= o < |runs.objs| && runs.objs[o].gate.Held? ==> runs.objs[o].published && runs.objs[o].admission.Open?)
    && (!p.sender.Unlocked? ==> p.reporter.senderOpen && p.sender.obj < |runs.objs| && runs.objs[p.sender.obj].gate.Held?)
    && (p.sender.Stamped? ==> p.sender.report.run == runs.objs[p.sender.obj].run)
    && (forall run :: run in runs.active ==> runs.active[run] < |runs.objs| && runs.objs[runs.active[run]].run == run)
  }

  predicate Forgetting(control: Control, run: RunId) {
    control.Finalizing? && control.run == run && control.phase.Forget?
  }

  /** The control thread has read that the run is running, and is about to take its lock. */
  predicate Reacquiring(control: Control, run: RunId) {
    (control.ResumeAcquire? || control.FinalizeAcquire?) && control.run == run
  }

  predicate Creating(control: Control, run: RunId) {
    control.CreateInsert? && control.run == run
  }

  /** The client's active runs are exactly the lock files it holds. */
  ghost predicate LocksMatch(i: nat, runs: Runs, st: Store) {
    && (forall run :: OwnedBy(st, i, run) ==> run in runs.active && runs.active[run] == st.locks[run].obj && !Forgetting(runs.control, run))
    && (forall run :: run in runs.active && !Forgetting(runs.control, run) ==> Holds(st, i, run, runs.active[run]))
    && (match runs.control
        case CreateAcquire(run) => run !in runs.active
        case CreateInsert(run, o) => run in runs.active && runs.active[run] == o && (o < |runs.objs| ==> !runs.objs[o].published)
        case Finalizing(run, o, _, _) => run in runs.active && runs.active[run] == o
        case _ => true)
  }

  /** Only the holder of a run's lock has an open, usable gate for it, or reports that may still be stored. */
  ghost predicate Exclusive(i: nat, p: Pipe, runs: Runs, st: Store) {
    && (p.reporter.senderOpen ==> forall o :: 0 <= o < |runs.objs| && runs.objs[o].published && runs.objs[o].admission.Open? ==>
          Holds(st, i, runs.objs[o].run, o))
    && (forall k :: Live(p, k) ==> OwnedBy(st, i, p.accepted[k].run) && !Creating(runs.control, p.accepted[k].run))
    && (runs.control.ShutdownJoin? ==> !p.reporter.senderOpen)
  }

  predicate Draining(phase: Phase) {
    phase.TakeBarrier? || phase.Drain? || phase.Check?
  }

  predicate Settled(phase: Phase) {
    phase.DeleteAggregates? || phase.InsertAggregates? || phase.MarkTerminal? || phase.Seal? || phase.Release? || phase.Forget?
  }

  predicate AfterMark(phase: Phase) {
    phase.Seal? || phase.Release? || phase.Forget?
  }

  /** A run that is still running, or whose lock was taken too late. */
  predicate RunningOrRaced(st: Store, run: RunId) {
    run in st.status && (st.status[run].Running? || run in st.raced)
  }

  /** What `finalize_run` knows in each phase. */
  ghost predicate FinalizeFacts(i: nat, p: Pipe, runs: Runs, st: Store) {
    runs.control.Finalizing? && runs.control.obj < |runs.objs| ==>
      var run, o, phase := runs.control.run, runs.control.obj, runs.control.phase;
      && !runs.control.target.Running?
      && (Draining(phase) || (Settled(phase) && !phase.Release? && !phase.Forget?) ==> runs.objs[o].admission.Closing?)
      && (phase.Release? || phase.Forget? ==> runs.objs[o].admission.Terminal?)
      && (phase.Drain? ==> AllBefore(p.accepted, run, phase.barrier))
      && (phase.Check? ==> AllBefore(p.accepted, run, phase.barrier) && phase.barrier <= |p.rowAt|)
      && (Settled(phase) ==> AllBefore(p.accepted, run, |p.rowAt|))
      && (if AfterMark(phase) then IsTerminal(st, run) else RunningOrRaced(st, run))
      && (phase.MarkTerminal? ==> run in st.aggregates && st.aggregates[run] == Summaries(st.rows, run))
  }

  /** A client's writable runs are running. */
  ghost predicate RunsRunning(p: Pipe, runs: Runs, st: Store) {
    && (forall run :: run in runs.active && !Creating(runs.control, run) ==> run in st.status)
    && (forall run :: run in runs.active && !Creating(runs.control, run) && runs.active[run] < |runs.objs| && runs.objs[runs.active[run]].admission.Open?
          ==> RunningOrRaced(st, run))
    && (forall k :: Live(p, k) ==> RunningOrRaced(st, p.accepted[k].run))
    && (runs.control.ResumeAcquire? ==> runs.control.run in st.status && (runs.control.run in runs.active ==> RunningOrRaced(st, runs.control.run)))
    && (runs.control.FinalizeAcquire? ==> !runs.control.target.Running? && runs.control.run in st.status)
    && (runs.control.FinalizeAcquire? ==> runs.control.run in runs.active ==> RunningOrRaced(st, runs.control.run))
  }

  /** Everything the client accepted for a run it sealed is stored. */
  ghost predicate SealedRunsStored(i: nat, p: Pipe, st: Store) {
    forall run :: run in st.sealedBy && st.sealedBy[run] == i && run !in st.raced ==> AllBefore(p.accepted, run, |p.rowAt|)
  }

  ghost predicate ClientInv(i: nat, c: Client, st: Store) {
    && Counts(c.pipe)
    && Gated(c.pipe, c.runs)
    && (c.alive ==> LocksMatch(i, c.runs, st) && Exclusive(i, c.pipe, c.runs, st) && FinalizeFacts(i, c.pipe, c.runs, st) && RunsRunning(c.pipe, c.runs, st))
    && (!c.alive ==> forall run :: !OwnedBy(st, i, run))
    && SealedRunsStored(i, c.pipe, st)
  }

  /** Terminal runs have a summary that matches their rows. */
  ghost predicate StoreInv(st: Store) {
    && (forall run :: run in st.raced ==> IsTerminal(st, run))
    && (forall run :: run in st.sealedBy <==> IsTerminal(st, run))
    && (forall run :: IsTerminal(st, run) && run !in st.raced ==> run in st.aggregates && st.aggregates[run] == Summaries(st.rows, run))
  }

  /** What every client guarantees the others about one of its steps. */
  ghost predicate Guarantee(j: nat, st: Store, st': Store) {
    && |st.rows| <= |st'.rows| && st'.rows[..|st.rows|] == st.rows
    && (forall a :: |st.rows| <= a < |st'.rows| ==> st'.rows[a].client == j && OwnedBy(st, j, st'.rows[a].report.run) && RunningOrRaced(st, st'.rows[a].report.run))
    && (forall run :: run in st.locks && st.locks[run].client != j ==> run in st'.locks && st'.locks[run] == st.locks[run])
    && (forall run :: run in st'.locks && st'.locks[run].client != j ==> run in st.locks && st'.locks[run] == st.locks[run])
    && (forall run :: run in st.status ==> run in st'.status)
    && (forall run :: run in st'.status && (run !in st.status || st'.status[run] != st.status[run]) ==> OwnedBy(st, j, run))
    && (forall run :: IsTerminal(st, run) ==> st'.status[run] == st.status[run])
    && (forall run :: OwnedBy(st, j, run) || ((run in st.aggregates <==> run in st'.aggregates) && (run in st.aggregates ==> st'.aggregates[run] == st.aggregates[run])))
    && st.raced <= st'.raced
    && (forall run :: run in st.sealedBy ==> run in st'.sealedBy && (st'.sealedBy[run] == st.sealedBy[run] || run in st.raced))
    && (forall run :: run in st'.sealedBy && (run !in st.sealedBy || st'.sealedBy[run] != st.sealedBy[run]) ==> st'.sealedBy[run] == j)
  }

  lemma SummariesUnderGuarantee(j: nat, st: Store, st': Store, run: RunId)
    requires Guarantee(j, st, st')
    requires !OwnedBy(st, j, run) || !RunningOrRaced(st, run)
    ensures Summaries(st'.rows, run) == Summaries(st.rows, run)
  {
    var more := st'.rows[|st.rows|..];
    assert st'.rows == st.rows + more;
    forall b | 0 <= b < |more| ensures more[b].report.run != run {
      assert more[b] == st'.rows[|st.rows| + b];
    }
    SummariesIgnoreOtherRuns(st.rows, more, run);
  }

  /** No step of another client disturbs what a client relies on. */
  lemma OthersKeepClient(i: nat, j: nat, c: Client, st: Store, st': Store)
    requires i != j && ClientInv(i, c, st) && Guarantee(j, st, st')
    ensures ClientInv(i, c, st')
  {
    forall run ensures OwnedBy(st, i, run) <==> OwnedBy(st', i, run) {
      if run in st'.locks && st'.locks[run].client == i { assert run in st.locks; }
    }
    OthersKeepSealed(i, j, c, st, st');
    if c.alive {
      OthersKeepLocks(i, j, c, st, st');
      OthersKeepRunning(i, j, c, st, st');
      OthersKeepFacts(i, j, c, st, st');
    }
  }

  lemma OthersKeepSealed(i: nat, j: nat, c: Client, st: Store, st': Store)
    requires i != j && SealedRunsStored(i, c.pipe, st) && Guarantee(j, st, st')
    ensures SealedRunsStored(i, c.pipe, st')
  {
    forall run | run in st'.sealedBy && st'.sealedBy[run] == i && run !in st'.raced ensures AllBefore(c.pipe.accepted, run, |c.pipe.rowAt|) {
      assert run in st.sealedBy && st.sealedBy[run] == i && run !in st.raced;
    }
  }

  lemma OthersKeepLocks(i: nat, j: nat, c: Client, st: Store, st': Store)
    requires i != j && LocksMatch(i, c.runs, st) && Exclusive(i, c.pipe, c.runs, st) && Guarantee(j, st, st')
    ensures LocksMatch(i, c.runs, st') && Exclusive(i, c.pipe, c.runs, st')
  {
    forall run ensures OwnedBy(st, i, run) <==> OwnedBy(st', i, run) {
      if run in st'.locks && st'.locks[run].client == i { assert run in st.locks; }
    }
  }

  lemma OthersKeepRunning(i: nat, j: nat, c: Client, st: Store, st': Store)
    requires i != j && LocksMatch(i, c.runs, st) && Exclusive(i, c.pipe, c.runs, st) && RunsRunning(c.pipe, c.runs, st) && Gated(c.pipe, c.runs)
    requires FinalizeFacts(i, c.pipe, c.runs, st) && Guarantee(j, st, st')
    ensures RunsRunning(c.pipe, c.runs, st')
  {
    forall run | OwnedBy(st, i, run) && RunningOrRaced(st, run) ensures RunningOrRaced(st', run) {
      assert !OwnedBy(st, j, run);
    }
  }

  lemma OthersKeepFacts(i: nat, j: nat, c: Client, st: Store, st': Store)
    requires i != j && LocksMatch(i, c.runs, st) && FinalizeFacts(i, c.pipe, c.runs, st) && Guarantee(j, st, st')
    ensures FinalizeFacts(i, c.pipe, c.runs, st')
  {
    if c.runs.control.Finalizing? {
      var run, phase := c.runs.control.run, c.runs.control.phase;
      if phase.Forget? {
        assert IsTerminal(st, run) || c.runs.control.obj >= |c.runs.objs|;
      } else {
        assert Holds(st, i, run, c.runs.active[run]);
        assert !OwnedBy(st, j, run);
        SummariesUnderGuarantee(j, st, st', run);
      }
    }
  }
}
