/**
  Every step of a client keeps its own invariant, the store's invariant, and
  the guarantee given to the other clients.
 */
module PipelineSteps {
  import opened Values
  import opened Metrics
  import opened Pipeline
  import opened PipelineCounts
  import opened PipelineOwnership
  import opened PipelineRows

  /** The report being pushed goes to a run the client owns and that is running. */
  lemma SenderOwnsRun(i: nat, c: Client, st: Store)
    requires ClientInv(i, c, st) && c.alive && c.pipe.sender.Stamped?
    ensures var run := c.pipe.sender.report.run;
            && OwnedBy(st, i, run) && !Creating(c.runs.control, run) && RunningOrRaced(st, run)
            && st.locks[run].obj < |c.runs.objs| && c.runs.objs[st.locks[run].obj].admission.Open?
  {
    var o := c.pipe.sender.obj;
    var run := c.runs.objs[o].run;
    assert c.runs.objs[o].published && c.runs.objs[o].admission.Open?;
    assert Holds(st, i, run, o);
    assert OwnedBy(st, i, run) && c.runs.active[run] == o;
  }

  lemma PushKeepsClient(i: nat, c: Client, st: Store, p': Pipe, runs': Runs)
    requires ClientInv(i, c, st) && StoreInv(st) && c.alive
    requires LoggerStep(c.pipe, c.runs, Push) == Some((p', runs'))
    ensures Exclusive(i, p', runs', st) && RunsRunning(p', runs', st) && FinalizeFacts(i, p', runs', st) && SealedRunsStored(i, p', st)
  {
    SenderOwnsRun(i, c, st);
    SenderRunIsOpen(i, c, st);
    var run := c.pipe.sender.report.run;
    assert runs' == c.runs && SentOnly(c.pipe, p');
    assert forall k :: 0 <= k < |c.pipe.accepted| ==> p'.accepted[k] == c.pipe.accepted[k];
    assert p'.accepted[|c.pipe.accepted|].run == run;
    hide LoggerStep, Counts, Gated, LocksMatch;
    PushKeepsExclusive(i, c, st, p');
    PushKeepsFacts(i, c, st, p');
  }

  /** Only the log got longer, by the stamped report. */
  predicate SentOnly(p: Pipe, p': Pipe) {
    && p.sender.Stamped? && p'.accepted == p.accepted + [p.sender.report] && p'.rowAt == p.rowAt && p'.worker == p.worker
    && p'.reporter.senderOpen == p.reporter.senderOpen
  }

  /** The run of a report being pushed is not sealed, and if it is being finalized, its gate is not closed yet. */
  lemma SenderRunIsOpen(i: nat, c: Client, st: Store)
    requires ClientInv(i, c, st) && c.alive && StoreInv(st) && c.pipe.sender.Stamped?
    ensures var run := c.pipe.sender.report.run;
            && (run in st.sealedBy ==> run in st.raced)
            && (c.runs.control.Finalizing? && c.runs.control.run == run && c.runs.control.obj < |c.runs.objs| ==>
                  c.runs.objs[c.runs.control.obj].admission.Open?)
  {
    SenderOwnsRun(i, c, st);
    var run := c.pipe.sender.report.run;
    assert c.runs.control.Finalizing? && c.runs.control.run == run ==> c.runs.control.obj == st.locks[run].obj;
  }

  lemma PushKeepsExclusive(i: nat, c: Client, st: Store, p': Pipe)
    requires Exclusive(i, c.pipe, c.runs, st) && RunsRunning(c.pipe, c.runs, st) && SentOnly(c.pipe, p')
    requires var run := c.pipe.sender.report.run; OwnedBy(st, i, run) && !Creating(c.runs.control, run) && RunningOrRaced(st, run)
    ensures Exclusive(i, p', c.runs, st) && RunsRunning(p', c.runs, st)
  {
  }

  lemma PushKeepsFacts(i: nat, c: Client, st: Store, p': Pipe)
    requires FinalizeFacts(i, c.pipe, c.runs, st) && SealedRunsStored(i, c.pipe, st) && SentOnly(c.pipe, p')
    requires var run := c.pipe.sender.report.run;
             && (run in st.sealedBy ==> run in st.raced)
             && (c.runs.control.Finalizing? && c.runs.control.run == run && c.runs.control.obj < |c.runs.objs| ==>
                   c.runs.objs[c.runs.control.obj].admission.Open?)
    ensures FinalizeFacts(i, p', c.runs, st) && SealedRunsStored(i, p', st)
  {
  }

  lemma LoggerKeepsClient(i: nat, c: Client, st: Store, e: LoggerEvent, p': Pipe, runs': Runs)
    requires ClientInv(i, c, st) && StoreInv(st) && c.alive
    requires LoggerStep(c.pipe, c.runs, e) == Some((p', runs'))
    ensures ClientInv(i, Client(true, p', runs'), st)
  {
    LoggerKeepsCounts(c.pipe, c.runs, e, p', runs');
    LoggerKeepsGates(c.pipe, c.runs, e, p', runs');
    if e.Push? {
      PushKeepsClient(i, c, st, p', runs');
    } else {
      QuietLoggerKeepsClient(i, c, st, e, p', runs');
    }
  }

  lemma LoggerKeepsGates(p: Pipe, runs: Runs, e: LoggerEvent, p': Pipe, runs': Runs)
    requires Gated(p, runs) && LoggerStep(p, runs, e) == Some((p', runs'))
    ensures Gated(p', runs')
    ensures |runs'.objs| == |runs.objs| && runs' == runs.(objs := runs'.objs)
    ensures forall o :: 0 <= o < |runs.objs| ==> runs'.objs[o] == runs.objs[o].(gate := runs'.objs[o].gate)
    ensures !e.Push? ==> p'.accepted == p.accepted
    ensures p'.rowAt == p.rowAt && p'.worker == p.worker && p'.reporter.senderOpen == p.reporter.senderOpen
  {
  }

  lemma QuietLoggerKeepsClient(i: nat, c: Client, st: Store, e: LoggerEvent, p': Pipe, runs': Runs)
    requires ClientInv(i, c, st) && c.alive && !e.Push?
    requires LoggerStep(c.pipe, c.runs, e) == Some((p', runs'))
    ensures LocksMatch(i, runs', st) && Exclusive(i, p', runs', st) && RunsRunning(p', runs', st) && FinalizeFacts(i, p', runs', st) && SealedRunsStored(i, p', st)
  {
    LoggerKeepsGates(c.pipe, c.runs, e, p', runs');
    assert OnlyGates(c.pipe, c.runs, p', runs');
    hide LoggerStep, Gated, Counts, OnlyGates;
    GatesKeepLocks(i, c, st, p', runs');
    GatesKeepRunning(i, c, st, p', runs');
  }

  /** Nothing but gates, the sender lock and counters changed. */
  ghost predicate OnlyGates(p: Pipe, runs: Runs, p': Pipe, runs': Runs) {
    && |runs'.objs| == |runs.objs| && runs' == runs.(objs := runs'.objs)
    && (forall o :: 0 <= o < |runs.objs| ==> runs'.objs[o] == runs.objs[o].(gate := runs'.objs[o].gate))
    && p'.accepted == p.accepted && p'.rowAt == p.rowAt && p'.worker == p.worker && p'.reporter.senderOpen == p.reporter.senderOpen
  }

  lemma GatesKeepLocks(i: nat, c: Client, st: Store, p': Pipe, runs': Runs)
    requires LocksMatch(i, c.runs, st) && Exclusive(i, c.pipe, c.runs, st) && OnlyGates(c.pipe, c.runs, p', runs')
    ensures LocksMatch(i, runs', st) && Exclusive(i, p', runs', st)
  {
  }

  lemma GatesKeepRunning(i: nat, c: Client, st: Store, p': Pipe, runs': Runs)
    requires RunsRunning(c.pipe, c.runs, st) && FinalizeFacts(i, c.pipe, c.runs, st) && SealedRunsStored(i, c.pipe, st)
    requires OnlyGates(c.pipe, c.runs, p', runs')
    ensures RunsRunning(p', runs', st) && FinalizeFacts(i, p', runs', st) && SealedRunsStored(i, p', st)
  {
  }

  // ----------------------------------------------------------------- worker

  lemma WorkerLeavesLog(i: nat, p: Pipe, st: Store, e: WorkerEvent, p': Pipe, st': Store)
    requires WorkerStep(i, p, st, e) == Some((p', st'))
    ensures p'.accepted == p.accepted && p'.sender == p.sender && p'.reporter.senderOpen == p.reporter.senderOpen
    ensures |p.rowAt| <= |p'.rowAt| && (MayAppend(p'.worker) ==> MayAppend(p.worker))
    ensures st' == st.(rows := st'.rows, acked := st'.acked, skewed := st'.skewed)
  {
  }

  /** A row of client `i` that copies a report it may still store. */
  predicate CopiesLive(i: nat, p: Pipe, row: Row) {
    && row.client == i && 1 <= row.report.sequence && Live(p, row.report.sequence - 1)
    && p.accepted[row.report.sequence - 1] == row.report
  }

  lemma ExtendedRows(i: nat, p: Pipe, rows: seq<Row>, rows': seq<Row>, count: nat, base: int)
    requires Numbered(p.accepted) && Extends(i, p, rows, rows', count, base) && p.worker.Writing?
    ensures |rows| <= |rows'| && rows'[..|rows|] == rows
    ensures forall a :: |rows| <= a < |rows'| ==> CopiesLive(i, p, rows'[a])
  {
    forall a | |rows| <= a < |rows'| ensures CopiesLive(i, p, rows'[a]) {
      var k := |p.rowAt| + a - |rows|;
      assert rows'[a].report == p.accepted[k] && p.accepted[k].sequence == k + 1;
    }
  }

  /** The rows an append adds: a prefix of the batch in hand. */
  lemma WorkerAppends(i: nat, p: Pipe, st: Store, e: WorkerEvent, p': Pipe, st': Store)
    requires Counts(p) && WorkerStep(i, p, st, e) == Some((p', st'))
    ensures |st.rows| <= |st'.rows| && st'.rows[..|st.rows|] == st.rows
    ensures forall a :: |st.rows| <= a < |st'.rows| ==> CopiesLive(i, p, st'.rows[a])
  {
    match e {
      case Append(now) =>
        AppendEffect(i, p, st, now);
        ExtendedRows(i, p, st.rows, st'.rows, |p.worker.batch|, Max(p.nextStamp, now));
      case AppendError(now, committed) =>
        AppendErrorEffect(i, p, st, now, committed);
        ExtendedRows(i, p, st.rows, st'.rows, committed, Max(p.nextStamp, now));
      case _ =>
    }
  }

  lemma WorkerGuarantees(i: nat, c: Client, st: Store, e: WorkerEvent, p': Pipe, st': Store)
    requires ClientInv(i, c, st) && c.alive
    requires WorkerStep(i, c.pipe, st, e) == Some((p', st'))
    ensures Guarantee(i, st, st')
  {
    WorkerLeavesLog(i, c.pipe, st, e, p', st');
    WorkerAppends(i, c.pipe, st, e, p', st');
  }

  lemma WorkerKeepsStore(i: nat, c: Client, st: Store, e: WorkerEvent, p': Pipe, st': Store)
    requires ClientInv(i, c, st) && c.alive && StoreInv(st)
    requires WorkerStep(i, c.pipe, st, e) == Some((p', st'))
    ensures StoreInv(st')
  {
    WorkerLeavesLog(i, c.pipe, st, e, p', st');
    WorkerGuarantees(i, c, st, e, p', st');
    forall run | IsTerminal(st, run) && run !in st.raced ensures Summaries(st'.rows, run) == Summaries(st.rows, run) {
      SummariesUnderGuarantee(i, st, st', run);
    }
  }

  /** The run being marked gets no more rows: nothing live is left for it. */
  lemma WorkerKeepsMarkedSummary(i: nat, c: Client, st: Store, e: WorkerEvent, p': Pipe, st': Store, run: RunId)
    requires ClientInv(i, c, st) && c.alive && AllBefore(c.pipe.accepted, run, |c.pipe.rowAt|)
    requires WorkerStep(i, c.pipe, st, e) == Some((p', st'))
    ensures Summaries(st'.rows, run) == Summaries(st.rows, run)
  {
    WorkerAppends(i, c.pipe, st, e, p', st');
    var more := st'.rows[|st.rows|..];
    assert st'.rows == st.rows + more;
    forall b | 0 <= b < |more| ensures more[b].report.run != run {
      assert more[b] == st'.rows[|st.rows| + b];
    }
    SummariesIgnoreOtherRuns(st.rows, more, run);
  }

  /** All that matters about a worker step, whichever it was. */
  lemma AcknowledgingKeepsClient(i: nat, c: Client, st: Store, p': Pipe, st': Store)
    requires ClientInv(i, c, st) && c.alive && Counts(p')
    requires p'.accepted == c.pipe.accepted && p'.sender == c.pipe.sender && p'.reporter.senderOpen == c.pipe.reporter.senderOpen
    requires |c.pipe.rowAt| <= |p'.rowAt| && (MayAppend(p'.worker) ==> MayAppend(c.pipe.worker))
    requires st' == st.(rows := st'.rows, acked := st'.acked, skewed := st'.skewed)
    requires c.runs.control.Finalizing? && c.runs.control.phase.MarkTerminal? ==>
               Summaries(st'.rows, c.runs.control.run) == Summaries(st.rows, c.runs.control.run)
    ensures ClientInv(i, Client(true, p', c.runs), st')
  {
    hide Counts;
    assert forall k :: Live(p', k) ==> Live(c.pipe, k);
    assert LocksMatch(i, c.runs, st');
    assert Exclusive(i, p', c.runs, st');
    assert FinalizeFacts(i, p', c.runs, st');
    assert RunsRunning(p', c.runs, st');
  }

  lemma WorkerKeepsClient(i: nat, c: Client, st: Store, e: WorkerEvent, p': Pipe, st': Store)
    requires ClientInv(i, c, st) && c.alive
    requires WorkerStep(i, c.pipe, st, e) == Some((p', st'))
    ensures ClientInv(i, Client(true, p', c.runs), st')
  {
    WorkerKeepsCounts(i, c.pipe, st, e, p', st');
    WorkerLeavesLog(i, c.pipe, st, e, p', st');
    var control := c.runs.control;
    if control.Finalizing? && control.phase.MarkTerminal? {
      assert control.obj == c.runs.active[control.run];
      WorkerKeepsMarkedSummary(i, c, st, e, p', st', control.run);
    }
    AcknowledgingKeepsClient(i, c, st, p', st');
  }

  // ----------------------------------------------------------------- control thread

  /** Steps of the control thread before an operation does anything. */
  lemma RunHandleKeepsClient(i: nat, c: Client, st: Store, run: RunId, runs': Runs)
    requires ClientInv(i, c, st) && c.alive && BeginStep(c.pipe, c.runs, st, RunHandle(run)) == Some(runs')
    ensures ClientInv(i, c.(runs := runs'), st)
  {
    hide Counts;
    var o := c.runs.active[run];
    assert Holds(st, i, run, o);
    assert runs'.objs[o] == c.runs.objs[o].(published := true);
  }

  lemma BeginKeepsClient(i: nat, c: Client, st: Store, e: ControlEvent, runs': Runs)
    requires ClientInv(i, c, st) && c.alive && !e.RunHandle? && BeginStep(c.pipe, c.runs, st, e) == Some(runs')
    ensures ClientInv(i, c.(runs := runs'), st)
  {
    hide Counts;
    assert c.runs.control.Idle? && runs' == c.runs.(control := runs'.control);
    assert LocksMatch(i, runs', st);
    assert RunsRunning(c.pipe, runs', st);
  }

  /** What acquiring does: a new control state, and for a run not yet active a fresh object and its lock. */
  lemma AcquireEffect(i: nat, runs: Runs, st: Store, runs': Runs, st': Store)
    requires AcquireStep(i, runs, st) == Some((runs', st'))
    ensures var run := runs.control.run;
            && (run in runs.active ==> st' == st && runs' == runs.(control := runs'.control))
            && (run !in runs.active ==>
                  && run !in st.locks && st' == st.(locks := st.locks[run := Owner(i, |runs.objs|)], raced := st'.raced)
                  && (st'.raced == st.raced || (IsTerminal(st, run) && st'.raced == st.raced + {run}))
                  && runs' == Runs(runs.objs + [ActiveRun(run, Open, false, Free)], runs.active[run := |runs.objs|], runs'.control, runs.shutdown))
            && (match runs.control
                case CreateAcquire(_) => run in runs'.active && runs'.control == CreateInsert(run, runs'.active[run])
                case FinalizeAcquire(_, target) => run in runs'.active && runs'.control == Finalizing(run, runs'.active[run], target, Close)
                case _ => runs'.control == Idle)
  {
  }

  lemma AcquireKeepsGates(i: nat, c: Client, st: Store, runs': Runs, st': Store)
    requires Gated(c.pipe, c.runs) && AcquireStep(i, c.runs, st) == Some((runs', st'))
    ensures Gated(c.pipe, runs')
  {
    AcquireEffect(i, c.runs, st, runs', st');
    hide AcquireStep;
    assert forall o :: 0 <= o < |c.runs.objs| ==> runs'.objs[o] == c.runs.objs[o];
  }

  lemma AcquireKeepsLocks(i: nat, c: Client, st: Store, runs': Runs, st': Store)
    requires Gated(c.pipe, c.runs) && LocksMatch(i, c.runs, st) && AcquireStep(i, c.runs, st) == Some((runs', st'))
    ensures LocksMatch(i, runs', st')
  {
    AcquireEffect(i, c.runs, st, runs', st');
    hide AcquireStep, Gated;
    var run := c.runs.control.run;
    if run !in c.runs.active {
      NewLockMatches(i, c.runs, st, runs', st');
    }
  }

  lemma NewLockMatches(i: nat, runs: Runs, st: Store, runs': Runs, st': Store)
    requires LocksMatch(i, runs, st) && !runs.control.Finalizing? && !runs.control.CreateInsert? && !runs.control.Idle?
    requires (runs.control.CreateAcquire? || runs.control.ResumeAcquire? || runs.control.FinalizeAcquire?) && runs.control.run !in runs.active && runs.control.run !in st.locks
    requires st' == st.(locks := st.locks[runs.control.run := Owner(i, |runs.objs|)], raced := st'.raced)
    requires runs' == Runs(runs.objs + [ActiveRun(runs.control.run, Open, false, Free)], runs.active[runs.control.run := |runs.objs|], runs'.control, runs.shutdown)
    requires match runs.control
             case CreateAcquire(_) => runs'.control == CreateInsert(runs.control.run, |runs.objs|)
             case FinalizeAcquire(_, target) => runs'.control == Finalizing(runs.control.run, |runs.objs|, target, Close)
             case _ => runs'.control == Idle
    ensures LocksMatch(i, runs', st')
  {
    forall other ensures OwnedBy(st', i, other) <==> other == runs.control.run || OwnedBy(st, i, other) {
    }
  }

  lemma AcquireKeepsExclusive(i: nat, c: Client, st: Store, runs': Runs, st': Store)
    requires Gated(c.pipe, c.runs) && LocksMatch(i, c.runs, st) && Exclusive(i, c.pipe, c.runs, st)
    requires AcquireStep(i, c.runs, st) == Some((runs', st'))
    ensures Exclusive(i, c.pipe, runs', st')
  {
    var run := c.runs.control.run;
    AcquireEffect(i, c.runs, st, runs', st');
    hide AcquireStep;
    if run in c.runs.active {
      assert !runs'.control.CreateInsert? && !runs'.control.ShutdownJoin?;
    } else {
      assert !OwnedBy(st, i, run);
      hide LocksMatch, Gated;
      NewGateKeepsExclusive(i, c, st, runs', st');
    }
  }

  /** A new lock with a new object: the open gates and the live reports are of other runs. */
  lemma NewGateKeepsExclusive(i: nat, c: Client, st: Store, runs': Runs, st': Store)
    requires Exclusive(i, c.pipe, c.runs, st) && !runs'.control.ShutdownJoin? && !c.runs.control.CreateInsert?
    requires (c.runs.control.CreateAcquire? || c.runs.control.ResumeAcquire? || c.runs.control.FinalizeAcquire?)
    requires var run := c.runs.control.run;
             && run !in st.locks && st'.locks == st.locks[run := Owner(i, |c.runs.objs|)]
             && runs'.objs == c.runs.objs + [ActiveRun(run, Open, false, Free)]
             && (runs'.control.CreateInsert? ==> runs'.control.run == run)
    ensures Exclusive(i, c.pipe, runs', st')
  {
    var run := c.runs.control.run;
    assert forall other :: other != run ==> (OwnedBy(st', i, other) <==> OwnedBy(st, i, other));
    assert forall k :: Live(c.pipe, k) ==> c.pipe.accepted[k].run != run;
    assert forall o :: 0 <= o < |c.runs.objs| ==> runs'.objs[o] == c.runs.objs[o];
    if c.pipe.reporter.senderOpen {
      forall o | 0 <= o < |runs'.objs| && runs'.objs[o].published && runs'.objs[o].admission.Open? ensures Holds(st', i, runs'.objs[o].run, o) {
        assert Holds(st, i, c.runs.objs[o].run, o);
      }
    }
  }

  lemma AcquireKeepsRunning(i: nat, c: Client, st: Store, runs': Runs, st': Store)
    requires Gated(c.pipe, c.runs) && RunsRunning(c.pipe, c.runs, st)
    requires AcquireStep(i, c.runs, st) == Some((runs', st'))
    ensures RunsRunning(c.pipe, runs', st')
  {
  }

  lemma AcquireKeepsFacts(i: nat, c: Client, st: Store, runs': Runs, st': Store)
    requires Gated(c.pipe, c.runs) && RunsRunning(c.pipe, c.runs, st) && LocksMatch(i, c.runs, st)
    requires AcquireStep(i, c.runs, st) == Some((runs', st'))
    ensures FinalizeFacts(i, c.pipe, runs', st')
  {
  }

  lemma AcquireGuarantees(i: nat, c: Client, st: Store, runs': Runs, st': Store)
    requires c.alive && StoreInv(st) && AcquireStep(i, c.runs, st) == Some((runs', st'))
    ensures Guarantee(i, st, st') && StoreInv(st')
  {
    AcquireEffect(i, c.runs, st, runs', st');
    hide AcquireStep, Guarantee, StoreInv;
    if c.runs.control.run in c.runs.active {
      GuaranteeNothing(i, st);
    } else {
      LockGuarantees(i, st, c.runs.control.run, Owner(i, |c.runs.objs|), st'.raced);
    }
  }

  lemma LockGuarantees(i: nat, st: Store, run: RunId, owner: Owner, raced: set<RunId>)
    requires StoreInv(st) && run !in st.locks && owner.client == i
    requires raced == st.raced || (IsTerminal(st, run) && raced == st.raced + {run})
    ensures var st' := st.(locks := st.locks[run := owner], raced := raced); Guarantee(i, st, st') && StoreInv(st')
  {
  }

  lemma AcquireKeepsClient(i: nat, c: Client, st: Store, runs': Runs, st': Store)
    requires ClientInv(i, c, st) && c.alive && AcquireStep(i, c.runs, st) == Some((runs', st'))
    ensures ClientInv(i, c.(runs := runs'), st')
  {
    hide Counts;
    AcquireKeepsGates(i, c, st, runs', st');
    AcquireKeepsLocks(i, c, st, runs', st');
    AcquireKeepsExclusive(i, c, st, runs', st');
    AcquireKeepsRunning(i, c, st, runs', st');
    AcquireKeepsFacts(i, c, st, runs', st');
  }

  /** The control thread holds the lock of the run it is creating, and nothing of that run is live. */
  lemma CreatingOwns(i: nat, c: Client, st: Store)
    requires Gated(c.pipe, c.runs) && LocksMatch(i, c.runs, st) && Exclusive(i, c.pipe, c.runs, st) && c.runs.control.CreateInsert?
    ensures var run, o := c.runs.control.run, c.runs.control.obj;
            && o < |c.runs.objs| && c.runs.objs[o].run == run && !c.runs.objs[o].published && Holds(st, i, run, o)
            && forall k :: Live(c.pipe, k) ==> c.pipe.accepted[k].run != run
  {
    assert Holds(st, i, c.runs.control.run, c.runs.active[c.runs.control.run]);
  }

  lemma InsertRunKeepsClient(i: nat, c: Client, st: Store, runs': Runs, st': Store)
    requires ClientInv(i, c, st) && c.alive && StoreInv(st) && InsertRunStep(c.runs, st) == Some((runs', st'))
    ensures ClientInv(i, c.(runs := runs'), st') && Guarantee(i, st, st') && StoreInv(st')
  {
    hide Counts;
    CreatingOwns(i, c, st);
    InsertedGuarantees(i, st, c.runs.control.run);
    InsertRunKeepsLocks(i, c, st, runs', st');
    InsertRunKeepsRunning(i, c, st, runs', st');
    assert SealedRunsStored(i, c.pipe, st');
    hide Guarantee, StoreInv, LocksMatch, Exclusive, Gated, RunsRunning, SealedRunsStored;
  }

  lemma InsertRunKeepsRunning(i: nat, c: Client, st: Store, runs': Runs, st': Store)
    requires Gated(c.pipe, c.runs) && RunsRunning(c.pipe, c.runs, st) && InsertRunStep(c.runs, st) == Some((runs', st'))
    ensures RunsRunning(c.pipe, runs', st')
  {
  }

  lemma InsertRunKeepsLocks(i: nat, c: Client, st: Store, runs': Runs, st': Store)
    requires Gated(c.pipe, c.runs) && LocksMatch(i, c.runs, st) && Exclusive(i, c.pipe, c.runs, st)
    requires InsertRunStep(c.runs, st) == Some((runs', st'))
    ensures Gated(c.pipe, runs') && LocksMatch(i, runs', st') && Exclusive(i, c.pipe, runs', st')
  {
    CreatingOwns(i, c, st);
  }

  lemma InsertedGuarantees(i: nat, st: Store, run: RunId)
    requires OwnedBy(st, i, run) && run !in st.status && StoreInv(st)
    ensures Guarantee(i, st, Inserted(st, run)) && StoreInv(Inserted(st, run))
  {
  }

  /** After an insert that reported an error: the row may be there, the lock is not. */
  predicate GivenBack(st: Store, st': Store, i: nat, run: RunId) {
    && st' == st.(locks := st.locks - {run}, status := st'.status)
    && (st'.status == st.status || (run !in st.status && st'.status == st.status[run := Running]))
  }

  lemma InsertErrorEffect(i: nat, c: Client, st: Store, committed: bool, runs': Runs, st': Store)
    requires Gated(c.pipe, c.runs) && LocksMatch(i, c.runs, st) && Exclusive(i, c.pipe, c.runs, st)
    requires InsertErrorStep(i, c.runs, st, committed) == Some((runs', st'))
    ensures c.runs.control.CreateInsert? && GivenBack(st, st', i, c.runs.control.run)
    ensures runs' == c.runs.(control := Idle, active := c.runs.active - {c.runs.control.run})
  {
    CreatingOwns(i, c, st);
  }

  lemma GivenBackKeepsLocks(i: nat, c: Client, st: Store, st': Store)
    requires Gated(c.pipe, c.runs) && LocksMatch(i, c.runs, st) && Exclusive(i, c.pipe, c.runs, st) && c.runs.control.CreateInsert?
    requires GivenBack(st, st', i, c.runs.control.run)
    ensures var runs' := c.runs.(control := Idle, active := c.runs.active - {c.runs.control.run});
            Gated(c.pipe, runs') && LocksMatch(i, runs', st') && Exclusive(i, c.pipe, runs', st')
  {
    CreatingOwns(i, c, st);
    assert forall other :: other != c.runs.control.run ==> (OwnedBy(st', i, other) <==> OwnedBy(st, i, other));
  }

  lemma GivenBackKeepsRunning(i: nat, c: Client, st: Store, st': Store)
    requires Gated(c.pipe, c.runs) && RunsRunning(c.pipe, c.runs, st) && c.runs.control.CreateInsert?
    requires GivenBack(st, st', i, c.runs.control.run)
    ensures RunsRunning(c.pipe, c.runs.(control := Idle, active := c.runs.active - {c.runs.control.run}), st')
  {
  }

  lemma GivenBackGuarantees(i: nat, st: Store, st': Store, run: RunId)
    requires OwnedBy(st, i, run) && StoreInv(st) && GivenBack(st, st', i, run)
    ensures Guarantee(i, st, st') && StoreInv(st')
  {
  }

  lemma InsertErrorKeepsClient(i: nat, c: Client, st: Store, committed: bool, runs': Runs, st': Store)
    requires ClientInv(i, c, st) && c.alive && StoreInv(st) && InsertErrorStep(i, c.runs, st, committed) == Some((runs', st'))
    ensures ClientInv(i, c.(runs := runs'), st') && Guarantee(i, st, st') && StoreInv(st')
  {
    hide Counts, InsertErrorStep;
    InsertErrorEffect(i, c, st, committed, runs', st');
    CreatingOwns(i, c, st);
    GivenBackKeepsLocks(i, c, st, st');
    GivenBackKeepsRunning(i, c, st, st');
    GivenBackGuarantees(i, st, st', c.runs.control.run);
    hide LocksMatch, Exclusive, RunsRunning, Guarantee, StoreInv, Gated;
    assert SealedRunsStored(i, c.pipe, st');
  }

  // ----------------------------------------------------------------- finalization

  /** What a finalizing control thread knows before its lock is released. */
  lemma FinalizingOwns(i: nat, p: Pipe, runs: Runs, st: Store)
    requires Gated(p, runs) && LocksMatch(i, runs, st) && FinalizeFacts(i, p, runs, st)
    requires runs.control.Finalizing? && !runs.control.phase.Forget?
    ensures var run, o, phase := runs.control.run, runs.control.obj, runs.control.phase;
            && o < |runs.objs| && Holds(st, i, run, o) && !runs.control.target.Running?
            && (!AfterMark(phase) ==> RunningOrRaced(st, run))
            && (phase.MarkTerminal? ==> runs.objs[o].admission.Closing? && AllBefore(p.accepted, run, |p.rowAt|))
            && (phase.MarkTerminal? ==> run in st.aggregates && st.aggregates[run] == Summaries(st.rows, run))
  {
    assert Holds(st, i, runs.control.run, runs.active[runs.control.run]);
  }

  /** A new phase, and new aggregates, leave ownership and running runs as they were. */
  lemma PhaseChangeKeeps(i: nat, p: Pipe, runs: Runs, st: Store, control: Control, aggregates: map<RunId, map<MetricKey, Aggregate>>)
    requires LocksMatch(i, runs, st) && Exclusive(i, p, runs, st) && RunsRunning(p, runs, st)
    requires runs.control.Finalizing? && !runs.control.phase.Forget?
    requires control.Idle? || (control.Finalizing? && control == runs.control.(phase := control.phase) && !control.phase.Forget?)
    ensures var runs', st' := runs.(control := control), st.(aggregates := aggregates);
            LocksMatch(i, runs', st') && Exclusive(i, p, runs', st') && RunsRunning(p, runs', st')
  {
  }

  /** Waiting for the barrier: every accepted report of the run comes before it, and then is stored. */
  lemma DrainingKeepsFacts(i: nat, p: Pipe, runs: Runs, st: Store, runs': Runs)
    requires Counted(p) && FinalizeFacts(i, p, runs, st) && runs.control.Finalizing? && Draining(runs.control.phase)
    requires GateStep(p, runs) == Some(runs')
    ensures FinalizeFacts(i, p, runs', st)
    ensures runs' == runs.(control := runs'.control) && runs'.control == runs.control.(phase := runs'.control.phase)
    ensures !runs'.control.phase.Forget?
  {
    match runs.control.phase {
      case TakeBarrier =>
        assert Barrier(p.reporter) == |p.accepted|;
      case Drain(barrier) =>
        assert p.reporter.through <= |p.rowAt|;
      case Check(barrier) =>
    }
  }

  lemma DrainingKeepsClient(i: nat, c: Client, st: Store, runs': Runs)
    requires ClientInv(i, c, st) && c.alive && c.runs.control.Finalizing? && Draining(c.runs.control.phase)
    requires GateStep(c.pipe, c.runs) == Some(runs')
    ensures ClientInv(i, c.(runs := runs'), st)
  {
    assert Counted(c.pipe);
    hide Counts, Counted, LocksMatch, Exclusive, RunsRunning, FinalizeFacts, SealedRunsStored;
    DrainingKeepsFacts(i, c.pipe, c.runs, st, runs');
    PhaseChangeKeeps(i, c.pipe, c.runs, st, runs'.control, st.aggregates);
  }

  predicate AdmissionPhase(phase: Phase) {
    phase.Close? || phase.Reopen? || phase.Seal?
  }

  /** What changing the admission of the run in hand does to the client's runs. */
  predicate AdmissionChanged(runs: Runs, runs': Runs) {
    && runs.control.Finalizing? && !runs.control.phase.Forget? && runs.control.obj < |runs.objs| == |runs'.objs|
    && runs.objs[runs.control.obj].gate.Free?
    && runs'.objs[runs.control.obj] == runs.objs[runs.control.obj].(admission := runs'.objs[runs.control.obj].admission)
    && (forall other :: 0 <= other < |runs.objs| && other != runs.control.obj ==> runs'.objs[other] == runs.objs[other])
    && runs'.active == runs.active
    && (runs'.control.Idle? || (runs'.control.Finalizing? && runs'.control == runs.control.(phase := runs'.control.phase) && !runs'.control.phase.Forget?))
  }

  lemma AdmissionEffect(p: Pipe, runs: Runs, runs': Runs)
    requires runs.control.Finalizing? && AdmissionPhase(runs.control.phase) && GateStep(p, runs) == Some(runs')
    ensures AdmissionChanged(runs, runs')
  {
  }

  lemma AdmissionKeepsLocks(i: nat, c: Client, st: Store, runs': Runs)
    requires Gated(c.pipe, c.runs) && LocksMatch(i, c.runs, st) && Exclusive(i, c.pipe, c.runs, st)
    requires c.runs.control.Finalizing? && AdmissionPhase(c.runs.control.phase) && GateStep(c.pipe, c.runs) == Some(runs')
    ensures Gated(c.pipe, runs') && LocksMatch(i, runs', st) && Exclusive(i, c.pipe, runs', st)
  {
    AdmissionEffect(c.pipe, c.runs, runs');
    hide GateStep;
    AdmissionKeepsGated(c.pipe, c.runs, runs');
    AdmissionKeepsExclusive(i, c, st, runs');
  }

  lemma AdmissionKeepsGated(p: Pipe, runs: Runs, runs': Runs)
    requires Gated(p, runs) && AdmissionChanged(runs, runs')
    ensures Gated(p, runs')
  {
  }

  lemma AdmissionKeepsExclusive(i: nat, c: Client, st: Store, runs': Runs)
    requires Gated(c.pipe, c.runs) && LocksMatch(i, c.runs, st) && Exclusive(i, c.pipe, c.runs, st) && AdmissionChanged(c.runs, runs')
    ensures LocksMatch(i, runs', st) && Exclusive(i, c.pipe, runs', st)
  {
    assert Holds(st, i, c.runs.control.run, c.runs.control.obj);
  }

  lemma AdmissionKeepsRunning(i: nat, c: Client, st: Store, runs': Runs)
    requires Gated(c.pipe, c.runs) && LocksMatch(i, c.runs, st) && FinalizeFacts(i, c.pipe, c.runs, st) && RunsRunning(c.pipe, c.runs, st)
    requires c.runs.control.Finalizing? && AdmissionPhase(c.runs.control.phase) && GateStep(c.pipe, c.runs) == Some(runs')
    ensures FinalizeFacts(i, c.pipe, runs', st) && RunsRunning(c.pipe, runs', st)
  {
    var o := c.runs.control.obj;
    assert runs'.objs[o] == c.runs.objs[o].(admission := runs'.objs[o].admission);
  }

  lemma ForgetKeepsClient(i: nat, c: Client, st: Store, runs': Runs)
    requires ClientInv(i, c, st) && c.alive && c.runs.control.Finalizing? && c.runs.control.phase.Forget?
    requires GateStep(c.pipe, c.runs) == Some(runs')
    ensures ClientInv(i, c.(runs := runs'), st)
  {
    hide Counts;
    assert runs' == c.runs.(control := Idle, active := c.runs.active - {c.runs.control.run});
    assert !OwnedBy(st, i, c.runs.control.run);
    hide GateStep;
    ForgetKeepsLocks(i, c, st);
    ForgetKeepsRunning(c, st);
  }

  lemma ForgetKeepsLocks(i: nat, c: Client, st: Store)
    requires Gated(c.pipe, c.runs) && LocksMatch(i, c.runs, st) && Exclusive(i, c.pipe, c.runs, st)
    requires c.runs.control.Finalizing? && c.runs.control.phase.Forget? && !OwnedBy(st, i, c.runs.control.run)
    ensures var runs' := c.runs.(control := Idle, active := c.runs.active - {c.runs.control.run});
            Gated(c.pipe, runs') && LocksMatch(i, runs', st) && Exclusive(i, c.pipe, runs', st)
  {
  }

  lemma ForgetKeepsRunning(c: Client, st: Store)
    requires RunsRunning(c.pipe, c.runs, st) && c.runs.control.Finalizing?
    ensures RunsRunning(c.pipe, c.runs.(control := Idle, active := c.runs.active - {c.runs.control.run}), st)
  {
  }

  lemma GateKeepsClient(i: nat, c: Client, st: Store, runs': Runs)
    requires ClientInv(i, c, st) && c.alive && c.runs.control.Finalizing?
    requires GateStep(c.pipe, c.runs) == Some(runs')
    ensures ClientInv(i, c.(runs := runs'), st)
  {
    hide Counts;
    if Draining(c.runs.control.phase) {
      DrainingKeepsClient(i, c, st, runs');
    } else if AdmissionPhase(c.runs.control.phase) {
      AdmissionKeepsLocks(i, c, st, runs');
      AdmissionKeepsRunning(i, c, st, runs');
    } else {
      ForgetKeepsClient(i, c, st, runs');
    }
  }

  lemma AggregatesGuarantee(i: nat, st: Store, run: RunId, aggregates: map<RunId, map<MetricKey, Aggregate>>)
    requires OwnedBy(st, i, run) && StoreInv(st) && RunningOrRaced(st, run)
    requires forall other :: other != run ==>
               (other in st.aggregates <==> other in aggregates) && (other in st.aggregates ==> aggregates[other] == st.aggregates[other])
    ensures Guarantee(i, st, st.(aggregates := aggregates)) && StoreInv(st.(aggregates := aggregates))
  {
  }

  lemma AggregatesKeepFacts(i: nat, p: Pipe, runs: Runs, st: Store, runs': Runs, st': Store)
    requires FinalizeFacts(i, p, runs, st) && SealedRunsStored(i, p, st) && runs.control.Finalizing?
    requires runs.control.phase.DeleteAggregates? || runs.control.phase.InsertAggregates?
    requires StoreStep(i, runs, st) == Some((runs', st'))
    ensures FinalizeFacts(i, p, runs', st') && SealedRunsStored(i, p, st')
    ensures runs' == runs.(control := runs'.control) && st' == st.(aggregates := st'.aggregates)
    ensures runs'.control.Finalizing? && runs'.control == runs.control.(phase := runs'.control.phase) && !runs'.control.phase.Forget?
    ensures forall other :: other != runs.control.run ==>
              (other in st.aggregates <==> other in st'.aggregates) && (other in st.aggregates ==> st'.aggregates[other] == st.aggregates[other])
  {
  }

  lemma AggregatesKeepClient(i: nat, c: Client, st: Store, runs': Runs, st': Store)
    requires ClientInv(i, c, st) && c.alive && StoreInv(st) && c.runs.control.Finalizing?
    requires c.runs.control.phase.DeleteAggregates? || c.runs.control.phase.InsertAggregates?
    requires StoreStep(i, c.runs, st) == Some((runs', st'))
    ensures ClientInv(i, c.(runs := runs'), st') && Guarantee(i, st, st') && StoreInv(st')
  {
    hide Counts, LocksMatch, Exclusive, RunsRunning, FinalizeFacts, SealedRunsStored, StoreInv, Guarantee;
    var run := c.runs.control.run;
    FinalizingOwns(i, c.pipe, c.runs, st);
    AggregatesKeepFacts(i, c.pipe, c.runs, st, runs', st');
    PhaseChangeKeeps(i, c.pipe, c.runs, st, runs'.control, st'.aggregates);
    AggregatesGuarantee(i, st, run, st'.aggregates);
  }

  /** The store after a run is marked by its owner. */
  lemma MarkedGuarantees(i: nat, c: Client, st: Store, run: RunId, target: RunStatus)
    requires OwnedBy(st, i, run) && IsRunning(st, run) && !target.Running? && StoreInv(st)
    requires run in st.raced || (run in st.aggregates && st.aggregates[run] == Summaries(st.rows, run))
    ensures Guarantee(i, st, Marked(i, st, run, target)) && StoreInv(Marked(i, st, run, target))
  {
    var st' := Marked(i, st, run, target);
    assert forall other :: other != run ==> (IsTerminal(st', other) <==> IsTerminal(st, other));
  }

  lemma MarkedKeepsRunning(i: nat, c: Client, st: Store, run: RunId, target: RunStatus, control: Control)
    requires Gated(c.pipe, c.runs) && LocksMatch(i, c.runs, st) && Exclusive(i, c.pipe, c.runs, st) && RunsRunning(c.pipe, c.runs, st)
    requires c.runs.control.Finalizing? && c.runs.control.run == run && c.runs.control.phase.MarkTerminal?
    requires c.runs.control.obj < |c.runs.objs| && c.runs.objs[c.runs.control.obj].admission.Closing?
    requires AllBefore(c.pipe.accepted, run, |c.pipe.rowAt|) && IsRunning(st, run)
    requires control.Idle? || control == c.runs.control.(phase := Seal)
    ensures var runs', st' := c.runs.(control := control), Marked(i, st, run, target);
            LocksMatch(i, runs', st') && Exclusive(i, c.pipe, runs', st') && RunsRunning(c.pipe, runs', st')
  {
    var st' := Marked(i, st, run, target);
    assert st' == st.(status := st'.status, sealedBy := st'.sealedBy);
    assert forall other :: other != run ==> (RunningOrRaced(st, other) <==> RunningOrRaced(st', other));
  }

  lemma MarkedKeepsFacts(i: nat, p: Pipe, runs: Runs, st: Store, control: Control)
    requires FinalizeFacts(i, p, runs, st) && SealedRunsStored(i, p, st)
    requires runs.control.Finalizing? && runs.control.phase.MarkTerminal? && runs.control.obj < |runs.objs|
    requires control.Idle? || control == runs.control.(phase := Seal)
    ensures var runs', st' := runs.(control := control), Marked(i, st, runs.control.run, runs.control.target);
            FinalizeFacts(i, p, runs', st') && SealedRunsStored(i, p, st')
  {
  }

  lemma MarkKeepsClient(i: nat, c: Client, st: Store, control: Control)
    requires ClientInv(i, c, st) && c.alive && StoreInv(st)
    requires c.runs.control.Finalizing? && c.runs.control.phase.MarkTerminal? && IsRunning(st, c.runs.control.run)
    requires control.Idle? || control == c.runs.control.(phase := Seal)
    ensures var run, target := c.runs.control.run, c.runs.control.target;
            var st' := Marked(i, st, run, target);
            ClientInv(i, c.(runs := c.runs.(control := control)), st') && Guarantee(i, st, st') && StoreInv(st')
  {
    hide Counts, LocksMatch, Exclusive, RunsRunning, FinalizeFacts, SealedRunsStored, StoreInv, Guarantee;
    var run, target := c.runs.control.run, c.runs.control.target;
    FinalizingOwns(i, c.pipe, c.runs, st);
    MarkedKeepsFacts(i, c.pipe, c.runs, st, control);
    MarkedGuarantees(i, c, st, run, target);
    MarkedKeepsRunning(i, c, st, run, target, control);
  }

  /** Steps that change nothing but the phase: a failure, or a run found already terminal. */
  lemma GiveUpKeepsClient(i: nat, c: Client, st: Store, control: Control)
    requires ClientInv(i, c, st) && c.alive && c.runs.control.Finalizing? && !AfterMark(c.runs.control.phase)
    requires control.Idle? || control == c.runs.control.(phase := Reopen)
    ensures ClientInv(i, c.(runs := c.runs.(control := control)), st)
  {
    hide Counts;
    PhaseChangeKeeps(i, c.pipe, c.runs, st, control, st.aggregates);
  }

  lemma ReleaseKeepsLocks(i: nat, p: Pipe, runs: Runs, st: Store)
    requires Gated(p, runs) && LocksMatch(i, runs, st) && Exclusive(i, p, runs, st) && FinalizeFacts(i, p, runs, st)
    requires runs.control.Finalizing? && runs.control.phase.Release?
    ensures var runs', st' := AtPhase(runs, Forget), st.(locks := st.locks - {runs.control.run});
            LocksMatch(i, runs', st') && Exclusive(i, p, runs', st')
  {
    var run, st' := runs.control.run, st.(locks := st.locks - {runs.control.run});
    assert forall other :: other != run ==> (OwnedBy(st', i, other) <==> OwnedBy(st, i, other));
    assert Holds(st, i, run, runs.control.obj);
  }

  lemma ReleaseKeepsFacts(i: nat, p: Pipe, runs: Runs, st: Store)
    requires FinalizeFacts(i, p, runs, st) && SealedRunsStored(i, p, st) && RunsRunning(p, runs, st)
    requires runs.control.Finalizing? && runs.control.phase.Release?
    ensures var runs', st' := AtPhase(runs, Forget), st.(locks := st.locks - {runs.control.run});
            FinalizeFacts(i, p, runs', st') && SealedRunsStored(i, p, st') && RunsRunning(p, runs', st')
  {
  }

  lemma ReleaseGuarantees(i: nat, st: Store, run: RunId)
    requires OwnedBy(st, i, run) && StoreInv(st)
    ensures Guarantee(i, st, Unlock(st, i, run)) && StoreInv(Unlock(st, i, run))
  {
  }

  lemma ReleaseKeepsClient(i: nat, c: Client, st: Store, runs': Runs, st': Store)
    requires ClientInv(i, c, st) && c.alive && StoreInv(st) && c.runs.control.Finalizing? && c.runs.control.phase.Release?
    requires StoreStep(i, c.runs, st) == Some((runs', st'))
    ensures ClientInv(i, c.(runs := runs'), st') && Guarantee(i, st, st') && StoreInv(st')
  {
    hide Counts, LocksMatch, Exclusive, RunsRunning, FinalizeFacts, SealedRunsStored, StoreInv, Guarantee;
    var run := c.runs.control.run;
    FinalizingOwns(i, c.pipe, c.runs, st);
    ReleaseKeepsFacts(i, c.pipe, c.runs, st);
    ReleaseKeepsLocks(i, c.pipe, c.runs, st);
    ReleaseGuarantees(i, st, run);
  }

  lemma GuaranteeNothing(i: nat, st: Store)
    ensures Guarantee(i, st, st)
  {
  }

  lemma FinalizeKeepsClient(i: nat, c: Client, st: Store, runs': Runs, st': Store)
    requires ClientInv(i, c, st) && c.alive && StoreInv(st) && c.runs.control.Finalizing?
    requires FinalizeStep(i, c.pipe, c.runs, st) == Some((runs', st'))
    ensures ClientInv(i, c.(runs := runs'), st') && Guarantee(i, st, st') && StoreInv(st')
  {
    hide ClientInv, StoreInv, Guarantee;
    GuaranteeNothing(i, st);
    var control := c.runs.control;
    if !InStore(control.phase) {
      GateKeepsClient(i, c, st, runs');
    } else if control.phase.MarkTerminal? {
      if IsRunning(st, control.run) {
        MarkKeepsClient(i, c, st, control.(phase := Seal));
      } else {
        GiveUpKeepsClient(i, c, st, control.(phase := Reopen));
      }
    } else if control.phase.Release? {
      ReleaseKeepsClient(i, c, st, runs', st');
    } else {
      AggregatesKeepClient(i, c, st, runs', st');
    }
  }

  // ----------------------------------------------------------------- shutdown

  lemma UnlockAllGuarantees(i: nat, st: Store)
    requires StoreInv(st)
    ensures Guarantee(i, st, UnlockAll(st, i)) && StoreInv(UnlockAll(st, i))
    ensures forall run :: !OwnedBy(UnlockAll(st, i), i, run)
  {
  }

  /** Locks are released only after the worker has stopped, so nothing live loses its owner. */
  lemma JoinKeepsClient(i: nat, c: Client, st: Store, c': Client, st': Store)
    requires ClientInv(i, c, st) && c.alive && StoreInv(st) && c.runs.control.ShutdownJoin?
    requires ShutdownStep(i, c, st) == Some((c', st'))
    ensures ClientInv(i, c', st') && Guarantee(i, st, st') && StoreInv(st')
  {
    UnlockAllGuarantees(i, st);
    ShutdownKeepsCounts(i, c, st, c', st');
    var r := c'.pipe.reporter;
    assert st' == UnlockAll(st, i) && c'.pipe == c.pipe.(reporter := c.pipe.reporter.(writer := r.writer)) && c.pipe.worker.Exited?;
    assert c'.runs == c.runs.(control := Idle, active := map[], shutdown := c'.runs.shutdown) && c'.alive;
    hide Counts, ShutdownStep, Guarantee, StoreInv;
  }

  /** Closing the sender, or learning how the drain ended. */
  lemma ClosingKeepsClient(i: nat, c: Client, st: Store, reporter: Reporter, control: Control)
    requires ClientInv(i, c, st) && c.alive && !c.runs.control.Finalizing? && !c.runs.control.CreateInsert?
    requires control.ShutdownCheck? || control.ShutdownTake? || control.ShutdownJoin?
    requires reporter == c.pipe.reporter.(senderOpen := reporter.senderOpen)
    requires reporter.senderOpen ==> c.pipe.reporter.senderOpen && !control.ShutdownJoin?
    requires !reporter.senderOpen ==> c.pipe.sender.Unlocked?
    requires Counts(c.pipe.(reporter := reporter))
    ensures ClientInv(i, Client(true, c.pipe.(reporter := reporter), c.runs.(control := control)), st)
  {
    hide Counts;
    var p', runs' := c.pipe.(reporter := reporter), c.runs.(control := control);
    assert forall k :: Live(p', k) <==> Live(c.pipe, k);
  }

  lemma ShutdownKeepsClient(i: nat, c: Client, st: Store, c': Client, st': Store)
    requires ClientInv(i, c, st) && c.alive && StoreInv(st)
    requires ShutdownStep(i, c, st) == Some((c', st'))
    ensures ClientInv(i, c', st') && Guarantee(i, st, st') && StoreInv(st')
  {
    assert Counts(c.pipe);
    assert c.runs.control.ShutdownJoin? ==> !c.pipe.reporter.senderOpen;
    assert !c.pipe.sender.Unlocked? ==> c.pipe.reporter.senderOpen;
    hide ClientInv, StoreInv, Guarantee, Counts;
    if c.runs.control.ShutdownJoin? {
      JoinKeepsClient(i, c, st, c', st');
    } else {
      ShutdownKeepsCounts(i, c, st, c', st');
      ClosingEffect(i, c, st, c', st');
      hide ShutdownStep;
      GuaranteeNothing(i, st);
      ClosingKeepsClient(i, c, st, c'.pipe.reporter, c'.runs.control);
    }
  }

  lemma ClosingEffect(i: nat, c: Client, st: Store, c': Client, st': Store)
    requires c.alive && ShutdownStep(i, c, st) == Some((c', st')) && !c.runs.control.ShutdownJoin?
    ensures !c.runs.control.Finalizing? && !c.runs.control.CreateInsert?
    ensures st' == st && c' == Client(true, c.pipe.(reporter := c'.pipe.reporter), c.runs.(control := c'.runs.control))
    ensures c'.pipe.reporter == c.pipe.reporter.(senderOpen := c'.pipe.reporter.senderOpen)
    ensures if c.runs.control.ShutdownTake? then c'.runs.control.ShutdownJoin? && !c'.pipe.reporter.senderOpen && c.pipe.sender.Unlocked?
            else (c'.runs.control.ShutdownCheck? || c'.runs.control.ShutdownTake?) && c'.pipe.reporter.senderOpen == c.pipe.reporter.senderOpen
  {
  }

  lemma CrashKeepsClient(i: nat, c: Client, st: Store)
    requires ClientInv(i, c, st) && StoreInv(st)
    ensures var c', st' := c.(alive := false, runs := c.runs.(active := map[], control := Idle)), UnlockAll(st, i);
            ClientInv(i, c', st') && Guarantee(i, st, st') && StoreInv(st')
  {
    hide Counts;
    UnlockAllGuarantees(i, st);
  }

  lemma FailKeepsClient(i: nat, c: Client, st: Store, runs': Runs)
    requires ClientInv(i, c, st) && c.alive && FailStep(c.pipe, c.runs) == Some(runs')
    ensures ClientInv(i, c.(runs := runs'), st)
  {
    hide Counts;
    if c.runs.control.Finalizing? {
      GiveUpKeepsClient(i, c, st, runs'.control);
    } else {
      assert runs' == c.runs.(control := runs'.control);
      assert LocksMatch(i, runs', st);
      assert RunsRunning(c.pipe, runs', st);
    }
  }

  lemma AcquireErrorKeepsClient(i: nat, c: Client, st: Store)
    requires ClientInv(i, c, st) && !c.runs.control.Finalizing? && !c.runs.control.CreateInsert?
    ensures ClientInv(i, c.(runs := c.runs.(control := Idle)), st)
  {
  }

  lemma RunsKeepClient(i: nat, c: Client, st: Store, e: ControlEvent, runs': Runs, st': Store)
    requires ClientInv(i, c, st) && c.alive && StoreInv(st)
    requires RunsStep(i, c.pipe, c.runs, st, e) == Some((runs', st'))
    ensures ClientInv(i, c.(runs := runs'), st') && Guarantee(i, st, st') && StoreInv(st')
  {
    hide ClientInv, StoreInv, Guarantee;
    GuaranteeNothing(i, st);
    match e {
      case AcquireError => AcquireErrorKeepsClient(i, c, st);
      case Acquire =>
        AcquireKeepsClient(i, c, st, runs', st');
        AcquireGuarantees(i, c, st, runs', st');
      case InsertRun => InsertRunKeepsClient(i, c, st, runs', st');
      case InsertError(committed) => InsertErrorKeepsClient(i, c, st, committed, runs', st');
      case Advance => FinalizeKeepsClient(i, c, st, runs', st');
      case Fail => FailKeepsClient(i, c, st, runs');
      case MarkError(committed) =>
        if committed && IsRunning(st, c.runs.control.run) {
          MarkKeepsClient(i, c, st, Idle);
        } else {
          GiveUpKeepsClient(i, c, st, Idle);
        }
      case RunHandle(run) => RunHandleKeepsClient(i, c, st, run, runs');
      case _ => BeginKeepsClient(i, c, st, e, runs');
    }
  }

  /** The step theorem: a client's own step keeps its invariant and its promise. */
  lemma StepKeepsClient(i: nat, c: Client, st: Store, e: Event, c': Client, st': Store)
    requires ClientInv(i, c, st) && c.alive && StoreInv(st)
    requires ClientStep(i, c, st, e) == Some((c', st'))
    ensures ClientInv(i, c', st') && Guarantee(i, st, st') && StoreInv(st')
  {
    hide ClientInv, StoreInv, Guarantee;
    GuaranteeNothing(i, st);
    match e {
      case Logger(_, logger) =>
        LoggerKeepsClient(i, c, st, logger, c'.pipe, c'.runs);
      case Work(_, work) =>
        WorkerKeepsClient(i, c, st, work, c'.pipe, st');
        WorkerGuarantees(i, c, st, work, c'.pipe, st');
        WorkerKeepsStore(i, c, st, work, c'.pipe, st');
      case Command(_, command) =>
        if command.Crash? {
          CrashKeepsClient(i, c, st);
        } else if command.Advance? && !c.runs.control.Finalizing? {
          ShutdownKeepsClient(i, c, st, c', st');
        } else {
          RunsKeepClient(i, c, st, command, c'.runs, st');
        }
    }
  }
}
