/**
  How long finalization lasts. The status of a run is read before its lock is
  taken, and what happens in between decides: here is exactly when a terminal
  run stays complete, in terms of the state at that moment.
 */
module PipelineStale {
  import opened Values
  import opened Metrics
  import opened Pipeline
  import opened PipelineOwnership
  import opened PipelineTheorems
  import opened PipelineContinuations
  import opened WriteSide

  lemma LeadsKeepsInv(s: System, s': System)
    requires SystemInv(s) && Leads(s, s')
    ensures SystemInv(s')
  {
    hide SystemInv;
    var events :| Run(s, events) == Some(s');
    RunKeepsInv(s, events, s');
  }

  // ------------------------------------------------------------ a stale reader can take the lock

  /** A stale reader neither holds the run nor has it active. */
  lemma StaleReaderIsOutside(i: nat, c: Client, st: Store, run: RunId)
    requires ClientInv(i, c, st) && StaleReader(c, run) && IsTerminal(st, run) && run !in st.raced
    ensures run !in c.runs.active && !OwnedBy(st, i, run)
  {
  }

  lemma HolderIsAnother(s: System, i: nat, run: RunId)
    requires SystemInv(s) && i < |s.clients| && StaleReader(s.clients[i], run) && IsTerminal(s.store, run) && run !in s.store.raced
    ensures run in s.store.locks ==>
              var j := s.store.locks[run].client; j < |s.clients| && j != i && s.clients[j].alive
  {
    assert MemberInv(i, s.clients[i], s.store);
    StaleReaderIsOutside(i, s.clients[i], s.store, run);
    if run in s.store.locks {
      var j := s.store.locks[run].client;
      assert KnownClients(s) && j < |s.clients|;
      assert MemberInv(j, s.clients[j], s.store) && OwnedBy(s.store, j, run);
    }
  }

  lemma CrashFrees(s: System, j: nat) returns (clients: seq<Client>, st: Store)
    requires j < |s.clients| && s.clients[j].alive
    ensures |clients| == |s.clients| && (forall i :: 0 <= i < |clients| && i != j ==> clients[i] == s.clients[i])
    ensures st == UnlockAll(s.store, j) && Leads(s, System(clients, st))
  {
    var c, e := s.clients[j], Command(j, Crash);
    var gone := c.(alive := false, runs := c.runs.(active := map[], control := Idle));
    assert ClientStep(j, c, s.store, e) == Some((gone, UnlockAll(s.store, j)));
    hide ClientStep, UnlockAll, Leads;
    clients, st := s.clients[j := gone], UnlockAll(s.store, j);
    LeadsNowhere(s);
    Then(s, s, e, System(clients, st));
  }

  /** The system once nobody holds the run: its holder, if any, has crashed. */
  lemma HolderGone(s: System, i: nat, run: RunId) returns (clients: seq<Client>, st: Store)
    requires SystemInv(s) && i < |s.clients| && StaleReader(s.clients[i], run) && IsTerminal(s.store, run) && run !in s.store.raced
    ensures |clients| == |s.clients| && clients[i] == s.clients[i] && Leads(s, System(clients, st))
    ensures run !in st.locks && st == s.store.(locks := st.locks)
  {
    HolderIsAnother(s, i, run);
    hide SystemInv, Leads, StaleReader;
    if run in s.store.locks {
      clients, st := CrashFrees(s, s.store.locks[run].client);
    } else {
      clients, st := s.clients, s.store;
      LeadsNowhere(s);
    }
  }

  /** The client after it has taken the lock. */
  function Reacquired(c: Client, run: RunId): Client
    requires Reacquiring(c.runs.control, run)
  {
    var o := |c.runs.objs|;
    c.(runs := Runs(c.runs.objs + [ActiveRun(run, Open, false, Free)], c.runs.active[run := o],
                    if c.runs.control.FinalizeAcquire? then Finalizing(run, o, c.runs.control.target, Close) else Idle, c.runs.shutdown))
  }

  function Raced(st: Store, i: nat, o: nat, run: RunId): Store {
    st.(locks := st.locks[run := Owner(i, o)], raced := st.raced + {run})
  }

  lemma ReacquiresLock(i: nat, c: Client, st: Store, run: RunId)
    requires c.alive && Reacquiring(c.runs.control, run) && run !in c.runs.active && run !in st.locks && IsTerminal(st, run)
    ensures ClientStep(i, c, st, Command(i, Acquire)) == Some((Reacquired(c, run), Raced(st, i, |c.runs.objs|, run)))
  {
  }

  /** Whoever read "running" before the run was finalized can reopen it afterwards. */
  lemma StaleReaderReopens(s: System, i: nat, run: RunId) returns (clients: seq<Client>, st: Store)
    requires SystemInv(s) && i < |s.clients| && StaleReader(s.clients[i], run) && IsTerminal(s.store, run) && run !in s.store.raced
    ensures |clients| == |s.clients| && clients[i] == s.clients[i] && st.rows == s.store.rows
    ensures var c := Reacquired(s.clients[i], run); var st' := Raced(st, i, |s.clients[i].runs.objs|, run);
            Leads(s, With(clients, i, c, st')) && c.alive && OpenTo(c, run) && run in st'.raced && IsTerminal(st', run)
  {
    assert MemberInv(i, s.clients[i], s.store);
    StaleReaderIsOutside(i, s.clients[i], s.store, run);
    clients, st := HolderGone(s, i, run);
    hide SystemInv, MemberInv, Leads, ClientStep;
    var c := s.clients[i];
    assert clients[i := c] == clients;
    ReacquiresLock(i, c, st, run);
    Moves(s, clients, i, c, st, Command(i, Acquire), Reacquired(c, run), Raced(st, i, |c.runs.objs|, run));
  }

  /** A writer between two batches, which takes reports. */
  predicate Usable(p: Pipe) {
    p.sender.Unlocked? && p.reporter.senderOpen && !p.reporter.writer.WriterFailed? && p.worker.Receiving? && p.reporter.queue == []
  }

  /** The client is ready to log to the run it just took. */
  function ReadyToLog(c: Client, run: RunId): Client {
    var o := |c.runs.objs|;
    c.(runs := Runs(c.runs.objs + [ActiveRun(run, Open, true, Free)], c.runs.active[run := o], Idle, c.runs.shutdown))
  }

  /** A finalization that took the lock and then timed out in its drain leaves the gate open. */
  lemma FinalizationTimesOut(s: System, clients: seq<Client>, i: nat, c: Client, st: Store, run: RunId)
    requires i < |clients| && c.alive && Reacquiring(c.runs.control, run) && c.runs.control.FinalizeAcquire? && Usable(c.pipe)
    requires Leads(s, With(clients, i, Reacquired(c, run), st))
    ensures Leads(s, With(clients, i, Reacquired(c, run).(runs := Reacquired(c, run).runs.(control := Idle)), st))
  {
    hide Leads;
    var c1, o := Reacquired(c, run), |c.runs.objs|;
    var closing := c1.(runs := AtPhase(SetAdmission(c1.runs, o, Closing), TakeBarrier));
    Moves(s, clients, i, c1, st, Command(i, Advance), closing, st);
    var draining := c1.(runs := AtPhase(closing.runs, Drain(Barrier(c.pipe.reporter))));
    Moves(s, clients, i, closing, st, Command(i, Advance), draining, st);
    var reopening := c1.(runs := AtPhase(draining.runs, Reopen));
    Moves(s, clients, i, draining, st, Command(i, Fail), reopening, st);
    var idle := c1.(runs := c1.runs.(control := Idle));
    assert SetAdmission(reopening.runs, o, Open).objs == c1.runs.objs;
    Moves(s, clients, i, reopening, st, Command(i, Advance), idle, st);
  }

  /** A stale reader with a usable writer gets a handle to the terminal run. */
  lemma StaleReaderGetsHandle(s: System, i: nat, run: RunId) returns (clients: seq<Client>, st: Store)
    requires SystemInv(s) && i < |s.clients| && StaleReader(s.clients[i], run) && IsTerminal(s.store, run) && run !in s.store.raced
    requires Usable(s.clients[i].pipe)
    ensures |clients| == |s.clients| && Leads(s, With(clients, i, ReadyToLog(s.clients[i], run), st))
    ensures st.rows == s.store.rows && IsTerminal(st, run)
  {
    hide Leads, SystemInv, ClientStep, Usable;
    var st0;
    clients, st0 := StaleReaderReopens(s, i, run);
    var c, o := s.clients[i], |s.clients[i].runs.objs|;
    var c1 := Reacquired(c, run);
    st := Raced(st0, i, o, run);
    if c.runs.control.FinalizeAcquire? {
      FinalizationTimesOut(s, clients, i, c, st, run);
    }
    HandedOut(i, c, st, run);
    Moves(s, clients, i, c1.(runs := c1.runs.(control := Idle)), st, Command(i, RunHandle(run)), ReadyToLog(c, run), st);
  }

  lemma ReadyCanLog(c: Client, run: RunId)
    requires c.alive && Usable(c.pipe)
    ensures CanLog(ReadyToLog(c, run), |c.runs.objs|, run) && ReadyToLog(c, run).pipe == c.pipe
  {
  }

  /** A stale reader with a usable writer can store another row of the terminal run. */
  lemma StaleReaderCanStore(s: System, i: nat, run: RunId, key: MetricKey, step: int, value: Value) returns (s': System)
    requires Reachable(s) && i < |s.clients| && StaleReader(s.clients[i], run) && IsTerminal(s.store, run) && run !in s.store.raced
    requires Usable(s.clients[i].pipe)
    ensures Leads(s, s') && IsTerminal(s'.store, run) && |s'.store.rows| == |s.store.rows| + 1 && s.store.rows <= s'.store.rows
    ensures PointOf(s'.store.rows[|s.store.rows|].report) == MetricPoint(run, key, step)
  {
    ReachableInv(s);
    var clients, st := StaleReaderGetsHandle(s, i, run);
    var c := s.clients[i];
    ReadyCanLog(c, run);
    hide Leads, SystemInv, Reachable, Persisted, Appended, Collected, ReadyToLog, CanLog;
    StoresOne(s, clients, i, ReadyToLog(c, run), st, |c.runs.objs|, run, key, step, value, 0);
    OneRowStored(i, c.pipe, st, run, key, step, value, 0);
    var ready := Collected(Enqueued(c.pipe, NextReport(c.pipe, run, key, step, value, 0)));
    s' := With(clients, i, ReadyToLog(c, run).(pipe := Persisted(i, ready, st, 0)), Appended(i, ready, st, 0).1);
  }

  lemma HandedOut(i: nat, c: Client, st: Store, run: RunId)
    requires Reacquiring(c.runs.control, run)
    ensures var c1 := Reacquired(c, run); var c2 := c1.(runs := c1.runs.(control := Idle));
            ClientStep(i, c2, st, Command(i, RunHandle(run))) == Some((ReadyToLog(c, run), st))
  {
    var c1 := Reacquired(c, run);
    var c2 := c1.(runs := c1.runs.(control := Idle));
    var o := |c.runs.objs|;
    assert c2.runs.objs[o := c2.runs.objs[o].(published := true)] == ReadyToLog(c, run).runs.objs;
  }

  // ------------------------------------------------------------ exactly when finalization lasts

  /** Whatever happens from here on, the run stays complete and untouched. */
  ghost predicate Lasts(s: System, run: RunId) {
    forall s' :: Leads(s, s') ==> Complete(s', run) && Untouched(s, s', run)
  }

  ghost predicate NeverReopened(s: System, run: RunId) {
    forall s' :: Leads(s, s') ==> forall i :: 0 <= i < |s'.clients| && s'.clients[i].alive ==> !OpenTo(s'.clients[i], run)
  }

  lemma LastsWithoutStaleReaders(s: System, s': System, run: RunId)
    requires SystemInv(s) && IsTerminal(s.store, run) && run !in s.store.raced && NoStaleReader(s, run) && Leads(s, s')
    ensures Complete(s', run) && Untouched(s, s', run)
  {
    hide SystemInv, NoStaleReader, Complete;
    LeadsKeepsInv(s, s');
    var events :| Run(s, events) == Some(s');
    TerminalRunIsFrozen(s, events, s', run);
    TerminalIsComplete(s', run);
  }

  lemma DoesNotLastWithStaleReader(s: System, i: nat, run: RunId)
    requires SystemInv(s) && i < |s.clients| && StaleReader(s.clients[i], run) && IsTerminal(s.store, run) && run !in s.store.raced
    ensures !Lasts(s, run) && !NeverReopened(s, run)
    ensures exists s' :: Leads(s, s') && run in s'.store.raced
  {
    var clients, st := StaleReaderReopens(s, i, run);
    hide SystemInv, Leads, Untouched;
    var s' := With(clients, i, Reacquired(s.clients[i], run), Raced(st, i, |s.clients[i].runs.objs|, run));
    assert s'.clients[i] == Reacquired(s.clients[i], run);
    assert Leads(s, s') && !Complete(s', run);
  }

  /**
    The exact condition, on the present state. A finalized run stays complete
    and untouched over every continuation if and only if no client that is up
    has read its status as running and is about to take its lock. Otherwise the
    run can get an open gate again: at worst its lock's holder has to crash.
   */
  lemma FinalizationLastsExactly(s: System, run: RunId)
    requires Reachable(s) && IsTerminal(s.store, run) && run !in s.store.raced
    ensures Lasts(s, run) <==> NoStaleReader(s, run)
    ensures NeverReopened(s, run) <==> NoStaleReader(s, run)
    ensures (exists s' :: Leads(s, s') && run in s'.store.raced) <==> !NoStaleReader(s, run)
  {
    ReachableInv(s);
    hide SystemInv, Leads, Complete, Untouched, Reachable;
    if NoStaleReader(s, run) {
      forall s' | Leads(s, s')
        ensures Complete(s', run) && Untouched(s, s', run) && run !in s'.store.raced
                && forall i :: 0 <= i < |s'.clients| && s'.clients[i].alive ==> !OpenTo(s'.clients[i], run)
      {
        LastsWithoutStaleReaders(s, s', run);
        CompleteIsClosed(s', run);
        StaysUnraced(s, s', run);
      }
    } else {
      var i :| 0 <= i < |s.clients| && StaleReader(s.clients[i], run);
      DoesNotLastWithStaleReader(s, i, run);
    }
  }

  lemma CompleteIsClosed(s: System, run: RunId)
    requires Complete(s, run)
    ensures forall i :: 0 <= i < |s.clients| && s.clients[i].alive ==> !OpenTo(s.clients[i], run)
  {
  }

  lemma StaysUnraced(s: System, s': System, run: RunId)
    requires SystemInv(s) && IsTerminal(s.store, run) && run !in s.store.raced && NoStaleReader(s, run) && Leads(s, s')
    ensures run !in s'.store.raced
  {
    hide SystemInv, NoStaleReader, Untouched;
    var events :| Run(s, events) == Some(s');
    TerminalRunIsFrozen(s, events, s', run);
  }

  /**
    The same at the moment that matters, without any history: right after the
    step that made a run terminal. Its summaries then agree for good, too.
   */
  lemma JustFinalizedLastsExactly(before: System, e: Event, s: System, run: RunId)
    requires Reachable(before) && Apply(before, e) == Some(s) && IsRunning(before.store, run) && IsTerminal(s.store, run)
    ensures Complete(s, run)
    ensures Lasts(s, run) <==> NoStaleReader(s, run)
    ensures NoStaleReader(s, run) ==> forall s' :: Leads(s, s') ==>
              IsTerminal(s'.store, run) && ListMetrics(s'.store, run, Running) == ListMetrics(s'.store, run, s'.store.status[run])
  {
    Then(INITIAL, before, e, s);
    JustFinalizedIsUnraced(before, e, s, run);
    TerminalRunIsComplete(s, run);
    FinalizationLastsExactly(s, run);
    hide Leads, Apply, SystemInv, Reachable, NoStaleReader, Summaries;
    if NoStaleReader(s, run) {
      forall s' | Leads(s, s')
        ensures IsTerminal(s'.store, run) && ListMetrics(s'.store, run, Running) == ListMetrics(s'.store, run, s'.store.status[run])
      {
        assert Complete(s', run) && Untouched(s, s', run);
      }
    }
  }

  lemma JustFinalizedIsUnraced(before: System, e: Event, s: System, run: RunId)
    requires Reachable(before) && Apply(before, e) == Some(s) && IsRunning(before.store, run) && IsTerminal(s.store, run)
    ensures run !in s.store.raced
  {
    ReachableInv(before);
    assert StoreInv(before.store);
    hide ClientStep, SystemInv, Reachable;
    StepStaysUnraced(e.client, before.clients[e.client], before.store, e, s.clients[e.client], s.store, run);
  }
}
