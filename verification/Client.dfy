/**
  The native client: its admission gates, its run writers and the control
  operations, as objects, one call at a time. What the outside world does during
  a call (append faults, failing statements, another process finishing the run)
  is an argument.
 */
module Clients {
  import opened Values
  import opened Metrics
  import opened Pipeline
  import opened PipelineCounts
  import opened PipelineRows
  import opened WriteSide
  import opened Reporter

  datatype ClientError =
    | IsClosed
    | RunNotFound
    | RunAlreadyExists
    | RunAlreadyActive
    | RunClosed
    | InvalidRunTransition
    | Refused(reason: ReportError)
    | NotDrained(cause: DrainError)
    | StorageFailed
    | NotFlushed

  /** The fate of the update that makes a run terminal. */
  datatype MarkFate = Answered | ErrorBefore | ErrorAfter

  /** What finalization meets on its way. */
  datatype Weather = Weather(polls: seq<Poll>, deleted: bool, inserted: bool, meanwhile: Option<RunStatus>, mark: MarkFate, flushed: bool)

  class ActiveRun {
    var admission: Admission
    var locked: bool

    constructor ()
      ensures admission == Open && locked
    {
      admission, locked := Open, true;
    }
  }

  class NativeClient {
    const number: nat
    const store: ProjectStore
    const reporter: MetricReporter
    var activeRuns: map<RunId, ActiveRun>
    var gates: nat
    var isShutdown: bool

    constructor (number: nat, store: ProjectStore, reporter: MetricReporter)
      requires reporter.store == store && reporter.client == number && reporter.Valid()
      requires forall run :: run in store.locks ==> store.locks[run].client != number
      ensures this.number == number && this.store == store && this.reporter == reporter
      ensures Valid() && activeRuns == map[] && !isShutdown
    {
      this.number, this.store, this.reporter := number, store, reporter;
      activeRuns, gates, isShutdown := map[], 0, false;
    }

    ghost predicate Valid()
      reads this, store, reporter, reporter.store
    {
      && reporter.store == store && reporter.client == number && reporter.Valid()
      && (forall run :: run in activeRuns <==> OwnedBy(store.State(), number, run))
      && (forall run, other :: run in activeRuns && other in activeRuns && activeRuns[run] == activeRuns[other] ==> run == other)
    }

    /** `log_metric_at_step`: only through an open gate does a report reach the reporter. */
    method LogMetricAtStep(gate: ActiveRun, run: RunId, key: MetricKey, step: int, value: Value, now: int) returns (e: Option<ClientError>)
      requires Valid()
      modifies reporter
      ensures Valid()
      ensures gate.admission.Open? ==> reporter.Write() == Reported(old(reporter.Write()), run, key, step, value, now).0
      ensures e.None? <==> reporter.accepted == old(reporter.accepted) + [Report(run, key, step, value, now, old(reporter.nextSequence))]
      ensures e.Some? ==> reporter.accepted == old(reporter.accepted) && reporter.queue == old(reporter.queue)
                          && reporter.pending == old(reporter.pending) && reporter.nextSequence == old(reporter.nextSequence)
      ensures e == Some(RunClosed) <==> !gate.admission.Open?
      ensures gate.admission.Open? ==>
                var (isOpen, failed, ended) := (old(reporter.senderOpen), old(reporter.writer).WriterFailed?, old(reporter.worker).Dropped? || old(reporter.worker).Exited?);
                && (e == Some(Refused(ClientClosed)) <==> !isOpen || (!failed && ended))
                && (e == Some(Refused(MetricWriterFailed)) <==> isOpen && failed)
                && (e == Some(Refused(MetricQueueFull)) <==> isOpen && !failed && !ended && !old(reporter.Room()))
      ensures !gate.admission.Open? ==> reporter.Write() == old(reporter.Write()) && e == Some(RunClosed)
    {
      hide Counts, RowsInv, TableInv, Reported;
      if gate.admission.Open? {
        ReportedKeeps(number, reporter.Write(), store.State(), run, key, step, value, now);
        ReportedKeepsWorker(reporter.Write(), run, key, step, value, now);
        var refused := reporter.ReportMetric(run, key, step, value, now);
        return if refused.Some? then Some(Refused(refused.value)) else None;
      }
      return Some(RunClosed);
    }

    /** Reuses the active run, or takes the lock file and opens a new gate. */
    method AcquireRunWriter(run: RunId) returns (gate: Option<ActiveRun>)
      requires Valid()
      modifies this`activeRuns, this`gates, store`locks
      ensures Valid()
      ensures gate.None? <==> run in old(store.locks) && old(store.locks)[run].client != number
      ensures gate.None? ==> store.State() == old(store.State()) && activeRuns == old(activeRuns)
      ensures gate.Some? && run in old(activeRuns) ==> gate.value == old(activeRuns)[run] && activeRuns == old(activeRuns) && store.locks == old(store.locks)
      ensures gate.Some? && run !in old(activeRuns) ==>
                && fresh(gate.value) && gate.value.admission.Open? && activeRuns == old(activeRuns)[run := gate.value]
                && store.locks == old(store.locks)[run := Owner(number, old(gates))]
    {
      hide Counts, RowsInv, TableInv;
      if run in activeRuns {
        return Some(activeRuns[run]);
      }
      if run in store.locks {
        return None;
      }
      var opening := new ActiveRun();
      store.locks := store.locks[run := Owner(number, gates)];
      activeRuns, gates := activeRuns[run := opening], gates + 1;
      LocksDoNotMatter(number, reporter.Write(), old(store.State()), store.State());
      return Some(opening);
    }

    method ReleaseRunWriter(run: RunId)
      requires Valid() && run in activeRuns
      modifies this`activeRuns, store`locks, activeRuns[run]
      ensures Valid() && activeRuns == old(activeRuns) - {run} && store.locks == old(store.locks) - {run}
      ensures old(activeRuns)[run].admission == old(activeRuns[run].admission) && !old(activeRuns)[run].locked
    {
      hide Counts, RowsInv, TableInv;
      activeRuns[run].locked := false;
      store.locks := store.locks - {run};
      activeRuns := activeRuns - {run};
      LocksDoNotMatter(number, reporter.Write(), old(store.State()), store.State());
    }

    /** `create_run`, after the lookups: the run row is inserted, or the lock is given back. An error may come after the commit. */
    method CreateRun(run: RunId, inserted: bool, committed: bool) returns (e: Option<ClientError>)
      requires Valid()
      modifies this`activeRuns, this`gates, store`locks, store`status, activeRuns.Values
      ensures Valid()
      ensures old(isShutdown) ==> e == Some(IsClosed)
      ensures !old(isShutdown) && run in old(store.status) ==> e == Some(RunAlreadyExists)
      ensures e.None? ==> run !in old(store.status) && store.status == old(store.status)[run := Running] && run in activeRuns
      ensures e.Some? && (e.value != StorageFailed || !committed) ==> store.status == old(store.status)
      ensures e == Some(StorageFailed) && committed ==> store.status == old(store.status)[run := Running]
      ensures e == Some(StorageFailed) ==> run !in activeRuns && run !in store.locks
      ensures e == Some(RunAlreadyActive) ==> run in store.locks && store.locks == old(store.locks) && activeRuns == old(activeRuns)
    {
      hide Counts, RowsInv, TableInv;
      if isShutdown {
        return Some(IsClosed);
      }
      if run in store.status {
        return Some(RunAlreadyExists);
      }
      var gate := AcquireRunWriter(run);
      if gate.None? {
        return Some(RunAlreadyActive);
      }
      if !inserted {
        if committed {
          store.status := store.status[run := Running];
          LocksDoNotMatter(number, reporter.Write(), old(store.State()), store.State());
        }
        ReleaseRunWriter(run);
        return Some(StorageFailed);
      }
      store.status := store.status[run := Running];
      LocksDoNotMatter(number, reporter.Write(), old(store.State()), store.State());
      return None;
    }

    /** `resume_run` takes the lock of a run that it found running. */
    method ResumeRun(run: RunId) returns (e: Option<ClientError>)
      requires Valid()
      modifies this`activeRuns, this`gates, store`locks
      ensures Valid()
      ensures e == if old(isShutdown) then Some(IsClosed)
                   else if run !in store.status then Some(RunNotFound)
                   else if !store.status[run].Running? then Some(InvalidRunTransition)
                   else if run in old(store.locks) && old(store.locks)[run].client != number then Some(RunAlreadyActive)
                   else None
      ensures e.None? ==> run in activeRuns && OwnedBy(store.State(), number, run)
      ensures e.Some? ==> activeRuns == old(activeRuns) && store.locks == old(store.locks)
      ensures forall other :: other != run ==> (other in activeRuns <==> other in old(activeRuns))
    {
      hide Counts, RowsInv, TableInv;
      if isShutdown {
        return Some(IsClosed);
      }
      if run !in store.status {
        return Some(RunNotFound);
      }
      if !store.status[run].Running? {
        return Some(InvalidRunTransition);
      }
      var gate := AcquireRunWriter(run);
      return if gate.None? then Some(RunAlreadyActive) else None;
    }

    /** No run changed hands or status. */
    twostate predicate Unmoved()
      reads this, store
    {
      activeRuns == old(activeRuns) && store.locks == old(store.locks) && store.status == old(store.status)
    }

    /** The run is finished for good: complete, summarized, closed and unlocked. */
    ghost predicate IsSealed(run: RunId, target: RunStatus, gate: ActiveRun)
      requires Valid()
      reads this, store, reporter, gate
    {
      && run in store.status && store.status[run] == target
      && run in store.aggregates && store.aggregates[run] == Summaries(store.rows, run)
      && reporter.AllStored()
      && run !in activeRuns && run !in store.locks && gate.admission.Terminal? && !gate.locked
    }

    /** The first half of `finalize_run`: close the gate, drain, summarize; any failure opens the gate again. */
    method CloseAndSummarize(gate: ActiveRun, run: RunId, weather: Weather) returns (e: Option<ClientError>)
      requires Valid() && CompletePolls(weather.polls)
      modifies gate`admission, reporter, store`rows, store`skewed, store`acked, store`aggregates
      ensures Valid() && gate.admission == if e.None? then Closing else Open
      ensures e.None? || e == Some(StorageFailed) || (e.value.NotDrained? && store.aggregates == old(store.aggregates))
      ensures e.None? || e == Some(StorageFailed) ==> reporter.AllStored() && (e.None? <==> weather.deleted && weather.inserted)
      ensures e.None? ==> run in store.aggregates && store.aggregates[run] == Summaries(store.rows, run)
    {
      hide Counts, RowsInv, TableInv, AckedBy, Summaries;
      gate.admission := Closing;
      var failure := reporter.Drain(weather.polls);
      if failure.Some? {
        gate.admission := Open;
        return Some(NotDrained(failure.value));
      }
      ghost var drained := store.State();
      var rebuilt := store.RebuildMetricAggregates(run, weather.deleted, weather.inserted);
      LocksDoNotMatter(number, reporter.Write(), drained, store.State());
      if !rebuilt {
        gate.admission := Open;
        return Some(StorageFailed);
      }
      return None;
    }

    /** The conditional update of the run's status, after whatever another process did to it. */
    method UpdateStatus(run: RunId, target: RunStatus, weather: Weather) returns (updated: bool)
      requires Valid() && IsRunning(store.State(), run) && !target.Running?
      modifies store`status, store`sealedBy
      ensures Valid()
      ensures updated == (!weather.mark.ErrorBefore? && (weather.meanwhile.None? || weather.meanwhile.value.Running?))
      ensures run in store.status && (updated ==> store.status[run] == target)
      ensures weather.meanwhile.None? ==> store.status == if updated then old(store.status)[run := target] else old(store.status)
    {
      hide Counts, RowsInv, TableInv;
      if weather.meanwhile.Some? {
        store.status := store.status[run := weather.meanwhile.value];
      }
      updated := false;
      if !weather.mark.ErrorBefore? {
        updated := store.MarkRunTerminal(run, target, number);
      }
      LocksDoNotMatter(number, reporter.Write(), old(store.State()), store.State());
    }

    /** The second half of `finalize_run`: mark the run terminal and let go of it. */
    method MarkAndRelease(gate: ActiveRun, run: RunId, target: RunStatus, weather: Weather) returns (e: Option<ClientError>)
      requires Valid() && run in activeRuns && activeRuns[run] == gate && IsRunning(store.State(), run)
      requires !target.Running? && gate.admission.Closing?
      modifies this`activeRuns, gate, store`status, store`sealedBy, store`locks
      ensures Valid()
      ensures e.None? || e == Some(NotFlushed) ==>
                && weather.mark.Answered? && (e.None? <==> weather.flushed)
                && run in store.status && store.status[run] == target
                && run !in activeRuns && run !in store.locks && gate.admission.Terminal? && !gate.locked
      ensures e == Some(StorageFailed) ==>
                && gate.admission.Closing? && activeRuns == old(activeRuns)
                && (weather.meanwhile.None? ==> store.status == if weather.mark.ErrorAfter? then old(store.status)[run := target] else old(store.status))
      ensures e == Some(InvalidRunTransition) ==> gate.admission.Open? && activeRuns == old(activeRuns) && weather.meanwhile.Some? && !weather.meanwhile.value.Running?
      ensures e.None? || e.value in {NotFlushed, StorageFailed, InvalidRunTransition}
    {
      hide Counts, RowsInv, TableInv;
      var updated := UpdateStatus(run, target, weather);
      if !weather.mark.Answered? {
        return Some(StorageFailed);
      }
      if updated {
        gate.admission := Terminal;
        ReleaseRunWriter(run);
        return if weather.flushed then None else Some(NotFlushed);
      }
      gate.admission := Open;
      return Some(InvalidRunTransition);
    }

    /**
      `finalize_run` of a run this client writes. Success, also one followed by a
      failing flush, leaves the run complete, summarized, closed and unlocked;
      every error before the update leaves it running behind an open gate.
     */
    method FinalizeOwned(gate: ActiveRun, run: RunId, target: RunStatus, weather: Weather) returns (e: Option<ClientError>)
      requires Valid() && run in activeRuns && activeRuns[run] == gate && IsRunning(store.State(), run)
      requires !target.Running? && CompletePolls(weather.polls)
      modifies this`activeRuns, gate, reporter, store
      ensures Valid()
      ensures e.None? || e == Some(NotFlushed) ==> IsSealed(run, target, gate) && (e.None? <==> weather.flushed)
      ensures e.Some? && e.value.NotDrained? ==> gate.admission.Open? && Unmoved() && store.aggregates == old(store.aggregates)
      ensures e == Some(StorageFailed) && !(weather.deleted && weather.inserted) ==> gate.admission.Open? && Unmoved() && reporter.AllStored()
      ensures e == Some(StorageFailed) && weather.deleted && weather.inserted ==>
                && gate.admission.Closing? && activeRuns == old(activeRuns) && reporter.AllStored()
                && (weather.meanwhile.None? ==> store.status == if weather.mark.ErrorAfter? then old(store.status)[run := target] else old(store.status))
      ensures e == Some(InvalidRunTransition) ==> gate.admission.Open? && activeRuns == old(activeRuns) && weather.meanwhile.Some? && !weather.meanwhile.value.Running?
      ensures e.None? || e.value in {NotFlushed, StorageFailed, InvalidRunTransition} || e.value.NotDrained?
    {
      hide Counts, RowsInv, TableInv, AckedBy, Summaries;
      e := CloseAndSummarize(gate, run, weather);
      if e.None? {
        e := MarkAndRelease(gate, run, target, weather);
      }
    }

    /** `finalize_run`, with the checks that come first. */
    method FinalizeRun(run: RunId, target: RunStatus, weather: Weather) returns (e: Option<ClientError>)
      requires Valid() && !target.Running? && CompletePolls(weather.polls)
      modifies this`activeRuns, this`gates, activeRuns.Values, reporter, store
      ensures Valid()
      ensures old(isShutdown) ==> e == Some(IsClosed)
      ensures !old(isShutdown) && run !in old(store.status) ==> e == Some(RunNotFound)
      ensures !old(isShutdown) && IsTerminal(old(store.State()), run) ==> e == Some(InvalidRunTransition)
      ensures !old(isShutdown) && IsRunning(old(store.State()), run) && run in old(store.locks) && old(store.locks)[run].client != number ==> e == Some(RunAlreadyActive)
      ensures old(isShutdown) || !IsRunning(old(store.State()), run) || e == Some(RunAlreadyActive) ==> store.State() == old(store.State()) && activeRuns == old(activeRuns)
      ensures e.None? || e == Some(NotFlushed) ==>
                && run in store.status && store.status[run] == target && run !in store.locks && run !in activeRuns
                && run in store.aggregates && store.aggregates[run] == Summaries(store.rows, run) && reporter.AllStored()
      ensures e.Some? && e.value.NotDrained? ==> run in activeRuns && activeRuns[run].admission.Open? && store.status == old(store.status)
    {
      hide Counts, RowsInv, TableInv, AckedBy, Summaries;
      if isShutdown {
        return Some(IsClosed);
      }
      if run !in store.status {
        return Some(RunNotFound);
      }
      if !store.status[run].Running? {
        return Some(InvalidRunTransition);
      }
      var gate := AcquireRunWriter(run);
      if gate.None? {
        return Some(RunAlreadyActive);
      }
      e := FinalizeOwned(gate.value, run, target, weather);
    }

    /** Gives every lock back, run by run. */
    method ReleaseAllRunWriters()
      requires Valid()
      modifies this`activeRuns, store`locks, activeRuns.Values
      ensures Valid() && activeRuns == map[]
      ensures forall run :: run in store.locks <==> run in old(store.locks) && old(store.locks)[run].client != number
      ensures forall run :: run in store.locks ==> store.locks[run] == old(store.locks)[run]
    {
      hide Counts, RowsInv, TableInv;
      while activeRuns.Keys != {}
        invariant Valid() && activeRuns.Values <= old(activeRuns.Values)
        invariant forall run :: run in store.locks ==> run in old(store.locks) && store.locks[run] == old(store.locks)[run]
        invariant forall run :: run in old(store.locks) && run !in store.locks ==> old(store.locks)[run].client == number
        decreases activeRuns.Keys
      {
        var run :| run in activeRuns.Keys;
        ReleaseRunWriter(run);
      }
      forall run | run in store.locks ensures store.locks[run].client != number {
        assert !OwnedBy(store.State(), number, run);
      }
    }

    /** `shutdown`: a timed-out drain leaves the client as it was; anything else releases every run. */
    method Shutdown(polls: seq<Poll>, script: seq<seq<Attempt>>) returns (e: Option<DrainError>)
      requires Valid() && CompletePolls(polls) && |reporter.queue| <= |script| && forall k :: 0 <= k < |script| ==> Complete(script[k])
      modifies this, reporter, store, activeRuns.Values
      ensures Valid()
      ensures e == Some(DrainTimeout) ==> activeRuns == old(activeRuns) && store.locks == old(store.locks) && isShutdown == old(isShutdown)
      ensures e != Some(DrainTimeout) ==> activeRuns == map[] && (forall run :: !OwnedBy(store.State(), number, run)) && reporter.worker.Exited?
      ensures e.None? ==> isShutdown && reporter.AllStored() && reporter.pending == 0
      ensures e.Some? ==> isShutdown == old(isShutdown)
    {
      hide Counts, RowsInv, TableInv, AckedBy;
      e := reporter.Shutdown(polls, script);
      if e != Some(DrainTimeout) {
        ReleaseAllRunWriters();
      }
      if e.None? {
        isShutdown := true;
      }
    }
  }

  lemma ReportedKeepsWorker(p: Pipe, run: RunId, key: MetricKey, step: int, value: Value, now: int)
    ensures Reported(p, run, key, step, value, now).0.worker == p.worker
  {
  }

  /** The invariants of the write side do not look at locks, statuses or summaries. */
  lemma LocksDoNotMatter(i: nat, p: Pipe, st: Store, st': Store)
    requires RowsInv(i, p, st) && TableInv(st)
    requires st'.rows == st.rows && st'.acked == st.acked && st'.skewed == st.skewed
    ensures RowsInv(i, p, st') && TableInv(st')
  {
    forall a, b | 0 <= a < b < |st'.rows| && HandedOver(st', a, b) ensures st'.rows[a].ingestedAt <= st'.rows[b].ingestedAt {
      assert HandedOver(st, a, b);
    }
  }
}
