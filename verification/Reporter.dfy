/**
  The metric reporter, its worker thread and the project store, as objects.

  One method runs at a time here; `WriteSide` relates each of them to the atomic
  steps that the other modules interleave. The clock, failing appends and what a
  drain observes at each poll are arguments.
 */
module Reporter {
  import opened Values
  import opened Metrics
  import opened Pipeline
  import opened PipelineCounts
  import opened PipelineRows
  import opened WriteSide

  datatype SendResult = Sent | Full | Disconnected

  datatype DrainError = DrainFailed | DrainTimeout

  /** One poll of a drain: whether its deadline has passed, and what the worker does while it sleeps. */
  datatype Poll = Poll(expired: bool, attempts: Option<seq<Attempt>>)

  const INITIAL_RETRY_BACKOFF: nat := 50
  const MAX_RETRY_BACKOFF: nat := 1000

  predicate Complete(attempts: seq<Attempt>) {
    |attempts| == MAX_RETRIES + 1
  }

  function BackoffAfter(retries: nat): nat {
    if retries == 0 then INITIAL_RETRY_BACKOFF else Min(BackoffAfter(retries - 1) * 2, MAX_RETRY_BACKOFF)
  }

  function SleptAfter(retries: nat): nat {
    if retries == 0 then 0 else SleptAfter(retries - 1) + BackoffAfter(retries - 1)
  }

  /** The five pauses in milliseconds, and their sum. */
  lemma PausesMean()
    ensures BackoffAfter(0) == 50 && BackoffAfter(1) == 100 && BackoffAfter(2) == 200 && BackoffAfter(3) == 400 && BackoffAfter(4) == 800
    ensures SleptAfter(5) == 1550 && forall retries: nat :: retries >= 5 ==> BackoffAfter(retries) == 1000
  {
    assert BackoffAfter(4) == 800;
    assert SleptAfter(3) == 350;
    forall retries: nat | retries >= 5 ensures BackoffAfter(retries) == 1000 {
      LongestPause(retries);
    }
  }

  lemma {:induction false} LongestPause(retries: nat)
    requires retries >= 5
    ensures BackoffAfter(retries) == 1000
  {
    if retries > 5 {
      LongestPause(retries - 1);
    } else {
      assert BackoffAfter(3) == 400;
    }
  }

  predicate CompletePolls(polls: seq<Poll>) {
    && polls != [] && polls[|polls| - 1].expired
    && forall k :: 0 <= k < |polls| && polls[k].attempts.Some? ==> Complete(polls[k].attempts.value)
  }

  class ProjectStore {
    var rows: seq<Row>
    var status: map<RunId, RunStatus>
    var aggregates: map<RunId, map<MetricKey, Aggregate>>
    var locks: map<RunId, Owner>
    ghost var acked: seq<nat>
    ghost var sealedBy: map<RunId, nat>
    ghost var raced: set<RunId>
    ghost var skewed: set<MetricPoint>

    constructor ()
      ensures State() == EMPTY_STORE
    {
      rows, status, aggregates, locks := [], map[], map[], map[];
      acked, sealedBy, raced, skewed := [], map[], {}, {};
    }

    ghost function State(): Store
      reads this
    {
      Store(rows, status, aggregates, locks, acked, sealedBy, raced, skewed)
    }

    /** Appends row by row; a fault strikes after some rows, or when the appender is flushed. */
    method AppendMetricBatch(writes: seq<Row>, fault: Option<nat>) returns (ok: bool)
      modifies `rows, `skewed
      ensures ok == fault.None?
      ensures State() == AppendRows(old(State()), if ok then writes else writes[..Min(fault.value, |writes|)])
    {
      var i := 0;
      while i < |writes| && fault != Some(i)
        invariant i <= |writes| && (fault.Some? ==> i <= fault.value)
        invariant rows == old(rows) + writes[..i]
        invariant skewed == old(skewed)
      {
        rows := rows + [writes[i]];
        i := i + 1;
      }
      skewed := skewed + NewlySkewed(old(rows), writes[..i]);
      assert fault.None? ==> writes[..i] == writes;
      ok := fault.None?;
    }

    /** Deletes the run's summaries, then inserts the ones of its effective points; either statement may fail. */
    method RebuildMetricAggregates(run: RunId, deleted: bool, inserted: bool) returns (ok: bool)
      modifies `aggregates
      ensures ok == (deleted && inserted)
      ensures aggregates == if !deleted then old(aggregates)
                            else if !inserted then old(aggregates) - {run}
                            else old(aggregates)[run := Summaries(rows, run)]
    {
      if !deleted {
        return false;
      }
      aggregates := aggregates - {run};
      if !inserted {
        return false;
      }
      aggregates := aggregates[run := Summaries(rows, run)];
      return true;
    }

    /** `UPDATE ... WHERE status = 'running'`. */
    method MarkRunTerminal(run: RunId, target: RunStatus, client: nat) returns (updated: bool)
      modifies `status, `sealedBy
      ensures updated == IsRunning(old(State()), run)
      ensures State() == if updated then Marked(client, old(State()), run, target) else old(State())
    {
      updated := run in status && status[run].Running?;
      if updated {
        status := status[run := target];
        sealedBy := sealedBy[run := client];
      }
    }
  }

  /** One client's reporter. `worker` is how far its worker thread has got; the ghost fields are its history. */
  class MetricReporter {
    const client: nat
    const capacity: nat
    const store: ProjectStore
    var senderOpen: bool
    var queue: seq<Report>
    var nextSequence: nat
    var pending: int
    var queueFull: nat
    var persisted: nat
    var through: nat
    var writer: WriterState
    var worker: Worker
    var nextStamp: int
    ghost var accepted: seq<Report>
    ghost var rowAt: seq<nat>
    ghost var lastNow: int
    ghost var monotone: bool
    ghost var clean: bool

    /** Opens the reporter; its worker reads the clock once and waits for reports. */
    constructor (client: nat, capacity: nat, store: ProjectStore, now: int)
      ensures this.client == client && this.capacity == capacity && this.store == store
      ensures Write() == NewClient(capacity).pipe.(worker := Receiving, nextStamp := now, lastNow := now)
    {
      this.client, this.capacity, this.store := client, capacity, store;
      senderOpen, queue, nextSequence, pending, queueFull, persisted, through, writer := true, [], 1, 0, 0, 0, 0, WriterRunning;
      worker, nextStamp := Receiving, now;
      accepted, rowAt, lastNow, monotone, clean := [], [], now, true, true;
    }

    function Shared(): Pipeline.Reporter
      reads this
    {
      Pipeline.Reporter(capacity, senderOpen, queue, nextSequence, pending, queueFull, persisted, through, writer)
    }

    ghost function Write(): Pipe
      reads this
    {
      Pipe(Shared(), Unlocked, worker, nextStamp, accepted, rowAt, lastNow, monotone, clean)
    }

    /** What every run of the step system keeps, between two operations. */
    ghost predicate Valid()
      reads this, store
    {
      && Counts(Write()) && RowsInv(client, Write(), store.State()) && TableInv(store.State())
      && (worker.Receiving? || worker.Exited?)
    }

    /** Everything accepted so far is stored. */
    ghost predicate AllStored()
      reads this, store
    {
      forall k :: 0 <= k < |accepted| ==> AckedBy(client, Write(), store.rows, k)
    }

    predicate Room()
      reads this
    {
      |queue| < capacity || (capacity == 0 && queue == [] && WaitsForReport(worker))
    }

    method TrySend(report: Report) returns (r: SendResult)
      modifies `queue, `accepted
      ensures r == if !ReceiverAlive(worker) then Disconnected else if !old(Room()) then Full else Sent
      ensures queue == if r.Sent? then old(queue) + [report] else old(queue)
      ensures accepted == if r.Sent? then old(accepted) + [report] else old(accepted)
    {
      if worker.Dropped? || worker.Exited? {
        return Disconnected;
      }
      if Room() {
        queue := queue + [report];
        accepted := accepted + [report];
        return Sent;
      }
      return Full;
    }

    method ReportMetric(run: RunId, key: MetricKey, step: int, value: Value, now: int) returns (e: Option<ReportError>)
      modifies this
      ensures (Write(), e) == Reported(old(Write()), run, key, step, value, now)
      ensures e.None? <==> accepted == old(accepted) + [Report(run, key, step, value, now, old(nextSequence))]
      ensures e.None? ==> queue == old(queue) + [Report(run, key, step, value, now, old(nextSequence))]
                          && pending == old(pending) + 1 && nextSequence == old(nextSequence) + 1 && queueFull == old(queueFull)
      ensures e.Some? ==> accepted == old(accepted) && queue == old(queue) && pending == old(pending) && nextSequence == old(nextSequence)
                          && writer == old(writer) && queueFull == old(queueFull) + (if e == Some(MetricQueueFull) then 1 else 0)
      ensures senderOpen == old(senderOpen) && worker == old(worker) && persisted == old(persisted) && through == old(through)
      ensures e == Some(ClientClosed) <==> !old(senderOpen) || (!old(writer).WriterFailed? && (old(worker).Dropped? || old(worker).Exited?))
      ensures e == Some(MetricWriterFailed) <==> old(senderOpen) && old(writer).WriterFailed?
      ensures e == Some(MetricQueueFull) <==> old(senderOpen) && !old(writer).WriterFailed? && !old(worker).Dropped? && !old(worker).Exited? && !old(Room())
      ensures capacity > 0 ==> (old(Room()) <==> |old(queue)| < capacity)
    {
      if !senderOpen {
        return Some(ClientClosed);
      }
      if writer.WriterFailed? {
        return Some(MetricWriterFailed);
      }
      var report := Report(run, key, step, value, now, nextSequence);
      pending := pending + 1;
      var sent := TrySend(report);
      match sent {
        case Sent =>
          nextSequence := nextSequence + 1;
          writer := WriterRunning;
          e := None;
        case Full =>
          pending := pending - 1;
          queueFull := queueFull + 1;
          e := Some(MetricQueueFull);
        case Disconnected =>
          pending := pending - 1;
          e := Some(ClientClosed);
      }
    }

    /** The sequence of the last accepted report. */
    method EnqueueBarrierSequence() returns (barrier: nat)
      ensures barrier == Barrier(Shared())
      ensures Valid() ==> barrier == |accepted|
    {
      barrier := if nextSequence == 0 then 0 else nextSequence - 1;
    }

    // ------------------------------------------------------------- worker thread

    /** Fills the batch from the queue, in order, until it is full or nothing is queued. */
    method CollectMetricBatch()
      requires worker.Receiving? && queue != []
      modifies `queue, `worker
      ensures Write() == Collected(old(Write()))
    {
      var batch := [queue[0]];
      queue := queue[1..];
      while |batch| < BATCH_MAX_REPORTS && queue != []
        invariant 1 <= |batch| <= BATCH_MAX_REPORTS && batch + queue == old(queue)
        decreases |queue|
      {
        batch := batch + [queue[0]];
        queue := queue[1..];
      }
      worker := Writing(batch, 0);
      assert batch == old(queue)[..|batch|] && queue == old(queue)[|batch|..];
    }

    /** Stamps the batch with consecutive milliseconds and appends it. */
    method WriteMetricBatch(batch: seq<Report>, attempt: Attempt) returns (r: Option<int>)
      modifies store`rows, store`skewed
      ensures r == if attempt.fault.None? then Some(Max(nextStamp, attempt.now) + |batch|) else None
      ensures store.State() == AppendRows(old(store.State()), RowsFor(client, if r.Some? then batch else batch[..Min(attempt.fault.value, |batch|)], Max(nextStamp, attempt.now)))
    {
      var rows := [];
      var base := Max(nextStamp, attempt.now);
      var ingestedAt := base;
      for i := 0 to |batch|
        invariant ingestedAt == base + i && rows == RowsFor(client, batch[..i], base)
      {
        rows := rows + [Row(client, batch[i], ingestedAt)];
        ingestedAt := ingestedAt + 1;
      }
      assert batch[..|batch|] == batch;
      var ok := store.AppendMetricBatch(rows, attempt.fault);
      if !ok {
        assert rows[..Min(attempt.fault.value, |batch|)] == RowsFor(client, batch[..Min(attempt.fault.value, |batch|)], base);
      }
      r := if ok then Some(ingestedAt) else None;
    }

    ghost method NoteClock(now: int)
      requires worker.Writing?
      modifies `lastNow, `monotone
      ensures Write() == ReadClock(old(Write()), now)
    {
      monotone, lastNow := monotone && lastNow <= now, now;
    }

    /** The batch that the appended rows acknowledge is no longer in hand. */
    method Acknowledge(batch: seq<Report>, next: int, now: int, ghost st: Store)
      requires worker.Writing? && worker.batch == batch && next == Max(nextStamp, now) + |batch|
      modifies this
      ensures Write() == Appended(client, old(Write()), st, now).0
    {
      NoteClock(now);
      rowAt := rowAt + Indices(|st.rows|, |batch|);
      nextStamp, writer, worker := next, WriterRunning, Counting(batch);
    }

    /** The writer is about to try again, or fails for good. */
    method RecordFailure(batch: seq<Report>, retryCount: nat, now: int, ghost committed: nat, ghost st: Store)
      requires worker == Writing(batch, retryCount) && committed <= |batch|
      modifies this
      ensures Write() == AppendFailed(client, old(Write()), st, now, committed).0
    {
      NoteClock(now);
      clean := clean && committed == 0;
      if retryCount < MAX_RETRIES {
        writer, worker := WriterRetrying, Writing(batch, retryCount + 1);
      } else {
        writer, worker := WriterFailed, Failing(batch);
      }
    }

    /** One attempt: the batch is acknowledged, or the writer is about to retry or to fail. */
    method AttemptWrite(batch: seq<Report>, retryCount: nat, attempt: Attempt) returns (ok: bool)
      requires worker == Writing(batch, retryCount)
      modifies this, store`rows, store`skewed, store`acked
      ensures ok == attempt.fault.None?
      ensures ok ==> Write() == Appended(client, old(Write()), old(store.State()), attempt.now).0
      ensures ok ==> store.State() == Appended(client, old(Write()), old(store.State()), attempt.now).1
      ensures !ok ==> Write() == AppendFailed(client, old(Write()), old(store.State()), attempt.now, Min(attempt.fault.value, |batch|)).0
      ensures !ok ==> store.State() == AppendFailed(client, old(Write()), old(store.State()), attempt.now, Min(attempt.fault.value, |batch|)).1
    {
      ghost var st := store.State();
      var next := WriteMetricBatch(batch, attempt);
      if next.Some? {
        Acknowledge(batch, next.value, attempt.now, st);
        store.acked := store.acked + Indices(|st.rows|, |batch|);
        return true;
      }
      RecordFailure(batch, retryCount, attempt.now, Min(attempt.fault.value, |batch|), st);
      return false;
    }

    /** Up to six attempts, with a doubling pause between them. */
    method RetryMetricBatchWrite(attempts: seq<Attempt>) returns (ok: bool, slept: nat)
      requires worker.Writing? && worker.retries == 0 && Complete(attempts)
      modifies this, store`rows, store`skewed, store`acked
      ensures (Write(), store.State()) == Tried(client, old(Write()), old(store.State()), attempts)
      ensures ok <==> worker.Counting?
      ensures !ok ==> slept == SleptAfter(MAX_RETRIES)
    {
      hide Appended, AppendFailed;
      var batch := worker.batch;
      ghost var done := Tried(client, Write(), store.State(), attempts);
      var retryCount, backoff := 0, INITIAL_RETRY_BACKOFF;
      slept := 0;
      while true
        invariant retryCount <= MAX_RETRIES && worker == Writing(batch, retryCount)
        invariant done == Tried(client, Write(), store.State(), attempts[retryCount..])
        invariant slept == SleptAfter(retryCount) && backoff == BackoffAfter(retryCount)
        decreases MAX_RETRIES - retryCount
      {
        ghost var p, st, left := Write(), store.State(), attempts[retryCount..];
        var attempt := attempts[retryCount];
        assert left[0] == attempt && left[1..] == attempts[retryCount + 1..];
        if attempt.fault.Some? {
          FailedAttempt(client, p, st, attempt.now, Min(attempt.fault.value, |batch|));
        } else {
          AppendedCounts(client, p, st, attempt.now);
        }
        ok := AttemptWrite(batch, retryCount, attempt);
        if ok || retryCount == MAX_RETRIES {
          return;
        }
        slept, backoff := slept + backoff, if backoff * 2 < MAX_RETRY_BACKOFF then backoff * 2 else MAX_RETRY_BACKOFF;
        retryCount := retryCount + 1;
      }
    }

    /** Counts the acknowledged batch, moves `persisted_through` and settles `pending`, in this order. */
    method SettleBatch()
      requires worker.Counting?
      modifies this
      ensures Write() == Acked(old(Write())) && worker.Receiving?
    {
      var batch := worker.batch;
      persisted := persisted + |batch|;
      if batch != [] {
        through := Max(through, batch[|batch| - 1].sequence);
      }
      pending := pending - |batch|;
      worker := Receiving;
    }

    /** The worker thread ends; the channel goes with its receiver. */
    method GiveUp()
      requires worker.Failing?
      modifies this
      ensures Write() == GivenUp(old(Write())) && worker.Exited? && worker.failed
    {
      queue := [];
      worker, writer := Exited(true, worker.batch), WriterFailed;
    }

    /** One pass of the worker loop. */
    method WorkerPass(attempts: seq<Attempt>) returns (ok: bool)
      requires Valid() && worker.Receiving? && queue != [] && Complete(attempts)
      modifies this, store`rows, store`skewed, store`acked
      ensures (Write(), store.State()) == Round(client, old(Write()), old(store.State()), attempts)
      ensures Valid() && Remains(old(Write())) && |queue| < |old(queue)|
      ensures if ok then worker.Receiving? else worker.Exited? && worker.failed
    {
      hide Counts, RowsInv, TableInv, Tried, Acked, GivenUp, Collected;
      ghost var p, st := Write(), store.State();
      PassKeeps(client, p, st, attempts);
      CollectMetricBatch();
      CollectedIsWriting(p);
      var slept;
      ok, slept := RetryMetricBatchWrite(attempts);
      if ok {
        SettleBatch();
      } else {
        GiveUp();
      }
    }

    /** The worker's loop: pass after pass, until the queue is empty or a batch cannot be written. */
    method MetricWorker(script: seq<seq<Attempt>>) returns (ok: bool)
      requires Valid() && worker.Receiving? && |queue| <= |script| && forall k :: 0 <= k < |script| ==> Complete(script[k])
      modifies this, store`rows, store`skewed, store`acked
      ensures Valid() && Remains(old(Write()))
      ensures ok ==> queue == [] && worker == if senderOpen then Receiving else Exited(false, [])
      ensures ok ==> AllStored() && pending == 0 && persisted == through == |accepted|
      ensures !ok ==> worker.Exited? && worker.failed && old(queue) != []
    {
      hide Counts, RowsInv, TableInv, Round;
      ghost var p := Write();
      var pass := 0;
      while queue != []
        invariant Valid() && worker.Receiving? && Remains(p)
        invariant pass + |queue| <= |script|
        decreases |queue|
      {
        ok := WorkerPass(script[pass]);
        if !ok {
          return;
        }
        pass := pass + 1;
      }
      EmptyQueueIsStored(client, Write(), store.State());
      if !senderOpen {
        HangupKeeps(client, Write(), store.State());
        worker := Exited(false, []);
        ThroughIsStored(client, Write(), store.State());
      }
      return true;
    }

    /** Waits until `persisted_through` reaches the barrier, the writer fails or the deadline passes. */
    method DrainThrough(barrier: nat, polls: seq<Poll>) returns (e: Option<DrainError>)
      requires Valid() && CompletePolls(polls) && barrier <= |accepted|
      modifies this, store`rows, store`skewed, store`acked
      ensures Valid() && Remains(old(Write()))
      ensures e.None? ==> barrier <= through && !writer.WriterFailed?
      ensures e.None? ==> forall k :: 0 <= k < barrier ==> AckedBy(client, Write(), store.rows, k)
      ensures e == Some(DrainTimeout) ==> through < barrier && !writer.WriterFailed?
      ensures e == Some(DrainFailed) ==> writer.WriterFailed?
    {
      hide Counts, RowsInv, TableInv, Round;
      ghost var p := Write();
      var k := 0;
      while through < barrier
        invariant Valid() && Remains(p) && k < |polls|
        decreases |polls| - k
      {
        if writer.WriterFailed? {
          return Some(DrainFailed);
        }
        if polls[k].expired {
          return Some(DrainTimeout);
        }
        if polls[k].attempts.Some? && worker.Receiving? && queue != [] {
          var ok := WorkerPass(polls[k].attempts.value);
        }
        k := k + 1;
      }
      if writer.WriterFailed? {
        return Some(DrainFailed);
      }
      ThroughIsStored(client, Write(), store.State());
      return None;
    }

    /** A drain that returns without error has everything stored that was accepted before it. */
    method Drain(polls: seq<Poll>) returns (e: Option<DrainError>)
      requires Valid() && CompletePolls(polls)
      modifies this, store`rows, store`skewed, store`acked
      ensures Valid() && Remains(old(Write()))
      ensures e.None? ==> AllStored() && pending == 0 && !writer.WriterFailed? && (worker.Receiving? ==> queue == [])
      ensures e == Some(DrainTimeout) ==> through < |accepted| && !writer.WriterFailed?
      ensures e == Some(DrainFailed) ==> writer.WriterFailed?
    {
      BarrierIsLast(Write());
      hide Counts, RowsInv, TableInv;
      var barrier := EnqueueBarrierSequence();
      e := DrainThrough(barrier, polls);
      ThroughIsStored(client, Write(), store.State());
    }

    /** Drops the sender and joins the worker, which first writes what is still queued. */
    method CloseAndJoin(script: seq<seq<Attempt>>)
      requires Valid() && |queue| <= |script| && forall k :: 0 <= k < |script| ==> Complete(script[k])
      modifies this, store`rows, store`skewed, store`acked
      ensures Valid() && accepted == old(accepted) && !senderOpen && worker.Exited?
      ensures old(pending) == 0 ==> pending == 0
    {
      hide Counts, RowsInv, TableInv;
      ThroughIsStored(client, Write(), store.State());
      SwitchKeeps(client, Write(), store.State(), false, writer);
      senderOpen := false;
      if worker.Receiving? {
        var ok := MetricWorker(script);
      }
    }

    /**
      Drains, and unless that timed out, closes the channel and joins the worker.
      When nobody logs in between, success means that nothing is pending.
     */
    method Shutdown(polls: seq<Poll>, script: seq<seq<Attempt>>) returns (e: Option<DrainError>)
      requires Valid() && CompletePolls(polls) && |queue| <= |script| && forall k :: 0 <= k < |script| ==> Complete(script[k])
      modifies this, store`rows, store`skewed, store`acked
      ensures Valid() && accepted == old(accepted)
      ensures e == Some(DrainTimeout) ==> senderOpen == old(senderOpen)
      ensures e != Some(DrainTimeout) ==> !senderOpen && worker.Exited?
      ensures e.None? ==> AllStored() && pending == 0 && writer.WriterClosed?
    {
      hide Counts, RowsInv, TableInv, AckedBy;
      e := Drain(polls);
      if e == Some(DrainTimeout) {
        return;
      }
      CloseAndJoin(script);
      if e.None? {
        SwitchKeeps(client, Write(), store.State(), senderOpen, WriterClosed);
        writer := WriterClosed;
        ThroughIsStored(client, Write(), store.State());
      }
    }

    /** What the worker leaves alone. */
    ghost predicate Remains(p: Pipe)
      reads this
    {
      && accepted == p.accepted && nextSequence == p.reporter.nextSequence && |queue| <= |p.reporter.queue|
      && senderOpen == p.reporter.senderOpen && queueFull == p.reporter.queueFull
    }
  }

  lemma CollectedIsWriting(p: Pipe)
    ensures Collected(p).worker.Writing? && Collected(p).worker.retries == 0
  {
  }

  lemma AppendedCounts(i: nat, p: Pipe, st: Store, now: int)
    requires p.worker.Writing?
    ensures Appended(i, p, st, now).0.worker == Counting(p.worker.batch)
  {
  }

  lemma EmptyQueueIsStored(i: nat, p: Pipe, st: Store)
    requires Counts(p) && RowsInv(i, p, st) && p.sender.Unlocked? && p.worker.Receiving? && p.reporter.queue == []
    ensures forall k :: 0 <= k < |p.accepted| ==> AckedBy(i, p, st.rows, k)
    ensures p.reporter.pending == 0 && p.reporter.persisted == p.reporter.through == |p.accepted|
  {
  }

  lemma ThroughIsStored(i: nat, p: Pipe, st: Store)
    requires Counts(p) && RowsInv(i, p, st) && p.sender.Unlocked? && (p.worker.Receiving? || p.worker.Exited?)
    ensures forall k :: 0 <= k < |p.accepted| && k < p.reporter.through ==> AckedBy(i, p, st.rows, k)
    ensures p.reporter.through <= |p.accepted| && p.reporter.pending == |p.accepted| - p.reporter.through
    ensures p.worker.Receiving? && p.reporter.through == |p.accepted| ==> p.reporter.queue == []
  {
  }

  lemma BarrierIsLast(p: Pipe)
    requires Counts(p) && p.sender.Unlocked?
    ensures Barrier(p.reporter) == |p.accepted|
  {
  }

  /** Closing the channel and setting the writer state disturb nothing that is counted or stored. */
  lemma SwitchKeeps(i: nat, p: Pipe, st: Store, senderOpen: bool, writer: WriterState)
    requires Counts(p) && RowsInv(i, p, st) && p.sender.Unlocked? && (senderOpen ==> p.reporter.senderOpen)
    ensures var p' := p.(reporter := p.reporter.(senderOpen := senderOpen, writer := writer)); Counts(p') && RowsInv(i, p', st)
  {
    hide RowsInv, InOrderOfAcceptance, Numbered;
    var p' := p.(reporter := p.reporter.(senderOpen := senderOpen, writer := writer));
    SameStoredKeepsRows(i, p, st, p');
  }

  lemma HangupKeeps(i: nat, p: Pipe, st: Store)
    requires Counts(p) && RowsInv(i, p, st) && p.worker.Receiving? && p.reporter.queue == [] && !p.reporter.senderOpen
    ensures var p' := p.(worker := Exited(false, [])); Counts(p') && RowsInv(i, p', st)
  {
    hide Counts, RowsInv;
    var p' := p.(worker := Exited(false, []));
    WorkerKeepsCounts(i, p, st, Hangup, p', st);
    WorkerKeepsRows(i, p, st, Hangup, p', st);
  }

  predicate Undisturbed(p: Pipe, p': Pipe) {
    && p'.accepted == p.accepted && p'.sender == p.sender
    && p'.reporter.nextSequence == p.reporter.nextSequence && p'.reporter.senderOpen == p.reporter.senderOpen
    && p'.reporter.queueFull == p.reporter.queueFull && p'.reporter.capacity == p.reporter.capacity
    && |p'.reporter.queue| <= |p.reporter.queue|
  }

  lemma PassKeeps(i: nat, p: Pipe, st: Store, attempts: seq<Attempt>)
    requires Counts(p) && RowsInv(i, p, st) && TableInv(st)
    requires p.worker.Receiving? && p.reporter.queue != [] && Complete(attempts)
    ensures var (p', st') := Round(i, p, st, attempts);
            && Counts(p') && RowsInv(i, p', st') && TableInv(st') && Undisturbed(p, p')
            && |p'.reporter.queue| < |p.reporter.queue| && (p'.worker.Receiving? || p'.worker.Exited?)
  {
    hide Counts, RowsInv, TableInv;
    var events := RoundIsSteps(i, p, st, attempts);
    var (p', st') := Round(i, p, st, attempts);
    WorkerRunKeeps(i, p, st, events, p', st');
    TriedUndisturbed(i, Collected(p), st, attempts);
  }

  lemma {:induction false} TriedUndisturbed(i: nat, p: Pipe, st: Store, attempts: seq<Attempt>)
    requires p.worker.Writing? && p.worker.retries + |attempts| == MAX_RETRIES + 1 && attempts != []
    ensures var p' := Tried(i, p, st, attempts).0; Undisturbed(p, p') && p'.reporter.queue == p.reporter.queue
    decreases |attempts|
  {
    if attempts[0].fault.Some? {
      var (p', st') := AppendFailed(i, p, st, attempts[0].now, Min(attempts[0].fault.value, |p.worker.batch|));
      if !p'.worker.Failing? {
        TriedUndisturbed(i, p', st', attempts[1..]);
      }
    }
  }
}
