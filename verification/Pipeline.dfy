/**
  The metric write path and run finalization as a step system.

  A system is any number of writer clients over one project store. Every client
  has any number of logging threads, one background worker and one control
  thread. One step is one atomic action of one of them: a mutex section, one
  channel operation, one storage statement. Clock readings, append failures,
  timeouts and scheduling are chosen by the environment, through the events.

  Logging threads are represented by what they hold: at most one of them is
  inside a run's admission gate, and at most one holds the sender lock.
 */
module Pipeline {
  import opened Values
  import opened Metrics

  const BATCH_MAX_REPORTS: nat := 8192
  const MAX_RETRIES: nat := 5

  datatype Admission = Open | Closing | Terminal

  /** The admission mutex: a thread that found the gate open stays inside it while it reports. */
  datatype Gate = Free | Held(key: MetricKey, step: int, value: Value)

  datatype ActiveRun = ActiveRun(run: RunId, admission: Admission, published: bool, gate: Gate)

  /** The sender mutex, and how far its holder got in `report_metric`. */
  datatype SenderLock = Unlocked | Stamped(obj: nat, report: Report) | Pushed(obj: nat)

  datatype WriterState = WriterRunning | WriterRetrying | WriterFailed | WriterClosed

  datatype Worker =
    | Starting
    | Receiving
    | Collecting(batch: seq<Report>)
    | Writing(batch: seq<Report>, retries: nat)
    | Counting(batch: seq<Report>)
    | Marking(batch: seq<Report>)
    | Settling(batch: seq<Report>)
    | Failing(batch: seq<Report>)
    | Dropped(batch: seq<Report>)
    | Exited(failed: bool, batch: seq<Report>)

  datatype Phase =
    | Close
    | TakeBarrier
    | Drain(barrier: nat)
    | Check(barrier: nat)
    | DeleteAggregates
    | InsertAggregates
    | MarkTerminal
    | Reopen
    | Seal
    | Release
    | Forget

  datatype Control =
    | Idle
    | CreateAcquire(run: RunId)
    | CreateInsert(run: RunId, obj: nat)
    | ResumeAcquire(run: RunId)
    | FinalizeAcquire(run: RunId, target: RunStatus)
    | Finalizing(run: RunId, obj: nat, target: RunStatus, phase: Phase)
    | ShutdownDrain(barrier: nat)
    | ShutdownCheck
    | ShutdownTake(drained: bool)
    | ShutdownJoin(drained: bool)

  /** The reporter's shared state: sender slot, channel, and diagnostics. */
  datatype Reporter = Reporter(
    capacity: nat, senderOpen: bool, queue: seq<Report>, nextSequence: nat,
    pending: int, queueFull: nat, persisted: nat, through: nat, writer: WriterState)

  /**
    The write side of one client. The last five fields are history: every
    report that entered the queue, the row that acknowledged each stored one,
    and how the clock and the failed appends behaved so far.
   */
  datatype Pipe = Pipe(
    reporter: Reporter, sender: SenderLock, worker: Worker, nextStamp: int,
    accepted: seq<Report>, rowAt: seq<nat>, lastNow: int, monotone: bool, clean: bool)

  /** The control side of one client: its active runs and its control thread. */
  datatype Runs = Runs(objs: seq<ActiveRun>, active: map<RunId, nat>, control: Control, shutdown: bool)

  datatype Client = Client(alive: bool, pipe: Pipe, runs: Runs)

  datatype Owner = Owner(client: nat, obj: nat)

  /**
    The project store and the run-writer lock files. The last four fields are
    history: acknowledged rows in order, who sealed a run, runs whose lock a
    resume or a finalization acquired after they had become terminal, and points
    that got a row stamped before a row of an earlier owner.
   */
  datatype Store = Store(
    rows: seq<Row>, status: map<RunId, RunStatus>, aggregates: map<RunId, map<MetricKey, Aggregate>>,
    locks: map<RunId, Owner>,
    acked: seq<nat>, sealedBy: map<RunId, nat>, raced: set<RunId>, skewed: set<MetricPoint>)

  datatype System = System(clients: seq<Client>, store: Store)

  datatype LoggerEvent =
    | Enter(obj: nat, key: MetricKey, step: int, value: Value)
    | Leave(obj: nat)
    | Stamp(obj: nat, now: int)
    | Push
    | RefuseFull
    | RefuseDisconnected
    | Finish

  datatype WorkerEvent =
    | Start(now: int)
    | TakeFirst
    | TakeMore
    | StopCollecting
    | Append(now: int)
    | AppendError(now: int, committed: nat)
    | CountPersisted
    | MarkThrough
    | SettlePending
    | DropReceiver
    | Die
    | Hangup

  datatype ControlEvent =
    | RunHandle(run: RunId)
    | BeginCreate(run: RunId)
    | BeginResume(run: RunId)
    | BeginFinalize(run: RunId, target: RunStatus)
    | AcquireError
    | Acquire
    | InsertRun
    | InsertError(committed: bool)
    | Advance
    | Fail
    | MarkError(committed: bool)
    | BeginShutdown
    | Crash

  datatype Event =
    | OpenClient(capacity: nat)
    | Logger(client: nat, logger: LoggerEvent)
    | Work(client: nat, work: WorkerEvent)
    | Command(client: nat, command: ControlEvent)

  // ---------------------------------------------------------------- clients

  function NewClient(capacity: nat): Client {
    Client(true,
           Pipe(Reporter(capacity, true, [], 1, 0, 0, 0, 0, WriterRunning), Unlocked, Starting, 0, [], [], 0, true, true),
           Runs([], map[], Idle, false))
  }

  const EMPTY_STORE := Store([], map[], map[], map[], [], map[], {}, {})

  const INITIAL := System([], EMPTY_STORE)

  predicate ReceiverAlive(w: Worker) {
    !w.Dropped? && !w.Exited?
  }

  /** The batch the worker holds and has not yet had acknowledged. */
  function InHand(w: Worker): seq<Report> {
    if w.Collecting? || w.Writing? || w.Failing? || w.Dropped? || w.Exited? then w.batch else []
  }

  /** The batch that is acknowledged but not yet reflected in every counter. */
  function Acknowledged(w: Worker): seq<Report> {
    if w.Counting? || w.Marking? || w.Settling? then w.batch else []
  }

  /** The worker may still append what it holds or what is queued. */
  predicate MayAppend(w: Worker) {
    !w.Failing? && !w.Dropped? && !w.Exited?
  }

  function Max(a: int, b: int): int {
    if a < b then b else a
  }

  // ------------------------------------------------------------ logging threads

  /** `report_metric` up to the send: refuse, or stamp the report and count it pending. */
  function Stamping(r: Reporter, run: RunId, gate: Gate, now: int): Option<(Reporter, Report)>
    requires gate.Held?
  {
    if !r.senderOpen || r.writer.WriterFailed? then None
    else Some((r.(pending := r.pending + 1), Report(run, gate.key, gate.step, gate.value, now, r.nextSequence)))
  }

  /** A channel without capacity hands a report over while the worker waits for one, the first or a further one of a batch. */
  predicate HasRoom(p: Pipe) {
    |p.reporter.queue| < p.reporter.capacity || (p.reporter.capacity == 0 && p.reporter.queue == [] && WaitsForReport(p.worker))
  }

  predicate WaitsForReport(w: Worker) {
    w.Receiving? || (w.Collecting? && |w.batch| < BATCH_MAX_REPORTS)
  }

  /** A channel without capacity also refuses when the worker is not waiting yet. */
  predicate MayRefuse(p: Pipe) {
    !HasRoom(p) || p.reporter.capacity == 0
  }

  function SetGate(runs: Runs, o: nat, gate: Gate): Runs
    requires o < |runs.objs|
  {
    runs.(objs := runs.objs[o := runs.objs[o].(gate := gate)])
  }

  function LoggerStep(p: Pipe, runs: Runs, e: LoggerEvent): Option<(Pipe, Runs)> {
    match e
    case Enter(o, key, step, value) =>
      if o < |runs.objs| && runs.objs[o].published && runs.objs[o].admission.Open? && runs.objs[o].gate.Free?
      then Some((p, SetGate(runs, o, Held(key, step, value)))) else None
    case Leave(o) =>
      if o < |runs.objs| && runs.objs[o].gate.Held? && p.sender.Unlocked? && (!p.reporter.senderOpen || p.reporter.writer.WriterFailed?)
      then Some((p, SetGate(runs, o, Free))) else None
    case Stamp(o, now) =>
      if o < |runs.objs| && runs.objs[o].gate.Held? && p.sender.Unlocked? then
        match Stamping(p.reporter, runs.objs[o].run, runs.objs[o].gate, now)
        case None => None
        case Some((r, report)) => Some((p.(reporter := r, sender := Stamped(o, report)), runs))
      else None
    case Push =>
      if p.sender.Stamped? && ReceiverAlive(p.worker) && HasRoom(p)
      then Some((p.(reporter := p.reporter.(queue := p.reporter.queue + [p.sender.report]),
                    accepted := p.accepted + [p.sender.report], sender := Pushed(p.sender.obj)), runs))
      else None
    case RefuseFull =>
      if p.sender.Stamped? && p.sender.obj < |runs.objs| && ReceiverAlive(p.worker) && MayRefuse(p)
      then Some((p.(reporter := p.reporter.(pending := p.reporter.pending - 1, queueFull := p.reporter.queueFull + 1), sender := Unlocked),
                 SetGate(runs, p.sender.obj, Free)))
      else None
    case RefuseDisconnected =>
      if p.sender.Stamped? && p.sender.obj < |runs.objs| && !ReceiverAlive(p.worker)
      then Some((p.(reporter := p.reporter.(pending := p.reporter.pending - 1), sender := Unlocked), SetGate(runs, p.sender.obj, Free)))
      else None
    case Finish =>
      if p.sender.Pushed? && p.sender.obj < |runs.objs|
      then Some((p.(reporter := p.reporter.(nextSequence := p.reporter.nextSequence + 1, writer := WriterRunning), sender := Unlocked),
                 SetGate(runs, p.sender.obj, Free)))
      else None
  }

  // ----------------------------------------------------------------- worker

  /** The rows of one append: consecutive stamps from `base`, in batch order. */
  function RowsFor(client: nat, batch: seq<Report>, base: int): (rows: seq<Row>)
    ensures |rows| == |batch|
    ensures forall j :: 0 <= j < |batch| ==> rows[j] == Row(client, batch[j], base + j)
  {
    seq(|batch|, j requires 0 <= j < |batch| => Row(client, batch[j], base + j))
  }

  function Indices(from: nat, count: nat): (s: seq<nat>)
    ensures |s| == count && forall j :: 0 <= j < count ==> s[j] == from + j
  {
    seq(count, j requires 0 <= j < count => from + j)
  }

  /** Points for which `more` holds a row stamped before a row another client stored earlier. */
  function NewlySkewed(rows: seq<Row>, more: seq<Row>): set<MetricPoint> {
    set b, a | 0 <= b < |more| && 0 <= a < |rows|
               && SamePoint(rows[a].report, more[b].report) && rows[a].client != more[b].client
               && more[b].ingestedAt < rows[a].ingestedAt
      :: PointOf(more[b].report)
  }

  function AppendRows(st: Store, more: seq<Row>): Store {
    st.(rows := st.rows + more, skewed := st.skewed + NewlySkewed(st.rows, more))
  }

  function ReadClock(p: Pipe, now: int): Pipe {
    p.(lastNow := now, monotone := p.monotone && (p.worker.Starting? || p.lastNow <= now))
  }

  /** A successful append acknowledges the whole batch. */
  function Appended(i: nat, p: Pipe, st: Store, now: int): (Pipe, Store)
    requires p.worker.Writing?
  {
    var batch := p.worker.batch;
    var base := Max(p.nextStamp, now);
    var acks := Indices(|st.rows|, |batch|);
    (ReadClock(p, now).(worker := Counting(batch), nextStamp := base + |batch|, rowAt := p.rowAt + acks,
                        reporter := p.reporter.(writer := WriterRunning)),
     AppendRows(st, RowsFor(i, batch, base)).(acked := st.acked + acks))
  }

  /** A failed append may still have committed a prefix of its rows. */
  function AppendFailed(i: nat, p: Pipe, st: Store, now: int, committed: nat): (Pipe, Store)
    requires p.worker.Writing? && committed <= |p.worker.batch|
  {
    var batch := p.worker.batch;
    var again := p.worker.retries < MAX_RETRIES;
    (ReadClock(p, now).(worker := if again then Writing(batch, p.worker.retries + 1) else Failing(batch),
                        clean := p.clean && committed == 0,
                        reporter := p.reporter.(writer := if again then WriterRetrying else WriterFailed)),
     AppendRows(st, RowsFor(i, batch[..committed], Max(p.nextStamp, now))))
  }

  function WorkerStep(i: nat, p: Pipe, st: Store, e: WorkerEvent): Option<(Pipe, Store)> {
    match e
    case Start(now) =>
      if p.worker.Starting? then Some((ReadClock(p, now).(worker := Receiving, nextStamp := now), st)) else None
    case TakeFirst =>
      if p.worker.Receiving? && p.reporter.queue != []
      then Some((p.(worker := Collecting([p.reporter.queue[0]]), reporter := p.reporter.(queue := p.reporter.queue[1..])), st))
      else None
    case TakeMore =>
      if p.worker.Collecting? && |p.worker.batch| < BATCH_MAX_REPORTS && p.reporter.queue != []
      then Some((p.(worker := Collecting(p.worker.batch + [p.reporter.queue[0]]), reporter := p.reporter.(queue := p.reporter.queue[1..])), st))
      else None
    case StopCollecting =>
      if p.worker.Collecting? && (|p.worker.batch| >= BATCH_MAX_REPORTS || p.reporter.queue == [])
      then Some((p.(worker := Writing(p.worker.batch, 0)), st))
      else None
    case Append(now) =>
      if p.worker.Writing? then Some(Appended(i, p, st, now)) else None
    case AppendError(now, committed) =>
      if p.worker.Writing? && committed <= |p.worker.batch| then Some(AppendFailed(i, p, st, now, committed)) else None
    case CountPersisted =>
      if p.worker.Counting?
      then Some((p.(worker := Marking(p.worker.batch), reporter := p.reporter.(persisted := p.reporter.persisted + |p.worker.batch|)), st))
      else None
    case MarkThrough =>
      if p.worker.Marking? then
        var batch := p.worker.batch;
        var through := if batch == [] then p.reporter.through else Max(p.reporter.through, batch[|batch| - 1].sequence);
        Some((p.(worker := Settling(batch), reporter := p.reporter.(through := through)), st))
      else None
    case SettlePending =>
      if p.worker.Settling?
      then Some((p.(worker := Receiving, reporter := p.reporter.(pending := p.reporter.pending - |p.worker.batch|)), st))
      else None
    case DropReceiver =>
      if p.worker.Failing? then Some((p.(worker := Dropped(p.worker.batch), reporter := p.reporter.(queue := [])), st)) else None
    case Die =>
      if p.worker.Dropped? then Some((p.(worker := Exited(true, p.worker.batch), reporter := p.reporter.(writer := WriterFailed)), st)) else None
    case Hangup =>
      if p.worker.Receiving? && p.reporter.queue == [] && !p.reporter.senderOpen
      then Some((p.(worker := Exited(false, [])), st)) else None
  }

  // ----------------------------------------------------------------- control thread

  predicate Holds(st: Store, i: nat, run: RunId, o: nat) {
    run in st.locks && st.locks[run] == Owner(i, o)
  }

  predicate OwnedBy(st: Store, i: nat, run: RunId) {
    run in st.locks && st.locks[run].client == i
  }

  predicate IsRunning(st: Store, run: RunId) {
    run in st.status && st.status[run].Running?
  }

  predicate IsTerminal(st: Store, run: RunId) {
    run in st.status && !st.status[run].Running?
  }

  function Unlock(st: Store, i: nat, run: RunId): Store {
    if OwnedBy(st, i, run) then st.(locks := st.locks - {run}) else st
  }

  function UnlockAll(st: Store, i: nat): Store {
    st.(locks := map run | run in st.locks && st.locks[run].client != i :: st.locks[run])
  }

  function SetAdmission(runs: Runs, o: nat, admission: Admission): Runs
    requires o < |runs.objs|
  {
    runs.(objs := runs.objs[o := runs.objs[o].(admission := admission)])
  }

  /** `acquire_run_writer`: reuse the active run, or take the lock file and open a new one. */
  function Acquiring(i: nat, runs: Runs, st: Store, run: RunId): Option<(Runs, Store, nat)> {
    if run in runs.active then Some((runs, st, runs.active[run]))
    else if run in st.locks then None
    else
      var o := |runs.objs|;
      Some((runs.(objs := runs.objs + [ActiveRun(run, Open, false, Free)], active := runs.active[run := o]),
            st.(locks := st.locks[run := Owner(i, o)],
                raced := if IsTerminal(st, run) && !runs.control.CreateAcquire? then st.raced + {run} else st.raced),
            o))
  }

  function AcquireStep(i: nat, runs: Runs, st: Store): Option<(Runs, Store)> {
    if runs.control.CreateAcquire? || runs.control.ResumeAcquire? || runs.control.FinalizeAcquire? then
      match Acquiring(i, runs, st, runs.control.run)
      case None => None
      case Some((runs', st', o)) =>
        var control := match runs.control
          case CreateAcquire(run) => CreateInsert(run, o)
          case FinalizeAcquire(run, target) => Finalizing(run, o, target, Close)
          case _ => Idle;
        Some((runs'.(control := control), st'))
    else None
  }

  function InsertRunStep(runs: Runs, st: Store): Option<(Runs, Store)> {
    if !runs.control.CreateInsert? || runs.control.run in st.status then None
    else Some((runs.(control := Idle), Inserted(st, runs.control.run)))
  }

  function Inserted(st: Store, run: RunId): Store {
    st.(status := st.status[run := Running])
  }

  /** The insert reports an error, whether or not the row was committed, and the lock is given back. */
  function InsertErrorStep(i: nat, runs: Runs, st: Store, committed: bool): Option<(Runs, Store)> {
    if !runs.control.CreateInsert? then None
    else
      var run := runs.control.run;
      var st' := if committed && run !in st.status then Inserted(st, run) else st;
      Some((runs.(control := Idle, active := runs.active - {run}), Unlock(st', i, run)))
  }

  function AtPhase(runs: Runs, phase: Phase): Runs
    requires runs.control.Finalizing?
  {
    runs.(control := runs.control.(phase := phase))
  }

  function Marked(i: nat, st: Store, run: RunId, target: RunStatus): Store {
    st.(status := st.status[run := target], sealedBy := st.sealedBy[run := i])
  }

  /** `enqueue_barrier_sequence`. */
  function Barrier(r: Reporter): nat {
    if r.nextSequence == 0 then 0 else r.nextSequence - 1
  }

  /** The phases of `finalize_run` that touch admission and the reporter. */
  function GateStep(p: Pipe, runs: Runs): Option<Runs>
    requires runs.control.Finalizing?
  {
    var o := runs.control.obj;
    if o >= |runs.objs| then None else
    match runs.control.phase
    case Close => if runs.objs[o].gate.Free? then Some(AtPhase(SetAdmission(runs, o, Closing), TakeBarrier)) else None
    case TakeBarrier => if p.sender.Unlocked? then Some(AtPhase(runs, Drain(Barrier(p.reporter)))) else None
    case Drain(barrier) => if p.reporter.through >= barrier then Some(AtPhase(runs, Check(barrier))) else None
    case Check(_) => if !p.reporter.writer.WriterFailed? then Some(AtPhase(runs, DeleteAggregates)) else None
    case Reopen => if runs.objs[o].gate.Free? then Some(SetAdmission(runs, o, Open).(control := Idle)) else None
    case Seal => if runs.objs[o].gate.Free? then Some(AtPhase(SetAdmission(runs, o, Terminal), Release)) else None
    case Forget => Some(runs.(control := Idle, active := runs.active - {runs.control.run}))
    case _ => None
  }

  /** The phases of `finalize_run` that touch the store. */
  function StoreStep(i: nat, runs: Runs, st: Store): Option<(Runs, Store)>
    requires runs.control.Finalizing?
  {
    var run := runs.control.run;
    match runs.control.phase
    case DeleteAggregates =>
      Some((AtPhase(runs, InsertAggregates), st.(aggregates := st.aggregates - {run})))
    case InsertAggregates =>
      Some((AtPhase(runs, MarkTerminal), st.(aggregates := st.aggregates[run := Summaries(st.rows, run)])))
    case MarkTerminal =>
      if IsRunning(st, run)
      then Some((AtPhase(runs, Seal), Marked(i, st, run, runs.control.target)))
      else Some((AtPhase(runs, Reopen), st))
    case Release =>
      Some((AtPhase(runs, Forget), Unlock(st, i, run)))
    case _ => None
  }

  predicate InStore(phase: Phase) {
    phase.DeleteAggregates? || phase.InsertAggregates? || phase.MarkTerminal? || phase.Release?
  }

  /** One successful step of `finalize_run`. */
  function FinalizeStep(i: nat, p: Pipe, runs: Runs, st: Store): Option<(Runs, Store)>
    requires runs.control.Finalizing?
  {
    if InStore(runs.control.phase) then StoreStep(i, runs, st)
    else match GateStep(p, runs) case None => None case Some(runs') => Some((runs', st))
  }

  /** One successful step of `shutdown`. */
  function ShutdownStep(i: nat, c: Client, st: Store): Option<(Client, Store)> {
    var p, runs := c.pipe, c.runs;
    match runs.control
    case ShutdownDrain(barrier) =>
      if p.reporter.through >= barrier then Some((c.(runs := runs.(control := ShutdownCheck)), st)) else None
    case ShutdownCheck =>
      Some((c.(runs := runs.(control := ShutdownTake(!p.reporter.writer.WriterFailed?))), st))
    case ShutdownTake(drained) =>
      if p.sender.Unlocked?
      then Some((c.(runs := runs.(control := ShutdownJoin(drained)), pipe := p.(reporter := p.reporter.(senderOpen := false))), st)) else None
    case ShutdownJoin(drained) =>
      if p.worker.Exited?
      then Some((c.(runs := runs.(control := Idle, active := map[], shutdown := runs.shutdown || drained),
                    pipe := p.(reporter := p.reporter.(writer := if drained then WriterClosed else p.reporter.writer))),
                 UnlockAll(st, i)))
      else None
    case _ => None
  }

  /** The drain fails or times out, or an aggregate statement fails: admission is reopened. */
  predicate MayFail(phase: Phase, writer: WriterState) {
    phase.Drain? || (phase.Check? && writer.WriterFailed?) || phase.DeleteAggregates? || phase.InsertAggregates?
  }

  function FailStep(p: Pipe, runs: Runs): Option<Runs> {
    match runs.control
    case Finalizing(_, _, _, phase) => if MayFail(phase, p.reporter.writer) then Some(AtPhase(runs, Reopen)) else None
    case ShutdownDrain(_) =>
      // A failed writer ends the drain; a timeout leaves the client as it was.
      Some(runs.(control := if p.reporter.writer.WriterFailed? then ShutdownTake(false) else Idle))
    case _ => None
  }

  /** `mark_run_terminal` reports an error, whether or not the update was committed. */
  function MarkErrorStep(i: nat, runs: Runs, st: Store, committed: bool): Option<(Runs, Store)> {
    if runs.control.Finalizing? && runs.control.phase.MarkTerminal?
    then Some((runs.(control := Idle),
               if committed && IsRunning(st, runs.control.run) then Marked(i, st, runs.control.run, runs.control.target) else st))
    else None
  }

  /** The control thread picks its next operation, after reading what that operation reads first. */
  function BeginStep(p: Pipe, runs: Runs, st: Store, e: ControlEvent): Option<Runs> {
    if !runs.control.Idle? then None else
    match e
    case RunHandle(run) =>
      if run in runs.active && runs.active[run] < |runs.objs|
      then Some(runs.(objs := runs.objs[runs.active[run] := runs.objs[runs.active[run]].(published := true)])) else None
    case BeginCreate(run) =>
      if !runs.shutdown && run !in st.status then Some(runs.(control := CreateAcquire(run))) else None
    case BeginResume(run) =>
      if !runs.shutdown && IsRunning(st, run) then Some(runs.(control := ResumeAcquire(run))) else None
    case BeginFinalize(run, target) =>
      if !runs.shutdown && !target.Running? && IsRunning(st, run) then Some(runs.(control := FinalizeAcquire(run, target))) else None
    case BeginShutdown =>
      if p.sender.Unlocked? then Some(runs.(control := ShutdownDrain(Barrier(p.reporter)))) else None
    case _ => None
  }

  /** The control steps that leave the write side alone. */
  function RunsStep(i: nat, p: Pipe, runs: Runs, st: Store, e: ControlEvent): Option<(Runs, Store)> {
    match e
    case AcquireError =>
      if runs.control.CreateAcquire? || runs.control.ResumeAcquire? || runs.control.FinalizeAcquire?
      then Some((runs.(control := Idle), st)) else None
    case Acquire => AcquireStep(i, runs, st)
    case InsertRun => InsertRunStep(runs, st)
    case InsertError(committed) => InsertErrorStep(i, runs, st, committed)
    case Advance => if runs.control.Finalizing? then FinalizeStep(i, p, runs, st) else None
    case Fail => (match FailStep(p, runs) case None => None case Some(runs') => Some((runs', st)))
    case MarkError(committed) => MarkErrorStep(i, runs, st, committed)
    case _ => (match BeginStep(p, runs, st, e) case None => None case Some(runs') => Some((runs', st)))
  }

  function ControlStep(i: nat, c: Client, st: Store, e: ControlEvent): Option<(Client, Store)> {
    if e.Crash? then
      // The operating system releases the advisory locks of an ended process.
      Some((c.(alive := false, runs := c.runs.(active := map[], control := Idle)), UnlockAll(st, i)))
    else if e.Advance? && !c.runs.control.Finalizing? then ShutdownStep(i, c, st)
    else
      match RunsStep(i, c.pipe, c.runs, st, e)
      case None => None
      case Some((runs, st')) => Some((c.(runs := runs), st'))
  }

  // ----------------------------------------------------------------- system

  function ClientStep(i: nat, c: Client, st: Store, e: Event): Option<(Client, Store)> {
    match e
    case OpenClient(_) => None
    case Logger(_, logger) =>
      (match LoggerStep(c.pipe, c.runs, logger) case None => None case Some((p, runs)) => Some((c.(pipe := p, runs := runs), st)))
    case Work(_, work) =>
      (match WorkerStep(i, c.pipe, st, work) case None => None case Some((p, st')) => Some((c.(pipe := p), st')))
    case Command(_, command) => ControlStep(i, c, st, command)
  }

  /** The system after an event, or None when the event is not enabled. */
  function Apply(s: System, e: Event): Option<System> {
    if e.OpenClient? then Some(s.(clients := s.clients + [NewClient(e.capacity)]))
    else if e.client >= |s.clients| || !s.clients[e.client].alive then None
    else
      match ClientStep(e.client, s.clients[e.client], s.store, e)
      case None => None
      case Some((c, st)) => Some(System(s.clients[e.client := c], st))
  }

  /** The system after a whole run of events. */
  function Run(s: System, events: seq<Event>): Option<System>
    decreases |events|
  {
    if events == [] then Some(s)
    else match Apply(s, events[0])
      case None => None
      case Some(s') => Run(s', events[1..])
  }

  /** Some run of events leads from the first system to the second. */
  ghost predicate Leads(s: System, s': System) {
    exists events :: Run(s, events) == Some(s')
  }

  ghost predicate Reachable(s: System) {
    Leads(INITIAL, s)
  }
}
