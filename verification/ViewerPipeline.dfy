/**
  The viewer's read pipeline: the user interface submits tagged requests, a
  background worker coalesces and executes them, and the interface applies the
  events. One step is one action of either side; what a query returns is chosen
  by the environment.
 */
module ViewerPipeline {
  import opened Values
  import opened ViewerCore
  import B = Brush

  datatype Tagged = Tagged(generation: nat, request: Request)

  /** At most one waiting request of each kind. */
  datatype Pending = Pending(discover: Option<Tagged>, overview: Option<Tagged>, detail: Option<Tagged>)

  const NOTHING_PENDING := Pending(None, None, None)

  datatype Reader =
    | NoReader
    | Stopped
    | Waiting
    | Draining(pending: Pending)
    | Taking(pending: Pending)
    | Executing(pending: Pending, current: Tagged)

  /** What the store answers. */
  datatype Answer = Failure | Catalogue(catalog: CatalogSnapshot) | Points(realRange: Option<Viewport>)

  /** `sent` and `delivered` are history, per open source. */
  datatype Viewer = Viewer(
    core: Core, nextGeneration: nat, overviewRevision: nat, detailRevision: nat, overviewWidth: nat, detailWidth: nat,
    requests: seq<Tagged>, reader: Reader, events: seq<ReadEvent>, sent: seq<Tagged>, delivered: seq<ReadEvent>)

  datatype Step =
    | OpenSource(spawned: bool)
    | SelectProject(project: ProjectId)
    | ToggleRun(run: RunId)
    | SelectMetric(metric: MetricKey)
    | SelectAxis(axis: Axis)
    | Refresh
    | ResetView
    | MoveBrush(op: B.Op)
    | CommitBrush
    | ResizeOverview(width: nat)
    | ResizeDetail(width: nat)
    | Receive
    | TakeRequest
    | DrainRequest
    | StopDraining
    | TakePending
    | Execute(answer: Answer)
    | StopReader

  const NEW_VIEWER := Viewer(EMPTY_CORE, 1, 0, 0, 1000, 1000, [], NoReader, [], [], [])

  // ------------------------------------------------------------ coalescing

  function Slot(p: Pending, kind: ReadKind): Option<Tagged> {
    match kind
    case CatalogKind => p.discover
    case OverviewKind => p.overview
    case DetailKind => p.detail
  }

  function WithSlot(p: Pending, kind: ReadKind, slot: Option<Tagged>): Pending {
    match kind
    case CatalogKind => p.(discover := slot)
    case OverviewKind => p.(overview := slot)
    case DetailKind => p.(detail := slot)
  }

  /** The newer of two requests of a kind stays. */
  function Pushed(p: Pending, t: Tagged): Pending {
    var slot := Slot(p, t.request.Kind());
    if slot.None? || t.generation >= slot.value.generation then WithSlot(p, t.request.Kind(), Some(t)) else p
  }

  /** Catalog before overview before detail. */
  function Taken(p: Pending): Option<(Tagged, Pending)> {
    if p.discover.Some? then Some((p.discover.value, p.(discover := None)))
    else if p.overview.Some? then Some((p.overview.value, p.(overview := None)))
    else if p.detail.Some? then Some((p.detail.value, p.(detail := None)))
    else None
  }

  // ------------------------------------------------------------ the interface

  function Submitted(v: Viewer, request: Request): Viewer {
    match v.reader
    case NoReader => v
    case Stopped => v.(nextGeneration := v.nextGeneration + 1)
    case _ =>
      var t := Tagged(v.nextGeneration, request);
      v.(nextGeneration := v.nextGeneration + 1, requests := v.requests + [t], sent := v.sent + [t],
         core := Begun(v.core, t.generation, request.Kind()))
  }

  function CatalogRequested(v: Viewer): Viewer {
    Submitted(v, Discover(v.core.selection.project, v.core.selection.runs))
  }

  function OverviewRequested(v: Viewer): Viewer {
    match CurrentCurves(v.core)
    case None => v
    case Some(curves) => Submitted(v, QueryOverview(curves, v.overviewWidth))
  }

  function DetailRequested(v: Viewer): Viewer {
    match CurrentCurves(v.core)
    case None => v
    case Some(curves) =>
      match SelectedViewport(v.core)
      case None => v
      case Some(viewport) => Submitted(v, QueryDetail(curves, viewport, v.detailWidth))
  }

  /** A new source: new channels, an empty core, and a first catalog request. */
  function Opened(v: Viewer, spawned: bool): Viewer {
    var blank := v.(core := EMPTY_CORE, requests := [], events := [], sent := [], delivered := [], reader := NoReader);
    if spawned then CatalogRequested(blank.(reader := Waiting)) else blank
  }

  /** What a successfully applied event asks for next. */
  function FollowedUp(v: Viewer, event: ReadEvent): Viewer {
    match event.kind
    case CatalogKind => OverviewRequested(v)
    case OverviewKind => DetailRequested(v.(overviewRevision := event.generation))
    case DetailKind => v.(detailRevision := event.generation)
  }

  function Received(v: Viewer): Viewer
    requires v.events != []
  {
    var event := v.events[0];
    var (core, outcome) := AppliedEvent(v.core, event);
    var v' := v.(core := core, events := v.events[1..], delivered := v.delivered + [event]);
    if !outcome.Applied? || event.result.None? then v' else FollowedUp(v', event)
  }

  // ------------------------------------------------------------ the worker

  /** The result of executing a request; its payload is always of the request's kind. */
  function Outcome(request: Request, answer: Answer): Option<Snapshot> {
    match request
    case Discover(_, _) => if answer.Catalogue? then Some(Catalog(answer.catalog)) else None
    case QueryOverview(curves, _) => if answer.Points? then Some(Overview(CurveSnapshot(curves, WHOLE_AXIS, answer.realRange))) else None
    case QueryDetail(curves, viewport, _) => if answer.Points? then Some(Detail(CurveSnapshot(curves, viewport, answer.realRange))) else None
  }

  function Executed(t: Tagged, answer: Answer): ReadEvent {
    ReadEvent(t.generation, t.request.Kind(), Outcome(t.request, answer))
  }

  function ReaderStep(v: Viewer, step: Step): Option<Viewer> {
    match step
    case TakeRequest =>
      if v.reader.Waiting? && v.requests != []
      then Some(v.(reader := Draining(Pushed(NOTHING_PENDING, v.requests[0])), requests := v.requests[1..])) else None
    case DrainRequest =>
      if v.reader.Draining? && v.requests != []
      then Some(v.(reader := Draining(Pushed(v.reader.pending, v.requests[0])), requests := v.requests[1..])) else None
    case StopDraining =>
      if v.reader.Draining? && v.requests == [] then Some(v.(reader := Taking(v.reader.pending))) else None
    case TakePending =>
      if !v.reader.Taking? then None
      else
        (match Taken(v.reader.pending)
         case None => Some(v.(reader := Waiting))
         case Some((t, rest)) => Some(v.(reader := Executing(rest, t))))
    case Execute(answer) =>
      if v.reader.Executing?
      then Some(v.(events := v.events + [Executed(v.reader.current, answer)], reader := Draining(v.reader.pending))) else None
    case StopReader =>
      if v.reader.NoReader? then None else Some(v.(reader := Stopped))
    case _ => None
  }

  function InterfaceStep(v: Viewer, step: Step): Option<Viewer> {
    match step
    case OpenSource(spawned) => Some(Opened(v, spawned))
    case SelectProject(project) => Some(CatalogRequested(v.(core := WithProject(v.core, Some(project)))))
    case ToggleRun(run) =>
      (match WithRunToggled(v.core, run)
       case None => Some(v)
       case Some(core) => Some(CatalogRequested(v.(core := core))))
    case SelectMetric(metric) => Some(OverviewRequested(v.(core := WithMetric(v.core, Some(metric)))))
    case SelectAxis(axis) => Some(OverviewRequested(v.(core := WithAxis(v.core, axis))))
    case Refresh => Some(CatalogRequested(v))
    case ResetView =>
      if v.core.brush.None? then Some(v)
      else Some(DetailRequested(v.(core := v.core.(brush := Some(v.core.brush.value.(selected := v.core.brush.value.home))))))
    case MoveBrush(op) =>
      if v.core.brush.None? then Some(v)
      else Some(v.(core := v.core.(brush := Some(B.Apply(v.core.brush.value, op)))))
    case CommitBrush => Some(DetailRequested(v))
    case ResizeOverview(width) => Some(OverviewRequested(v.(overviewWidth := width)))
    case ResizeDetail(width) => Some(DetailRequested(v.(detailWidth := width)))
    case Receive => if v.events == [] then None else Some(Received(v))
    case _ => None
  }

  predicate OfReader(step: Step) {
    step.TakeRequest? || step.DrainRequest? || step.StopDraining? || step.TakePending? || step.Execute? || step.StopReader?
  }

  function Next(v: Viewer, step: Step): Option<Viewer> {
    if OfReader(step) then ReaderStep(v, step) else InterfaceStep(v, step)
  }

  function Run(v: Viewer, steps: seq<Step>): Option<Viewer>
    decreases |steps|
  {
    if steps == [] then Some(v)
    else match Next(v, steps[0])
      case None => None
      case Some(v') => Run(v', steps[1..])
  }

  ghost predicate Reachable(v: Viewer) {
    exists steps :: Run(NEW_VIEWER, steps) == Some(v)
  }
}
