/**
  The reconciler, the pending requests of the worker and the application that
  drives them, as objects whose methods change their fields.
 */
module ViewerObjects {
  import opened Values
  import opened Rendering
  import opened ViewerCore
  import opened ViewerPipeline
  import B = Brush

  class Reconciler {
    var selection: Selection
    var axis: Axis
    var brush: Option<B.ValidBrush>
    var catalog: Option<CatalogSnapshot>
    var overview: Option<CurveSnapshot>
    var detail: Option<CurveSnapshot>
    var expected: map<ReadKind, nat>
    var failed: bool

    constructor ()
      ensures State() == EMPTY_CORE
    {
      selection, axis, brush, catalog := NO_SELECTION, StepAxis, None, None;
      overview, detail, expected, failed := None, None, map[], false;
    }

    function State(): Core
      reads this
    {
      Core(selection, axis, brush, catalog, overview, detail, expected, failed)
    }

    method ClearCurves()
      modifies this
      ensures State() == ClearedCurves(old(State()))
    {
      brush, overview, detail, failed := None, None, None, false;
      expected := expected - {OverviewKind, DetailKind};
    }

    method SelectProject(project: Option<ProjectId>)
      modifies this
      ensures State() == WithProject(old(State()), project)
    {
      if selection.project == project {
        return;
      }
      selection := NO_SELECTION.(project := project);
      if catalog.Some? {
        catalog := Some(catalog.value.(runs := [], metrics := []));
      }
      ClearCurves();
    }

    /** Removes a selected Run, or adds one unless ten are selected. */
    method ToggleRun(run: RunId) returns (added: Option<bool>)
      modifies this
      ensures added == if run in old(selection.runs) then Some(false) else if |old(selection.runs)| == MAX_SELECTED_RUNS then None else Some(true)
      ensures Some(State()) == if added.None? then Some(old(State())) else WithRunToggled(old(State()), run)
    {
      var runs := selection.runs;
      var index := 0;
      while index < |runs| && runs[index] != run
        invariant index <= |runs| && run !in runs[..index]
      {
        index := index + 1;
      }
      if index < |runs| {
        WithoutIsRemoval(runs, run, index);
        selection := selection.(runs := runs[..index] + runs[index + 1..]);
        ClearCurves();
        return Some(false);
      }
      assert runs[..|runs|] == runs;
      if |runs| == MAX_SELECTED_RUNS {
        return None;
      }
      selection := selection.(runs := runs + [run]);
      ClearCurves();
      return Some(true);
    }

    method SelectMetric(metric: Option<MetricKey>)
      modifies this
      ensures State() == WithMetric(old(State()), metric)
    {
      if selection.metric != metric {
        selection := selection.(metric := metric);
        ClearCurves();
      }
    }

    method SelectAxis(axis: Axis)
      modifies this
      ensures State() == WithAxis(old(State()), axis)
    {
      if this.axis != axis {
        this.axis := axis;
        ClearCurves();
      }
    }

    method Begin(generation: nat, kind: ReadKind)
      modifies `expected, `failed
      ensures State() == Begun(old(State()), generation, kind)
    {
      expected := expected[kind := generation];
      failed := false;
    }

    /** Keeps what still exists, and the shown curves only if that is everything. */
    method ApplyCatalog(snapshot: CatalogSnapshot)
      modifies this
      ensures State() == AppliedCatalog(old(State()), snapshot)
    {
      var previous := selection;
      if selection.project.None? || selection.project.value !in snapshot.projects {
        selection := NO_SELECTION;
      } else {
        var kept := [];
        for i := 0 to |snapshot.runs|
          invariant kept + Kept(snapshot.runs[i..], previous.runs) == Kept(snapshot.runs, previous.runs)
        {
          assert snapshot.runs[i..][0] == snapshot.runs[i] && snapshot.runs[i..][1..] == snapshot.runs[i + 1..];
          if snapshot.runs[i] in previous.runs {
            kept := kept + [snapshot.runs[i]];
          }
        }
        selection := selection.(runs := kept);
        if selection.metric.Some? && selection.metric.value !in snapshot.metrics {
          selection := selection.(metric := None);
        }
      }
      if selection != previous {
        overview, detail := None, None;
        expected := expected - {OverviewKind, DetailKind};
      }
      catalog := Some(snapshot);
    }

    method ApplyOverview(snapshot: CurveSnapshot)
      modifies this
      ensures State() == AppliedOverview(old(State()), snapshot)
    {
      var previous := if brush.Some? then Some(brush.value.selected) else None;
      if snapshot.realRange.None? {
        brush := None;
      } else {
        brush := B.CarriedOver(previous, Home(snapshot.realRange.value.start, snapshot.realRange.value.end));
      }
      if brush.None? {
        detail := None;
        expected := expected - {DetailKind};
      }
      overview := Some(snapshot);
    }

    method Apply(event: ReadEvent) returns (outcome: ApplyOutcome)
      modifies this
      ensures State() == AppliedEvent(old(State()), event).0 && outcome == AppliedEvent(old(State()), event).1
    {
      if event.kind !in expected || expected[event.kind] != event.generation {
        return IgnoredStale;
      }
      if event.result.Some? && event.result.value.Kind() != event.kind {
        return IgnoredMismatched;
      }
      expected := expected - {event.kind};
      match event.result {
        case Some(Catalog(snapshot)) => ApplyCatalog(snapshot);
        case Some(Overview(snapshot)) => ApplyOverview(snapshot);
        case Some(Detail(snapshot)) => detail := Some(snapshot);
        case None => failed := true;
      }
      return Applied;
    }
  }

  // ------------------------------------------------------------ the worker's side

  class PendingRequests {
    var discover: Option<Tagged>
    var overview: Option<Tagged>
    var detail: Option<Tagged>

    constructor ()
      ensures State() == NOTHING_PENDING
    {
      discover, overview, detail := None, None, None;
    }

    function State(): Pending
      reads this
    {
      Pending(discover, overview, detail)
    }

    method Push(t: Tagged)
      modifies this
      ensures State() == Pushed(old(State()), t)
    {
      match t.request {
        case Discover(_, _) => if discover.None? || t.generation >= discover.value.generation { discover := Some(t); }
        case QueryOverview(_, _) => if overview.None? || t.generation >= overview.value.generation { overview := Some(t); }
        case QueryDetail(_, _, _) => if detail.None? || t.generation >= detail.value.generation { detail := Some(t); }
      }
    }

    method TakeNext() returns (t: Option<Tagged>)
      modifies this
      ensures t.None? <==> Taken(old(State())).None?
      ensures if t.None? then State() == old(State()) else Taken(old(State())) == Some((t.value, State()))
    {
      if discover.Some? {
        t := discover;
        discover := None;
      } else if overview.Some? {
        t := overview;
        overview := None;
      } else {
        t := detail;
        detail := None;
      }
    }
  }

  /** The newest request of the kind among the first `n`. */
  function NewestOf(queue: seq<Tagged>, n: nat, kind: ReadKind): Option<Tagged>
    requires n <= |queue|
  {
    if n == 0 then None
    else if queue[n - 1].request.Kind() == kind then Some(queue[n - 1])
    else NewestOf(queue, n - 1, kind)
  }

  /** What the store would answer to each kind of request. */
  datatype Answers = Answers(catalog: Answer, overview: Answer, detail: Answer) {
    function For(kind: ReadKind): Answer {
      match kind
      case CatalogKind => catalog
      case OverviewKind => overview
      case DetailKind => detail
    }
  }

  function EventOf(t: Option<Tagged>, answers: Answers): seq<ReadEvent> {
    if t.None? then [] else [Executed(t.value, answers.For(t.value.request.Kind()))]
  }

  function EventsOf(p: Pending, answers: Answers): seq<ReadEvent> {
    EventOf(p.discover, answers) + (EventOf(p.overview, answers) + EventOf(p.detail, answers))
  }

  function Count(p: Pending): nat {
    (if p.discover.Some? then 1 else 0) + (if p.overview.Some? then 1 else 0) + (if p.detail.Some? then 1 else 0)
  }

  lemma TakenEvents(p: Pending, answers: Answers)
    ensures match Taken(p)
            case None => EventsOf(p, answers) == [] && Count(p) == 0
            case Some((t, rest)) => EventsOf(p, answers) == EventOf(Some(t), answers) + EventsOf(rest, answers) && Count(rest) + 1 == Count(p)
  {
  }

  /** Everything queued goes into the slots. */
  method Coalesce(queue: seq<Tagged>) returns (pending: PendingRequests)
    requires forall i, j :: 0 <= i < j < |queue| ==> queue[i].generation < queue[j].generation
    ensures fresh(pending) && pending.State() == NewestPending(queue)
  {
    pending := new PendingRequests();
    for i := 0 to |queue|
      invariant pending.State() == Pending(NewestOf(queue, i, CatalogKind), NewestOf(queue, i, OverviewKind), NewestOf(queue, i, DetailKind))
    {
      NewestIsQueued(queue, i);
      pending.Push(queue[i]);
    }
  }

  function NewestPending(queue: seq<Tagged>): Pending {
    Pending(NewestOf(queue, |queue|, CatalogKind), NewestOf(queue, |queue|, OverviewKind), NewestOf(queue, |queue|, DetailKind))
  }

  /**
    The worker loop over what is queued, when nothing else arrives: one event for
    each kind that was asked for, answering the newest request of it, catalog
    before overview before detail.
   */
  method ServeQueue(queue: seq<Tagged>, answers: Answers) returns (events: seq<ReadEvent>)
    requires forall i, j :: 0 <= i < j < |queue| ==> queue[i].generation < queue[j].generation
    ensures events == EventsOf(NewestPending(queue), answers)
  {
    hide Executed, EventsOf, EventOf, NewestPending;
    var pending := Coalesce(queue);
    ghost var all := EventsOf(pending.State(), answers);
    events := [];
    while true
      invariant fresh(pending) && events + EventsOf(pending.State(), answers) == all
      decreases Count(pending.State())
    {
      ghost var left := EventsOf(pending.State(), answers);
      TakenEvents(pending.State(), answers);
      var t := pending.TakeNext();
      if t.None? {
        assert events + [] == events;
        return;
      }
      var served := EventOf(t, answers);
      assert (events + served) + EventsOf(pending.State(), answers) == events + left;
      events := events + served;
    }
  }

  lemma NewestIsQueued(queue: seq<Tagged>, n: nat)
    requires n <= |queue| && forall i, j :: 0 <= i < j < |queue| ==> queue[i].generation < queue[j].generation
    ensures forall kind :: NewestOf(queue, n, kind).Some? ==>
              NewestOf(queue, n, kind).value.request.Kind() == kind && (n < |queue| ==> NewestOf(queue, n, kind).value.generation < queue[n].generation)
  {
    forall kind ensures NewestOf(queue, n, kind).Some? ==>
        NewestOf(queue, n, kind).value.request.Kind() == kind && (n < |queue| ==> NewestOf(queue, n, kind).value.generation < queue[n].generation)
    {
      NewestAt(queue, n, kind);
    }
  }

  lemma {:induction false} NewestAt(queue: seq<Tagged>, n: nat, kind: ReadKind)
    requires n <= |queue|
    ensures NewestOf(queue, n, kind).Some? ==> exists i :: 0 <= i < n && queue[i] == NewestOf(queue, n, kind).value && queue[i].request.Kind() == kind
    ensures NewestOf(queue, n, kind).None? ==> forall i :: 0 <= i < n ==> queue[i].request.Kind() != kind
  {
    if n > 0 {
      NewestAt(queue, n - 1, kind);
    }
  }

  // ------------------------------------------------------------ the application

  /** The part of the application that drives the reconciler; `events`, `sent` and `delivered` are history. */
  class ViewerApp {
    const core: Reconciler
    var nextGeneration: nat
    var overviewRevision: nat
    var detailRevision: nat
    var overviewWidth: nat
    var detailWidth: nat
    var requests: seq<Tagged>
    var reader: Reader
    ghost var events: seq<ReadEvent>
    ghost var sent: seq<Tagged>
    ghost var delivered: seq<ReadEvent>

    constructor ()
      ensures State() == NEW_VIEWER && fresh(core)
    {
      core := new Reconciler();
      nextGeneration, overviewRevision, detailRevision, overviewWidth, detailWidth := 1, 0, 0, 1000, 1000;
      requests, reader, events, sent, delivered := [], NoReader, [], [], [];
    }

    ghost function State(): Viewer
      reads this, core
    {
      Viewer(core.State(), nextGeneration, overviewRevision, detailRevision, overviewWidth, detailWidth, requests, reader, events, sent, delivered)
    }

    method Submit(request: Request)
      modifies `nextGeneration, `requests, `sent, core
      ensures State() == Submitted(old(State()), request)
    {
      if reader.NoReader? {
        return;
      }
      var generation := nextGeneration;
      nextGeneration := nextGeneration + 1;
      if reader.Stopped? {
        return;
      }
      requests := requests + [Tagged(generation, request)];
      sent := sent + [Tagged(generation, request)];
      core.Begin(generation, request.Kind());
    }

    method RefreshCatalog()
      modifies `nextGeneration, `requests, `sent, core
      ensures State() == CatalogRequested(old(State()))
    {
      Submit(Discover(core.selection.project, core.selection.runs));
    }

    method RequestOverview()
      modifies `nextGeneration, `requests, `sent, core
      ensures State() == OverviewRequested(old(State()))
    {
      var curves := CurrentCurves(core.State());
      if curves.Some? {
        Submit(QueryOverview(curves.value, overviewWidth));
      }
    }

    method RequestDetail()
      modifies `nextGeneration, `requests, `sent, core
      ensures State() == DetailRequested(old(State()))
    {
      var curves := CurrentCurves(core.State());
      var viewport := SelectedViewport(core.State());
      if curves.Some? && viewport.Some? {
        Submit(QueryDetail(curves.value, viewport.value, detailWidth));
      }
    }

    /** Applies the next event and asks for what follows from it. */
    method ApplyEvent(event: ReadEvent)
      requires events != [] && events[0] == event
      modifies this, core
      ensures State() == Received(old(State()))
    {
      hide AppliedEvent, OverviewRequested, DetailRequested;
      var outcome := core.Apply(event);
      events, delivered := events[1..], delivered + [event];
      if !outcome.Applied? || event.result.None? {
        return;
      }
      match event.kind {
        case CatalogKind => RequestOverview();
        case OverviewKind =>
          overviewRevision := event.generation;
          RequestDetail();
        case DetailKind => detailRevision := event.generation;
      }
    }

    method SelectProject(project: ProjectId)
      modifies this, core
      ensures InterfaceStep(old(State()), Step.SelectProject(project)) == Some(State())
    {
      hide WithProject, Submitted;
      core.SelectProject(Some(project));
      RefreshCatalog();
    }

    method ToggleRun(run: RunId)
      modifies this, core
      ensures InterfaceStep(old(State()), Step.ToggleRun(run)) == Some(State())
    {
      hide Submitted, ClearedCurves;
      var added := core.ToggleRun(run);
      if added.Some? {
        RefreshCatalog();
      }
    }

    method SelectMetric(metric: MetricKey)
      modifies this, core
      ensures InterfaceStep(old(State()), Step.SelectMetric(metric)) == Some(State())
    {
      hide WithMetric, OverviewRequested;
      core.SelectMetric(Some(metric));
      RequestOverview();
    }

    method SelectAxis(axis: Axis)
      modifies this, core
      ensures InterfaceStep(old(State()), Step.SelectAxis(axis)) == Some(State())
    {
      hide WithAxis, OverviewRequested;
      core.SelectAxis(axis);
      RequestOverview();
    }
  }
}
