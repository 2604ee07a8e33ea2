/**
  What every action of the user, and every result, makes the viewer ask for.
 */
module ViewerRequests {
  import opened Values
  import opened ViewerCore
  import opened ViewerPipeline
  import opened ViewerTheorems
  import B = Brush

  /** Exactly one request was submitted, under a fresh generation, and its stream awaits it. */
  predicate Asked(v: Viewer, v': Viewer, request: Request) {
    && v'.requests == v.requests + [Tagged(v.nextGeneration, request)] && v'.sent == v.sent + [Tagged(v.nextGeneration, request)]
    && v'.nextGeneration == v.nextGeneration + 1
    && request.Kind() in v'.core.expected && v'.core.expected[request.Kind()] == v.nextGeneration && !v'.core.failed
  }

  predicate AskedNothing(v: Viewer, v': Viewer) {
    v'.requests == v.requests && v'.sent == v.sent && v'.nextGeneration == v.nextGeneration
  }

  /** The overview of the selected Runs and metric is asked for, if both are selected. */
  predicate AskedOverview(v: Viewer, v': Viewer) {
    var c := v'.core;
    if c.selection.runs == [] || c.selection.metric.None? then AskedNothing(v, v')
    else Asked(v, v', QueryOverview(CurveSelection(c.selection.runs, c.selection.metric.value, c.axis), v'.overviewWidth))
  }

  /** The detail of the selected Runs and metric in the viewport of the brush is asked for, if there is one. */
  predicate AskedDetail(v: Viewer, v': Viewer) {
    var c := v'.core;
    if c.selection.runs == [] || c.selection.metric.None? || SelectedViewport(c).None? then AskedNothing(v, v')
    else Asked(v, v', QueryDetail(CurveSelection(c.selection.runs, c.selection.metric.value, c.axis), SelectedViewport(c).value, v'.detailWidth))
  }

  /** The catalog is asked for, together with the metrics of the selected Runs. */
  predicate AskedCatalog(v: Viewer, v': Viewer) {
    Asked(v, v', Discover(v'.core.selection.project, v'.core.selection.runs))
  }

  lemma OverviewIsAsked(v: Viewer)
    requires IsUp(v.reader)
    ensures AskedOverview(v, OverviewRequested(v)) && OverviewRequested(v).core.selection == v.core.selection
  {
  }

  lemma DetailIsAsked(v: Viewer)
    requires IsUp(v.reader)
    ensures AskedDetail(v, DetailRequested(v)) && DetailRequested(v).core.selection == v.core.selection
    ensures DetailRequested(v).core.brush == v.core.brush
  {
  }

  /**
    What the user does, and what is asked for then: choosing a project or a Run,
    or refreshing, asks for the catalog; choosing a metric or an axis, or a new
    width of the overview, for the overview; committing or resetting the brush, or
    a new width of the detail, for the detail; moving the brush for nothing.
   */
  lemma ActionsAsk(v: Viewer, step: Step, v': Viewer)
    requires IsUp(v.reader) && InterfaceStep(v, step) == Some(v')
    ensures match step
            case SelectProject(project) => v'.core.selection.project == Some(project) && AskedCatalog(v, v')
            case ToggleRun(run) => if |v.core.selection.runs| == 10 && run !in v.core.selection.runs then v' == v else AskedCatalog(v, v')
            case Refresh => AskedCatalog(v, v') && v'.core.selection == v.core.selection
            case SelectMetric(metric) => v'.core.selection.metric == Some(metric) && AskedOverview(v, v')
            case SelectAxis(axis) => v'.core.axis == axis && AskedOverview(v, v')
            case ResizeOverview(width) => v'.overviewWidth == width && AskedOverview(v, v')
            case CommitBrush => v'.core.brush == v.core.brush && AskedDetail(v, v')
            case ResetView =>
              if v.core.brush.None? then v' == v
              else v'.core.brush.Some? && v'.core.brush.value.selected == v.core.brush.value.home
                   && v'.core.brush.value.home == v.core.brush.value.home && AskedDetail(v, v')
            case ResizeDetail(width) => v'.detailWidth == width && AskedDetail(v, v')
            case MoveBrush(op) =>
              AskedNothing(v, v') && v'.core == v.core.(brush := if v.core.brush.None? then None else Some(B.Apply(v.core.brush.value, op)))
            case _ => true
  {
    hide SelectedViewport;
    match step {
      case SelectMetric(metric) => OverviewIsAsked(v.(core := WithMetric(v.core, Some(metric))));
      case SelectAxis(axis) => OverviewIsAsked(v.(core := WithAxis(v.core, axis)));
      case ResizeOverview(width) => OverviewIsAsked(v.(overviewWidth := width));
      case CommitBrush => DetailIsAsked(v);
      case ResizeDetail(width) => DetailIsAsked(v.(detailWidth := width));
      case ResetView =>
        if v.core.brush.Some? {
          DetailIsAsked(v.(core := v.core.(brush := Some(v.core.brush.value.(selected := v.core.brush.value.home)))));
        }
      case _ =>
    }
  }

  /** Opening a source forgets everything and asks for its catalog, if its worker could be started. */
  lemma OpeningAsks(v: Viewer, spawned: bool)
    ensures var v' := Opened(v, spawned);
            && v'.events == [] && v'.core.selection == Selection(None, [], None) && v'.core.brush.None? && v'.core.catalog.None?
            && v'.core.overview.None? && v'.core.detail.None? && v'.core.axis.StepAxis?
            && (if spawned then
                  v'.reader.Waiting? && v'.requests == [Tagged(v.nextGeneration, Discover(None, []))]
                  && v'.core.expected == map[CatalogKind := v.nextGeneration] && v'.nextGeneration == v.nextGeneration + 1
                else v'.reader.NoReader? && v'.requests == [] && v'.core.expected == map[])
  {
  }

  /** Without a worker nothing is asked for; one that has stopped costs a generation and nothing awaits it. */
  lemma NobodyToAsk(v: Viewer, request: Request)
    requires !IsUp(v.reader)
    ensures Submitted(v, request) == v.(nextGeneration := Submitted(v, request).nextGeneration)
    ensures Submitted(v, request).nextGeneration == if v.reader.Stopped? then v.nextGeneration + 1 else v.nextGeneration
  {
  }

  /** An applied catalog asks for the overview, an applied overview for the detail, and nothing else asks for anything. */
  lemma ResultsAsk(v: Viewer)
    requires IsUp(v.reader) && v.events != []
    ensures var v', e := Received(v), v.events[0];
            && v'.events == v.events[1..] && v'.delivered == v.delivered + [e]
            && (if !IsAwaited(v.core, e) || e.result.None? || e.result.value.Kind() != e.kind || e.kind.DetailKind? then AskedNothing(v, v')
                else if e.kind.CatalogKind? then AskedOverview(v, v') else AskedDetail(v, v'))
            && (IsAwaited(v.core, e) && e.result.Some? && e.result.value.Kind() == e.kind ==>
                  && (e.kind.OverviewKind? ==> v'.overviewRevision == e.generation) && (e.kind.DetailKind? ==> v'.detailRevision == e.generation))
  {
    var e := v.events[0];
    EventsMean(v.core, e);
    var (core, outcome) := AppliedEvent(v.core, e);
    var v1 := v.(core := core, events := v.events[1..], delivered := v.delivered + [e]);
    hide AppliedEvent, SelectedViewport;
    if outcome.Applied? && e.result.Some? {
      if e.kind.CatalogKind? { OverviewIsAsked(v1); }
      if e.kind.OverviewKind? { DetailIsAsked(v1.(overviewRevision := e.generation)); }
    }
  }

  /** The worker takes the catalog first, then the overview, then the detail, and the newest request of each kind stays. */
  lemma WaitingRequests(p: Pending, t: Tagged)
    ensures Taken(p).None? <==> p.discover.None? && p.overview.None? && p.detail.None?
    ensures p.discover.Some? ==> Taken(p) == Some((p.discover.value, Pending(None, p.overview, p.detail)))
    ensures p.discover.None? && p.overview.Some? ==> Taken(p) == Some((p.overview.value, Pending(None, None, p.detail)))
    ensures p.discover.None? && p.overview.None? && p.detail.Some? ==> Taken(p) == Some((p.detail.value, NOTHING_PENDING))
    ensures var p' := Pushed(p, t);
            && (t.request.Discover? ==> p' == p.(discover := p'.discover) && p'.discover.Some? && (p'.discover == p.discover || p'.discover == Some(t)))
            && (t.request.QueryOverview? ==> p' == p.(overview := p'.overview) && p'.overview.Some? && (p'.overview == p.overview || p'.overview == Some(t)))
            && (t.request.QueryDetail? ==> p' == p.(detail := p'.detail) && p'.detail.Some? && (p'.detail == p.detail || p'.detail == Some(t)))
    ensures forall waiting: Tagged :: Slot(p, t.request.Kind()) == Some(waiting) ==>
              (Slot(Pushed(p, t), t.request.Kind()) == Some(t) <==> t.generation >= waiting.generation || t == waiting)
  {
  }

  /** What a query returns is tagged as its request and carries the curves, and for a detail the viewport, that were asked for. */
  lemma AnswersCarryTheRequest(t: Tagged, answer: Answer)
    ensures var e := Executed(t, answer);
            && e.generation == t.generation && e.kind == t.request.Kind()
            && (t.request.Discover? ==> e.result == if answer.Catalogue? then Some(Catalog(answer.catalog)) else None)
            && (!t.request.Discover? ==> (e.result.Some? <==> answer.Points?))
            && (e.result.Some? && !t.request.Discover? ==>
                  !e.result.value.Catalog? && e.result.value.curves.curves == t.request.selection && e.result.value.curves.realRange == answer.realRange
                  && e.result.value.Kind() == t.request.Kind())
            && (e.result.Some? && t.request.QueryDetail? ==> e.result.value.curves.viewport == t.request.viewport)
            && (e.result.Some? && t.request.QueryOverview? ==> e.result.value.curves.viewport == Viewport(0, 0x7FFF_FFFF_FFFF_FFFF))
  {
  }
}
