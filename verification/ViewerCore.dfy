/**
  The viewer's state reconciler: what is selected, what is shown, and which
  answer each of the three result streams still waits for.
 */
module ViewerCore {
  import opened Values
  import opened Rendering
  import Metrics
  import B = Brush

  type ProjectId = string
  type RunId = Metrics.RunId
  type MetricKey = Metrics.MetricKey

  const MAX_SELECTED_RUNS: nat := 10

  datatype Axis = StepAxis | ElapsedAxis

  datatype ReadKind = CatalogKind | OverviewKind | DetailKind

  datatype Selection = Selection(project: Option<ProjectId>, runs: seq<RunId>, metric: Option<MetricKey>)

  /** The curves a query asks for. */
  datatype CurveSelection = CurveSelection(runs: seq<RunId>, metric: MetricKey, axis: Axis)

  datatype Viewport = Viewport(start: Coordinate, end: Coordinate)

  datatype Request =
    | Discover(project: Option<ProjectId>, selectedRuns: seq<RunId>)
    | QueryOverview(selection: CurveSelection, width: nat)
    | QueryDetail(selection: CurveSelection, viewport: Viewport, width: nat)
  {
    function Kind(): ReadKind {
      match this
      case Discover(_, _) => CatalogKind
      case QueryOverview(_, _) => OverviewKind
      case QueryDetail(_, _, _) => DetailKind
    }
  }

  datatype CatalogSnapshot = CatalogSnapshot(projects: seq<ProjectId>, runs: seq<RunId>, metrics: seq<MetricKey>)

  /** Drawn curves: which ones they are, the viewport they fill, and the range the overview offers to the brush. */
  datatype CurveSnapshot = CurveSnapshot(curves: CurveSelection, viewport: Viewport, realRange: Option<Viewport>)

  /** The viewport of every overview. */
  const WHOLE_AXIS := Viewport(0, MAX_I64)

  datatype Snapshot = Catalog(catalog: CatalogSnapshot) | Overview(curves: CurveSnapshot) | Detail(curves: CurveSnapshot)
  {
    function Kind(): ReadKind {
      match this
      case Catalog(_) => CatalogKind
      case Overview(_) => OverviewKind
      case Detail(_) => DetailKind
    }
  }

  /** A tagged result; None is a failure. */
  datatype ReadEvent = ReadEvent(generation: nat, kind: ReadKind, result: Option<Snapshot>)

  datatype ApplyOutcome = Applied | IgnoredStale | IgnoredMismatched

  datatype Core = Core(
    selection: Selection, axis: Axis, brush: Option<B.ValidBrush>, catalog: Option<CatalogSnapshot>,
    overview: Option<CurveSnapshot>, detail: Option<CurveSnapshot>, expected: map<ReadKind, nat>, failed: bool)

  const NO_SELECTION := Selection(None, [], None)

  const EMPTY_CORE := Core(NO_SELECTION, StepAxis, None, None, None, None, map[], false)

  /** The curves that the selection asks for, if it is complete. */
  function CurrentCurves(c: Core): Option<CurveSelection> {
    if c.selection.runs == [] || c.selection.metric.None? then None
    else Some(CurveSelection(c.selection.runs, c.selection.metric.value, c.axis))
  }

  function ClearedCurves(c: Core): Core {
    c.(brush := None, overview := None, detail := None, expected := c.expected - {OverviewKind, DetailKind}, failed := false)
  }

  function WithProject(c: Core, project: Option<ProjectId>): Core {
    if c.selection.project == project then c
    else
      var catalog := match c.catalog
        case None => None
        case Some(catalog) => Some(catalog.(runs := [], metrics := []));
      ClearedCurves(c.(selection := NO_SELECTION.(project := project), catalog := catalog))
  }

  function Without(runs: seq<RunId>, run: RunId): (rest: seq<RunId>)
    ensures run !in runs ==> rest == runs
    ensures run in runs ==> |rest| == |runs| - 1
  {
    if runs == [] then []
    else if runs[0] == run then runs[1..]
    else [runs[0]] + Without(runs[1..], run)
  }

  /** Adds or removes a Run; None is the refusal of an eleventh one. */
  function WithRunToggled(c: Core, run: RunId): Option<Core> {
    var runs := c.selection.runs;
    if run in runs then Some(ClearedCurves(c.(selection := c.selection.(runs := Without(runs, run)))))
    else if |runs| == MAX_SELECTED_RUNS then None
    else Some(ClearedCurves(c.(selection := c.selection.(runs := runs + [run]))))
  }

  function WithMetric(c: Core, metric: Option<MetricKey>): Core {
    if c.selection.metric == metric then c else ClearedCurves(c.(selection := c.selection.(metric := metric)))
  }

  function WithAxis(c: Core, axis: Axis): Core {
    if c.axis == axis then c else ClearedCurves(c.(axis := axis))
  }

  function Begun(c: Core, generation: nat, kind: ReadKind): Core {
    c.(expected := c.expected[kind := generation], failed := false)
  }

  function Kept(runs: seq<RunId>, wanted: seq<RunId>): seq<RunId> {
    if runs == [] then []
    else if runs[0] in wanted then [runs[0]] + Kept(runs[1..], wanted)
    else Kept(runs[1..], wanted)
  }

  /** The part of the selection that still exists, with the Runs in catalog order. */
  function Surviving(selection: Selection, snapshot: CatalogSnapshot): Selection {
    if selection.project.None? || selection.project.value !in snapshot.projects then NO_SELECTION
    else
      var metric := if selection.metric.Some? && selection.metric.value in snapshot.metrics then selection.metric else None;
      selection.(runs := Kept(snapshot.runs, selection.runs), metric := metric)
  }

  function AppliedCatalog(c: Core, snapshot: CatalogSnapshot): Core {
    var selection := Surviving(c.selection, snapshot);
    var kept := if selection == c.selection then c
                else c.(selection := selection, overview := None, detail := None, expected := c.expected - {OverviewKind, DetailKind});
    kept.(catalog := Some(snapshot))
  }

  function AppliedOverview(c: Core, snapshot: CurveSnapshot): Core {
    var previous := if c.brush.Some? then Some(c.brush.value.selected) else None;
    var brush := if snapshot.realRange.None? then None
                 else B.CarriedOver(previous, Home(snapshot.realRange.value.start, snapshot.realRange.value.end));
    var c' := c.(brush := brush, overview := Some(snapshot));
    if brush.None? then c'.(detail := None, expected := c.expected - {DetailKind}) else c'
  }

  /** Takes over a result only if its stream waits for exactly this generation. */
  function AppliedEvent(c: Core, event: ReadEvent): (Core, ApplyOutcome) {
    if event.kind !in c.expected || c.expected[event.kind] != event.generation then (c, IgnoredStale)
    else if event.result.Some? && event.result.value.Kind() != event.kind then (c, IgnoredMismatched)
    else
      var c' := c.(expected := c.expected - {event.kind});
      (match event.result
       case None => c'.(failed := true)
       case Some(Catalog(snapshot)) => AppliedCatalog(c', snapshot)
       case Some(Overview(snapshot)) => AppliedOverview(c', snapshot)
       case Some(Detail(snapshot)) => c'.(detail := Some(snapshot)),
       Applied)
  }

  /** The brush's selection as a closed integer viewport. */
  function SelectedViewport(c: Core): Option<Viewport> {
    if c.brush.None? then None
    else
      var selected := c.brush.value.selected;
      var start, end := Saturated(selected.start.Floor), Saturated(-(-selected.end).Floor);
      if start > end then None else Some(Viewport(start, end))
  }

  // ------------------------------------------------------------ what is shown belongs to the selection

  /** Shown curves are curves of the current Runs, metric and axis. */
  predicate ShowsCurrent(c: Core) {
    && (c.overview.Some? ==> CurrentCurves(c) == Some(c.overview.value.curves))
    && (c.detail.Some? ==> CurrentCurves(c) == Some(c.detail.value.curves))
  }

  /** Changing what the curves depend on clears them and what was asked for; anything else leaves them. */
  lemma SelectionChangesClear(c: Core, c': Core, project: Option<ProjectId>, run: RunId, metric: Option<MetricKey>, axis: Axis)
    requires c' == WithProject(c, project) || Some(c') == WithRunToggled(c, run) || c' == WithMetric(c, metric) || c' == WithAxis(c, axis)
    ensures c' == c || (c'.overview.None? && c'.detail.None? && c'.brush.None? && OverviewKind !in c'.expected && DetailKind !in c'.expected)
    ensures ShowsCurrent(c) ==> ShowsCurrent(c')
    ensures CatalogKind in c.expected <==> CatalogKind in c'.expected
    ensures CatalogKind in c.expected ==> c'.expected[CatalogKind] == c.expected[CatalogKind]
  {
  }

  /** What each choice selects: exactly what was chosen, and nothing else changes in the selection. */
  lemma ChoicesSelect(c: Core, project: ProjectId, run: RunId, metric: MetricKey, axis: Axis)
    ensures WithMetric(c, Some(metric)).selection == Selection(c.selection.project, c.selection.runs, Some(metric))
    ensures WithMetric(c, Some(metric)).axis == c.axis && WithAxis(c, axis).axis == axis && WithAxis(c, axis).selection == c.selection
    ensures var selection := WithProject(c, Some(project)).selection;
            selection.project == Some(project) && (c.selection.project != Some(project) ==> selection.runs == [] && selection.metric.None?)
            && (c.selection.project == Some(project) ==> selection == c.selection)
    ensures var runs := c.selection.runs; var toggled := WithRunToggled(c, run);
            && (run !in runs ==> (toggled.None? <==> |runs| == 10))
            && (run !in runs && |runs| != 10 ==> toggled.value.selection == Selection(c.selection.project, runs + [run], c.selection.metric))
    ensures forall i :: 0 <= i < |c.selection.runs| && c.selection.runs[i] == run && run !in c.selection.runs[..i] ==>
              WithRunToggled(c, run).Some?
              && WithRunToggled(c, run).value.selection == Selection(c.selection.project, c.selection.runs[..i] + c.selection.runs[i + 1..], c.selection.metric)
  {
    var runs := c.selection.runs;
    forall i | 0 <= i < |runs| && runs[i] == run && run !in runs[..i] ensures Without(runs, run) == runs[..i] + runs[i + 1..] {
      WithoutIsRemoval(runs, run, i);
    }
  }

  /** The first place of the Run in the selection is the one that is removed. */
  lemma {:induction false} WithoutIsRemoval(runs: seq<RunId>, run: RunId, i: nat)
    requires i < |runs| && runs[i] == run && run !in runs[..i]
    ensures Without(runs, run) == runs[..i] + runs[i + 1..]
  {
    if i > 0 {
      assert runs[0] == runs[..i][0];
      assert runs[1..][..i - 1] == runs[1..i];
      WithoutIsRemoval(runs[1..], run, i - 1);
      assert [runs[0]] + runs[1..i] == runs[..i];
    }
  }

  // ------------------------------------------------------------ what a result does

  predicate IsAwaited(c: Core, event: ReadEvent) {
    event.kind in c.expected && c.expected[event.kind] == event.generation
  }

  /** A result changes something only if it is the awaited one and of its kind; a failure changes nothing that is shown. */
  lemma EventsMean(c: Core, event: ReadEvent)
    ensures var (c', outcome) := AppliedEvent(c, event);
            && (outcome.IgnoredStale? <==> !IsAwaited(c, event))
            && (outcome.IgnoredMismatched? <==> IsAwaited(c, event) && event.result.Some? && event.result.value.Kind() != event.kind)
            && (!outcome.Applied? ==> c' == c)
            && (outcome.Applied? ==> event.kind !in c'.expected)
            && (outcome.Applied? && event.result.None? ==> c' == c.(expected := c'.expected, failed := true) && c'.expected == c.expected - {event.kind})
            && (outcome.Applied? && event.kind.DetailKind? && event.result.Some? ==>
                  c' == c.(expected := c'.expected, detail := Some(event.result.value.curves)) && c'.expected == c.expected - {DetailKind})
  {
  }

  /**
    A catalog drops from the selection exactly what no longer exists: everything
    without its project, otherwise the Runs and the metric that are gone. What is
    shown and awaited goes exactly if that changed the selection.
   */
  lemma CatalogsMean(c: Core, generation: nat, snapshot: CatalogSnapshot)
    requires IsAwaited(c, ReadEvent(generation, CatalogKind, Some(Catalog(snapshot))))
    ensures var c' := AppliedEvent(c, ReadEvent(generation, CatalogKind, Some(Catalog(snapshot)))).0;
            && c'.catalog == Some(snapshot) && c'.axis == c.axis && c'.brush == c.brush && CatalogKind !in c'.expected
            && (c.selection.project.None? || c.selection.project.value !in snapshot.projects ==> c'.selection == Selection(None, [], None))
            && (c.selection.project.Some? && c.selection.project.value in snapshot.projects ==>
                  && c'.selection.project == c.selection.project
                  && (forall run :: run in c'.selection.runs <==> run in c.selection.runs && run in snapshot.runs)
                  && c'.selection.runs == Kept(snapshot.runs, c.selection.runs)
                  && c'.selection.metric == (if c.selection.metric.Some? && c.selection.metric.value !in snapshot.metrics then None else c.selection.metric))
            && (c'.selection == c.selection ==> c' == c.(catalog := Some(snapshot), expected := c.expected - {CatalogKind}))
            && (c'.selection != c.selection ==> c'.overview.None? && c'.detail.None? && c'.expected == c.expected - {CatalogKind, OverviewKind, DetailKind})
  {
    KeptIsWanted(snapshot.runs, c.selection.runs);
  }

  /** A range that a brush with this home may select. */
  predicate Selectable(home: B.Range, r: B.Range) {
    home.start <= r.start && r.end <= home.end && r.end - r.start >= 1.0
  }

  predicate NoFarther(x: real, near: real, far: real) {
    (if near < x then x - near else near - x) <= (if far < x then x - far else far - x)
  }

  /**
    An awaited overview renews the brush. There is one exactly if the overview has
    a real range that renders at least one unit wide, and that range is its home.
    A new brush selects all of it. An existing one keeps its selection exactly if
    it still fits, and otherwise moves each end as little as any selection allows.
   */
  lemma OverviewsMean(c: Core, generation: nat, snapshot: CurveSnapshot, other: B.Range)
    requires IsAwaited(c, ReadEvent(generation, OverviewKind, Some(Overview(snapshot))))
    ensures var c' := AppliedEvent(c, ReadEvent(generation, OverviewKind, Some(Overview(snapshot)))).0;
            && c'.overview == Some(snapshot) && c'.selection == c.selection && c'.axis == c.axis && OverviewKind !in c'.expected
            && (c'.brush.Some? <==> snapshot.realRange.Some? && Rendered(snapshot.realRange.value.end) - Rendered(snapshot.realRange.value.start) >= 1)
            && (if c'.brush.Some? then c'.detail == c.detail && c'.expected == c.expected - {OverviewKind}
                else c'.detail.None? && c'.expected == c.expected - {OverviewKind, DetailKind})
            && (c'.brush.Some? ==>
                  var home, selected := c'.brush.value.home, c'.brush.value.selected;
                  && home.start == Rendered(snapshot.realRange.value.start) as real && home.end == Rendered(snapshot.realRange.value.end) as real
                  && Selectable(home, selected)
                  && (c.brush.None? ==> selected == home)
                  && (c.brush.Some? ==>
                        && (selected == c.brush.value.selected <==> Selectable(home, c.brush.value.selected))
                        && (Selectable(home, other) ==>
                              NoFarther(c.brush.value.selected.start, selected.start, other.start)
                              && NoFarther(c.brush.value.selected.end, selected.end, other.end))))
  {
    if snapshot.realRange.Some? {
      var home := Home(snapshot.realRange.value.start, snapshot.realRange.value.end);
      hide Rendered;
      if c.brush.Some? {
        var previous := c.brush.value.selected;
        B.CarryOverKeepsWhatFits(previous, home);
        if Selectable(home, other) { B.CarryOverIsNearest(previous, home, other); }
      } else {
        B.CarryOverKeepsWhatFits(home, home);
      }
      hide B.CarriedOver;
    }
  }

  /** The same overview again leaves the brush as it is. */
  lemma SameOverviewAgain(c: Core, generation: nat, later: nat, snapshot: CurveSnapshot)
    requires IsAwaited(c, ReadEvent(generation, OverviewKind, Some(Overview(snapshot))))
    ensures var c1 := AppliedEvent(c, ReadEvent(generation, OverviewKind, Some(Overview(snapshot)))).0;
            var c2 := AppliedEvent(Begun(c1, later, OverviewKind), ReadEvent(later, OverviewKind, Some(Overview(snapshot)))).0;
            c2.brush == c1.brush
  {
    if snapshot.realRange.Some? {
      var home := Home(snapshot.realRange.value.start, snapshot.realRange.value.end);
      hide Rendered;
      if home.Span() >= B.MIN_SPAN {
        B.CarryOverIsIdempotent(if c.brush.Some? then Some(c.brush.value.selected) else None, home);
      } else {
        B.CarryOverKeepsWhatFits(home, home);
        if c.brush.Some? { B.CarryOverKeepsWhatFits(c.brush.value.selected, home); }
      }
      hide B.CarriedOver;
    }
  }

  /** A catalog keeps the selection, with everything shown, or clears what is shown. */
  lemma CatalogKeepsOrClears(c: Core, snapshot: CatalogSnapshot)
    ensures var c' := AppliedCatalog(c, snapshot);
            && (CurrentCurves(c') == CurrentCurves(c) || (c'.overview.None? && c'.detail.None? && OverviewKind !in c'.expected && DetailKind !in c'.expected))
            && (ShowsCurrent(c) ==> ShowsCurrent(c'))
            && (forall i :: 0 <= i < |c'.selection.runs| ==> c'.selection.runs[i] in c.selection.runs && c'.selection.runs[i] in snapshot.runs)
  {
    KeptIsWanted(snapshot.runs, c.selection.runs);
  }

  lemma {:induction false} KeptIsWanted(runs: seq<RunId>, wanted: seq<RunId>)
    ensures forall i :: 0 <= i < |Kept(runs, wanted)| ==> Kept(runs, wanted)[i] in wanted && Kept(runs, wanted)[i] in runs
    ensures forall run :: run in runs && run in wanted ==> run in Kept(runs, wanted)
  {
    if runs != [] {
      KeptIsWanted(runs[1..], wanted);
    }
  }

  /** The surviving Runs stand in catalog order: what is kept of a catalog is what is kept of its parts, one after the other, down to the single Run. */
  lemma {:induction false} KeptInCatalogOrder(a: seq<RunId>, b: seq<RunId>, wanted: seq<RunId>)
    ensures Kept(a + b, wanted) == Kept(a, wanted) + Kept(b, wanted)
    ensures Kept([], wanted) == [] && forall run :: Kept([run], wanted) == if run in wanted then [run] else []
  {
    if a == [] {
      assert a + b == b;
    } else {
      assert (a + b)[1..] == a[1..] + b;
      KeptInCatalogOrder(a[1..], b, wanted);
    }
  }

  /** The coordinate lies in the brush's selection. */
  predicate Selected(c: Core, x: Coordinate)
    requires c.brush.Some?
  {
    c.brush.value.selected.start <= x as real <= c.brush.value.selected.end
  }

  /**
    For every brush whose home spans rendered coordinates, also one that ends at
    2^63, the viewport asked for holds all coordinates of the selection, and it
    is the smallest one in whole units, cut off at the last coordinate.
   */
  lemma ViewportCoversSelection(c: Core)
    requires c.brush.Some? && c.brush.value.Valid()
    requires -TWO_63 as real <= c.brush.value.home.start && c.brush.value.home.end <= TWO_63 as real
    ensures SelectedViewport(c).Some?
    ensures var (selected, viewport) := (c.brush.value.selected, SelectedViewport(c).value);
            && viewport.start as real <= selected.start < viewport.start as real + 1.0
            && viewport.end as real - 1.0 < selected.end
            && (selected.end <= viewport.end as real || (viewport.end == MAX_I64 && selected.end > MAX_I64 as real))
    ensures var viewport := SelectedViewport(c).value;
            forall x: Coordinate :: Selected(c, x) ==> viewport.start <= x <= viewport.end
  {
    var selected := c.brush.value.selected;
    assert selected.start.Floor as real <= selected.start < selected.start.Floor as real + 1.0;
    assert (-selected.end).Floor as real <= -selected.end < (-selected.end).Floor as real + 1.0;
  }
}
