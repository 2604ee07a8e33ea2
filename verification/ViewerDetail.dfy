/**
  The shown detail follows the brush: once a brush is committed and everything
  under way has arrived, the detail fills exactly the viewport of the brush.
 */
module ViewerDetail {
  import opened Values
  import opened ViewerCore
  import opened ViewerPipeline
  import opened ViewerTheorems

  /** The shown detail fills the viewport of the brush, with the current curves. */
  predicate ShowsBrush(c: Core) {
    c.detail.Some? && SelectedViewport(c) == Some(c.detail.value.viewport) && CurrentCurves(c) == Some(c.detail.value.curves)
  }

  predicate AsksForBrush(c: Core, t: Tagged) {
    t.request.QueryDetail? && CurrentCurves(c) == Some(t.request.selection) && SelectedViewport(c) == Some(t.request.viewport)
  }

  /** The awaited detail is the one of the brush. */
  ghost predicate AwaitsBrush(c: Core, sent: seq<Tagged>) {
    DetailKind in c.expected && exists j :: 0 <= j < |sent| && sent[j].generation == c.expected[DetailKind] && AsksForBrush(c, sent[j])
  }

  /** There is something to show in detail. */
  predicate HasDetail(c: Core) {
    CurrentCurves(c).Some? && SelectedViewport(c).Some?
  }

  /** The detail is right, or the right one is awaited, or an overview is, which will ask for it. */
  ghost predicate DetailFollows(c: Core, sent: seq<Tagged>) {
    HasDetail(c) ==> OverviewKind in c.expected || (if DetailKind in c.expected then AwaitsBrush(c, sent) else ShowsBrush(c))
  }

  /** One of the results from the `n`-th on was a failure. */
  ghost predicate Failed(v: Viewer, n: nat) {
    exists k :: n <= k < |v.delivered| && v.delivered[k].result.None?
  }

  /** Every step but moving the brush, opening a source and losing the worker. */
  predicate LeavesBrush(step: Step) {
    !step.MoveBrush? && !step.OpenSource? && !step.StopReader?
  }

  // ------------------------------------------------------------ requests

  lemma DetailRequestedFollows(v: Viewer)
    requires IsUp(v.reader)
    ensures var v' := DetailRequested(v); DetailFollows(v'.core, v'.sent) && IsUp(v'.reader) && v'.delivered == v.delivered
  {
    var v', c := DetailRequested(v), v.core;
    if HasDetail(c) {
      var t := Tagged(v.nextGeneration, QueryDetail(CurrentCurves(c).value, SelectedViewport(c).value, v.detailWidth));
      assert v' == Submitted(v, t.request);
      BegunAsks(c, t.generation, DetailKind);
      hide SelectedViewport;
      assert v'.sent[|v.sent|] == t && AsksForBrush(v'.core, t);
    }
  }

  /** Awaiting something does not change what is asked for. */
  lemma BegunAsks(c: Core, generation: nat, kind: ReadKind)
    ensures var c' := Begun(c, generation, kind);
            && SelectedViewport(c') == SelectedViewport(c) && CurrentCurves(c') == CurrentCurves(c) && c'.detail == c.detail
  {
  }

  lemma OverviewRequestedFollows(v: Viewer)
    requires IsUp(v.reader)
    ensures var v' := OverviewRequested(v); DetailFollows(v'.core, v'.sent) && IsUp(v'.reader) && v'.delivered == v.delivered
  {
    hide SelectedViewport;
  }

  lemma CatalogRequestedFollows(v: Viewer)
    requires IsUp(v.reader) && DetailFollows(v.core, v.sent)
    ensures var v' := CatalogRequested(v); DetailFollows(v'.core, v'.sent) && IsUp(v'.reader) && v'.delivered == v.delivered
  {
    var v', c := CatalogRequested(v), v.core;
    BegunAsks(c, v.nextGeneration, CatalogKind);
    hide SelectedViewport, CurrentCurves;
    if AwaitsBrush(c, v.sent) {
      var j :| 0 <= j < |v.sent| && v.sent[j].generation == c.expected[DetailKind] && AsksForBrush(c, v.sent[j]);
      assert v'.sent[j] == v.sent[j] && AsksForBrush(v'.core, v'.sent[j]);
    }
  }

  lemma NothingToShowFollows(c: Core, sent: seq<Tagged>)
    requires c.brush.None? || CurrentCurves(c).None?
    ensures DetailFollows(c, sent)
  {
  }

  lemma SelectionFollows(c: Core, c': Core, sent: seq<Tagged>, project: Option<ProjectId>, run: RunId, metric: Option<MetricKey>, axis: Axis)
    requires DetailFollows(c, sent)
    requires c' == WithProject(c, project) || Some(c') == WithRunToggled(c, run) || c' == WithMetric(c, metric) || c' == WithAxis(c, axis)
    ensures DetailFollows(c', sent)
  {
    SelectionChangesClear(c, c', project, run, metric, axis);
    hide WithProject, WithRunToggled, WithMetric, WithAxis, SelectedViewport;
    if c' != c {
      NothingToShowFollows(c', sent);
    }
  }

  // ------------------------------------------------------------ results

  lemma NewFailure(v: Viewer, v': Viewer, n: nat)
    requires n <= |v.delivered| && v.events != [] && v'.delivered == v.delivered + [v.events[0]]
    ensures Failed(v, n) || v.events[0].result.None? ==> Failed(v', n)
  {
    if Failed(v, n) {
      var k :| n <= k < |v.delivered| && v.delivered[k].result.None?;
      assert v'.delivered[k].result.None?;
    } else if v.events[0].result.None? {
      assert v'.delivered[|v.delivered|].result.None?;
    }
  }

  /** A detail that arrives as awaited fills the viewport that was asked for. */
  lemma AwaitedDetailShows(v: Viewer)
    requires Inv(v) && v.events != [] && v.events[0].kind.DetailKind? && v.events[0].result.Some?
    requires AwaitsBrush(v.core, v.sent) && v.core.expected[DetailKind] == v.events[0].generation
    ensures v.events[0].result.value.Detail?
    ensures var snapshot := v.events[0].result.value.curves;
            SelectedViewport(v.core) == Some(snapshot.viewport) && CurrentCurves(v.core) == Some(snapshot.curves)
  {
    hide SelectedViewport, CurrentCurves;
    var e := v.events[0];
    assert AnswersSent(e, v.sent);
    var i :| 0 <= i < |v.sent| && Answers(e, v.sent[i]);
    var j :| 0 <= j < |v.sent| && v.sent[j].generation == v.core.expected[DetailKind] && AsksForBrush(v.core, v.sent[j]);
    assert i == j;
  }

  lemma DetailArrives(v: Viewer)
    requires Inv(v) && v.events != [] && v.events[0].kind.DetailKind? && v.events[0].result.Some? && DetailFollows(v.core, v.sent)
    requires DetailKind in v.core.expected && v.core.expected[DetailKind] == v.events[0].generation
    ensures DetailFollows(AppliedEvent(v.core, v.events[0]).0, v.sent)
  {
    var e, c := v.events[0], v.core;
    assert AnswersSent(e, v.sent);
    AnswerHasKind(e, v.sent);
    var c' := AppliedEvent(c, e).0;
    assert SelectedViewport(c') == SelectedViewport(c) && CurrentCurves(c') == CurrentCurves(c);
    assert OverviewKind in c'.expected <==> OverviewKind in c.expected;
    if HasDetail(c) && OverviewKind !in c.expected {
      AwaitedDetailShows(v);
    }
    hide SelectedViewport, CurrentCurves;
  }

  lemma ReceivedFollows(v: Viewer, n: nat)
    requires Inv(v) && IsUp(v.reader) && n <= |v.delivered| && v.events != []
    requires Failed(v, n) || DetailFollows(v.core, v.sent)
    ensures var v' := Received(v);
            IsUp(v'.reader) && n <= |v'.delivered| && (Failed(v', n) || DetailFollows(v'.core, v'.sent))
  {
    var e, v' := v.events[0], Received(v);
    ReceivedKeepsUp(v);
    NewFailure(v, v', n);
    assert AnswersSent(e, v.sent);
    AnswerHasKind(e, v.sent);
    if !Failed(v', n) {
      var (core, outcome) := AppliedEvent(v.core, e);
      var v1 := v.(core := core, events := v.events[1..], delivered := v.delivered + [e]);
      hide Failed, Inv, DetailFollows, AppliedCatalog, AppliedOverview;
      if !outcome.Applied? {
        assert v' == v1 && core == v.core;
      } else if e.kind.CatalogKind? {
        OverviewRequestedFollows(v1);
      } else if e.kind.OverviewKind? {
        DetailRequestedFollows(v1.(overviewRevision := e.generation));
      } else {
        DetailArrives(v);
      }
    }
  }

  lemma ReceivedKeepsUp(v: Viewer)
    requires IsUp(v.reader) && v.events != []
    ensures IsUp(Received(v).reader) && Received(v).delivered == v.delivered + [v.events[0]]
  {
    hide AppliedEvent, SelectedViewport;
  }

  // ------------------------------------------------------------ every step

  ghost predicate Follows(v: Viewer, n: nat) {
    IsUp(v.reader) && n <= |v.delivered| && (Failed(v, n) || DetailFollows(v.core, v.sent))
  }

  /** Requests on behalf of a changed core, or of none. */
  lemma RequestedFollows(v: Viewer, v1: Viewer, n: nat)
    requires Follows(v, n) && v1.reader == v.reader && v1.delivered == v.delivered && v1.sent == v.sent
    requires DetailFollows(v.core, v.sent) ==> DetailFollows(v1.core, v.sent)
    ensures Follows(v1, n) && Follows(CatalogRequested(v1), n) && Follows(OverviewRequested(v1), n) && Follows(DetailRequested(v1), n)
  {
    hide DetailFollows;
    DetailRequestedFollows(v1);
    OverviewRequestedFollows(v1);
    CatalogRequestedDelivers(v1);
    if DetailFollows(v1.core, v1.sent) {
      CatalogRequestedFollows(v1);
    }
  }

  lemma CatalogRequestedDelivers(v: Viewer)
    requires IsUp(v.reader)
    ensures IsUp(CatalogRequested(v).reader) && CatalogRequested(v).delivered == v.delivered
  {
  }

  lemma InterfaceFollows(v: Viewer, step: Step, v': Viewer, n: nat)
    requires Inv(v) && Follows(v, n) && LeavesBrush(step) && InterfaceStep(v, step) == Some(v')
    ensures Follows(v', n)
  {
    hide Inv, Follows, DetailFollows, WithProject, WithRunToggled, WithMetric, WithAxis, CatalogRequested, OverviewRequested, DetailRequested, Received;
    match step {
      case SelectProject(project) => SelectsFollows(v, WithProject(v.core, Some(project)), Some(project), "", None, StepAxis, n);
      case ToggleRun(run) =>
        if WithRunToggled(v.core, run).Some? { SelectsFollows(v, WithRunToggled(v.core, run).value, None, run, None, StepAxis, n); }
      case SelectMetric(metric) => SelectsFollows(v, WithMetric(v.core, Some(metric)), None, "", Some(metric), StepAxis, n);
      case SelectAxis(axis) => SelectsFollows(v, WithAxis(v.core, axis), None, "", None, axis, n);
      case Refresh => RequestedFollows(v, v, n);
      case ResetView => ResetFollows(v, n);
      case CommitBrush => RequestedFollows(v, v, n);
      case ResizeOverview(width) => RequestedFollows(v, v.(overviewWidth := width), n);
      case ResizeDetail(width) => RequestedFollows(v, v.(detailWidth := width), n);
      case Receive => ReceivesFollows(v, n);
      case _ =>
    }
  }

  lemma SelectsFollows(v: Viewer, core: Core, project: Option<ProjectId>, run: RunId, metric: Option<MetricKey>, axis: Axis, n: nat)
    requires Follows(v, n)
    requires core == WithProject(v.core, project) || Some(core) == WithRunToggled(v.core, run) || core == WithMetric(v.core, metric) || core == WithAxis(v.core, axis)
    ensures Follows(v.(core := core), n) && Follows(CatalogRequested(v.(core := core)), n) && Follows(OverviewRequested(v.(core := core)), n)
  {
    hide DetailFollows, WithProject, WithRunToggled, WithMetric, WithAxis;
    if DetailFollows(v.core, v.sent) {
      SelectionFollows(v.core, core, v.sent, project, run, metric, axis);
    }
    RequestedFollows(v, v.(core := core), n);
  }

  lemma ResetFollows(v: Viewer, n: nat)
    requires Follows(v, n)
    ensures Follows(InterfaceStep(v, ResetView).value, n)
  {
    hide DetailFollows, DetailRequested;
    if v.core.brush.Some? {
      DetailRequestedFollows(v.(core := v.core.(brush := Some(v.core.brush.value.(selected := v.core.brush.value.home)))));
    }
  }

  lemma ReceivesFollows(v: Viewer, n: nat)
    requires Inv(v) && Follows(v, n) && v.events != []
    ensures Follows(Received(v), n)
  {
    hide Inv, DetailFollows, Received;
    ReceivedFollows(v, n);
  }

  lemma ReaderFollows(v: Viewer, step: Step, v': Viewer, n: nat)
    requires Follows(v, n) && LeavesBrush(step) && ReaderStep(v, step) == Some(v')
    ensures Follows(v', n)
  {
    hide DetailFollows;
  }

  lemma {:induction false} RunFollows(v: Viewer, steps: seq<Step>, v': Viewer, n: nat)
    requires Inv(v) && Follows(v, n) && Run(v, steps) == Some(v') && forall k :: 0 <= k < |steps| ==> LeavesBrush(steps[k])
    ensures Inv(v') && Follows(v', n)
    decreases |steps|
  {
    hide Inv, Follows, ReaderStep, InterfaceStep;
    if steps != [] {
      var next := Next(v, steps[0]).value;
      NextKeeps(v, steps[0], next);
      if OfReader(steps[0]) { ReaderFollows(v, steps[0], next, n); } else { InterfaceFollows(v, steps[0], next, n); }
      RunFollows(next, steps[1..], v', n);
    }
  }

  /**
    After a brush is committed: once nothing is under way, if the worker did not
    stop, no result failed and the brush was not moved again, the shown detail
    fills the viewport of the current brush, with the current curves, whatever
    else was selected, refreshed or resized in between.
   */
  lemma CommittedBrushIsShown(v: Viewer, steps: seq<Step>, v': Viewer)
    requires Reachable(v) && IsUp(v.reader) && Run(v, [CommitBrush] + steps) == Some(v')
    requires (forall k :: 0 <= k < |steps| ==> LeavesBrush(steps[k])) && Quiet(v') && !Failed(v', |v.delivered|)
    ensures HasDetail(v'.core) ==> ShowsBrush(v'.core)
  {
    ReachableInv(v);
    var v1 := DetailRequested(v);
    DetailRequestedFollows(v);
    DetailRequestedKeeps(v);
    CommitFirst(v, steps);
    assert Follows(v1, |v.delivered|);
    hide Inv, DetailRequested, DetailFollows, Reachable, Run, HasDetail, ShowsBrush, Quiet;
    RunFollows(v1, steps, v', |v.delivered|);
    QuietAfter(v');
  }

  lemma CommitFirst(v: Viewer, steps: seq<Step>)
    ensures Run(v, [CommitBrush] + steps) == Run(DetailRequested(v), steps)
  {
    hide DetailRequested;
    assert ([CommitBrush] + steps)[1..] == steps;
  }

  lemma QuietAfter(v: Viewer)
    requires Inv(v) && Quiet(v) && DetailFollows(v.core, v.sent)
    ensures HasDetail(v.core) ==> ShowsBrush(v.core)
  {
    QuietIsSettled(v);
    hide HasDetail, ShowsBrush, Inv;
  }
}
