/**
  What holds in every reachable state of the viewer: shown and awaited curves
  belong to the current selection, the newest request of each kind is never
  dropped, and when everything is executed and applied nothing is awaited.
 */
module ViewerTheorems {
  import opened Values
  import opened Rendering
  import opened ViewerCore
  import opened ViewerPipeline
  import B = Brush

  // ------------------------------------------------------------ where a request is

  function Gens(ts: seq<Tagged>, kind: ReadKind): seq<nat> {
    if ts == [] then []
    else Gens(ts[..|ts| - 1], kind) + (if ts[|ts| - 1].request.Kind() == kind then [ts[|ts| - 1].generation] else [])
  }

  function EventGens(es: seq<ReadEvent>, kind: ReadKind): seq<nat> {
    if es == [] then []
    else EventGens(es[..|es| - 1], kind) + (if es[|es| - 1].kind == kind then [es[|es| - 1].generation] else [])
  }

  function SlotGens(p: Pending, kind: ReadKind): seq<nat> {
    if Slot(p, kind).Some? then [Slot(p, kind).value.generation] else []
  }

  function ReaderGens(r: Reader, kind: ReadKind): seq<nat> {
    match r
    case Draining(p) => SlotGens(p, kind)
    case Taking(p) => SlotGens(p, kind)
    case Executing(p, t) => (if t.request.Kind() == kind then [t.generation] else []) + SlotGens(p, kind)
    case _ => []
  }

  /** The requests of one kind on their way: applied or ignored, queued as events, at the worker, queued as requests. */
  function Flow(v: Viewer, kind: ReadKind): seq<nat> {
    EventGens(v.delivered, kind) + (EventGens(v.events, kind) + (ReaderGens(v.reader, kind) + Gens(v.requests, kind)))
  }

  lemma {:induction false} GensConcat(a: seq<Tagged>, b: seq<Tagged>, kind: ReadKind)
    ensures Gens(a + b, kind) == Gens(a, kind) + Gens(b, kind)
    decreases |b|
  {
    if b == [] {
      assert a + b == a;
    } else {
      assert (a + b)[..|a + b| - 1] == a + b[..|b| - 1];
      GensConcat(a, b[..|b| - 1], kind);
    }
  }

  lemma {:induction false} EventGensConcat(a: seq<ReadEvent>, b: seq<ReadEvent>, kind: ReadKind)
    ensures EventGens(a + b, kind) == EventGens(a, kind) + EventGens(b, kind)
    decreases |b|
  {
    if b == [] {
      assert a + b == a;
    } else {
      assert (a + b)[..|a + b| - 1] == a + b[..|b| - 1];
      EventGensConcat(a, b[..|b| - 1], kind);
    }
  }

  lemma GensOne(t: Tagged, kind: ReadKind)
    ensures Gens([t], kind) == if t.request.Kind() == kind then [t.generation] else []
  {
    assert [t][..0] == [];
  }

  lemma HeadGens(ts: seq<Tagged>, kind: ReadKind)
    requires ts != []
    ensures Gens(ts, kind) == (if ts[0].request.Kind() == kind then [ts[0].generation] else []) + Gens(ts[1..], kind)
  {
    GensConcat([ts[0]], ts[1..], kind);
    GensOne(ts[0], kind);
    assert [ts[0]] + ts[1..] == ts;
  }

  lemma EventGensOne(e: ReadEvent, kind: ReadKind)
    ensures EventGens([e], kind) == if e.kind == kind then [e.generation] else []
  {
    assert [e][..0] == [];
  }

  predicate Ascending(s: seq<nat>) {
    forall i, j :: 0 <= i < j < |s| ==> s[i] < s[j]
  }

  /** `s` with one number left out that is not the last, or `s` itself. */
  ghost predicate Thinned(s: seq<nat>, s': seq<nat>) {
    s' == s || exists a, g, b :: s == a + [g] + b && s' == a + b && b != []
  }

  lemma ThinnedAscends(s: seq<nat>, s': seq<nat>)
    requires Ascending(s) && Thinned(s, s')
    ensures Ascending(s') && (s == [] <==> s' == []) && (s != [] ==> s[|s| - 1] == s'[|s'| - 1])
  {
    if s' != s {
      var a, g, b :| s == a + [g] + b && s' == a + b && b != [];
      forall i, j | 0 <= i < j < |s'| ensures s'[i] < s'[j] {
        var k, l := if i < |a| then i else i + 1, if j < |a| then j else j + 1;
        assert s[k] == s'[i] && s[l] == s'[j];
      }
    }
  }

  // ------------------------------------------------------------ the invariant

  /** The event answers the request: its kind, its generation, and curves of its selection. */
  predicate Answers(e: ReadEvent, t: Tagged) {
    && e.generation == t.generation && e.kind == t.request.Kind()
    && (e.result.Some? ==> e.result.value.Kind() == e.kind)
    && (e.result.Some? && e.kind.OverviewKind? ==> t.request.QueryOverview? && e.result.value.curves.curves == t.request.selection)
    && (e.result.Some? && e.kind.DetailKind? ==>
          t.request.QueryDetail? && e.result.value.curves.curves == t.request.selection && e.result.value.curves.viewport == t.request.viewport)
  }

  ghost predicate AnswersSent(e: ReadEvent, sent: seq<Tagged>) {
    exists j :: 0 <= j < |sent| && Answers(e, sent[j])
  }

  predicate WasSent(t: Tagged, sent: seq<Tagged>) {
    t in sent
  }

  ghost predicate SlotsSent(p: Pending, sent: seq<Tagged>) {
    forall kind :: Slot(p, kind).Some? ==> WasSent(Slot(p, kind).value, sent) && Slot(p, kind).value.request.Kind() == kind
  }

  /** Everything under way was submitted, and every event answers a submitted request. */
  ghost predicate Known(v: Viewer) {
    && (forall i :: 0 <= i < |v.requests| ==> WasSent(v.requests[i], v.sent))
    && (match v.reader
        case Draining(p) => SlotsSent(p, v.sent)
        case Taking(p) => SlotsSent(p, v.sent)
        case Executing(p, t) => SlotsSent(p, v.sent) && WasSent(t, v.sent)
        case _ => true)
    && (forall i :: 0 <= i < |v.events| ==> AnswersSent(v.events[i], v.sent))
  }

  /** Generations are given out in order. */
  ghost predicate Counted(v: Viewer) {
    && (forall i, j :: 0 <= i < j < |v.sent| ==> v.sent[i].generation < v.sent[j].generation)
    && (forall i :: 0 <= i < |v.sent| ==> v.sent[i].generation < v.nextGeneration)
  }

  predicate AsksForCurrent(c: Core, t: Tagged) {
    match t.request
    case Discover(_, _) => true
    case QueryOverview(curves, _) => CurrentCurves(c) == Some(curves)
    case QueryDetail(curves, _, _) => CurrentCurves(c) == Some(curves)
  }

  /** The awaited generation of a stream belongs to a request of its kind for the current curves. */
  ghost predicate AwaitsCurrent(c: Core, sent: seq<Tagged>, kind: ReadKind) {
    kind in c.expected ==>
      exists j :: 0 <= j < |sent| && sent[j].generation == c.expected[kind] && sent[j].request.Kind() == kind && AsksForCurrent(c, sent[j])
  }

  /** A stream awaits the newest request of its kind, which has not been applied or ignored yet. */
  ghost predicate AwaitsNewest(v: Viewer, kind: ReadKind) {
    kind in v.core.expected ==>
      && Gens(v.sent, kind) != [] && v.core.expected[kind] == Gens(v.sent, kind)[|Gens(v.sent, kind)| - 1]
      && v.core.expected[kind] !in EventGens(v.delivered, kind)
  }

  predicate FlowsTo(flow: seq<nat>, sent: seq<nat>, next: nat, stopped: bool) {
    && Ascending(flow)
    && (forall i :: 0 <= i < |flow| ==> flow[i] < next)
    && (!stopped && sent != [] ==> flow != [] && flow[|flow| - 1] == sent[|sent| - 1])
  }

  /** The flow of one kind ascends, and ends with the newest request, which no coalescing dropped. */
  predicate Flowing(v: Viewer, kind: ReadKind) {
    FlowsTo(Flow(v, kind), Gens(v.sent, kind), v.nextGeneration, v.reader.Stopped?)
  }

  ghost predicate StreamInv(v: Viewer, kind: ReadKind) {
    AwaitsCurrent(v.core, v.sent, kind) && AwaitsNewest(v, kind) && Flowing(v, kind)
  }

  ghost predicate Inv(v: Viewer) {
    && ShowsCurrent(v.core) && Known(v) && Counted(v)
    && (v.reader.NoReader? ==> v.sent == [] && v.requests == [] && v.events == [])
    && forall kind :: StreamInv(v, kind)
  }

  // ------------------------------------------------------------ submitting

  lemma NewestAfter(ts: seq<Tagged>, t: Tagged, kind: ReadKind)
    ensures Gens(ts + [t], kind) == if t.request.Kind() == kind then Gens(ts, kind) + [t.generation] else Gens(ts, kind)
  {
    GensConcat(ts, [t], kind);
    GensOne(t, kind);
  }

  predicate IsUp(r: Reader) {
    !r.NoReader? && !r.Stopped?
  }

  lemma FlowOfSubmitted(v: Viewer, request: Request, kind: ReadKind)
    requires IsUp(v.reader)
    ensures Flow(Submitted(v, request), kind) == if request.Kind() == kind then Flow(v, kind) + [v.nextGeneration] else Flow(v, kind)
  {
    var t := Tagged(v.nextGeneration, request);
    NewestAfter(v.requests, t, kind);
    hide Gens, EventGens, ReaderGens;
    var a, b, c, d := EventGens(v.delivered, kind), EventGens(v.events, kind), ReaderGens(v.reader, kind), Gens(v.requests, kind);
    if request.Kind() == kind {
      assert a + (b + (c + (d + [t.generation]))) == a + (b + (c + d)) + [t.generation];
    }
  }

  lemma FlowAppends(flow: seq<nat>, sent: seq<nat>, next: nat)
    requires FlowsTo(flow, sent, next, false)
    ensures FlowsTo(flow + [next], sent + [next], next + 1, false) && FlowsTo(flow, sent, next + 1, false)
  {
  }

  lemma SubmittedFlows(v: Viewer, request: Request, kind: ReadKind)
    requires Flowing(v, kind) && IsUp(v.reader)
    ensures Flowing(Submitted(v, request), kind)
  {
    hide *;
    var v' := Submitted(v, request);
    SubmittedTraffic(v, request, kind);
    FlowingWhileUp(v, kind);
    FlowingWhileUp(v', kind);
    FlowAppends(Flow(v, kind), Gens(v.sent, kind), v.nextGeneration);
  }

  lemma FlowingWhileUp(v: Viewer, kind: ReadKind)
    requires IsUp(v.reader)
    ensures Flowing(v, kind) <==> FlowsTo(Flow(v, kind), Gens(v.sent, kind), v.nextGeneration, false)
  {
    hide FlowsTo, Flow, Gens;
  }

  lemma SubmittedTraffic(v: Viewer, request: Request, kind: ReadKind)
    requires IsUp(v.reader)
    ensures var v' := Submitted(v, request);
            && v'.nextGeneration == v.nextGeneration + 1 && v'.reader == v.reader && !v.reader.Stopped?
            && Gens(v'.sent, kind) == (if request.Kind() == kind then Gens(v.sent, kind) + [v.nextGeneration] else Gens(v.sent, kind))
            && Flow(v', kind) == (if request.Kind() == kind then Flow(v, kind) + [v.nextGeneration] else Flow(v, kind))
  {
    FlowOfSubmitted(v, request, kind);
    NewestAfter(v.sent, Tagged(v.nextGeneration, request), kind);
    hide Flow, Gens;
  }

  lemma DeliveredIsOld(v: Viewer, kind: ReadKind)
    requires Flowing(v, kind)
    ensures v.nextGeneration !in EventGens(v.delivered, kind)
  {
    var a := EventGens(v.delivered, kind);
    assert forall i :: 0 <= i < |a| ==> Flow(v, kind)[i] == a[i];
  }

  lemma SubmittedAwaits(v: Viewer, request: Request, kind: ReadKind)
    requires Flowing(v, kind) && AwaitsNewest(v, kind) && AwaitsCurrent(v.core, v.sent, kind) && IsUp(v.reader)
    requires AsksForCurrent(v.core, Tagged(v.nextGeneration, request))
    ensures var v' := Submitted(v, request); AwaitsNewest(v', kind) && AwaitsCurrent(v'.core, v'.sent, kind)
  {
    var v', t := Submitted(v, request), Tagged(v.nextGeneration, request);
    NewestAfter(v.sent, t, kind);
    DeliveredIsOld(v, kind);
    assert CurrentCurves(v'.core) == CurrentCurves(v.core);
    if kind == request.Kind() {
      assert v'.sent[|v.sent|] == t;
    } else if kind in v.core.expected {
      var j :| 0 <= j < |v.sent| && v.sent[j].generation == v.core.expected[kind] && v.sent[j].request.Kind() == kind && AsksForCurrent(v.core, v.sent[j]);
      assert v'.sent[j] == v.sent[j] && AsksForCurrent(v'.core, v'.sent[j]);
    }
  }

  lemma SubmittedIsKnown(v: Viewer, request: Request)
    requires Known(v) && Counted(v) && IsUp(v.reader)
    ensures Known(Submitted(v, request)) && Counted(Submitted(v, request))
  {
    var v' := Submitted(v, request);
    assert v'.sent[..|v.sent|] == v.sent;
    forall i | 0 <= i < |v'.requests| ensures WasSent(v'.requests[i], v'.sent) {
      if i < |v.requests| { assert WasSent(v.requests[i], v.sent); } else { assert v'.sent[|v.sent|] == v'.requests[i]; }
    }
    forall e | AnswersSent(e, v.sent) ensures AnswersSent(e, v'.sent) {
      var j :| 0 <= j < |v.sent| && Answers(e, v.sent[j]);
      assert Answers(e, v'.sent[j]);
    }
  }

  /** Submitting a request for the current curves keeps the invariant. */
  lemma SubmittedKeeps(v: Viewer, request: Request)
    requires Inv(v) && AsksForCurrent(v.core, Tagged(v.nextGeneration, request))
    ensures Inv(Submitted(v, request))
  {
    hide Flowing, AwaitsNewest, AwaitsCurrent, Known, Counted, AsksForCurrent;
    var v' := Submitted(v, request);
    if IsUp(v.reader) {
      SubmittedIsKnown(v, request);
      forall kind ensures StreamInv(v', kind) {
        assert StreamInv(v, kind);
        SubmittedFlows(v, request, kind);
        SubmittedAwaits(v, request, kind);
      }
    } else if v.reader.Stopped? {
      SkippedGeneration(v);
    }
  }

  lemma SkippedGeneration(v: Viewer)
    requires Inv(v)
    ensures Inv(v.(nextGeneration := v.nextGeneration + 1))
  {
    var v' := v.(nextGeneration := v.nextGeneration + 1);
    forall kind ensures StreamInv(v', kind) {
      assert StreamInv(v, kind);
      assert Flow(v', kind) == Flow(v, kind);
    }
  }

  // ------------------------------------------------------------ changes of the core

  /** The new core awaits no more than the old one, and shows and awaits only current curves. */
  ghost predicate Narrows(c: Core, c': Core) {
    && ShowsCurrent(c')
    && (forall kind :: kind in c'.expected ==> kind in c.expected && c'.expected[kind] == c.expected[kind])
    && (OverviewKind in c'.expected || DetailKind in c'.expected ==> CurrentCurves(c') == CurrentCurves(c))
  }

  lemma NarrowedAwaits(c: Core, c': Core, sent: seq<Tagged>, kind: ReadKind)
    requires AwaitsCurrent(c, sent, kind) && Narrows(c, c')
    ensures AwaitsCurrent(c', sent, kind)
  {
    if kind in c'.expected {
      var j :| 0 <= j < |sent| && sent[j].generation == c.expected[kind] && sent[j].request.Kind() == kind && AsksForCurrent(c, sent[j]);
      assert AsksForCurrent(c', sent[j]);
    }
  }

  predicate SameTraffic(v: Viewer, v': Viewer) {
    && v'.nextGeneration == v.nextGeneration && v'.requests == v.requests && v'.reader == v.reader
    && v'.events == v.events && v'.sent == v.sent && v'.delivered == v.delivered
  }

  lemma CoreKeeps(v: Viewer, v': Viewer)
    requires Inv(v) && SameTraffic(v, v') && Narrows(v.core, v'.core)
    ensures Inv(v')
  {
    hide Flow, AwaitsCurrent;
    forall kind ensures StreamInv(v', kind) {
      assert StreamInv(v, kind);
      NarrowedAwaits(v.core, v'.core, v.sent, kind);
      assert Flow(v', kind) == Flow(v, kind) by { SameFlow(v, v', kind); }
    }
  }

  lemma SameFlow(v: Viewer, v': Viewer, kind: ReadKind)
    requires SameTraffic(v, v')
    ensures Flow(v', kind) == Flow(v, kind)
  {
  }

  lemma SelectionNarrows(c: Core, c': Core, project: Option<ProjectId>, run: RunId, metric: Option<MetricKey>, axis: Axis)
    requires ShowsCurrent(c)
    requires c' == WithProject(c, project) || Some(c') == WithRunToggled(c, run) || c' == WithMetric(c, metric) || c' == WithAxis(c, axis)
    ensures Narrows(c, c')
  {
    SelectionChangesClear(c, c', project, run, metric, axis);
    forall kind | kind in c'.expected ensures kind in c.expected && c'.expected[kind] == c.expected[kind] {
      if c' != c { assert kind == CatalogKind; }
    }
  }

  lemma CatalogRequestedKeeps(v: Viewer)
    requires Inv(v)
    ensures Inv(CatalogRequested(v))
  {
    hide Inv;
    SubmittedKeeps(v, Discover(v.core.selection.project, v.core.selection.runs));
  }

  lemma OverviewRequestedKeeps(v: Viewer)
    requires Inv(v)
    ensures Inv(OverviewRequested(v))
  {
    hide Inv;
    if CurrentCurves(v.core).Some? {
      SubmittedKeeps(v, QueryOverview(CurrentCurves(v.core).value, v.overviewWidth));
    }
  }

  lemma DetailRequestedKeeps(v: Viewer)
    requires Inv(v)
    ensures Inv(DetailRequested(v))
  {
    hide Inv, SelectedViewport;
    if CurrentCurves(v.core).Some? && SelectedViewport(v.core).Some? {
      SubmittedKeeps(v, QueryDetail(CurrentCurves(v.core).value, SelectedViewport(v.core).value, v.detailWidth));
    }
  }

  // ------------------------------------------------------------ receiving

  lemma AnsweredIsCurrent(v: Viewer, e: ReadEvent)
    requires Inv(v) && AnswersSent(e, v.sent) && e.result.Some? && !e.kind.CatalogKind?
    requires e.kind in v.core.expected && v.core.expected[e.kind] == e.generation
    ensures !e.result.value.Catalog? && CurrentCurves(v.core) == Some(e.result.value.curves.curves)
  {
    assert StreamInv(v, e.kind);
    var i :| 0 <= i < |v.sent| && Answers(e, v.sent[i]);
    var j :| 0 <= j < |v.sent| && v.sent[j].generation == v.core.expected[e.kind] && v.sent[j].request.Kind() == e.kind && AsksForCurrent(v.core, v.sent[j]);
    assert i == j;
  }

  /** Applying an answer to what was awaited narrows what is awaited, and never meets a mismatched payload. */
  lemma AppliedNarrows(c: Core, e: ReadEvent)
    requires ShowsCurrent(c) && (e.result.Some? ==> e.result.value.Kind() == e.kind)
    requires e.kind in c.expected && c.expected[e.kind] == e.generation && e.result.Some? && !e.kind.CatalogKind? ==>
               !e.result.value.Catalog? && CurrentCurves(c) == Some(e.result.value.curves.curves)
    ensures var (c', outcome) := AppliedEvent(c, e);
            && Narrows(c, c') && !outcome.IgnoredMismatched?
            && (e.kind in c'.expected ==> c'.expected[e.kind] != e.generation)
  {
    hide Home;
    if e.kind in c.expected && c.expected[e.kind] == e.generation && e.result.Some? && e.kind.CatalogKind? {
      CatalogKeepsOrClears(c.(expected := c.expected - {e.kind}), e.result.value.catalog);
    }
  }

  function Moved(v: Viewer): Viewer
    requires v.events != []
  {
    v.(events := v.events[1..], delivered := v.delivered + [v.events[0]])
  }

  lemma MovedFlow(v: Viewer, kind: ReadKind)
    requires v.events != []
    ensures Flow(Moved(v), kind) == Flow(v, kind)
    ensures EventGens(Moved(v).delivered, kind) == EventGens(v.delivered, kind) + (if v.events[0].kind == kind then [v.events[0].generation] else [])
  {
    var e, rest := [v.events[0]], v.events[1..];
    EventGensConcat(v.delivered, e, kind);
    EventGensConcat(e, rest, kind);
    EventGensOne(v.events[0], kind);
    assert e + rest == v.events;
    hide Gens, EventGens, ReaderGens;
    RegroupMove(EventGens(v.delivered, kind), EventGens(e, kind), EventGens(rest, kind), ReaderGens(v.reader, kind) + Gens(v.requests, kind));
  }

  lemma RegroupMove(a: seq<nat>, e: seq<nat>, b: seq<nat>, c: seq<nat>)
    ensures (a + e) + (b + c) == a + ((e + b) + c)
  {
  }

  lemma MovedStream(v: Viewer, kind: ReadKind)
    requires StreamInv(v, kind) && v.events != [] && Flow(Moved(v), kind) == Flow(v, kind)
    requires EventGens(Moved(v).delivered, kind) == EventGens(v.delivered, kind) + (if v.events[0].kind == kind then [v.events[0].generation] else [])
    requires v.events[0].kind in v.core.expected ==> v.core.expected[v.events[0].kind] != v.events[0].generation
    ensures StreamInv(Moved(v), kind)
  {
    hide Flow, AwaitsCurrent, EventGens, Gens;
  }

  lemma MovedKeeps(v: Viewer)
    requires Inv(v) && v.events != []
    requires v.events[0].kind in v.core.expected ==> v.core.expected[v.events[0].kind] != v.events[0].generation
    ensures Inv(Moved(v))
  {
    forall kind ensures StreamInv(Moved(v), kind) {
      assert StreamInv(v, kind);
      MovedFlow(v, kind);
      MovedStream(v, kind);
    }
    hide StreamInv, ShowsCurrent;
    forall i | 0 <= i < |v.events| - 1 ensures AnswersSent(v.events[1..][i], v.sent) {
      assert AnswersSent(v.events[i + 1], v.sent);
    }
  }

  lemma ReceivedKeeps(v: Viewer)
    requires Inv(v) && v.events != []
    ensures Inv(Received(v))
    ensures !AppliedEvent(v.core, v.events[0]).1.IgnoredMismatched?
  {
    var e := v.events[0];
    var (core, outcome) := AppliedEvent(v.core, e);
    assert AnswersSent(e, v.sent);
    AnswerHasKind(e, v.sent);
    if e.kind in v.core.expected && v.core.expected[e.kind] == e.generation && e.result.Some? && !e.kind.CatalogKind? {
      AnsweredIsCurrent(v, e);
    }
    AppliedNarrows(v.core, e);
    var v1 := v.(core := core);
    CoreKeeps(v, v1);
    MovedKeeps(v1);
    var v2 := Moved(v1);
    hide Inv, AppliedEvent, Narrows, FollowedUp;
    if outcome.Applied? && e.result.Some? {
      FollowUpKeeps(v2, e);
    }
  }

  lemma AnswerHasKind(e: ReadEvent, sent: seq<Tagged>)
    requires AnswersSent(e, sent)
    ensures e.result.Some? ==> e.result.value.Kind() == e.kind
  {
  }

  lemma FollowUpKeeps(v: Viewer, e: ReadEvent)
    requires Inv(v)
    ensures Inv(FollowedUp(v, e))
  {
    CoreKeeps(v, v.(overviewRevision := e.generation));
    CoreKeeps(v, v.(detailRevision := e.generation));
    OverviewRequestedKeeps(v);
    hide Inv;
    DetailRequestedKeeps(v.(overviewRevision := e.generation));
  }

  // ------------------------------------------------------------ the worker

  /** What a push of `x` makes of a slot's `c`. */
  predicate Coalesced(c: seq<nat>, x: seq<nat>, c': seq<nat>) {
    || (c' == c && x == [])
    || (c' == x && |x| == 1 && |c| <= 1)
    || (c' == c && |c| == 1 && |x| == 1 && x[0] < c[0])
  }

  lemma PushedSlots(p: Pending, t: Tagged, kind: ReadKind)
    ensures Coalesced(SlotGens(p, kind), if t.request.Kind() == kind then [t.generation] else [], SlotGens(Pushed(p, t), kind))
  {
  }

  /** The first queued request goes to the worker; at most an older one of its kind is dropped for it. */
  lemma PushedFlow(v: Viewer, v': Viewer, p: Pending, kind: ReadKind)
    requires v.requests != [] && Flowing(v, kind)
    requires v' == v.(reader := Draining(Pushed(p, v.requests[0])), requests := v.requests[1..])
    requires ReaderGens(v.reader, kind) == SlotGens(p, kind)
    ensures Thinned(Flow(v, kind), Flow(v', kind))
  {
    var t := v.requests[0];
    HeadGens(v.requests, kind);
    PushedSlots(p, t, kind);
    assert ReaderGens(v'.reader, kind) == SlotGens(Pushed(p, t), kind);
    hide Gens, EventGens, Pushed, SlotGens, ReaderGens, Ascending;
    ThinnedParts(Flow(v, kind), Flow(v', kind), EventGens(v.delivered, kind), EventGens(v.events, kind), SlotGens(p, kind),
                 if t.request.Kind() == kind then [t.generation] else [], SlotGens(Pushed(p, t), kind), Gens(v.requests[1..], kind));
  }

  lemma ThinnedParts(s: seq<nat>, s': seq<nat>, a: seq<nat>, b: seq<nat>, c: seq<nat>, x: seq<nat>, c': seq<nat>, d: seq<nat>)
    requires s == a + (b + (c + (x + d))) && s' == a + (b + (c' + d)) && Ascending(s)
    requires Coalesced(c, x, c')
    ensures Thinned(s, s')
  {
    if c' == c && x == [] {
      assert x + d == d;
    } else if c' == x && c == [] {
      assert c + (x + d) == x + d;
    } else {
      assert s[|a| + |b|] == c[0] && s[|a| + |b| + 1] == x[0];
      assert s == (a + b) + [c[0]] + (x + d) && s' == (a + b) + (x + d);
    }
  }

  lemma ThinnedKeeps(v: Viewer, v': Viewer, kind: ReadKind)
    requires StreamInv(v, kind) && Thinned(Flow(v, kind), Flow(v', kind))
    requires v'.core == v.core && v'.sent == v.sent && v'.delivered == v.delivered && v'.nextGeneration == v.nextGeneration
    requires v'.reader.Stopped? || !v.reader.Stopped?
    ensures StreamInv(v', kind)
  {
    hide Flow, AwaitsCurrent, Gens, EventGens;
    ThinnedAscends(Flow(v, kind), Flow(v', kind));
    var s, s' := Flow(v, kind), Flow(v', kind);
    forall i | 0 <= i < |s'| ensures s'[i] < v.nextGeneration {
      assert s'[i] <= s'[|s'| - 1];
    }
  }

  lemma PushedKeeps(v: Viewer, v': Viewer, p: Pending)
    requires Inv(v) && v.requests != [] && SlotsSent(p, v.sent) && IsUp(v.reader)
    requires v' == v.(reader := Draining(Pushed(p, v.requests[0])), requests := v.requests[1..])
    requires forall kind :: ReaderGens(v.reader, kind) == SlotGens(p, kind)
    ensures Inv(v')
  {
    assert WasSent(v.requests[0], v.sent);
    forall kind ensures StreamInv(v', kind) {
      assert StreamInv(v, kind);
      PushedFlow(v, v', p, kind);
      ThinnedKeeps(v, v', kind);
    }
    hide StreamInv, ShowsCurrent;
    PushedIsSent(p, v.requests[0], v.sent);
    forall i | 0 <= i < |v'.requests| ensures WasSent(v'.requests[i], v.sent) {
      assert WasSent(v.requests[i + 1], v.sent);
    }
    assert Known(v');
  }

  lemma PushedIsSent(p: Pending, t: Tagged, sent: seq<Tagged>)
    requires SlotsSent(p, sent) && WasSent(t, sent)
    ensures SlotsSent(Pushed(p, t), sent)
  {
    var p' := Pushed(p, t);
    forall kind | Slot(p', kind).Some? ensures WasSent(Slot(p', kind).value, sent) && Slot(p', kind).value.request.Kind() == kind {
      assert Slot(p', kind) == Slot(p, kind) || (kind == t.request.Kind() && Slot(p', kind) == Some(t));
    }
  }

  lemma TakenFlow(p: Pending, kind: ReadKind)
    requires forall k :: Slot(p, k).Some? ==> Slot(p, k).value.request.Kind() == k
    ensures match Taken(p)
            case None => SlotGens(p, kind) == []
            case Some((t, rest)) => ReaderGens(Executing(rest, t), kind) == SlotGens(p, kind)
  {
    assert Slot(p, CatalogKind) == p.discover && Slot(p, OverviewKind) == p.overview && Slot(p, DetailKind) == p.detail;
  }

  lemma TakenIsSent(p: Pending, sent: seq<Tagged>)
    requires SlotsSent(p, sent) && Taken(p).Some?
    ensures WasSent(Taken(p).value.0, sent) && SlotsSent(Taken(p).value.1, sent)
  {
    assert Slot(p, CatalogKind) == p.discover && Slot(p, OverviewKind) == p.overview && Slot(p, DetailKind) == p.detail;
    var rest := Taken(p).value.1;
    assert forall kind :: Slot(rest, kind).Some? ==> Slot(rest, kind) == Slot(p, kind);
  }

  lemma ReaderMoves(v: Viewer, reader: Reader)
    requires Inv(v) && IsUp(v.reader) && IsUp(reader) && Known(v.(reader := reader))
    requires forall kind :: ReaderGens(reader, kind) == ReaderGens(v.reader, kind)
    ensures Inv(v.(reader := reader))
  {
    var v' := v.(reader := reader);
    hide Known, ShowsCurrent;
    forall kind ensures StreamInv(v', kind) {
      assert StreamInv(v, kind);
      assert ReaderGens(reader, kind) == ReaderGens(v.reader, kind);
      assert Flow(v', kind) == Flow(v, kind);
      ThinnedKeeps(v, v', kind);
    }
  }

  lemma TakePendingKeeps(v: Viewer)
    requires Inv(v) && v.reader.Taking?
    ensures Inv(ReaderStep(v, TakePending).value)
  {
    var p := v.reader.pending;
    forall kind ensures match Taken(p) case None => SlotGens(p, kind) == [] case Some((t, rest)) => ReaderGens(Executing(rest, t), kind) == SlotGens(p, kind) {
      TakenFlow(p, kind);
    }
    if Taken(p).None? {
      ReaderMoves(v, Waiting);
    } else {
      TakenIsSent(p, v.sent);
      ReaderMoves(v, Executing(Taken(p).value.1, Taken(p).value.0));
    }
  }

  lemma ExecutedFlow(v: Viewer, answer: Answer, kind: ReadKind)
    requires v.reader.Executing?
    ensures Flow(ReaderStep(v, Execute(answer)).value, kind) == Flow(v, kind)
  {
    var e, v' := Executed(v.reader.current, answer), ReaderStep(v, Execute(answer)).value;
    ExecutedMoves(v, answer);
    ExecutedGens(v.reader, answer, kind);
    hide Gens, EventGens, Executed, SlotGens, ReaderGens, ReaderStep;
    EventGensConcat(v.events, [e], kind);
    Regroup(EventGens(v.delivered, kind), EventGens(v.events, kind), EventGens([e], kind), SlotGens(v.reader.pending, kind), Gens(v.requests, kind));
  }

  lemma ExecutedMoves(v: Viewer, answer: Answer)
    requires v.reader.Executing?
    ensures ReaderStep(v, Execute(answer))
            == Some(v.(events := v.events + [Executed(v.reader.current, answer)], reader := Draining(v.reader.pending)))
  {
  }

  /** The request under execution leaves the reader as an event. */
  lemma ExecutedGens(r: Reader, answer: Answer, kind: ReadKind)
    requires r.Executing?
    ensures ReaderGens(r, kind) == EventGens([Executed(r.current, answer)], kind) + SlotGens(r.pending, kind)
    ensures ReaderGens(Draining(r.pending), kind) == SlotGens(r.pending, kind)
  {
    EventGensOne(Executed(r.current, answer), kind);
    hide Gens, EventGens, SlotGens;
  }

  lemma Regroup(a: seq<nat>, b: seq<nat>, x: seq<nat>, c: seq<nat>, d: seq<nat>)
    ensures a + ((b + x) + (c + d)) == a + (b + ((x + c) + d))
  {
  }

  lemma ExecuteKeeps(v: Viewer, answer: Answer)
    requires Inv(v) && v.reader.Executing?
    ensures Inv(ReaderStep(v, Execute(answer)).value)
  {
    var v' := ReaderStep(v, Execute(answer)).value;
    var t := v.reader.current;
    var j :| 0 <= j < |v.sent| && v.sent[j] == t;
    assert Answers(Executed(t, answer), v.sent[j]);
    forall kind ensures StreamInv(v', kind) {
      assert StreamInv(v, kind);
      ExecutedFlow(v, answer, kind);
      ThinnedKeeps(v, v', kind);
    }
    hide StreamInv, ShowsCurrent;
    assert Known(v');
  }

  lemma StopKeeps(v: Viewer)
    requires Inv(v) && !v.reader.NoReader?
    ensures Inv(v.(reader := Stopped))
  {
    var v' := v.(reader := Stopped);
    forall kind ensures StreamInv(v', kind) {
      assert StreamInv(v, kind);
      StoppedFlow(v, kind);
    }
  }

  lemma StoppedFlow(v: Viewer, kind: ReadKind)
    requires Flowing(v, kind)
    ensures Flowing(v.(reader := Stopped), kind)
  {
    var v' := v.(reader := Stopped);
    hide Gens, EventGens, ReaderGens;
    var a, b, c, d := EventGens(v.delivered, kind), EventGens(v.events, kind), ReaderGens(v.reader, kind), Gens(v.requests, kind);
    var s, s' := Flow(v, kind), Flow(v', kind);
    assert s == (a + b) + c + d && s' == (a + b) + d by { assert ReaderGens(Stopped, kind) == [] by { StoppedHoldsNothing(kind); } }
    forall i | 0 <= i < |s'| ensures s'[i] == s[if i < |a + b| then i else i + |c|] {
    }
  }

  lemma StoppedHoldsNothing(kind: ReadKind)
    ensures ReaderGens(Stopped, kind) == []
  {
  }

  // ------------------------------------------------------------ every run

  lemma ReaderKeeps(v: Viewer, step: Step, v': Viewer)
    requires Inv(v) && ReaderStep(v, step) == Some(v')
    ensures Inv(v')
  {
    match step {
      case TakeRequest => PushedKeeps(v, v', NOTHING_PENDING);
      case DrainRequest => PushedKeeps(v, v', v.reader.pending);
      case StopDraining => ReaderMoves(v, Taking(v.reader.pending));
      case TakePending => TakePendingKeeps(v);
      case Execute(answer) => ExecuteKeeps(v, answer);
      case StopReader => StopKeeps(v);
      case _ =>
    }
  }

  lemma BlankInv(v: Viewer, reader: Reader)
    requires reader.NoReader? || reader.Waiting?
    ensures Inv(v.(core := EMPTY_CORE, requests := [], events := [], sent := [], delivered := [], reader := reader))
  {
  }

  lemma OpenedKeeps(v: Viewer, spawned: bool)
    ensures Inv(Opened(v, spawned))
  {
    hide Inv;
    BlankInv(v, NoReader);
    BlankInv(v, Waiting);
    CatalogRequestedKeeps(v.(core := EMPTY_CORE, requests := [], events := [], sent := [], delivered := [], reader := Waiting));
  }

  lemma BrushChangeKeeps(v: Viewer, brush: Option<B.ValidBrush>, overviewWidth: nat, detailWidth: nat)
    requires Inv(v)
    ensures Inv(v.(core := v.core.(brush := brush), overviewWidth := overviewWidth, detailWidth := detailWidth))
  {
    CoreKeeps(v, v.(core := v.core.(brush := brush), overviewWidth := overviewWidth, detailWidth := detailWidth));
  }

  lemma SelectionKeeps(v: Viewer, core: Core, project: Option<ProjectId>, run: RunId, metric: Option<MetricKey>, axis: Axis)
    requires Inv(v)
    requires core == WithProject(v.core, project) || Some(core) == WithRunToggled(v.core, run) || core == WithMetric(v.core, metric) || core == WithAxis(v.core, axis)
    ensures Inv(v.(core := core)) && Inv(CatalogRequested(v.(core := core))) && Inv(OverviewRequested(v.(core := core)))
  {
    SelectionNarrows(v.core, core, project, run, metric, axis);
    CoreKeeps(v, v.(core := core));
    hide Inv;
    CatalogRequestedKeeps(v.(core := core));
    OverviewRequestedKeeps(v.(core := core));
  }

  lemma InterfaceKeeps(v: Viewer, step: Step, v': Viewer)
    requires Inv(v) && InterfaceStep(v, step) == Some(v')
    ensures Inv(v')
  {
    hide Inv, WithProject, WithRunToggled, WithMetric, WithAxis, CatalogRequested, OverviewRequested, DetailRequested, Opened, Received;
    match step {
      case OpenSource(spawned) => OpenedKeeps(v, spawned);
      case SelectProject(project) => SelectionKeeps(v, WithProject(v.core, Some(project)), Some(project), "", None, StepAxis);
      case ToggleRun(run) =>
        if WithRunToggled(v.core, run).Some? { SelectionKeeps(v, WithRunToggled(v.core, run).value, None, run, None, StepAxis); }
      case SelectMetric(metric) => SelectionKeeps(v, WithMetric(v.core, Some(metric)), None, "", Some(metric), StepAxis);
      case SelectAxis(axis) => SelectionKeeps(v, WithAxis(v.core, axis), None, "", None, axis);
      case Refresh => CatalogRequestedKeeps(v);
      case ResizeOverview(width) =>
        BrushChangeKeeps(v, v.core.brush, width, v.detailWidth);
        OverviewRequestedKeeps(v.(overviewWidth := width));
      case ResizeDetail(width) =>
        BrushChangeKeeps(v, v.core.brush, v.overviewWidth, width);
        DetailRequestedKeeps(v.(detailWidth := width));
      case Receive => ReceivedKeeps(v);
      case CommitBrush => DetailRequestedKeeps(v);
      case _ => BrushStepKeeps(v, step, v');
    }
  }

  lemma BrushStepKeeps(v: Viewer, step: Step, v': Viewer)
    requires Inv(v) && InterfaceStep(v, step) == Some(v') && (step.ResetView? || step.MoveBrush?)
    ensures Inv(v')
  {
    hide Inv, DetailRequested;
    if v.core.brush.Some? {
      if step.ResetView? {
        var core := v.core.(brush := Some(v.core.brush.value.(selected := v.core.brush.value.home)));
        BrushChangeKeeps(v, core.brush, v.overviewWidth, v.detailWidth);
        DetailRequestedKeeps(v.(core := core));
      } else {
        BrushChangeKeeps(v, Some(B.Apply(v.core.brush.value, step.op)), v.overviewWidth, v.detailWidth);
      }
    }
  }

  /** Every step of either side keeps the invariant. */
  lemma NextKeeps(v: Viewer, step: Step, v': Viewer)
    requires Inv(v) && Next(v, step) == Some(v')
    ensures Inv(v')
  {
    hide Inv, ReaderStep, InterfaceStep;
    if OfReader(step) { ReaderKeeps(v, step, v'); } else { InterfaceKeeps(v, step, v'); }
  }

  lemma {:induction false} RunKeeps(v: Viewer, steps: seq<Step>, v': Viewer)
    requires Inv(v) && Run(v, steps) == Some(v')
    ensures Inv(v')
    decreases |steps|
  {
    hide Inv, Next;
    if steps != [] {
      NextKeeps(v, steps[0], Next(v, steps[0]).value);
      RunKeeps(Next(v, steps[0]).value, steps[1..], v');
    }
  }

  lemma ReachableInv(v: Viewer)
    requires Reachable(v)
    ensures Inv(v)
  {
    BlankInv(NEW_VIEWER, NoReader);
    hide Inv;
    var steps :| Run(NEW_VIEWER, steps) == Some(v);
    RunKeeps(NEW_VIEWER, steps, v);
  }

  // ------------------------------------------------------------ theorems

  /**
    Whatever is selected, refreshed, refused or late: what is shown, and what is
    awaited, are curves of the current Runs, metric and axis, and the brush is a
    usable one.
   */
  lemma ShownAndAwaitedAreCurrent(v: Viewer)
    requires Reachable(v)
    ensures v.core.overview.Some? ==> CurrentCurves(v.core) == Some(v.core.overview.value.curves)
    ensures v.core.detail.Some? ==> CurrentCurves(v.core) == Some(v.core.detail.value.curves)
    ensures forall kind :: AwaitsCurrent(v.core, v.sent, kind)
  {
    ReachableInv(v);
    forall kind ensures AwaitsCurrent(v.core, v.sent, kind) {
      assert StreamInv(v, kind);
    }
  }

  /** Per kind, results come in strictly increasing generation, and their payload always has their kind. */
  lemma GenerationsIncrease(v: Viewer, kind: ReadKind)
    requires Reachable(v)
    ensures Ascending(EventGens(v.delivered + v.events, kind))
    ensures v.events != [] ==> !AppliedEvent(v.core, v.events[0]).1.IgnoredMismatched?
  {
    ReachableInv(v);
    assert StreamInv(v, kind);
    EventGensConcat(v.delivered, v.events, kind);
    var s := EventGens(v.delivered + v.events, kind);
    assert forall i :: 0 <= i < |s| ==> s[i] == Flow(v, kind)[i];
    if v.events != [] {
      ReceivedKeeps(v);
    }
  }

  /** Nothing is under way and the worker waits. */
  predicate Quiet(v: Viewer) {
    v.reader.Waiting? && v.requests == [] && v.events == []
  }

  /**
    Coalescing never drops the newest request of a kind: it is under way or was
    the last of its kind to be applied or ignored. Once nothing is under way no
    stream waits any more.
   */
  lemma LatestWins(v: Viewer, kind: ReadKind)
    requires Reachable(v) && !v.reader.Stopped? && Gens(v.sent, kind) != []
    ensures Flow(v, kind) != [] && Flow(v, kind)[|Flow(v, kind)| - 1] == Gens(v.sent, kind)[|Gens(v.sent, kind)| - 1]
    ensures Quiet(v) ==> EventGens(v.delivered, kind) == Flow(v, kind)
  {
    ReachableInv(v);
    assert StreamInv(v, kind);
    if Quiet(v) { QuietFlow(v, kind); }
    hide Inv, Flow, Gens, EventGens, AwaitsCurrent, AwaitsNewest, Reachable;
  }

  lemma QuietFlow(v: Viewer, kind: ReadKind)
    requires Quiet(v)
    ensures Flow(v, kind) == EventGens(v.delivered, kind)
  {
  }

  lemma QuietAwaitsNothing(v: Viewer)
    requires Reachable(v) && Quiet(v)
    ensures v.core.expected == map[]
  {
    ReachableInv(v);
    QuietIsSettled(v);
  }

  lemma QuietIsSettled(v: Viewer)
    requires Inv(v) && Quiet(v)
    ensures v.core.expected == map[]
  {
    forall kind ensures kind !in v.core.expected {
      assert StreamInv(v, kind);
      QuietFlow(v, kind);
      hide Flow, Gens, EventGens, AwaitsCurrent;
    }
  }

  // ------------------------------------------------------------ it does get quiet

  function Weight(kind: ReadKind): nat {
    match kind
    case DetailKind => 1
    case OverviewKind => 8
    case CatalogKind => 15
  }

  function RequestWeight(ts: seq<Tagged>): nat {
    if ts == [] then 0 else RequestWeight(ts[..|ts| - 1]) + Weight(ts[|ts| - 1].request.Kind()) + 6
  }

  function EventWeight(es: seq<ReadEvent>): nat {
    if es == [] then 0 else EventWeight(es[..|es| - 1]) + Weight(es[|es| - 1].kind)
  }

  function SlotWeight(slot: Option<Tagged>): nat {
    if slot.None? then 0 else Weight(slot.value.request.Kind()) + 3
  }

  function PendingWeight(p: Pending): nat {
    SlotWeight(p.discover) + SlotWeight(p.overview) + SlotWeight(p.detail)
  }

  function ReaderWeight(r: Reader): nat {
    match r
    case Draining(p) => PendingWeight(p) + 2
    case Taking(p) => PendingWeight(p) + 1
    case Executing(p, t) => PendingWeight(p) + Weight(t.request.Kind()) + 3
    case _ => 0
  }

  /** How much the pipeline still has to do. */
  function Work(v: Viewer): nat {
    RequestWeight(v.requests) + ReaderWeight(v.reader) + EventWeight(v.events)
  }

  predicate Internal(step: Step) {
    (OfReader(step) && !step.StopReader?) || step.Receive?
  }

  lemma {:induction false} RequestWeightConcat(a: seq<Tagged>, b: seq<Tagged>)
    ensures RequestWeight(a + b) == RequestWeight(a) + RequestWeight(b)
    decreases |b|
  {
    if b == [] {
      assert a + b == a;
    } else {
      assert (a + b)[..|a + b| - 1] == a + b[..|b| - 1];
      RequestWeightConcat(a, b[..|b| - 1]);
    }
  }

  lemma {:induction false} EventWeightConcat(a: seq<ReadEvent>, b: seq<ReadEvent>)
    ensures EventWeight(a + b) == EventWeight(a) + EventWeight(b)
    decreases |b|
  {
    if b == [] {
      assert a + b == a;
    } else {
      assert (a + b)[..|a + b| - 1] == a + b[..|b| - 1];
      EventWeightConcat(a, b[..|b| - 1]);
    }
  }

  lemma SubmittedWeighs(v: Viewer, request: Request)
    ensures Work(Submitted(v, request)) <= Work(v) + Weight(request.Kind()) + 6
  {
    var t := Tagged(v.nextGeneration, request);
    RequestWeightConcat(v.requests, [t]);
    assert [t][..0] == [];
  }

  lemma MovedWeighs(v: Viewer)
    requires v.events != []
    ensures Work(Moved(v)) + Weight(v.events[0].kind) == Work(v)
  {
    var e := v.events[0];
    EventWeightConcat([e], v.events[1..]);
    assert [e] + v.events[1..] == v.events && [e][..0] == [];
  }

  /** A result causes at most one request, of the next kind in line. */
  lemma FollowUpWeighs(v: Viewer)
    ensures Work(OverviewRequested(v)) <= Work(v) + Weight(OverviewKind) + 6
    ensures Work(DetailRequested(v)) <= Work(v) + Weight(DetailKind) + 6
  {
    hide SelectedViewport, Submitted, Work;
    if CurrentCurves(v.core).Some? {
      var curves := CurrentCurves(v.core).value;
      SubmittedWeighs(v, QueryOverview(curves, v.overviewWidth));
      if SelectedViewport(v.core).Some? {
        SubmittedWeighs(v, QueryDetail(curves, SelectedViewport(v.core).value, v.detailWidth));
      }
    }
  }

  lemma FollowedUpWeighs(v: Viewer, e: ReadEvent)
    ensures Work(FollowedUp(v, e)) < Work(v) + Weight(e.kind)
  {
    var v1 := v.(overviewRevision := e.generation);
    FollowUpWeighs(v);
    FollowUpWeighs(v1);
    hide RequestWeight, EventWeight, ReaderWeight, OverviewRequested, DetailRequested;
    assert Work(v1) == Work(v) && Work(v.(detailRevision := e.generation)) == Work(v);
  }

  lemma ReceiveWorks(v: Viewer)
    requires v.events != []
    ensures Work(Received(v)) < Work(v)
  {
    hide AppliedEvent, FollowedUp;
    var v0 := v.(core := AppliedEvent(v.core, v.events[0]).0);
    MovedWeighs(v0);
    FollowedUpWeighs(Moved(v0), v.events[0]);
    hide RequestWeight, EventWeight, ReaderWeight;
    assert Work(v0) == Work(v);
  }

  lemma PushedWeighs(p: Pending, t: Tagged)
    ensures PendingWeight(Pushed(p, t)) <= PendingWeight(p) + Weight(t.request.Kind()) + 3
  {
  }

  lemma ReaderWorks(v: Viewer, step: Step, v': Viewer)
    requires Internal(step) && OfReader(step) && ReaderStep(v, step) == Some(v')
    ensures Work(v') < Work(v)
  {
    if step.TakeRequest? || step.DrainRequest? {
      var t := v.requests[0];
      RequestWeightConcat([t], v.requests[1..]);
      assert [t] + v.requests[1..] == v.requests && [t][..0] == [];
      PushedWeighs(NOTHING_PENDING, t);
      if v.reader.Draining? { PushedWeighs(v.reader.pending, t); }
    } else if step.Execute? {
      var e := Executed(v.reader.current, step.answer);
      EventWeightConcat(v.events, [e]);
      assert [e][..0] == [];
    }
  }

  /**
    Left alone, the pipeline gets quiet: every step of the worker and every
    delivery leaves less to do, follow-up requests included, and while something
    is left to do one of these steps is possible.
   */
  lemma PipelineSettles(v: Viewer, step: Step, v': Viewer)
    requires Internal(step) && Next(v, step) == Some(v')
    ensures Work(v') < Work(v)
  {
    hide Work, ReaderStep;
    if OfReader(step) { ReaderWorks(v, step, v'); } else { ReceiveWorks(v); }
  }

  lemma WorkIsPossible(v: Viewer)
    requires IsUp(v.reader) && !Quiet(v)
    ensures exists step :: Internal(step) && Next(v, step).Some?
  {
    var step := if v.events != [] then Receive
                else match v.reader
                  case Waiting => TakeRequest
                  case Draining(_) => if v.requests != [] then DrainRequest else StopDraining
                  case Taking(_) => TakePending
                  case _ => Execute(Failure);
    assert Internal(step) && Next(v, step).Some?;
  }
}
