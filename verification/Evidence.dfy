/**
  Objective and aligned evidence: what a value is worth for a comparison, and why
  it may be worth less.
 */
module Evidence {
  import opened Values
  import opened Metrics
  import Reduction
  import Alignment
  import Chart

  datatype Completeness = Complete | Partial | Unavailable | Invalid {
    function Severity(): nat {
      match this
      case Complete => 0
      case Partial => 1
      case Unavailable => 2
      case Invalid => 3
    }
  }

  datatype Reason = MissingMetric | MissingRunStart | NegativeAxis | DecreasingAxis | NonFiniteValue | RunRunning | RunFailed {
    /** How much evidence this reason leaves. */
    function Leaves(): Completeness {
      match this
      case MissingMetric => Unavailable
      case MissingRunStart => Unavailable
      case NegativeAxis => Invalid
      case DecreasingAxis => Invalid
      case NonFiniteValue => Invalid
      case RunRunning => Partial
      case RunFailed => Partial
    }
  }

  function Worse(a: Completeness, b: Completeness): Completeness {
    if a.Severity() < b.Severity() then b else a
  }

  /** The greatest severity among the reasons. */
  function Worst(reasons: seq<Reason>): Completeness {
    if reasons == [] then Complete else Worse(Worst(reasons[..|reasons| - 1]), reasons[|reasons| - 1].Leaves())
  }

  lemma {:induction false} WorstIsGreatest(reasons: seq<Reason>)
    ensures forall i :: 0 <= i < |reasons| ==> reasons[i].Leaves().Severity() <= Worst(reasons).Severity()
    ensures Worst(reasons) == Complete || exists i :: 0 <= i < |reasons| && reasons[i].Leaves() == Worst(reasons)
  {
    if reasons != [] {
      WorstIsGreatest(reasons[..|reasons| - 1]);
    }
  }

  lemma {:induction false} WorstConcat(a: seq<Reason>, b: seq<Reason>)
    ensures Worst(a + b) == Worse(Worst(a), Worst(b))
    decreases |b|
  {
    if b == [] {
      assert a + b == a;
    } else {
      assert (a + b)[..|a + b| - 1] == a + b[..|b| - 1];
      WorstConcat(a, b[..|b| - 1]);
    }
  }

  lemma WorstOne(reason: Reason)
    ensures Worst([reason]) == reason.Leaves()
  {
    assert [reason][..0] == [];
  }

  /**
    The grade of a list of reasons: anything wrong with the axis or the values
    makes the evidence invalid, otherwise anything missing makes it unavailable,
    otherwise a run that has not finished well makes it partial.
   */
  lemma GradesMean(reasons: seq<Reason>)
    ensures Worst(reasons).Invalid? <==> NegativeAxis in reasons || DecreasingAxis in reasons || NonFiniteValue in reasons
    ensures Worst(reasons).Unavailable? <==> !Worst(reasons).Invalid? && (MissingMetric in reasons || MissingRunStart in reasons)
    ensures Worst(reasons).Partial? <==> !Worst(reasons).Invalid? && !Worst(reasons).Unavailable? && (RunRunning in reasons || RunFailed in reasons)
    ensures Worst(reasons).Complete? <==> reasons == []
  {
    WorstIsGreatest(reasons);
    hide Worst;
    if reasons != [] {
      assert reasons[0].Leaves().Severity() <= Worst(reasons).Severity();
    }
  }

  /** Of two grades the worse one counts. */
  lemma WorseMeans(a: Completeness, b: Completeness)
    ensures Worse(a, b).Invalid? <==> a.Invalid? || b.Invalid?
    ensures Worse(a, b).Unavailable? <==> !Worse(a, b).Invalid? && (a.Unavailable? || b.Unavailable?)
    ensures Worse(a, b).Complete? <==> a.Complete? && b.Complete?
  {
  }

  // ------------------------------------------------------------ lifecycle

  function LifecycleReasons(status: RunStatus): seq<Reason> {
    match status
    case Running => [RunRunning]
    case Failed => [RunFailed]
    case Finished => []
  }

  /** Evidence of a run that has not finished, or has failed, is partial at best. */
  method QualifyLifecycle(status: RunStatus, completeness: Completeness, reasons: seq<Reason>) returns (c: Completeness, r: seq<Reason>)
    requires completeness == Worst(reasons)
    ensures r == reasons + LifecycleReasons(status) && c == Worst(r)
    ensures c.Complete? <==> completeness.Complete? && status.Finished?
  {
    WorstConcat(reasons, LifecycleReasons(status));
    LifecycleGrade(status);
    hide Worst;
    c, r := completeness, reasons;
    var reason := match status
      case Running => Some(RunRunning)
      case Failed => Some(RunFailed)
      case Finished => None;
    if reason.Some? {
      WorstOne(reason.value);
      c := Worse(c, Partial);
      r := r + [reason.value];
    } else {
      assert reasons + [] == reasons;
    }
  }

  // ------------------------------------------------------------ objective evidence

  datatype ObjectiveEvidence = ObjectiveEvidence(
    run: string, status: RunStatus, lastStep: Option<int>, lastValue: Option<Value>, completeness: Completeness, reasons: seq<Reason>)
  {
    /** The value, if there is a finite one. */
    function UsableValue(): Option<real> {
      if lastValue.Some? && lastValue.value.IsFinite() then Some(lastValue.value.x) else None
    }

    /** The value, if the evidence is complete. */
    function EligibleValue(): Option<real> {
      if completeness.Complete? then UsableValue() else None
    }
  }

  /** What the summary of the metric says about it, if the run has the metric. */
  function MetricReasons(summary: Option<Aggregate>): seq<Reason> {
    if summary.None? then [MissingMetric] else if !summary.value.lastValue.IsFinite() then [NonFiniteValue] else []
  }

  function EvidenceOf(run: string, status: RunStatus, summary: Option<Aggregate>): ObjectiveEvidence {
    var reasons := MetricReasons(summary) + LifecycleReasons(status);
    ObjectiveEvidence(run, status,
                      if summary.None? then None else Some(summary.value.lastStep), if summary.None? then None else Some(summary.value.lastValue),
                      Worst(reasons), reasons)
  }

  method CollectObjectiveEvidence(run: string, status: RunStatus, summary: Option<Aggregate>) returns (evidence: ObjectiveEvidence)
    ensures evidence == EvidenceOf(run, status, summary)
  {
    var completeness, reasons := Complete, [];
    var lastStep, lastValue := None, None;
    if summary.None? {
      completeness, reasons := Unavailable, [MissingMetric];
      WorstOne(MissingMetric);
    } else {
      lastStep, lastValue := Some(summary.value.lastStep), Some(summary.value.lastValue);
      if !summary.value.lastValue.IsFinite() {
        completeness, reasons := Invalid, [NonFiniteValue];
        WorstOne(NonFiniteValue);
      }
    }
    completeness, reasons := QualifyLifecycle(status, completeness, reasons);
    return ObjectiveEvidence(run, status, lastStep, lastValue, completeness, reasons);
  }

  /** Evidence is eligible exactly for a finished run with a finite last value; then nothing qualifies it. */
  lemma EligibleExactly(run: string, status: RunStatus, summary: Option<Aggregate>)
    ensures var evidence := EvidenceOf(run, status, summary);
            && (evidence.EligibleValue().Some? <==> status.Finished? && summary.Some? && summary.value.lastValue.IsFinite())
            && (evidence.EligibleValue().Some? ==> evidence.reasons == [] && summary.value.lastValue == Finite(evidence.EligibleValue().value))
            && evidence.completeness == Worst(evidence.reasons)
  {
    LifecycleGrade(status);
    MetricGrade(summary);
    hide Worst, MetricReasons, LifecycleReasons;
    WorstConcat(MetricReasons(summary), LifecycleReasons(status));
    if status.Finished? {
      assert MetricReasons(summary) + [] == MetricReasons(summary);
    }
  }

  /** What is recorded: the last step and value of the summary, and why the evidence is worth less. */
  lemma EvidenceRecords(run: string, status: RunStatus, summary: Option<Aggregate>)
    ensures var e := EvidenceOf(run, status, summary);
            && e.run == run && e.status == status
            && (summary.None? ==> e.lastStep.None? && e.lastValue.None?)
            && (summary.Some? ==> e.lastStep == Some(summary.value.lastStep) && e.lastValue == Some(summary.value.lastValue))
            && (MissingMetric in e.reasons <==> summary.None?)
            && (NonFiniteValue in e.reasons <==> summary.Some? && !summary.value.lastValue.Finite?)
            && (RunRunning in e.reasons <==> status.Running?) && (RunFailed in e.reasons <==> status.Failed?)
            && MissingRunStart !in e.reasons && NegativeAxis !in e.reasons && DecreasingAxis !in e.reasons
            && (e.UsableValue().Some? <==> summary.Some? && summary.value.lastValue.Finite?)
            && (e.UsableValue().Some? ==> Finite(e.UsableValue().value) == summary.value.lastValue)
  {
    hide Worst;
  }

  lemma LifecycleGrade(status: RunStatus)
    ensures if status.Finished? then LifecycleReasons(status) == [] else !Worst(LifecycleReasons(status)).Complete?
    ensures Worst([]).Complete?
  {
    WorstOne(RunRunning);
    WorstOne(RunFailed);
  }

  lemma MetricGrade(summary: Option<Aggregate>)
    ensures if summary.Some? && summary.value.lastValue.IsFinite() then MetricReasons(summary) == [] else !Worst(MetricReasons(summary)).Complete?
  {
    WorstOne(MissingMetric);
    WorstOne(NonFiniteValue);
  }

  // ------------------------------------------------------------ aligned evidence

  function Converted(reason: Alignment.Reason): Reason {
    match reason
    case MissingRunStart => MissingRunStart
    case NegativeAxis => NegativeAxis
    case DecreasingAxis => DecreasingAxis
  }

  function ConvertedAll(reasons: seq<Alignment.Reason>): seq<Reason> {
    if reasons == [] then [] else ConvertedAll(reasons[..|reasons| - 1]) + [Converted(reasons[|reasons| - 1])]
  }

  predicate AllFinite(points: seq<Reduction.Point>) {
    forall i :: 0 <= i < |points| ==> points[i].value.IsFinite()
  }

  /** All reasons that the aligned points themselves give. */
  function PointReasons(points: seq<Reduction.Point>, reasons: seq<Alignment.Reason>): seq<Reason> {
    var given := ConvertedAll(reasons) + (if AllFinite(points) then [] else [NonFiniteValue]);
    if given == [] && points == [] then [MissingMetric] else given
  }

  lemma {:induction false} ConversionsMean(reasons: seq<Alignment.Reason>)
    ensures |ConvertedAll(reasons)| == |reasons|
    ensures forall i :: 0 <= i < |reasons| ==>
              && (reasons[i].MissingRunStart? <==> ConvertedAll(reasons)[i] == MissingRunStart)
              && (reasons[i].NegativeAxis? <==> ConvertedAll(reasons)[i] == NegativeAxis)
              && (reasons[i].DecreasingAxis? <==> ConvertedAll(reasons)[i] == DecreasingAxis)
  {
    if reasons != [] {
      ConversionsMean(reasons[..|reasons| - 1]);
    }
  }

  /** Which reason an aligned result gets when: each storage reason its own, and one for values, for no points at all, and for the run. */
  lemma AlignedReasonsMean(points: seq<Reduction.Point>, stored: seq<Alignment.Reason>, status: RunStatus)
    ensures var reasons := PointReasons(points, stored) + LifecycleReasons(status);
            && (MissingRunStart in reasons <==> Alignment.MissingRunStart in stored)
            && (NegativeAxis in reasons <==> Alignment.NegativeAxis in stored)
            && (DecreasingAxis in reasons <==> Alignment.DecreasingAxis in stored)
            && (NonFiniteValue in reasons <==> exists i :: 0 <= i < |points| && !points[i].value.Finite?)
            && (MissingMetric in reasons <==> points == [] && stored == [])
            && (RunRunning in reasons <==> status.Running?) && (RunFailed in reasons <==> status.Failed?)
  {
    PointReasonsMean(points, stored);
    LifecycleReasonsMean(status);
    hide PointReasons, LifecycleReasons;
    var reasons := PointReasons(points, stored) + LifecycleReasons(status);
    assert forall r :: r in reasons <==> r in PointReasons(points, stored) || r in LifecycleReasons(status);
  }

  lemma LifecycleReasonsMean(status: RunStatus)
    ensures forall r :: r in LifecycleReasons(status) <==> (r.RunRunning? && status.Running?) || (r.RunFailed? && status.Failed?)
  {
  }

  lemma PointReasonsMean(points: seq<Reduction.Point>, stored: seq<Alignment.Reason>)
    ensures var reasons := PointReasons(points, stored);
            && (MissingRunStart in reasons <==> Alignment.MissingRunStart in stored)
            && (NegativeAxis in reasons <==> Alignment.NegativeAxis in stored)
            && (DecreasingAxis in reasons <==> Alignment.DecreasingAxis in stored)
            && (NonFiniteValue in reasons <==> exists i :: 0 <= i < |points| && !points[i].value.Finite?)
            && (MissingMetric in reasons <==> points == [] && stored == [])
            && RunRunning !in reasons && RunFailed !in reasons
  {
    ConversionsMean(stored);
    var given := ConvertedAll(stored);
    SameMembers(stored, given, Alignment.MissingRunStart, MissingRunStart);
    SameMembers(stored, given, Alignment.NegativeAxis, NegativeAxis);
    SameMembers(stored, given, Alignment.DecreasingAxis, DecreasingAxis);
    assert forall r :: r in given ==> r.MissingRunStart? || r.NegativeAxis? || r.DecreasingAxis?;
    hide ConvertedAll;
    assert AllFinite(points) <==> !exists i :: 0 <= i < |points| && !points[i].value.Finite?;
    hide AllFinite;
    var more: seq<Reason> := if AllFinite(points) then [] else [NonFiniteValue];
    assert forall r :: r in given + more <==> r in given || r in more;
  }

  lemma SameMembers(stored: seq<Alignment.Reason>, given: seq<Reason>, a: Alignment.Reason, r: Reason)
    requires |given| == |stored| && forall i :: 0 <= i < |stored| ==> (stored[i] == a <==> given[i] == r)
    ensures a in stored <==> r in given
  {
    if a in stored {
      var i :| 0 <= i < |stored| && stored[i] == a;
      assert given[i] == r;
    }
    if r in given {
      var i :| 0 <= i < |given| && given[i] == r;
      assert stored[i] == a;
    }
  }

  method AnyNonFinite(points: seq<Reduction.Point>) returns (nonFinite: bool)
    ensures nonFinite <==> !AllFinite(points)
  {
    nonFinite := false;
    for i := 0 to |points|
      invariant !nonFinite && forall j :: 0 <= j < i ==> points[j].value.IsFinite()
    {
      if !points[i].value.IsFinite() {
        return true;
      }
    }
  }

  method ConvertReasons(storageReasons: seq<Alignment.Reason>) returns (reasons: seq<Reason>)
    ensures reasons == ConvertedAll(storageReasons)
  {
    reasons := [];
    for i := 0 to |storageReasons|
      invariant reasons == ConvertedAll(storageReasons[..i])
    {
      assert storageReasons[..i + 1][..i] == storageReasons[..i];
      reasons := reasons + [Converted(storageReasons[i])];
    }
    assert storageReasons[..|storageReasons|] == storageReasons;
  }

  method AnyInvalid(reasons: seq<Reason>) returns (invalid: bool)
    ensures invalid <==> exists i :: 0 <= i < |reasons| && reasons[i].Leaves().Invalid?
  {
    for i := 0 to |reasons|
      invariant forall j :: 0 <= j < i ==> !reasons[j].Leaves().Invalid?
    {
      if reasons[i].Leaves().Invalid? {
        return true;
      }
    }
    return false;
  }

  lemma {:induction false} ConvertedAreGrave(storageReasons: seq<Alignment.Reason>)
    ensures |ConvertedAll(storageReasons)| == |storageReasons|
    ensures forall i :: 0 <= i < |storageReasons| ==> ConvertedAll(storageReasons)[i].Leaves().Severity() >= 2 && !ConvertedAll(storageReasons)[i].MissingMetric?
  {
    if storageReasons != [] {
      ConvertedAreGrave(storageReasons[..|storageReasons| - 1]);
    }
  }

  /** The grade of reasons none of which leaves partial evidence. */
  lemma GradeIsWorst(reasons: seq<Reason>)
    requires forall i :: 0 <= i < |reasons| ==> reasons[i].Leaves().Severity() >= 2
    ensures Worst(reasons) == if exists i :: 0 <= i < |reasons| && reasons[i].Leaves().Invalid? then Invalid
                              else if reasons != [] then Unavailable else Complete
  {
    WorstIsGreatest(reasons);
    if reasons != [] {
      assert reasons[0].Leaves().Severity() <= Worst(reasons).Severity();
    }
  }

  /** Converts, qualifies and grades an aligned result; the grade is the greatest severity among its reasons. */
  method AlignedEvidence(points: seq<Reduction.Point>, storageReasons: seq<Alignment.Reason>, status: RunStatus)
    returns (completeness: Completeness, reasons: seq<Reason>)
    ensures reasons == PointReasons(points, storageReasons) + LifecycleReasons(status)
    ensures completeness == Worst(reasons)
  {
    hide Worst, AllFinite;
    var nonFinite := AnyNonFinite(points);
    reasons := ConvertReasons(storageReasons);
    ConvertedAreGrave(storageReasons);
    if nonFinite {
      reasons := reasons + [NonFiniteValue];
    } else {
      assert reasons + [] == reasons;
    }
    hide ConvertedAll;
    var invalid := AnyInvalid(reasons);
    if invalid {
      completeness := Invalid;
    } else if MissingRunStart in reasons || points == [] {
      if reasons == [] {
        reasons := [MissingMetric];
      }
      completeness := Unavailable;
    } else {
      OnlyMissingStart(reasons);
      completeness := Complete;
    }
    GradeIsWorst(reasons);
    completeness, reasons := QualifyLifecycle(status, completeness, reasons);
  }

  /** The only reason of the aligned points that is grave but not invalid. */
  lemma OnlyMissingStart(reasons: seq<Reason>)
    requires forall i :: 0 <= i < |reasons| ==> reasons[i].Leaves().Severity() >= 2 && !reasons[i].MissingMetric? && !reasons[i].Leaves().Invalid?
    ensures MissingRunStart in reasons || reasons == []
  {
    if reasons != [] {
      assert reasons[0] == MissingRunStart;
    }
  }

  /** The curves that the viewer draws. */
  predicate Drawable(completeness: Completeness) {
    completeness.Complete? || completeness.Partial?
  }

  /** Drawn exactly without any reason against the points themselves; a run that has not finished well is no such reason. */
  lemma DrawableMeans(reasons: seq<Reason>)
    ensures Drawable(Worst(reasons)) <==>
              MissingMetric !in reasons && MissingRunStart !in reasons && NegativeAxis !in reasons && DecreasingAxis !in reasons && NonFiniteValue !in reasons
  {
    GradesMean(reasons);
    hide Worst;
    if reasons != [] {
      assert reasons[0] in reasons;
    }
  }

  /**
    Curves of drawable evidence can always be drawn: the points that a query
    selected from the effective series then make a chart series.
   */
  lemma DrawableEvidenceMakesSeries(points: seq<Reduction.Point>, start: int, end: int, limit: Alignment.Limit, status: RunStatus)
    requires Reduction.Ascending(points)
    requires var answer := Reduction.At(points, Alignment.AlignedQuery(points, start, end, limit));
             Drawable(Worst(PointReasons(answer, StorageReasons(points)) + LifecycleReasons(status)))
    ensures var answer := Reduction.At(points, Alignment.AlignedQuery(points, start, end, limit));
            answer != [] && Chart.IsSeries(Chart.ChartPoints(answer))
  {
    var answer := Reduction.At(points, Alignment.AlignedQuery(points, start, end, limit));
    NothingSevere(answer, StorageReasons(points), status);
    Alignment.NoDropMeansAscending(points);
    Alignment.AlignedQueryInOrder(points, start, end, limit);
    var positions := Alignment.AlignedQuery(points, start, end, limit);
    forall i, j | 0 <= i < j < |answer| ensures answer[i].axis <= answer[j].axis {
      assert positions[i] < positions[j];
    }
    Chart.DrawableMakesSeries(answer);
  }

  function StorageReasons(points: seq<Reduction.Point>): seq<Alignment.Reason> {
    (if Alignment.HasNegativeAxis(points) then [Alignment.NegativeAxis] else []) + (if Alignment.HasDecreasingAxis(points) then [Alignment.DecreasingAxis] else [])
  }

  /** Drawable evidence has points, all finite, and no reason against its axis. */
  lemma NothingSevere(answer: seq<Reduction.Point>, stored: seq<Alignment.Reason>, status: RunStatus)
    requires Drawable(Worst(PointReasons(answer, stored) + LifecycleReasons(status)))
    ensures answer != [] && stored == [] && AllFinite(answer)
  {
    var reasons := PointReasons(answer, stored);
    WorstConcat(reasons, LifecycleReasons(status));
    hide Worst;
    if stored != [] {
      var given := ConvertedAll(stored);
      assert reasons[|given| - 1] == Converted(stored[|stored| - 1]);
      SevereReason(reasons, |given| - 1);
    } else if !AllFinite(answer) {
      SevereReason(reasons, 0);
    } else if answer == [] {
      SevereReason(reasons, 0);
    }
  }

  lemma SevereReason(reasons: seq<Reason>, i: nat)
    requires i < |reasons| && !Drawable(reasons[i].Leaves())
    ensures !Drawable(Worst(reasons))
  {
    WorstIsGreatest(reasons);
    hide Worst;
  }
}
