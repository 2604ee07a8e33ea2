/**
  Pairwise comparison of a candidate with a reference, and how it agrees with the
  ranking of both.
 */
module Comparison {
  import opened Values
  import opened Evidence
  import opened Ranking

  datatype Outcome = Improved | Regressed | Equal

  datatype Preference = PreferCandidate | PreferReference | NoPreference | Inconclusive

  datatype ComparisonResult = ComparisonResult(
    candidate: ObjectiveEvidence, reference: ObjectiveEvidence, completeness: Completeness,
    rawDelta: Option<real>, relativeDelta: Option<real>, normalizedImprovement: Option<real>,
    outcome: Option<Outcome>, preference: Preference)

  datatype MetricComparison = MetricComparison(
    metric: string, candidate: ObjectiveEvidence, reference: ObjectiveEvidence, completeness: Completeness,
    rawDelta: Option<real>, relativeDelta: Option<real>)

  /** Evidence for one secondary metric: of the reference, and of every candidate in request order. */
  datatype SecondarySet = SecondarySet(metric: string, reference: ObjectiveEvidence, candidates: seq<ObjectiveEvidence>)

  datatype Report = Report(primary: ComparisonResult, secondary: seq<MetricComparison>)

  function Normalized(direction: Direction, rawDelta: real): real {
    match direction
    case Minimize => -rawDelta
    case Maximize => rawDelta
  }

  function OutcomeOf(improvement: real): Outcome {
    if improvement > 0.0 then Improved else if improvement < 0.0 then Regressed else Equal
  }

  function Absolute(x: real): real {
    if x < 0.0 then -x else x
  }

  function RelativeDelta(raw: real, reference: real): Option<real> {
    if reference == 0.0 then None else Some(raw / Absolute(reference))
  }

  function PreferenceOf(completeness: Completeness, outcome: Option<Outcome>): Preference {
    if !completeness.Complete? || outcome.None? then Inconclusive
    else match outcome.value
      case Improved => PreferCandidate
      case Regressed => PreferReference
      case Equal => NoPreference
  }

  function CompareEvidence(direction: Direction, candidate: ObjectiveEvidence, reference: ObjectiveEvidence): ComparisonResult {
    var completeness := Worse(candidate.completeness, reference.completeness);
    var c, r := candidate.UsableValue(), reference.UsableValue();
    if c.None? || r.None? then
      ComparisonResult(candidate, reference, completeness, None, None, None, None, PreferenceOf(completeness, None))
    else
      var raw := c.value - r.value;
      var normalized := Normalized(direction, raw);
      var outcome := Some(OutcomeOf(normalized));
      ComparisonResult(candidate, reference, completeness, Some(raw), RelativeDelta(raw, r.value), Some(normalized), outcome, PreferenceOf(completeness, outcome))
  }

  function CompareMetric(metric: string, candidate: ObjectiveEvidence, reference: ObjectiveEvidence): MetricComparison {
    var completeness := Worse(candidate.completeness, reference.completeness);
    var c, r := candidate.UsableValue(), reference.UsableValue();
    if c.None? || r.None? then MetricComparison(metric, candidate, reference, completeness, None, None)
    else MetricComparison(metric, candidate, reference, completeness, Some(c.value - r.value), RelativeDelta(c.value - r.value, r.value))
  }

  /** One report per candidate, in request order, with its own evidence of every secondary metric. */
  function BuildReports(direction: Direction, reference: ObjectiveEvidence, candidates: seq<ObjectiveEvidence>, secondary: seq<SecondarySet>): seq<Report>
    requires forall m :: 0 <= m < |secondary| ==> |secondary[m].candidates| == |candidates|
  {
    seq(|candidates|, i requires 0 <= i < |candidates| =>
      Report(CompareEvidence(direction, candidates[i], reference),
             seq(|secondary|, m requires 0 <= m < |secondary| && i < |secondary[m].candidates| =>
               CompareMetric(secondary[m].metric, secondary[m].candidates[i], secondary[m].reference))))
  }

  // ------------------------------------------------------------ what a comparison means

  /**
    The preference is conclusive exactly for two finished Runs with finite last
    values, and then follows the better value.
   */
  lemma PreferenceFollowsBetterValue(direction: Direction, a: ObjectiveEvidence, b: ObjectiveEvidence)
    ensures var preference := CompareEvidence(direction, a, b).preference;
            var (c, r) := (a.EligibleValue(), b.EligibleValue());
            && (preference.Inconclusive? <==> c.None? || r.None?)
            && (preference.PreferCandidate? <==> c.Some? && r.Some? && Better(direction, c.value, r.value))
            && (preference.PreferReference? <==> c.Some? && r.Some? && Better(direction, r.value, c.value))
            && (preference.NoPreference? <==> c.Some? && r.Some? && c.value == r.value)
  {
  }

  /** What a comparison says in numbers, for whichever values there are. */
  lemma ComparisonsMean(direction: Direction, a: ObjectiveEvidence, b: ObjectiveEvidence)
    ensures var x := CompareEvidence(direction, a, b);
            && x.candidate == a && x.reference == b
            && (x.rawDelta.Some? <==> a.UsableValue().Some? && b.UsableValue().Some?)
            && (x.outcome.Some? <==> x.rawDelta.Some?) && (x.normalizedImprovement.Some? <==> x.rawDelta.Some?)
            && (x.relativeDelta.Some? ==> x.rawDelta.Some?)
            && (x.rawDelta.Some? ==>
                  var v, w := a.UsableValue().value, b.UsableValue().value;
                  && w + x.rawDelta.value == v
                  && x.normalizedImprovement == Some(if direction.Minimize? then w - v else v - w)
                  && (x.outcome == Some(Improved) <==> if direction.Minimize? then v < w else v > w)
                  && (x.outcome == Some(Regressed) <==> if direction.Minimize? then v > w else v < w)
                  && (x.outcome == Some(Equal) <==> v == w)
                  && (x.relativeDelta.Some? <==> w != 0.0)
                  && (w > 0.0 ==> x.relativeDelta.value * w == v - w) && (w < 0.0 ==> x.relativeDelta.value * w == w - v))
  {
  }

  /** A secondary metric is compared without a direction, in the same numbers. */
  lemma MetricComparisonsMean(metric: string, a: ObjectiveEvidence, b: ObjectiveEvidence)
    ensures var x, y := CompareMetric(metric, a, b), CompareEvidence(Maximize, a, b);
            && x.metric == metric && x.candidate == a && x.reference == b
            && x.completeness == y.completeness && x.rawDelta == y.rawDelta && x.relativeDelta == y.relativeDelta
    ensures CompareMetric(metric, a, b).completeness == Worse(a.completeness, b.completeness)
  {
  }

  /**
    In any request that holds both Runs, the preferred one ranks strictly higher,
    and no preference means the same rank.
   */
  lemma PreferenceAgreesWithRanking(direction: Direction, cs: seq<Candidate>, c: Candidate, r: Candidate)
    requires Distinct(cs) && c in cs && r in cs
    ensures var preference := CompareEvidence(direction, c.evidence, r.evidence).preference;
            var (rankC, rankR) := (RankOf(direction, cs, c), RankOf(direction, cs, r));
            && (preference.PreferCandidate? <==> rankC.Some? && rankR.Some? && rankC.value < rankR.value)
            && (preference.PreferReference? <==> rankC.Some? && rankR.Some? && rankR.value < rankC.value)
            && (preference.NoPreference? <==> rankC.Some? && rankR.Some? && rankC == rankR)
            && (preference.Inconclusive? <==> rankC.None? || rankR.None?)
  {
    PreferenceFollowsBetterValue(direction, c.evidence, r.evidence);
    hide CompareEvidence, BetterOnes;
    if Score(c).Some? && Score(r).Some? {
      RanksOrderValues(direction, cs, c, r);
      RanksOrderValues(direction, cs, r, c);
    }
  }

  function FlippedOutcome(outcome: Outcome): Outcome {
    match outcome
    case Improved => Regressed
    case Regressed => Improved
    case Equal => Equal
  }

  function FlippedPreference(preference: Preference): Preference {
    match preference
    case PreferCandidate => PreferReference
    case PreferReference => PreferCandidate
    case _ => preference
  }

  /** Swapping the roles negates the deltas and flips outcome and preference. */
  lemma SwappingRolesFlips(direction: Direction, a: ObjectiveEvidence, b: ObjectiveEvidence)
    ensures var (x, y) := (CompareEvidence(direction, a, b), CompareEvidence(direction, b, a));
            && y.completeness == x.completeness
            && y.rawDelta == (if x.rawDelta.None? then None else Some(-x.rawDelta.value))
            && y.normalizedImprovement == (if x.normalizedImprovement.None? then None else Some(-x.normalizedImprovement.value))
            && y.outcome == (if x.outcome.None? then None else Some(FlippedOutcome(x.outcome.value)))
            && y.preference == FlippedPreference(x.preference)
  {
  }

  /** Minimizing and maximizing judge the same pair in opposite ways. */
  lemma OppositeDirectionsFlip(a: ObjectiveEvidence, b: ObjectiveEvidence)
    ensures var (x, y) := (CompareEvidence(Minimize, a, b), CompareEvidence(Maximize, a, b));
            x.rawDelta == y.rawDelta && x.relativeDelta == y.relativeDelta && y.preference == FlippedPreference(x.preference)
  {
  }

  /** The delta leads from the reference to the candidate, and the relative delta measures it in references. */
  lemma DeltaLeadsToCandidate(direction: Direction, a: ObjectiveEvidence, b: ObjectiveEvidence)
    requires a.UsableValue().Some? && b.UsableValue().Some?
    ensures var x := CompareEvidence(direction, a, b);
            && x.rawDelta.Some? && b.UsableValue().value + x.rawDelta.value == a.UsableValue().value
            && (x.relativeDelta.None? <==> b.UsableValue().value == 0.0)
            && (x.relativeDelta.Some? ==> x.relativeDelta.value * Absolute(b.UsableValue().value) == x.rawDelta.value)
  {
  }

  /** The completeness of a comparison of collected evidence is the greatest severity among the reasons of both sides. */
  lemma ComparisonIsAsSevereAsItsReasons(direction: Direction, a: ObjectiveEvidence, b: ObjectiveEvidence)
    requires a.completeness == Worst(a.reasons) && b.completeness == Worst(b.reasons)
    ensures CompareEvidence(direction, a, b).completeness == Worst(a.reasons + b.reasons)
  {
    WorstConcat(a.reasons, b.reasons);
  }

  /**
    Reports come in request order and pair every candidate with its own secondary
    evidence, which never changes the preference.
   */
  lemma ReportsKeepOrder(direction: Direction, reference: ObjectiveEvidence, candidates: seq<ObjectiveEvidence>, secondary: seq<SecondarySet>, i: nat, m: nat)
    requires forall k :: 0 <= k < |secondary| ==> |secondary[k].candidates| == |candidates|
    requires i < |candidates|
    ensures var reports := BuildReports(direction, reference, candidates, secondary);
            && |reports| == |candidates| && |reports[i].secondary| == |secondary|
            && reports[i].primary.candidate == candidates[i] && reports[i].primary.reference == reference
            && reports[i].primary == BuildReports(direction, reference, candidates, [])[i].primary
            && reports[i].primary == CompareEvidence(direction, candidates[i], reference)
            && (m < |secondary| ==> reports[i].secondary[m] == CompareMetric(secondary[m].metric, secondary[m].candidates[i], secondary[m].reference))
  {
  }
}
