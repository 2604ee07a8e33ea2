/**
  Competition ranking of Runs by one objective: eligible Runs first, best value
  first, equal values sharing a rank; ineligible Runs last, in request order.
 */
module Ranking {
  import opened Values
  import opened Evidence

  datatype Direction = Minimize | Maximize

  datatype Candidate = Candidate(evidence: ObjectiveEvidence, createdAt: int, ordinal: nat)

  datatype Entry = Entry(evidence: ObjectiveEvidence, rank: Option<nat>)

  // ------------------------------------------------------------ the order of candidates

  /** Byte order of identifiers. */
  predicate TextLess(a: string, b: string) {
    b != [] && (a == [] || a[0] < b[0] || (a[0] == b[0] && TextLess(a[1..], b[1..])))
  }

  predicate Better(direction: Direction, a: real, b: real) {
    match direction
    case Minimize => a < b
    case Maximize => a > b
  }

  function Score(c: Candidate): Option<real> {
    c.evidence.EligibleValue()
  }

  /** `compare_candidates` says less. */
  predicate Before(direction: Direction, a: Candidate, b: Candidate) {
    if Score(a).Some? && Score(b).Some? then
      || Better(direction, Score(a).value, Score(b).value)
      || (Score(a) == Score(b) && (a.createdAt < b.createdAt || (a.createdAt == b.createdAt && TextLess(a.evidence.run, b.evidence.run))))
    else if Score(a).Some? || Score(b).Some? then Score(a).Some?
    else a.ordinal < b.ordinal
  }

  lemma {:induction false} TextOrder(a: string, b: string, c: string)
    ensures !TextLess(a, a) && (TextLess(a, b) ==> !TextLess(b, a))
    ensures a != b ==> TextLess(a, b) || TextLess(b, a)
    ensures TextLess(a, b) && TextLess(b, c) ==> TextLess(a, c)
    decreases |a| + |b| + |c|
  {
    if a != [] && b != [] {
      if c != [] {
        TextOrder(a[1..], b[1..], c[1..]);
      } else {
        TextOrder(a[1..], b[1..], c);
      }
      assert a == [a[0]] + a[1..] && b == [b[0]] + b[1..];
    }
    if a != [] {
      TextIrreflexive(a);
    }
  }

  lemma {:induction false} TextIrreflexive(a: string)
    ensures !TextLess(a, a)
  {
    if a != [] {
      TextIrreflexive(a[1..]);
    }
  }

  /** Different runs and different ordinals are strictly and totally ordered. */
  lemma BeforeIsOrder(direction: Direction, a: Candidate, b: Candidate, c: Candidate)
    ensures !(Before(direction, a, b) && Before(direction, b, a))
    ensures a.evidence.run != b.evidence.run && a.ordinal != b.ordinal ==> Before(direction, a, b) || Before(direction, b, a)
    ensures Before(direction, a, b) && Before(direction, b, c) ==> Before(direction, a, c)
  {
    TextOrder(a.evidence.run, b.evidence.run, c.evidence.run);
    TextOrder(b.evidence.run, a.evidence.run, c.evidence.run);
  }

  // ------------------------------------------------------------ what the order says

  /** The two agree on the first `k` characters, and then `a` ends or has the smaller one. */
  predicate PrecedesAt(a: string, b: string, k: nat) {
    k <= |a| && k < |b| && a[..k] == b[..k] && (k == |a| || a[k] < b[k])
  }

  ghost predicate ComesBefore(a: string, b: string) {
    exists k: nat :: PrecedesAt(a, b, k)
  }

  lemma {:induction false} TextLessMeans(a: string, b: string)
    ensures TextLess(a, b) <==> ComesBefore(a, b)
  {
    if a == [] || b == [] || a[0] != b[0] {
      TextDiffersAtOnce(a, b);
    } else {
      TextLessMeans(a[1..], b[1..]);
      if k: nat :| PrecedesAt(a[1..], b[1..], k) {
        assert a[..k + 1] == [a[0]] + a[1..][..k] && b[..k + 1] == [b[0]] + b[1..][..k];
        assert PrecedesAt(a, b, k + 1);
      }
      if k: nat :| PrecedesAt(a, b, k) {
        assert k > 0 && a[1..][..k - 1] == a[..k][1..] && b[1..][..k - 1] == b[..k][1..];
        assert PrecedesAt(a[1..], b[1..], k - 1);
      }
    }
  }

  lemma TextDiffersAtOnce(a: string, b: string)
    requires a == [] || b == [] || a[0] != b[0]
    ensures TextLess(a, b) <==> ComesBefore(a, b)
  {
    assert PrecedesAt(a, b, 0) <==> TextLess(a, b);
    forall k: nat | k > 0 ensures !PrecedesAt(a, b, k) {
      if k <= |a| && k < |b| { assert a[..k][0] == a[0] && b[..k][0] == b[0]; }
    }
  }

  /** The smaller value leads when minimizing, the greater one when maximizing; then the older Run, then the smaller identifier. */
  ghost predicate Leads(direction: Direction, a: Candidate, b: Candidate)
    requires a.evidence.EligibleValue().Some? && b.evidence.EligibleValue().Some?
  {
    var v, w := a.evidence.EligibleValue().value, b.evidence.EligibleValue().value;
    && (direction.Minimize? ==> v <= w) && (direction.Maximize? ==> v >= w)
    && (v == w ==> a.createdAt <= b.createdAt)
    && (v == w && a.createdAt == b.createdAt ==> a.evidence.run == b.evidence.run || ComesBefore(a.evidence.run, b.evidence.run))
  }

  lemma BeforeMeansLeads(direction: Direction, a: Candidate, b: Candidate)
    requires a.evidence.EligibleValue().Some? && b.evidence.EligibleValue().Some?
    requires a == b || Before(direction, a, b)
    ensures Leads(direction, a, b)
  {
    TextLessMeans(a.evidence.run, b.evidence.run);
  }

  // ------------------------------------------------------------ sorting

  predicate Distinct(cs: seq<Candidate>) {
    forall i, j :: 0 <= i < j < |cs| ==> cs[i].evidence.run != cs[j].evidence.run && cs[i].ordinal != cs[j].ordinal
  }

  predicate IsSorted(direction: Direction, cs: seq<Candidate>) {
    forall i, j :: 0 <= i < j < |cs| ==> Before(direction, cs[i], cs[j])
  }

  /** Insertion before the first candidate that is not before `c`. */
  function Inserted(direction: Direction, cs: seq<Candidate>, c: Candidate): seq<Candidate> {
    if cs == [] then [c]
    else if Before(direction, cs[0], c) then [cs[0]] + Inserted(direction, cs[1..], c)
    else [c] + cs
  }

  /** `sort_by(compare_candidates)`. */
  function Sorted(direction: Direction, cs: seq<Candidate>): seq<Candidate> {
    if cs == [] then [] else Inserted(direction, Sorted(direction, cs[1..]), cs[0])
  }

  lemma {:induction false} InsertedContents(direction: Direction, cs: seq<Candidate>, c: Candidate)
    ensures multiset(Inserted(direction, cs, c)) == multiset(cs) + multiset{c}
  {
    if cs != [] {
      var rest := cs[1..];
      assert cs == [cs[0]] + rest;
      if Before(direction, cs[0], c) {
        InsertedContents(direction, rest, c);
        Prepends(cs[0], Inserted(direction, rest, c));
        Prepends(cs[0], rest);
      } else {
        Prepends(c, cs);
      }
    } else {
      assert multiset(cs) + multiset{c} == multiset{c};
    }
  }

  lemma Prepends(c: Candidate, cs: seq<Candidate>)
    ensures multiset([c] + cs) == multiset{c} + multiset(cs)
  {
  }

  lemma {:induction false} SortedContents(direction: Direction, cs: seq<Candidate>)
    ensures multiset(Sorted(direction, cs)) == multiset(cs) && |Sorted(direction, cs)| == |cs|
  {
    if cs != [] {
      SortedContents(direction, cs[1..]);
      InsertedContents(direction, Sorted(direction, cs[1..]), cs[0]);
      assert Sorted(direction, cs) == Inserted(direction, Sorted(direction, cs[1..]), cs[0]);
      assert cs == [cs[0]] + cs[1..];
      hide Sorted, Inserted;
    }
    assert |multiset(Sorted(direction, cs))| == |multiset(cs)|;
  }

  lemma {:induction false} InsertedIsSorted(direction: Direction, cs: seq<Candidate>, c: Candidate)
    requires IsSorted(direction, cs) && forall i :: 0 <= i < |cs| ==> cs[i].evidence.run != c.evidence.run && cs[i].ordinal != c.ordinal
    ensures IsSorted(direction, Inserted(direction, cs, c))
  {
    if cs != [] {
      var r := Inserted(direction, cs, c);
      BeforeIsOrder(direction, cs[0], c, c);
      if Before(direction, cs[0], c) {
        InsertedIsSorted(direction, cs[1..], c);
        InsertedContents(direction, cs[1..], c);
        forall j | 0 < j < |r| ensures Before(direction, cs[0], r[j]) {
          assert r[j] in multiset(r[1..]) && r[1..] == Inserted(direction, cs[1..], c);
        }
      } else {
        forall j | 0 < j < |r| ensures Before(direction, c, r[j]) {
          if j > 1 { BeforeIsOrder(direction, c, cs[0], cs[j - 1]); }
        }
      }
    }
  }

  lemma {:induction false} SortedIsSorted(direction: Direction, cs: seq<Candidate>)
    requires Distinct(cs)
    ensures IsSorted(direction, Sorted(direction, cs))
  {
    if cs != [] {
      SortedIsSorted(direction, cs[1..]);
      SortedContents(direction, cs[1..]);
      var s := Sorted(direction, cs[1..]);
      forall i | 0 <= i < |s| ensures s[i].evidence.run != cs[0].evidence.run && s[i].ordinal != cs[0].ordinal {
        assert s[i] in multiset(s) && s[i] in cs[1..];
      }
      InsertedIsSorted(direction, s, cs[0]);
    }
  }

  // ------------------------------------------------------------ ranks

  /** The eligible candidates with a strictly better value. */
  function BetterOnes(direction: Direction, cs: seq<Candidate>, v: real): set<Candidate> {
    set c | c in cs && Score(c).Some? && Better(direction, Score(c).value, v)
  }

  /** One plus the number of strictly better eligible candidates; none for an ineligible one. */
  function RankOf(direction: Direction, cs: seq<Candidate>, c: Candidate): Option<nat> {
    if Score(c).None? then None else Some(1 + |BetterOnes(direction, cs, Score(c).value)|)
  }

  function Members(cs: seq<Candidate>): set<Candidate> {
    set c | c in cs
  }

  lemma {:induction false} DistinctMembers(cs: seq<Candidate>)
    requires Distinct(cs)
    ensures |Members(cs)| == |cs|
  {
    if cs != [] {
      var front, last := cs[..|cs| - 1], cs[|cs| - 1];
      DistinctMembers(front);
      assert cs == front + [last] && last !in front;
      assert Members(cs) == Members(front) + {last};
    }
  }

  /** In sorted order the strictly better candidates are the ones before the first with the same value. */
  lemma BetterArePrefix(direction: Direction, cs: seq<Candidate>, first: nat, i: nat)
    requires IsSorted(direction, cs) && Distinct(cs) && first <= i < |cs| && Score(cs[i]).Some?
    requires forall k :: first <= k <= i ==> Score(cs[k]) == Score(cs[i])
    requires first > 0 ==> Score(cs[first - 1]) != Score(cs[i])
    ensures BetterOnes(direction, cs, Score(cs[i]).value) == Members(cs[..first])
    ensures |BetterOnes(direction, cs, Score(cs[i]).value)| == first
  {
    var v := Score(cs[i]).value;
    forall k | 0 <= k < |cs| ensures (Score(cs[k]).Some? && Better(direction, Score(cs[k]).value, v)) <==> k < first {
      if k < first - 1 {
        assert Before(direction, cs[k], cs[first - 1]);
      }
      if k < first {
        assert Before(direction, cs[k], cs[i]) && Before(direction, cs[first - 1], cs[i]);
      } else if k > i {
        assert Before(direction, cs[i], cs[k]);
      }
    }
    assert BetterOnes(direction, cs, v) == Members(cs[..first]) by {
      forall c | c in BetterOnes(direction, cs, v) ensures c in cs[..first] {
        var k :| 0 <= k < |cs| && cs[k] == c;
        assert cs[..first][k] == c;
      }
      forall c | c in cs[..first] ensures c in BetterOnes(direction, cs, v) {
        var k :| 0 <= k < first && cs[..first][k] == c;
        assert cs[k] == c;
      }
    }
    DistinctMembers(cs[..first]);
  }

  /** Before position `index`: the last value that got a rank, and the position after which it began. */
  ghost predicate Passed(sorted: seq<Candidate>, index: nat, value: Option<real>, rank: nat)
    requires index <= |sorted|
  {
    if value.None? then forall k :: 0 <= k < index ==> Score(sorted[k]).None?
    else
      && 1 <= rank <= index && Score(sorted[rank - 1]) == value
      && (rank > 1 ==> Score(sorted[rank - 2]) != value)
      && (forall k :: rank <= k < index ==> Score(sorted[k]) == value || Score(sorted[k]).None?)
  }

  lemma PassedStep(direction: Direction, sorted: seq<Candidate>, index: nat, value: Option<real>, rank: nat)
    requires IsSorted(direction, sorted) && Distinct(sorted) && index < |sorted| && Passed(sorted, index, value, rank)
    ensures var current := Score(sorted[index]);
            var (value', rank') := if current.Some? && value != current then (current, index + 1) else (value, rank);
            && Passed(sorted, index + 1, value', rank')
            && (current.Some? ==> rank' == 1 + |BetterOnes(direction, sorted, current.value)|)
  {
    var current := Score(sorted[index]);
    if current.Some? {
      StillEligible(direction, sorted, index);
      assert index > 0 ==> Score(sorted[index - 1]).Some?;
      BetterArePrefix(direction, sorted, if value != current then index else rank - 1, index);
    }
  }

  /** Hands out ranks in one pass over the sorted candidates. */
  method HandOutRanks(direction: Direction, sorted: seq<Candidate>) returns (entries: seq<Entry>)
    requires IsSorted(direction, sorted) && Distinct(sorted)
    ensures |entries| == |sorted| && forall i :: 0 <= i < |entries| ==> entries[i] == Entry(sorted[i].evidence, RankOf(direction, sorted, sorted[i]))
  {
    NothingPassed(sorted);
    hide IsSorted, Distinct, Passed, BetterOnes, Score;
    entries := [];
    var previousValue: Option<real>, previousRank := None, 0;
    for index := 0 to |sorted|
      invariant |entries| == index && Passed(sorted, index, previousValue, previousRank)
      invariant forall i :: 0 <= i < index ==> entries[i] == Entry(sorted[i].evidence, RankOf(direction, sorted, sorted[i]))
    {
      var value := Score(sorted[index]);
      PassedStep(direction, sorted, index, previousValue, previousRank);
      var rank := None;
      if value.Some? {
        if previousValue != value {
          previousRank, previousValue := index + 1, value;
        }
        rank := Some(previousRank);
      }
      entries := entries + [Entry(sorted[index].evidence, rank)];
    }
  }

  /**
    Sorts, then hands out ranks. The entries are the candidates, in sorted order,
    each with one plus the number of strictly better ones.
   */
  method RankCandidates(direction: Direction, candidates: seq<Candidate>) returns (entries: seq<Entry>)
    requires Distinct(candidates)
    ensures entries == RankedEntries(direction, candidates)
  {
    var sorted := Sorted(direction, candidates);
    SortedIsSorted(direction, candidates);
    SortedIsDistinct(direction, candidates);
    entries := HandOutRanks(direction, sorted);
    forall i | 0 <= i < |sorted| ensures RankOf(direction, sorted, sorted[i]) == RankOf(direction, candidates, sorted[i]) {
      if Score(sorted[i]).Some? {
        SameBetter(direction, candidates, Score(sorted[i]).value);
      }
    }
    hide IsSorted, Distinct, Sorted, BetterOnes, RankOf;
  }

  lemma NothingPassed(sorted: seq<Candidate>)
    ensures Passed(sorted, 0, None, 0)
  {
  }

  function RankedEntries(direction: Direction, candidates: seq<Candidate>): (entries: seq<Entry>)
    ensures |entries| == |Sorted(direction, candidates)|
    ensures forall i :: 0 <= i < |entries| ==>
              entries[i] == Entry(Sorted(direction, candidates)[i].evidence, RankOf(direction, candidates, Sorted(direction, candidates)[i]))
  {
    var sorted := Sorted(direction, candidates);
    seq(|sorted|, i requires 0 <= i < |sorted| => Entry(sorted[i].evidence, RankOf(direction, candidates, sorted[i])))
  }

  lemma StillEligible(direction: Direction, sorted: seq<Candidate>, index: nat)
    requires IsSorted(direction, sorted) && index < |sorted| && Score(sorted[index]).Some?
    ensures forall k :: 0 <= k < index ==> Score(sorted[k]).Some?
  {
    forall k | 0 <= k < index ensures Score(sorted[k]).Some? {
      assert Before(direction, sorted[k], sorted[index]);
    }
  }

  lemma SortedIsDistinct(direction: Direction, cs: seq<Candidate>)
    requires Distinct(cs)
    ensures Distinct(Sorted(direction, cs))
  {
    SortedContents(direction, cs);
    SortedIsSorted(direction, cs);
    var s := Sorted(direction, cs);
    forall i, j | 0 <= i < j < |s| ensures s[i].evidence.run != s[j].evidence.run && s[i].ordinal != s[j].ordinal {
      assert Before(direction, s[i], s[j]);
      BeforeIsOrder(direction, s[i], s[j], s[i]);
      assert s[i] in multiset(s) && s[j] in multiset(s) && s[i] in cs && s[j] in cs;
    }
  }

  lemma SameBetter(direction: Direction, cs: seq<Candidate>, v: real)
    ensures BetterOnes(direction, Sorted(direction, cs), v) == BetterOnes(direction, cs, v)
  {
    SortedContents(direction, cs);
    var s := Sorted(direction, cs);
    forall c ensures c in s <==> c in cs {
      assert c in s <==> c in multiset(s);
    }
  }

  // ------------------------------------------------------------ what a ranking means

  lemma SmallerSet(a: set<Candidate>, b: set<Candidate>, c: Candidate)
    requires a <= b && c in b && c !in a
    ensures |a| < |b|
  {
    assert |b - a| + |a| == |b| by { assert b == (b - a) + a; }
    assert c in b - a;
  }

  /** Ranks order the values: a better value has the lower rank, an equal one the same. */
  lemma RanksOrderValues(direction: Direction, cs: seq<Candidate>, c: Candidate, d: Candidate)
    requires c in cs && d in cs && Score(c).Some? && Score(d).Some?
    ensures Better(direction, Score(c).value, Score(d).value) <==> RankOf(direction, cs, c).value < RankOf(direction, cs, d).value
    ensures Score(c) == Score(d) <==> RankOf(direction, cs, c) == RankOf(direction, cs, d)
  {
    var a, b := BetterOnes(direction, cs, Score(c).value), BetterOnes(direction, cs, Score(d).value);
    if Better(direction, Score(c).value, Score(d).value) {
      SmallerSet(a, b, c);
    } else if Better(direction, Score(d).value, Score(c).value) {
      SmallerSet(b, a, d);
    }
  }

  /**
    A ranking keeps every candidate. Eligible entries come first, ranked, the best
    value first; the others follow in request order without a rank.
   */
  lemma RankingMeans(direction: Direction, cs: seq<Candidate>, i: nat, j: nat)
    requires Distinct(cs) && i < j < |cs|
    ensures multiset(Sorted(direction, cs)) == multiset(cs) && |RankedEntries(direction, cs)| == |cs|
    ensures var (sorted, entries) := (Sorted(direction, cs), RankedEntries(direction, cs));
            && (entries[i].rank.None? <==> entries[i].evidence.EligibleValue().None?)
            && (entries[j].rank.Some? ==> entries[i].rank.Some? && entries[i].rank.value <= entries[j].rank.value)
            && (entries[i].rank.None? ==> entries[j].rank.None? && sorted[i].ordinal < sorted[j].ordinal)
  {
    SortedContents(direction, cs);
    SortedIsSorted(direction, cs);
    var sorted := Sorted(direction, cs);
    assert Before(direction, sorted[i], sorted[j]);
    assert sorted[i] in multiset(sorted) && sorted[j] in multiset(sorted);
    if Score(sorted[i]).Some? && Score(sorted[j]).Some? {
      RanksOrderValues(direction, cs, sorted[i], sorted[j]);
      RanksOrderValues(direction, cs, sorted[j], sorted[i]);
    }
  }

  // ------------------------------------------------------------ independence of the request order

  /** The same run, whatever its place in the request. */
  predicate Same(a: Candidate, b: Candidate) {
    a.evidence == b.evidence && a.createdAt == b.createdAt
  }

  /** Every eligible candidate of the one request is in the other. */
  ghost predicate Covers(cs: seq<Candidate>, ds: seq<Candidate>) {
    forall c :: c in cs && Score(c).Some? ==> Has(ds, c)
  }

  ghost predicate Has(ds: seq<Candidate>, c: Candidate) {
    exists k :: 0 <= k < |ds| && Same(c, ds[k])
  }

  lemma SortedCovers(direction: Direction, cs: seq<Candidate>, ds: seq<Candidate>)
    requires Covers(cs, ds)
    ensures Covers(Sorted(direction, cs), Sorted(direction, ds))
  {
    SortedContents(direction, cs);
    SortedContents(direction, ds);
    var s, t := Sorted(direction, cs), Sorted(direction, ds);
    forall c | c in s && Score(c).Some? ensures Has(t, c) {
      assert c in multiset(s) && c in cs && Has(ds, c);
      var k :| 0 <= k < |ds| && Same(c, ds[k]);
      assert ds[k] in multiset(ds) && ds[k] in multiset(t);
      var l :| 0 <= l < |t| && t[l] == ds[k];
    }
  }

  /** Two sorted lists with the same eligible runs agree on them, place by place. */
  lemma {:induction false} EligibleAgree(direction: Direction, s: seq<Candidate>, t: seq<Candidate>, i: nat)
    requires IsSorted(direction, s) && IsSorted(direction, t) && Distinct(s) && Distinct(t) && Covers(s, t) && Covers(t, s)
    requires i < |s| && Score(s[i]).Some?
    ensures i < |t| && forall k :: 0 <= k <= i ==> Same(s[k], t[k])
    decreases i
  {
    StillEligible(direction, s, i);
    if i > 0 {
      EligibleAgree(direction, s, t, i - 1);
    }
    assert Has(t, s[i]);
    var l :| 0 <= l < |t| && Same(s[i], t[l]);
    assert forall k :: 0 <= k < i ==> Same(s[k], t[k]) && s[k].evidence.run != s[i].evidence.run;
    assert l >= i;
    StillEligible(direction, t, l);
    if l > i {
      assert Has(s, t[i]);
      var m :| 0 <= m < |s| && Same(t[i], s[m]);
      assert Before(direction, t[i], t[l]);
      assert Before(direction, s[m], s[i]);
      NotBackwards(direction, s, t, i, m);
    }
  }

  /** A run found at place `i` of the one list is not at an earlier place of the other, and not later either. */
  lemma NotBackwards(direction: Direction, s: seq<Candidate>, t: seq<Candidate>, i: nat, m: nat)
    requires IsSorted(direction, s) && Distinct(s) && Distinct(t) && i < |s| && i < |t| && m < |s|
    requires forall k :: 0 <= k < i ==> Same(s[k], t[k])
    requires Same(t[i], s[m])
    ensures !Before(direction, s[m], s[i])
  {
    BeforeIsOrder(direction, s[i], s[m], s[i]);
    assert forall k :: 0 <= k < i ==> Same(s[k], t[k]) && t[k].evidence.run != t[i].evidence.run;
    if i < m {
      assert Before(direction, s[i], s[m]);
    }
  }

  /** Where the run of equal values around place `i` begins. */
  function FirstEqual(s: seq<Candidate>, i: nat): (first: nat)
    requires i < |s|
    ensures first <= i && (forall k :: first <= k <= i ==> Score(s[k]) == Score(s[i])) && (first > 0 ==> Score(s[first - 1]) != Score(s[i]))
  {
    if i > 0 && Score(s[i - 1]) == Score(s[i]) then FirstEqual(s, i - 1) else i
  }

  lemma {:induction false} FirstEqualAgrees(s: seq<Candidate>, t: seq<Candidate>, i: nat)
    requires i < |s| && i < |t| && forall k :: 0 <= k <= i ==> Same(s[k], t[k])
    ensures FirstEqual(s, i) == FirstEqual(t, i)
  {
    assert Same(s[i], t[i]);
    if i > 0 {
      assert Same(s[i - 1], t[i - 1]);
      FirstEqualAgrees(s, t, i - 1);
    }
  }

  /**
    The eligible part of a ranking does not depend on the order of the request:
    the same runs come in the same places with the same ranks.
   */
  lemma RequestOrderDoesNotMatter(direction: Direction, cs: seq<Candidate>, ds: seq<Candidate>, i: nat)
    requires Distinct(cs) && Distinct(ds) && Covers(cs, ds) && Covers(ds, cs)
    requires i < |RankedEntries(direction, cs)| && RankedEntries(direction, cs)[i].rank.Some?
    ensures i < |RankedEntries(direction, ds)| && RankedEntries(direction, ds)[i] == RankedEntries(direction, cs)[i]
  {
    var s, t := Sorted(direction, cs), Sorted(direction, ds);
    SortedCovers(direction, cs, ds);
    SortedCovers(direction, ds, cs);
    SortedIsSorted(direction, cs);
    SortedIsSorted(direction, ds);
    SortedIsDistinct(direction, cs);
    SortedIsDistinct(direction, ds);
    assert Score(s[i]).Some?;
    hide IsSorted, Distinct, Covers, Sorted, BetterOnes, RankedEntries;
    EligibleAgree(direction, s, t, i);
    RankIsPosition(direction, cs, i);
    RankIsPosition(direction, ds, i);
    FirstEqualAgrees(s, t, i);
    assert Same(s[i], t[i]);
  }

  /** A rank is the position, counted from one, at which its run of equal values begins. */
  lemma RankIsPosition(direction: Direction, cs: seq<Candidate>, i: nat)
    requires Distinct(cs) && i < |Sorted(direction, cs)| && Score(Sorted(direction, cs)[i]).Some?
    ensures RankOf(direction, cs, Sorted(direction, cs)[i]) == Some(FirstEqual(Sorted(direction, cs), i) + 1)
  {
    SortedIsSorted(direction, cs);
    SortedIsDistinct(direction, cs);
    PositionOf(direction, Sorted(direction, cs), i);
    SameBetter(direction, cs, Score(Sorted(direction, cs)[i]).value);
    hide IsSorted, Distinct, Sorted, BetterOnes, FirstEqual;
  }

  lemma PositionOf(direction: Direction, s: seq<Candidate>, i: nat)
    requires IsSorted(direction, s) && Distinct(s) && i < |s| && Score(s[i]).Some?
    ensures |BetterOnes(direction, s, Score(s[i]).value)| == FirstEqual(s, i)
  {
    hide IsSorted, Distinct, BetterOnes;
    BetterArePrefix(direction, s, FirstEqual(s, i), i);
  }

  // ------------------------------------------------------------ requests

  /** Some identifier is repeated: the first position that repeats an earlier one. */
  ghost predicate FirstRepeat(runs: seq<string>, i: nat) {
    i < |runs| && runs[i] in runs[..i] && forall j, k :: 0 <= j < k < i ==> runs[j] != runs[k]
  }

  method RejectDuplicates(runs: seq<string>) returns (duplicate: Option<string>)
    ensures duplicate.None? <==> forall j, k :: 0 <= j < k < |runs| ==> runs[j] != runs[k]
    ensures duplicate.Some? ==> exists i: nat :: FirstRepeat(runs, i) && runs[i] == duplicate.value
  {
    var seen: set<string> := {};
    for i := 0 to |runs|
      invariant forall j, k :: 0 <= j < k < i ==> runs[j] != runs[k]
      invariant forall run :: run in seen <==> run in runs[..i]
    {
      if runs[i] in seen {
        assert FirstRepeat(runs, i);
        var j :| 0 <= j < i && runs[..i][j] == runs[i];
        assert runs[j] == runs[i];
        return Some(runs[i]);
      }
      assert forall j :: 0 <= j < i ==> runs[j] in runs[..i];
      seen := seen + {runs[i]};
    }
    return None;
  }

  /** The first entry that ranks first: the least eligible candidate, if there is one. */
  method BestEligibleRun(direction: Direction, candidates: seq<Candidate>) returns (best: Option<string>)
    requires Distinct(candidates)
    ensures best.None? <==> forall c :: c in candidates ==> Score(c).None?
    ensures best.Some? ==> exists c :: c in candidates && c.evidence.run == best.value && LeadsAll(direction, candidates, c)
  {
    var entries := RankCandidates(direction, candidates);
    var index := 0;
    while index < |entries| && entries[index].rank != Some(1)
      invariant index <= |entries| && forall k :: 0 <= k < index ==> entries[k].rank != Some(1)
    {
      index := index + 1;
    }
    BestIsFirst(direction, candidates);
    if index < |entries| {
      BestLeadsAll(direction, candidates, Sorted(direction, candidates)[0]);
    }
    best := if index < |entries| then Some(entries[index].evidence.run) else None;
  }

  /** The candidate is eligible and leads every eligible one. */
  ghost predicate LeadsAll(direction: Direction, candidates: seq<Candidate>, c: Candidate) {
    && c.evidence.EligibleValue().Some?
    && forall d :: d in candidates && d.evidence.EligibleValue().Some? ==> Leads(direction, c, d)
  }

  lemma BestLeadsAll(direction: Direction, candidates: seq<Candidate>, c: Candidate)
    requires c in candidates && IsBest(direction, candidates, c)
    ensures LeadsAll(direction, candidates, c)
  {
    hide Leads, Before;
    forall d | d in candidates && d.evidence.EligibleValue().Some? ensures Leads(direction, c, d) {
      BeforeMeansLeads(direction, c, d);
    }
  }

  /**
    The places of a ranking. Of two eligible entries the earlier one leads; and a
    rank is one more than the number of eligible Runs with a smaller value when
    minimizing, a greater one when maximizing.
   */
  lemma PlacesFollowTheRule(direction: Direction, cs: seq<Candidate>, i: nat, j: nat, c: Candidate, d: Candidate)
    requires Distinct(cs) && c in cs && d in cs && i < j < |RankedEntries(direction, cs)|
    requires RankedEntries(direction, cs)[i].evidence == c.evidence && RankedEntries(direction, cs)[j].evidence == d.evidence
    requires c.evidence.EligibleValue().Some? && d.evidence.EligibleValue().Some?
    ensures Leads(direction, c, d)
    ensures RankedEntries(direction, cs)[i].rank == Some(1 + |Ahead(direction, cs, c.evidence.EligibleValue().value)|)
  {
    var sorted := Sorted(direction, cs);
    SameMembers(direction, cs);
    SortedIsSorted(direction, cs);
    assert sorted[i] in cs && sorted[j] in cs;
    assert sorted[i] == c && sorted[j] == d;
    BeforeMeansLeads(direction, c, d);
    assert BetterOnes(direction, cs, Score(c).value) == Ahead(direction, cs, Score(c).value);
  }

  function Ahead(direction: Direction, cs: seq<Candidate>, v: real): set<Candidate> {
    set e | e in cs && e.evidence.EligibleValue().Some?
            && (if direction.Minimize? then e.evidence.EligibleValue().value < v else e.evidence.EligibleValue().value > v)
  }

  predicate IsBest(direction: Direction, candidates: seq<Candidate>, c: Candidate) {
    Score(c).Some? && forall d :: d in candidates && d != c && Score(d).Some? ==> Before(direction, c, d)
  }

  lemma BestIsFirst(direction: Direction, cs: seq<Candidate>)
    requires Distinct(cs)
    ensures var entries, sorted := RankedEntries(direction, cs), Sorted(direction, cs);
            if forall c :: c in cs ==> Score(c).None? then forall k :: 0 <= k < |entries| ==> entries[k].rank.None?
            else |entries| > 0 && entries[0].rank == Some(1) && sorted[0] in cs && IsBest(direction, cs, sorted[0])
  {
    SameMembers(direction, cs);
    hide Distinct, Sorted, BetterOnes, IsBest;
    if c :| c in cs && Score(c).Some? {
      FirstIsLeast(direction, cs, c);
    }
  }

  lemma SameMembers(direction: Direction, cs: seq<Candidate>)
    ensures forall c :: c in cs <==> c in Sorted(direction, cs)
  {
    SortedContents(direction, cs);
    forall c ensures c in cs <==> c in Sorted(direction, cs) {
      assert c in cs <==> c in multiset(cs);
    }
  }

  lemma FirstIsLeast(direction: Direction, cs: seq<Candidate>, c: Candidate)
    requires Distinct(cs) && c in cs && Score(c).Some?
    ensures var sorted := Sorted(direction, cs);
            |sorted| > 0 && RankOf(direction, cs, sorted[0]) == Some(1) && sorted[0] in cs && IsBest(direction, cs, sorted[0])
  {
    SameMembers(direction, cs);
    SortedIsSorted(direction, cs);
    var sorted := Sorted(direction, cs);
    var k :| 0 <= k < |sorted| && sorted[k] == c;
    StillEligible(direction, sorted, k);
    RankIsPosition(direction, cs, 0);
    hide Sorted, RankOf, Distinct;
    forall d | d in cs && d != sorted[0] && Score(d).Some? ensures Before(direction, sorted[0], d) {
      var l :| 0 <= l < |sorted| && sorted[l] == d;
    }
  }
}
