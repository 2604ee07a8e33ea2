/**
  The chart's horizontal brush: a selected range inside a fixed home range.

  Coordinates are exact reals; arguments are double-precision numbers, so that
  infinities and not-a-number reach the checks that reject them.
 */
module Brush {
  import opened Values

  datatype ChartError = InvalidRange | InvalidBrushRange | InvalidTransform

  datatype Range = Range(start: real, end: real) {
    function Span(): real {
      end - start
    }

    predicate Within(outer: Range) {
      outer.start <= start && end <= outer.end
    }
  }

  datatype Brush = Brush(home: Range, selected: Range) {
    /** The selection lies inside home and spans at least one axis unit. */
    predicate Valid() {
      selected.Within(home) && selected.Span() >= MIN_SPAN
    }
  }

  const MIN_SPAN := 1.0

  /** The brushes that can be built: the fields are private to these operations. */
  type ValidBrush = b: Brush | b.Valid() witness Brush(Range(0.0, 1.0), Range(0.0, 1.0))

  datatype Op =
    | ResizeStart(position: Value)
    | ResizeEnd(position: Value)
    | PanBy(delta: Value)
    | ZoomAt(anchor: Value, factor: Value)
    | Reset

  /** Bounds that cross would panic; the precondition says that they never do. */
  function Clamp(x: real, low: real, high: real): (r: real)
    requires low <= high
    ensures low <= r <= high
    ensures forall y :: low <= y <= high ==> Distance(x, r) <= Distance(x, y)
  {
    if x < low then low else if x > high then high else x
  }

  function Distance(x: real, y: real): real {
    if x < y then y - x else x - y
  }

  function NewRange(start: real, end: real): Result<Range, ChartError> {
    if start < end then Ok(Range(start, end)) else Err(InvalidRange)
  }

  function NewBrush(home: Range): (r: Result<Brush, ChartError>)
    ensures r.Ok? ==> r.value.Valid() && r.value.home == home
  {
    if home.Span() < MIN_SPAN then Err(InvalidBrushRange) else Ok(Brush(home, home))
  }

  function ResizedStart(b: Brush, position: Value): (r: Result<Brush, ChartError>)
    requires b.Valid()
    ensures r.Ok? <==> position.IsFinite()
    ensures r.Ok? ==> r.value.Valid() && r.value.home == b.home && r.value.selected.end == b.selected.end
  {
    if !position.IsFinite() then Err(InvalidTransform)
    else
      var start := Clamp(position.x, b.home.start, b.selected.end - MIN_SPAN);
      match NewRange(start, b.selected.end)
      case Err(e) => Err(e)
      case Ok(selected) => Ok(b.(selected := selected))
  }

  function ResizedEnd(b: Brush, position: Value): (r: Result<Brush, ChartError>)
    requires b.Valid()
    ensures r.Ok? <==> position.IsFinite()
    ensures r.Ok? ==> r.value.Valid() && r.value.home == b.home && r.value.selected.start == b.selected.start
  {
    if !position.IsFinite() then Err(InvalidTransform)
    else
      var end := Clamp(position.x, b.selected.start + MIN_SPAN, b.home.end);
      match NewRange(b.selected.start, end)
      case Err(e) => Err(e)
      case Ok(selected) => Ok(b.(selected := selected))
  }

  function Panned(b: Brush, delta: Value): (r: Result<Brush, ChartError>)
    requires b.Valid()
    ensures r.Ok? <==> delta.IsFinite()
    ensures r.Ok? ==> r.value.Valid() && r.value.home == b.home
  {
    if !delta.IsFinite() then Err(InvalidTransform)
    else
      var shift := Clamp(delta.x, b.home.start - b.selected.start, b.home.end - b.selected.end);
      match NewRange(b.selected.start + shift, b.selected.end + shift)
      case Err(e) => Err(e)
      case Ok(selected) => Ok(b.(selected := selected))
  }

  /** A usable anchor and factor. */
  predicate CanZoom(b: Brush, anchor: Value, factor: Value) {
    && anchor.IsFinite() && factor.IsFinite() && factor.x > 0.0
    && b.selected.start <= anchor.x <= b.selected.end
  }

  /** The span after the zoom. */
  function ZoomedSpan(b: Brush, factor: real): (span: real)
    requires b.Valid() && factor > 0.0
    ensures MIN_SPAN <= span <= b.home.Span()
  {
    Clamp(b.selected.Span() / factor, MIN_SPAN, b.home.Span())
  }

  /** Where the range starts if the anchor keeps its place in it. */
  function AnchoredStart(b: Brush, anchor: real, span: real): real
    requires b.Valid()
  {
    anchor - (anchor - b.selected.start) / b.selected.Span() * span
  }

  function Zoomed(b: Brush, anchor: Value, factor: Value): (r: Result<Brush, ChartError>)
    requires b.Valid()
    ensures r.Ok? <==> CanZoom(b, anchor, factor)
    ensures r.Ok? ==> r.value.Valid() && r.value.home == b.home
  {
    if !CanZoom(b, anchor, factor) then Err(InvalidTransform)
    else if factor.x == 1.0 then Ok(b)
    else
      var span := ZoomedSpan(b, factor.x);
      if span == b.home.Span() then Ok(b.(selected := b.home))
      else
        var start := Clamp(AnchoredStart(b, anchor.x, span), b.home.start, b.home.end - span);
        match NewRange(start, start + span)
        case Err(e) => Err(e)
        case Ok(selected) => Ok(b.(selected := selected))
  }

  // ------------------------------------------------------------ every sequence of operations

  /** One operation; a rejected one changes nothing. */
  function Apply(b: Brush, op: Op): (b': Brush)
    requires b.Valid()
    ensures b'.Valid() && b'.home == b.home
  {
    var r := match op
      case ResizeStart(position) => ResizedStart(b, position)
      case ResizeEnd(position) => ResizedEnd(b, position)
      case PanBy(delta) => Panned(b, delta)
      case ZoomAt(anchor, factor) => Zoomed(b, anchor, factor)
      case Reset => Ok(b.(selected := b.home));
    if r.Ok? then r.value else b
  }

  function ApplyAll(b: Brush, ops: seq<Op>): (b': Brush)
    requires b.Valid()
    ensures b'.Valid() && b'.home == b.home
    decreases |ops|
  {
    if ops == [] then b else ApplyAll(Apply(b, ops[0]), ops[1..])
  }

  /** Whatever is done to a brush, its selection stays inside home, at least one unit wide. */
  lemma BrushStaysValid(home: Range, ops: seq<Op>)
    requires NewBrush(home).Ok?
    ensures var b := ApplyAll(NewBrush(home).value, ops);
            b.home == home && b.selected.Within(home) && b.selected.Span() >= MIN_SPAN
  {
    assert ApplyAll(NewBrush(home).value, ops).Valid();
  }

  // ------------------------------------------------------------ what each operation does

  /** The value of `x`, or the bound that it passes. */
  predicate Limited(x: real, low: real, high: real, r: real) {
    (low <= x <= high ==> r == x) && (x < low ==> r == low) && (x > high ==> r == high)
  }

  /**
    A handle moves to where it is put, or as far as home and the minimum span
    allow, and the other handle stays; a position that is no number is refused.
   */
  lemma ResizingMeans(b: Brush, position: Value)
    requires b.Valid()
    ensures !position.IsFinite() ==> ResizedStart(b, position) == Err(InvalidTransform) && ResizedEnd(b, position) == Err(InvalidTransform)
    ensures position.IsFinite() ==>
              var (l, r) := (ResizedStart(b, position).value, ResizedEnd(b, position).value);
              && l == Brush(b.home, Range(l.selected.start, b.selected.end)) && r == Brush(b.home, Range(b.selected.start, r.selected.end))
              && Limited(position.x, b.home.start, b.selected.end - 1.0, l.selected.start)
              && Limited(position.x, b.selected.start + 1.0, b.home.end, r.selected.end)
  {
  }

  /** Panning moves both ends by the distance, or as far as home allows; a distance that is no number is refused. */
  lemma PanningMeans(b: Brush, delta: Value)
    requires b.Valid()
    ensures !delta.IsFinite() ==> Panned(b, delta) == Err(InvalidTransform)
    ensures delta.IsFinite() ==>
              var p := Panned(b, delta).value;
              && p.home == b.home && p.selected.end - p.selected.start == b.selected.end - b.selected.start
              && Limited(delta.x, b.home.start - b.selected.start, b.home.end - b.selected.end, p.selected.start - b.selected.start)
  {
  }

  /** Anything but a positive factor and an anchor in the selection is refused; a factor of one changes nothing. */
  lemma ZoomingIsRefused(b: Brush, anchor: Value, factor: Value)
    requires b.Valid()
    ensures Zoomed(b, anchor, factor).Ok? <==>
              anchor.IsFinite() && factor.IsFinite() && factor.x > 0.0 && b.selected.start <= anchor.x <= b.selected.end
    ensures Zoomed(b, anchor, factor).Err? ==> Zoomed(b, anchor, factor).error == InvalidTransform
    ensures Zoomed(b, anchor, factor).Ok? && factor.x == 1.0 ==> Zoomed(b, anchor, factor) == Ok(b)
  {
    hide AnchoredStart;
  }

  /** Zooming divides the span by the factor, within the minimum span and home. */
  lemma ZoomingDividesSpan(b: Brush, anchor: Value, factor: Value)
    requires b.Valid() && Zoomed(b, anchor, factor).Ok?
    ensures Limited(b.selected.Span() / factor.x, 1.0, b.home.Span(), Zoomed(b, anchor, factor).value.selected.Span())
    ensures Zoomed(b, anchor, factor).value.home == b.home
  {
    hide AnchoredStart;
    if factor.x == 1.0 {
      assert b.selected.Span() / factor.x == b.selected.Span();
    }
  }

  /** Where a range of the given span starts if the anchor has the same share of it before it as of the old one. */
  function SameShare(was: Range, anchor: real, span: real): real
    requires was.Span() > 0.0
  {
    anchor - (anchor - was.start) / was.Span() * span
  }

  /** It keeps the share of the span that lies before the anchor, unless an end of home is in the way. */
  lemma ZoomingKeepsShare(b: Brush, anchor: Value, factor: Value)
    requires b.Valid() && Zoomed(b, anchor, factor).Ok?
    ensures var (was, z) := (b.selected, Zoomed(b, anchor, factor).value.selected);
            Limited(SameShare(was, anchor.x, z.Span()), b.home.start, b.home.end - z.Span(), z.start)
  {
    hide SameShare, AnchoredStart, Zoomed;
    var was, z := b.selected, Zoomed(b, anchor, factor).value.selected;
    ZoomingIsRefused(b, anchor, factor);
    if factor.x == 1.0 {
      ShareOfSame(was, anchor.x);
    } else {
      AnchoredIsShare(b, anchor.x, z.Span());
      ZoomedPlace(b, anchor, factor);
    }
  }

  lemma AnchoredIsShare(b: Brush, anchor: real, span: real)
    requires b.Valid()
    ensures SameShare(b.selected, anchor, span) == AnchoredStart(b, anchor, span)
  {
  }

  lemma ShareOfSame(was: Range, anchor: real)
    requires was.Span() > 0.0
    ensures SameShare(was, anchor, was.Span()) == was.start
  {
    Share(anchor - was.start, was.Span());
  }

  lemma ZoomedPlace(b: Brush, anchor: Value, factor: Value)
    requires b.Valid() && Zoomed(b, anchor, factor).Ok? && factor.x != 1.0
    ensures var z := Zoomed(b, anchor, factor).value.selected;
            Limited(AnchoredStart(b, anchor.x, z.Span()), b.home.start, b.home.end - z.Span(), z.start)
  {
    hide AnchoredStart, ZoomedSpan;
    ZoomingIsRefused(b, anchor, factor);
    assert Zoomed(b, anchor, factor).value.selected.Span() == ZoomedSpan(b, factor.x);
  }

  lemma Share(x: real, whole: real)
    requires whole > 0.0
    ensures x / whole * whole == x
  {
  }

  /** Resetting selects all of home, and a refused operation changes nothing. */
  lemma OperationsMean(b: Brush, op: Op)
    requires b.Valid()
    ensures Apply(b, Reset) == Brush(b.home, b.home)
    ensures op.ResizeStart? ==> Apply(b, op) == (if op.position.IsFinite() then ResizedStart(b, op.position).value else b)
    ensures op.ResizeEnd? ==> Apply(b, op) == (if op.position.IsFinite() then ResizedEnd(b, op.position).value else b)
    ensures op.PanBy? ==> Apply(b, op) == (if op.delta.IsFinite() then Panned(b, op.delta).value else b)
    ensures op.ZoomAt? ==> Apply(b, op) == (if Zoomed(b, op.anchor, op.factor).Ok? then Zoomed(b, op.anchor, op.factor).value else b)
  {
  }

  // ------------------------------------------------------------ panning

  /** Panning moves both ends alike; panning back by an amount that fitted undoes it. */
  lemma PanKeepsWidth(b: Brush, delta: real)
    requires b.Valid()
    ensures var p := Panned(b, Finite(delta)).value;
            && p.selected.Span() == b.selected.Span()
            && (b.home.start <= b.selected.start + delta && b.selected.end + delta <= b.home.end ==>
                  p.selected.start == b.selected.start + delta && Panned(p, Finite(-delta)) == Ok(b))
            && (p.selected.start != b.selected.start + delta ==> p.selected.start == b.home.start || p.selected.end == b.home.end)
  {
    var p := Panned(b, Finite(delta)).value;
    if b.home.start <= b.selected.start + delta && b.selected.end + delta <= b.home.end {
      assert p.selected == Range(b.selected.start + delta, b.selected.end + delta);
      assert Panned(p, Finite(-delta)).value.selected == b.selected;
    }
  }

  // ------------------------------------------------------------ zooming

  lemma Scaled(x: real, whole: real, span: real)
    requires 0.0 <= x <= whole && whole > 0.0 && span >= 0.0
    ensures 0.0 <= x / whole * span <= span
    ensures span <= whole ==> x / whole * span <= x
    ensures span >= whole ==> x / whole * span >= x
  {
    var ratio := x / whole;
    assert 0.0 <= ratio <= 1.0;
    assert ratio * whole == x;
    assert ratio * (span - whole) == ratio * span - x;
  }

  /** Where the anchor ends up when nothing is clamped. */
  lemma AnchoredBounds(b: Brush, anchor: real, span: real)
    requires b.Valid() && b.selected.start <= anchor <= b.selected.end && span >= 0.0
    ensures var start := AnchoredStart(b, anchor, span);
            && start <= anchor <= start + span
            && (span <= b.selected.Span() ==> b.selected.start <= start && start + span <= b.selected.end)
            && (span >= b.selected.Span() ==> start <= b.selected.start && b.selected.end <= start + span)
  {
    var x, y, whole := anchor - b.selected.start, b.selected.end - anchor, b.selected.Span();
    Scaled(x, whole, span);
    Scaled(y, whole, span);
    assert x / whole + y / whole == 1.0;
    assert x / whole * span + y / whole * span == (x / whole + y / whole) * span;
  }

  lemma Quotient(span: real, factor: real)
    requires span >= MIN_SPAN && factor > 0.0
    ensures factor >= 1.0 ==> span / factor <= span
    ensures factor <= 1.0 ==> span / factor >= span
    ensures span / factor * factor == span && span / factor > 0.0
  {
    var q := span / factor;
    assert q * factor == span;
    if factor >= 1.0 {
      Monotone(q, 1.0, factor);
    } else {
      Monotone(q, factor, 1.0);
    }
  }

  lemma Monotone(q: real, low: real, high: real)
    requires q > 0.0 && low <= high
    ensures q * low <= q * high
  {
    assert q * (high - low) >= 0.0;
  }

  /**
    Zooming in stays inside the old selection, zooming out covers it, and the
    anchor stays inside either way.
   */
  lemma ZoomNests(b: Brush, anchor: Value, factor: Value)
    requires b.Valid() && CanZoom(b, anchor, factor)
    ensures var z := Zoomed(b, anchor, factor).value;
            && (factor.x >= 1.0 ==> z.selected.Within(b.selected))
            && (factor.x <= 1.0 ==> b.selected.Within(z.selected))
            && z.selected.start <= anchor.x <= z.selected.end
  {
    if factor.x != 1.0 {
      var span := ZoomedSpan(b, factor.x);
      Quotient(b.selected.Span(), factor.x);
      AnchoredBounds(b, anchor.x, span);
    }
  }

  /** The span of a zoom that is not limited, and the ratio at which the anchor divides it. */
  lemma ZoomKeepsRatio(b: Brush, anchor: Value, factor: Value)
    requires b.Valid() && CanZoom(b, anchor, factor)
    requires MIN_SPAN <= b.selected.Span() / factor.x < b.home.Span()
    requires var start := AnchoredStart(b, anchor.x, b.selected.Span() / factor.x);
             b.home.start <= start && start + b.selected.Span() / factor.x <= b.home.end
    ensures var z := Zoomed(b, anchor, factor).value;
            && z.selected.Span() == b.selected.Span() / factor.x
            && (anchor.x - z.selected.start) / z.selected.Span() == (anchor.x - b.selected.start) / b.selected.Span()
  {
    hide AnchoredStart, Zoomed, ZoomedSpan;
    var span, z := b.selected.Span() / factor.x, Zoomed(b, anchor, factor).value;
    ZoomingIsRefused(b, anchor, factor);
    if factor.x == 1.0 {
      assert span == b.selected.Span();
    } else {
      ZoomingDividesSpan(b, anchor, factor);
      ZoomedPlace(b, anchor, factor);
      ShareIsKept(b, anchor.x, span);
    }
  }

  lemma ShareIsKept(b: Brush, anchor: real, span: real)
    requires b.Valid() && span > 0.0
    ensures (anchor - AnchoredStart(b, anchor, span)) / span == (anchor - b.selected.start) / b.selected.Span()
  {
    var share := (anchor - b.selected.start) / b.selected.Span();
    assert anchor - AnchoredStart(b, anchor, span) == share * span;
    TimesThenOver(share, span);
  }

  lemma TimesThenOver(share: real, span: real)
    requires span > 0.0
    ensures share * span / span == share
  {
  }

  /** Zooming in, as far as the minimum span allows, and out again at the same anchor changes nothing. */
  lemma ZoomInAndOut(b: Brush, anchor: real, factor: real)
    requires b.Valid() && CanZoom(b, Finite(anchor), Finite(factor)) && factor > 1.0
    requires b.selected.Span() / factor >= MIN_SPAN
    ensures var z := Zoomed(b, Finite(anchor), Finite(factor)).value;
            Zoomed(z, Finite(anchor), Finite(1.0 / factor)) == Ok(b)
  {
    var whole, span := b.selected.Span(), b.selected.Span() / factor;
    SpanShrinks(whole, factor);
    ZoomInIsFree(b, anchor, span);
    ZoomKeepsRatio(b, Finite(anchor), Finite(factor));
    ZoomNests(b, Finite(anchor), Finite(factor));
    Reciprocal(span, factor);
    ZoomBack(b, Zoomed(b, Finite(anchor), Finite(factor)).value, anchor, 1.0 / factor);
  }

  lemma ZoomInIsFree(b: Brush, anchor: real, span: real)
    requires b.Valid() && b.selected.start <= anchor <= b.selected.end && 0.0 <= span < b.selected.Span()
    ensures var start := AnchoredStart(b, anchor, span); b.home.start <= start && start + span <= b.home.end
    ensures span < b.home.Span()
  {
    AnchoredBounds(b, anchor, span);
  }

  /** A range that divides at the anchor as the old one does, and zooms back to the old span, zooms back to the old range. */
  lemma ZoomBack(b: Brush, z: Brush, anchor: real, back: real)
    requires b.Valid() && z.Valid() && z.home == b.home && 0.0 < back < 1.0
    requires b.selected.start <= anchor <= b.selected.end && z.selected.start <= anchor <= z.selected.end
    requires z.selected.Span() / back == b.selected.Span()
    requires (anchor - z.selected.start) / z.selected.Span() == (anchor - b.selected.start) / b.selected.Span()
    ensures Zoomed(z, Finite(anchor), Finite(back)) == Ok(b)
  {
    var whole, ratio := b.selected.Span(), (anchor - b.selected.start) / b.selected.Span();
    assert ZoomedSpan(z, back) == whole;
    assert AnchoredStart(z, anchor, whole) == anchor - ratio * whole;
    assert ratio * whole == anchor - b.selected.start;
    if whole == b.home.Span() {
      assert b.selected == b.home;
    }
  }

  lemma SpanShrinks(whole: real, factor: real)
    requires whole >= MIN_SPAN && factor > 1.0
    ensures 0.0 < whole / factor < whole
  {
    var q := whole / factor;
    assert q * factor == whole;
    Monotone(q, 1.0, factor);
    assert q * (factor - 1.0) > 0.0;
  }

  lemma Reciprocal(span: real, factor: real)
    requires factor > 0.0
    ensures 1.0 / factor > 0.0 && span / (1.0 / factor) == span * factor
    ensures factor > 1.0 ==> 1.0 / factor < 1.0
  {
    var back := 1.0 / factor;
    assert back * factor == 1.0;
    assert (span * factor) * back == span;
  }

  // ------------------------------------------------------------ refreshed home ranges

  /** What a new overview makes of the previous selection. */
  function CarriedOver(previous: Option<Range>, home: Range): (r: Option<ValidBrush>)
    ensures r.Some? ==> r.value.home == home
  {
    var rejected: Option<ValidBrush> := None;
    match NewBrush(home)
    case Err(_) => rejected
    case Ok(b) =>
      if previous.None? then Some(b)
      else
        match ResizedStart(b, Finite(previous.value.start))
        case Err(_) => rejected
        case Ok(b1) =>
          match ResizedEnd(b1, Finite(previous.value.end))
          case Err(_) => rejected
          case Ok(b2) => Some(b2)
  }

  /** The brush of a home at least one unit wide always exists; the old selection survives exactly when it still fits. */
  lemma CarryOverKeepsWhatFits(previous: Range, home: Range)
    ensures CarriedOver(Some(previous), home).Some? <==> home.Span() >= MIN_SPAN
    ensures CarriedOver(None, home) == if home.Span() >= MIN_SPAN then Some(Brush(home, home)) else None
    ensures home.Span() >= MIN_SPAN ==>
              (CarriedOver(Some(previous), home).value.selected == previous <==> previous.Within(home) && previous.Span() >= MIN_SPAN)
  {
  }

  /** Otherwise each end moves as little as any selection inside the new home allows. */
  lemma CarryOverIsNearest(previous: Range, home: Range, other: Range)
    requires home.Span() >= MIN_SPAN && previous.Span() >= MIN_SPAN
    requires other.Within(home) && other.Span() >= MIN_SPAN
    ensures var selected := CarriedOver(Some(previous), home).value.selected;
            && Distance(previous.start, selected.start) <= Distance(previous.start, other.start)
            && Distance(previous.end, selected.end) <= Distance(previous.end, other.end)
  {
    var selected := CarriedOver(Some(previous), home).value.selected;
    assert home.start <= other.start <= home.end - MIN_SPAN;
    assert selected.start == Clamp(previous.start, home.start, home.end - MIN_SPAN);
    assert selected.end == Clamp(previous.end, selected.start + MIN_SPAN, home.end);
  }

  /** The same overview again changes nothing. */
  lemma CarryOverIsIdempotent(previous: Option<Range>, home: Range)
    requires home.Span() >= MIN_SPAN
    ensures var b := CarriedOver(previous, home); CarriedOver(Some(b.value.selected), home) == b
  {
  }

  // ------------------------------------------------------------ the object

  class BrushState {
    var home: Range
    var selected: Range

    function State(): Brush
      reads this
    {
      Brush(home, selected)
    }

    constructor (range: Range)
      requires NewBrush(range).Ok?
      ensures Ok(State()) == NewBrush(range)
    {
      home, selected := range, range;
    }

    /** The outcome of an operation that computes `r`: the new state, or the state before and an error. */
    predicate Becomes(before: Brush, r: Result<Brush, ChartError>, e: Option<ChartError>)
      reads this
    {
      match r
      case Ok(b) => State() == b && e == None
      case Err(error) => State() == before && e == Some(error)
    }

    method ResizeStart(position: Value) returns (e: Option<ChartError>)
      requires State().Valid()
      modifies `selected
      ensures State().Valid() && Becomes(old(State()), ResizedStart(old(State()), position), e)
    {
      if !position.IsFinite() {
        return Some(InvalidTransform);
      }
      var start := Clamp(position.x, home.start, selected.end - MIN_SPAN);
      var range := NewRange(start, selected.end);
      selected := range.value;
      return None;
    }

    method ResizeEnd(position: Value) returns (e: Option<ChartError>)
      requires State().Valid()
      modifies `selected
      ensures State().Valid() && Becomes(old(State()), ResizedEnd(old(State()), position), e)
    {
      if !position.IsFinite() {
        return Some(InvalidTransform);
      }
      var end := Clamp(position.x, selected.start + MIN_SPAN, home.end);
      var range := NewRange(selected.start, end);
      selected := range.value;
      return None;
    }

    method PanBy(delta: Value) returns (e: Option<ChartError>)
      requires State().Valid()
      modifies `selected
      ensures State().Valid() && Becomes(old(State()), Panned(old(State()), delta), e)
    {
      if !delta.IsFinite() {
        return Some(InvalidTransform);
      }
      var shift := Clamp(delta.x, home.start - selected.start, home.end - selected.end);
      var range := NewRange(selected.start + shift, selected.end + shift);
      selected := range.value;
      return None;
    }

    method ZoomAt(anchor: Value, factor: Value) returns (e: Option<ChartError>)
      requires State().Valid()
      modifies `selected
      ensures State().Valid() && Becomes(old(State()), Zoomed(old(State()), anchor, factor), e)
    {
      if !anchor.IsFinite() || !factor.IsFinite() || factor.x <= 0.0 || anchor.x < selected.start || anchor.x > selected.end {
        return Some(InvalidTransform);
      }
      if factor.x == 1.0 {
        return None;
      }
      var span := Clamp(selected.Span() / factor.x, MIN_SPAN, home.Span());
      if span == home.Span() {
        selected := home;
        return None;
      }
      var start := Clamp(AnchoredStart(State(), anchor.x, span), home.start, home.end - span);
      var range := NewRange(start, start + span);
      selected := range.value;
      return None;
    }

    method Reset()
      requires State().Valid()
      modifies `selected
      ensures State() == Apply(old(State()), Op.Reset)
    {
      selected := home;
    }
  }
}
