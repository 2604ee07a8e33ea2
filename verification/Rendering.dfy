/**
  Integer axis coordinates as double-precision numbers, and the range that an
  overview offers to the brush.

  Coordinates are 64-bit signed integers. Converting one to a double rounds to
  the nearest representable number, ties to even (section 4.3.1 of IEEE
  754-2019); all the doubles involved are whole numbers, written here as
  integers.
 */
module Rendering {
  import opened Values
  import B = Brush

  const TWO_52: int := 0x10_0000_0000_0000
  const TWO_53: int := 0x20_0000_0000_0000
  const TWO_63: int := 0x8000_0000_0000_0000
  const MIN_I64: int := -0x8000_0000_0000_0000
  const MAX_I64: int := 0x7FFF_FFFF_FFFF_FFFF

  /** A 64-bit axis coordinate. */
  type Coordinate = x: int | MIN_I64 <= x <= MAX_I64

  predicate IsI64(x: int) {
    MIN_I64 <= x <= MAX_I64
  }

  function Magnitude(x: int): nat {
    if x < 0 then -x else x
  }

  /** The distance from the whole number `m` to the next larger double, where doubles are whole. */
  function Ulp(m: nat): (u: nat)
    requires m <= TWO_63
    ensures u >= 1
    ensures if m < TWO_53 then u == 1 else TWO_52 * u <= m < TWO_53 * u
  {
    if m < TWO_53 then 1
    else if m < 0x40_0000_0000_0000 then 2
    else if m < 0x80_0000_0000_0000 then 4
    else if m < 0x100_0000_0000_0000 then 8
    else if m < 0x200_0000_0000_0000 then 16
    else if m < 0x400_0000_0000_0000 then 32
    else if m < 0x800_0000_0000_0000 then 64
    else if m < 0x1000_0000_0000_0000 then 128
    else if m < 0x2000_0000_0000_0000 then 256
    else if m < 0x4000_0000_0000_0000 then 512
    else if m < 0x8000_0000_0000_0000 then 1024
    else 2048
  }

  /** A whole number of magnitude at most 2^63 that is a double. */
  predicate Representable(v: int) {
    Magnitude(v) <= TWO_63 && Magnitude(v) % Ulp(Magnitude(v)) == 0
  }

  /** The multiple of `u` nearest to `m`; the even one of two equally near. */
  function ToMultiple(m: nat, u: nat): nat
    requires u >= 1
  {
    if RoundsDown(m, u) then m / u * u else (m / u + 1) * u
  }

  /** The lower multiple is nearer, or as near and even. */
  predicate RoundsDown(m: nat, u: nat)
    requires u >= 1
  {
    2 * (m % u) < u || (2 * (m % u) == u && m / u % 2 == 0)
  }

  /** `x as f64`. */
  function Rendered(x: int): int
    requires IsI64(x)
  {
    var m: int := ToMultiple(Magnitude(x), Ulp(Magnitude(x)));
    if x < 0 then -m else m
  }

  // ------------------------------------------------------------ nearest, ties to even

  lemma Division(m: nat, u: nat)
    requires u >= 1
    ensures m == m / u * u + m % u && 0 <= m % u < u
  {
  }

  lemma MultiplesOrder(p: int, q: int, u: nat)
    requires u >= 1
    ensures p < q ==> p * u + u <= q * u
    ensures p == q ==> p * u == q * u
  {
    if p < q {
      assert (q - p) * u >= u by { ProductAtLeast(q - p, u); }
      assert (q - p) * u == q * u - p * u;
    }
  }

  lemma {:induction false} ProductAtLeast(n: int, u: nat)
    requires n >= 1
    ensures n * u >= u
  {
    assert n * u == (n - 1) * u + u;
    assert (n - 1) * u >= 0;
  }

  /** A multiple of `u` within half of it, the even one in a tie, and no other multiple nearer. */
  lemma ToMultipleIsNearest(m: nat, u: nat, k: nat)
    requires u >= 1
    ensures ToMultiple(m, u) % u == 0
    ensures Magnitude(m - ToMultiple(m, u)) <= Magnitude(m - k * u)
    ensures 2 * Magnitude(m - ToMultiple(m, u)) <= u
    ensures 2 * Magnitude(m - ToMultiple(m, u)) == u ==> ToMultiple(m, u) / u % 2 == 0
  {
    ToMultipleIsMultiple(m, u);
    ToMultipleIsClose(m, u, k);
    hide ToMultiple;
  }

  lemma ToMultipleIsMultiple(m: nat, u: nat)
    requires u >= 1
    ensures ToMultiple(m, u) % u == 0
    ensures ToMultiple(m, u) / u == if RoundsDown(m, u) then m / u else m / u + 1
    ensures 2 * (m % u) == u ==> ToMultiple(m, u) / u % 2 == 0
  {
    var q := m / u;
    if RoundsDown(m, u) {
      MultipleOf(q, u);
    } else {
      MultipleOf(q + 1, u);
    }
  }

  lemma ToMultipleIsClose(m: nat, u: nat, k: nat)
    requires u >= 1
    ensures Magnitude(m - ToMultiple(m, u)) <= Magnitude(m - k * u)
    ensures 2 * Magnitude(m - ToMultiple(m, u)) <= u
    ensures 2 * Magnitude(m - ToMultiple(m, u)) == u ==> 2 * (m % u) == u
  {
    var q, r := m / u, m % u;
    Division(m, u);
    NextMultiple(q, u);
    MultiplesOrder(k, q, u);
    MultiplesOrder(q + 1, k, u);
    var below, above, other := q * u, (q + 1) * u, k * u;
    assert k < q ==> other + u <= below;
    assert other <= below || above <= other by {
      if k == q { MultiplesOrder(k, q, u); }
      if k == q + 1 { MultiplesOrder(q + 1, k, u); }
    }
    if RoundsDown(m, u) {
      Nearer(m, u, r, below, above, other, below);
    } else {
      Nearer(m, u, r, below, above, other, above);
    }
  }

  lemma NextMultiple(q: int, u: nat)
    ensures (q + 1) * u == q * u + u
  {
  }

  /** Of the multiples below and above, the chosen one is the nearer, and no other is nearer still. */
  lemma Nearer(m: nat, u: nat, r: nat, below: int, above: int, other: int, chosen: int)
    requires m == below + r && r < u && above == below + u && (other <= below || above <= other)
    requires (chosen == below && 2 * r <= u) || (chosen == above && 2 * r >= u)
    ensures Magnitude(m - chosen) <= Magnitude(m - other)
    ensures 2 * Magnitude(m - chosen) <= u && (2 * Magnitude(m - chosen) == u ==> 2 * r == u)
  {
  }

  lemma MultipleOf(q: nat, u: nat)
    requires u >= 1
    ensures q * u % u == 0 && q * u / u == q
  {
    Division(q * u, u);
    var d, r := q * u / u, q * u % u;
    assert (q - d) * u == r;
    MultiplesOrder(0, q - d, u);
    MultiplesOrder(q - d, 0, u);
  }

  lemma ToMultipleIsMonotone(m: nat, n: nat, u: nat)
    requires u >= 1 && m <= n
    ensures ToMultiple(m, u) <= ToMultiple(n, u)
  {
    var p, q := m / u, n / u;
    Division(m, u);
    Division(n, u);
    MultiplesOrder(p, q, u);
    MultiplesOrder(q, p, u);
    MultiplesOrder(p + 1, q, u);
    assert (p + 1) * u == p * u + u && (q + 1) * u == q * u + u;
  }

  /** Rounding stays between the ends of a binade. */
  lemma ToMultipleInBinade(m: nat, u: nat)
    requires u >= 1 && TWO_52 * u <= m < TWO_53 * u
    ensures TWO_52 * u <= ToMultiple(m, u) <= TWO_53 * u
  {
    var q := m / u;
    Division(m, u);
    MultiplesOrder(q, TWO_52, u);
    MultiplesOrder(TWO_53, q, u);
    assert TWO_52 <= q < TWO_53;
    MultiplesOrder(q + 1, TWO_53, u);
    MultiplesOrder(TWO_52, q, u);
    assert (q + 1) * u == q * u + u;
  }

  /** Between two binades the distance of doubles at least doubles. */
  lemma UlpDoubles(m: nat, n: nat)
    requires m <= n <= TWO_63
    ensures Ulp(m) == Ulp(n) || 2 * Ulp(m) <= Ulp(n)
  {
  }

  lemma MagnitudeIsMonotone(m: nat, n: nat)
    requires m <= n <= TWO_63
    ensures ToMultiple(m, Ulp(m)) <= ToMultiple(n, Ulp(n))
  {
    UlpDoubles(m, n);
    if Ulp(m) == Ulp(n) {
      ToMultipleIsMonotone(m, n, Ulp(m));
    } else {
      ToMultipleInBinade(n, Ulp(n));
      if m < TWO_53 {
        ToMultipleIsNearest(m, 1, m);
      } else {
        ToMultipleInBinade(m, Ulp(m));
      }
    }
  }

  lemma MagnitudeIsNearest(m: nat, w: nat)
    requires m <= TWO_63 && Representable(w)
    ensures Magnitude(m - ToMultiple(m, Ulp(m))) <= Magnitude(m - w)
  {
    var u := Ulp(m);
    if m < TWO_53 {
      ToMultipleIsNearest(m, 1, m);
    } else if Ulp(w) == u {
      Division(w, u);
      ToMultipleIsNearest(m, u, w / u);
    } else if w < m {
      UlpDoubles(w, m);
      ToMultipleIsNearest(m, u, TWO_52);
    } else {
      UlpDoubles(m, w);
      ToMultipleIsNearest(m, u, TWO_53);
    }
  }

  lemma MagnitudeIsRepresentable(m: nat)
    requires m <= TWO_63
    ensures Representable(ToMultiple(m, Ulp(m)))
  {
    var u := Ulp(m);
    var r := ToMultiple(m, u);
    ToMultipleIsNearest(m, u, m / u);
    if m < TWO_53 {
      ToMultipleIsNearest(m, 1, m);
    } else {
      ToMultipleInBinade(m, u);
      EndOfBinade(m, r);
    }
  }

  /** A multiple of the distance inside the closed binade is a double, also the upper end. */
  lemma EndOfBinade(m: nat, r: nat)
    requires TWO_53 <= m <= TWO_63 && r % Ulp(m) == 0 && TWO_52 * Ulp(m) <= r <= TWO_53 * Ulp(m) && (m == TWO_63 ==> r == m)
    ensures Representable(r)
  {
    assert m < TWO_63 ==> TWO_53 * Ulp(m) <= TWO_63;
    if r < TWO_53 * Ulp(m) || m == TWO_63 {
      assert Ulp(r) == Ulp(m);
    } else {
      assert r == TWO_63 || Ulp(r) == 2 * Ulp(m);
    }
  }

  /** The conversion yields a double, the nearest one, and of two equally near ones the even one. */
  lemma RenderedIsNearestEven(x: int, w: int)
    requires IsI64(x) && Representable(w)
    ensures Representable(Rendered(x))
    ensures Magnitude(x - Rendered(x)) <= Magnitude(x - w)
    ensures Magnitude(x - Rendered(x)) == Magnitude(x - w) && w != Rendered(x) ==> Magnitude(Rendered(x)) / Ulp(Magnitude(x)) % 2 == 0
  {
    var m := Magnitude(x);
    RenderedMagnitude(x);
    SignDoesNotMatter(x, w);
    MagnitudeIsRepresentable(m);
    MagnitudeIsNearest(m, Magnitude(w));
    hide Rendered, Representable, Ulp, ToMultiple;
    if Magnitude(x - Rendered(x)) == Magnitude(x - w) && w != Rendered(x) {
      TiedSides(x, w);
      Ties(m, Magnitude(w));
    }
  }

  lemma RenderedMagnitude(x: int)
    requires IsI64(x)
    ensures Magnitude(Rendered(x)) == ToMultiple(Magnitude(x), Ulp(Magnitude(x)))
    ensures if x < 0 then Rendered(x) <= 0 else Rendered(x) >= 0
  {
  }

  lemma SignDoesNotMatter(x: int, w: int)
    requires IsI64(x)
    ensures Representable(w) <==> Representable(Magnitude(w))
    ensures Representable(Rendered(x)) <==> Representable(Magnitude(Rendered(x)))
  {
  }

  /** A double as near as the rendered one lies on the same side of zero. */
  lemma TiedSides(x: int, w: int)
    requires IsI64(x) && Representable(w)
    requires Magnitude(x - Rendered(x)) == Magnitude(x - w) && w != Rendered(x)
    ensures Magnitude(Magnitude(x) - ToMultiple(Magnitude(x), Ulp(Magnitude(x)))) == Magnitude(Magnitude(x) - Magnitude(w))
    ensures Magnitude(w) != ToMultiple(Magnitude(x), Ulp(Magnitude(x)))
  {
    var m := Magnitude(x);
    RenderedMagnitude(x);
    SignDoesNotMatter(x, w);
    assert Representable(0);
    hide Rendered, Representable, Ulp, ToMultiple;
    MagnitudeIsNearest(m, 0);
    MagnitudeIsNearest(m, Magnitude(w));
  }

  lemma Ties(m: nat, w: nat)
    requires m <= TWO_63 && Representable(w)
    requires Magnitude(m - ToMultiple(m, Ulp(m))) == Magnitude(m - w) && w != ToMultiple(m, Ulp(m))
    ensures ToMultiple(m, Ulp(m)) / Ulp(m) % 2 == 0
  {
    var u := Ulp(m);
    var r := ToMultiple(m, u);
    ToMultipleIsNearest(m, u, m / u);
    if m >= TWO_53 {
      ToMultipleInBinade(m, u);
      ToMultipleIsNearest(m, u, TWO_52);
      assert w >= TWO_52 * u;
      LargerAreMultiples(m, w);
      DistinctMultiples(r, w, u);
    } else {
      DistinctMultiples(r, w, 1);
    }
  }

  /** Doubles at or above the binade of `m` are multiples of its distance. */
  lemma LargerAreMultiples(m: nat, w: nat)
    requires TWO_53 <= m <= TWO_63 && Representable(w) && w >= TWO_52 * Ulp(m)
    ensures w % Ulp(m) == 0
  {
    UlpDivides(m, w);
    DividesChain(w, Ulp(w), Ulp(m));
  }

  lemma UlpDivides(m: nat, w: nat)
    requires TWO_53 <= m <= TWO_63 && w <= TWO_63 && w >= TWO_52 * Ulp(m)
    ensures Ulp(w) % Ulp(m) == 0
  {
    var u, v := Ulp(m), Ulp(w);
    assert u in {2, 4, 8, 16, 32, 64, 128, 256, 512, 1024, 2048};
    assert v in {1, 2, 4, 8, 16, 32, 64, 128, 256, 512, 1024, 2048};
    assert u <= v;
  }

  lemma DividesChain(w: nat, v: nat, u: nat)
    requires u >= 1 && v >= 1 && w % v == 0 && v % u == 0
    ensures w % u == 0
  {
    var a, b := w / v, v / u;
    Division(w, v);
    Division(v, u);
    assert w == a * v && v == b * u;
    assert a * (b * u) == a * b * u;
    MultipleOf(a * b, u);
  }

  lemma DistinctMultiples(r: nat, w: nat, u: nat)
    requires u >= 1 && r % u == 0 && w % u == 0 && r != w
    ensures Magnitude(r - w) >= u
  {
    Division(r, u);
    Division(w, u);
    MultiplesOrder(r / u, w / u, u);
    MultiplesOrder(w / u, r / u, u);
  }

  lemma RenderedIsMonotone(x: int, y: int)
    requires IsI64(x) && IsI64(y) && x <= y
    ensures Rendered(x) <= Rendered(y)
  {
    if x >= 0 {
      MagnitudeIsMonotone(x, y);
    } else if y < 0 {
      MagnitudeIsMonotone(-y, -x);
    }
  }

  /** Doubles are rendered as themselves. */
  lemma RenderedFixes(x: int)
    requires IsI64(x) && Representable(x)
    ensures Rendered(x) == x
  {
    MagnitudeIsNearest(Magnitude(x), Magnitude(x));
  }

  lemma RendersAtTop(x: int)
    requires IsI64(x)
    ensures Rendered(x) == TWO_63 <==> x >= TWO_63 - 512
  {
    if x < 0x4000_0000_0000_0000 {
      RenderedIsMonotone(x, 0x4000_0000_0000_0000);
    }
  }

  // ------------------------------------------------------------ neighbours

  /** The distance from `m` down to the next smaller double. */
  function SpacingBelow(m: nat): nat
    requires TWO_53 <= m <= TWO_63
  {
    if m == TWO_52 * Ulp(m) then Ulp(m) / 2 else Ulp(m)
  }

  /** `f64::next_up`, where doubles are whole. */
  function NextUp(v: int): int
    requires Representable(v) && Magnitude(v) >= TWO_53
  {
    if v > 0 then v + Ulp(v) else v + SpacingBelow(-v)
  }

  /** `f64::next_down`, where doubles are whole. */
  function NextDown(v: int): int
    requires Representable(v) && Magnitude(v) >= TWO_53
  {
    -NextUp(-v)
  }

  /** `as i64` saturates. */
  function Saturated(v: int): (x: int)
    ensures IsI64(x)
  {
    if v < MIN_I64 then MIN_I64 else if v > MAX_I64 then MAX_I64 else v
  }

  lemma AboveIsDouble(m: nat)
    requires TWO_53 <= m < TWO_63 && Representable(m)
    ensures m + Ulp(m) <= TWO_63 && Representable(m + Ulp(m))
  {
    var u := Ulp(m);
    Division(m, u);
    MultiplesOrder(m / u, TWO_53, u);
    assert m + u == (m / u + 1) * u by { assert (m / u + 1) * u == m / u * u + u; }
    MultipleOf(m / u + 1, u);
    assert m + u <= TWO_53 * u;
    EndOfBinade(m, m + u);
  }

  lemma BelowIsDouble(m: nat)
    requires TWO_53 <= m <= TWO_63 && Representable(m)
    ensures Representable(m - SpacingBelow(m)) && SpacingBelow(m) >= 1
  {
    var u := Ulp(m);
    if m == TWO_52 * u {
      HalfwayDown(m);
    } else {
      Division(m, u);
      MultiplesOrder(TWO_52, m / u, u);
      MultiplesOrder(m / u, TWO_52, u);
      assert (m / u - 1) * u == m / u * u - u;
      MultipleOf(m / u - 1, u);
      EndOfBinade(m, m - u);
    }
  }

  lemma HalfwayDown(m: nat)
    requires TWO_53 <= m <= TWO_63 && m == TWO_52 * Ulp(m)
    ensures Representable(m - Ulp(m) / 2) && Ulp(m) / 2 >= 1 && Ulp(m - Ulp(m) / 2) == Ulp(m) / 2
  {
    var u := Ulp(m);
    assert u in {2, 4, 8, 16, 32, 64, 128, 256, 512, 1024, 2048};
  }

  /** The next double is a double above, and there is none in between. */
  lemma NextUpIsNext(v: int, w: int)
    requires Representable(v) && Magnitude(v) >= TWO_53 && v < TWO_63 && Representable(w) && w > v
    ensures Representable(NextUp(v)) && v < NextUp(v) <= w
  {
    if v > 0 {
      AboveIsDouble(v);
      LargerAreMultiples(v, w);
      DistinctMultiples(v, w, Ulp(v));
    } else {
      var m := -v;
      BelowIsDouble(m);
      if w < 0 {
        NothingBetween(m, -w);
      }
    }
  }

  lemma NothingBetween(m: nat, w: nat)
    requires TWO_53 <= m <= TWO_63 && Representable(m) && Representable(w) && w < m
    ensures w <= m - SpacingBelow(m)
  {
    var u := Ulp(m);
    if w >= TWO_52 * u {
      LargerAreMultiples(m, w);
      DistinctMultiples(m, w, u);
    } else if m == TWO_52 * u {
      NothingBelowBinade(m, w);
    } else {
      Division(m, u);
      MultiplesOrder(TWO_52, m / u, u);
      MultiplesOrder(m / u, TWO_52, u);
    }
  }

  /** Just below the start of a binade doubles are twice as dense. */
  lemma NothingBelowBinade(m: nat, w: nat)
    requires TWO_53 <= m <= TWO_63 && m == TWO_52 * Ulp(m) && Representable(w) && w < m
    ensures w <= m - Ulp(m) / 2
  {
    HalfwayDown(m);
    if w > m - Ulp(m) / 2 {
      DenserBelow(m, w);
    }
  }

  lemma DenserBelow(m: nat, w: nat)
    requires TWO_53 <= m <= TWO_63 && m == TWO_52 * Ulp(m) && m - Ulp(m) / 2 <= w < m && Representable(w)
    ensures w == m - Ulp(m) / 2
  {
    var half := Ulp(m) / 2;
    UlpIsEven(m);
    UlpBelow(m, w);
    assert w % half == 0 && m == TWO_53 * half;
    hide Ulp, Representable;
    MultipleOf(TWO_53, half);
    DistinctMultiples(m, w, half);
  }

  lemma UlpIsEven(m: nat)
    requires TWO_53 <= m <= TWO_63
    ensures Ulp(m) / 2 >= 1 && Ulp(m) == 2 * (Ulp(m) / 2)
  {
  }

  lemma UlpBelow(m: nat, w: nat)
    requires TWO_53 <= m <= TWO_63 && m == TWO_52 * Ulp(m) && m - Ulp(m) / 2 <= w < m
    ensures Ulp(w) == Ulp(m) / 2
  {
    assert Ulp(m) in {2, 4, 8, 16, 32, 64, 128, 256, 512, 1024, 2048};
  }

  // ------------------------------------------------------------ brushable_range

  /** The drawn range renders at least one unit wide. */
  predicate Brushable(start: int, end: int)
    requires IsI64(start) && IsI64(end)
  {
    Rendered(end) - Rendered(start) >= 1
  }

  /** The one family of ranges that cannot be helped: both ends already render to 2^63. */
  predicate AtTop(start: int, end: int) {
    start >= TWO_63 - 512 && end < MAX_I64
  }

  /** Where the successor of `end` does not help, doubles are whole and the next one lies beyond `end`. */
  lemma SuccessorRendersAlike(start: int, end: int)
    requires IsI64(start) && IsI64(end) && start <= end && !Brushable(start, end)
    requires end < MAX_I64 ==> !Brushable(start, end + 1)
    ensures Rendered(start) == Rendered(end) && Magnitude(Rendered(start)) >= TWO_53 && Representable(Rendered(start))
    ensures Rendered(start) < TWO_63 ==> NextUp(Rendered(start)) > end
  {
    hide Rendered, Representable, NextUp, Ulp;
    var v := Rendered(start);
    RenderedIsMonotone(start, end);
    RenderedIsDouble(start);
    RendersAtTop(end);
    if end < MAX_I64 {
      RenderedIsMonotone(end, end + 1);
      SmallAreExact(start, end + 1);
    }
    if v < TWO_63 {
      TopIsDouble();
      NextUpIsNext(v, TWO_63);
      RenderedIsNearestEven(end, NextUp(v));
    }
  }

  lemma RenderedIsDouble(x: int)
    requires IsI64(x)
    ensures Representable(Rendered(x)) && Rendered(x) <= TWO_63
  {
    MagnitudeIsRepresentable(Magnitude(x));
  }

  lemma TopIsDouble()
    ensures Representable(TWO_63) && Representable(TWO_53) && Representable(-TWO_53)
  {
  }

  lemma SmallAreExact(x: int, y: int)
    requires IsI64(x) && IsI64(y) && x < y && Rendered(x) == Rendered(y)
    ensures Magnitude(Rendered(x)) >= TWO_53
  {
    TopIsDouble();
    SmallIsDouble(x);
    SmallIsDouble(y);
    hide Rendered, Representable;
    RenderedFixes(TWO_53);
    RenderedFixes(-TWO_53);
    if x >= TWO_53 {
      RenderedIsMonotone(TWO_53, x);
    } else if x <= -TWO_53 {
      RenderedIsMonotone(x, -TWO_53);
    } else {
      RenderedFixes(x);
      if y >= TWO_53 {
        RenderedIsMonotone(TWO_53, y);
      } else {
        RenderedFixes(y);
      }
    }
  }

  lemma SmallIsDouble(x: int)
    ensures Magnitude(x) < TWO_53 ==> Representable(x)
  {
  }

  /**
    Widens a range that would render narrower than one unit. The result contains
    the input, is the input when that was wide enough, and is wide enough itself
    unless the range lies at the top and does not end at the last coordinate. One
    end stays, and the other does not pass any double beyond where the range is
    drawn.
   */
  method BrushableRange(start: int, end: int) returns (s: int, e: int)
    requires IsI64(start) && IsI64(end) && start <= end
    ensures IsI64(s) && IsI64(e) && s <= start && end <= e
    ensures Brushable(start, end) ==> s == start && e == end
    ensures Brushable(s, e) <==> !AtTop(start, end)
    ensures e == end || (s == start && NoDoubleBetween(Rendered(start), e))
    ensures s == start || (e == end && NoDoubleBetween(s, Rendered(end)))
  {
    hide Rendered, Representable, NextUp, NextDown, Saturated, Ulp;
    s, e := start, end;
    RendersAtTop(start);
    RendersAtTop(end);
    var renderedStart := Rendered(start);
    if Rendered(end) - renderedStart < 1 {
      if end < MAX_I64 && Rendered(end + 1) - renderedStart >= 1 {
        RendersAtTop(end + 1);
        NoDoubleUpTo(start, end);
        e := end + 1;
      } else {
        SuccessorRendersAlike(start, end);
        NeighboursHelp(start, end);
        NoDoubleToNeighbours(renderedStart);
        var next := Saturated(NextUp(renderedStart));
        if next > end {
          e := next;
        } else {
          s := Saturated(NextDown(Rendered(end)));
        }
      }
    }
  }

  /** No double lies strictly between the two. */
  ghost predicate NoDoubleBetween(low: int, high: int) {
    forall w :: Representable(w) ==> w <= low || high <= w
  }

  /** Where a range is drawn as one point, no double follows it up to the end of the range. */
  lemma NoDoubleUpTo(start: int, end: int)
    requires IsI64(start) && IsI64(end) && start <= end && !Brushable(start, end)
    ensures NoDoubleBetween(Rendered(start), end + 1)
  {
    hide Rendered, Representable;
    RenderedIsMonotone(start, end);
    RenderedIsDouble(start);
    forall w | Representable(w) ensures w <= Rendered(start) || end + 1 <= w {
      if Rendered(start) < w <= end {
        RenderedIsBounded(start);
        RenderedFixes(w);
        RenderedIsMonotone(w, end);
      }
    }
  }

  lemma RenderedIsBounded(x: int)
    requires IsI64(x)
    ensures Rendered(x) >= MIN_I64
  {
    RenderedIsMonotone(MIN_I64, x);
    RenderedFixes(MIN_I64);
  }

  lemma NoDoubleToNeighbours(v: int)
    requires Representable(v) && Magnitude(v) >= TWO_53 && v <= TWO_63
    ensures NoDoubleBetween(v, Saturated(NextUp(v)))
    ensures v == TWO_63 ==> NoDoubleBetween(Saturated(NextDown(v)), v)
  {
    AroundTop();
    assert Saturated(TWO_63 - 1024) == TWO_63 - 1024;
    SaturatedIsNoMore(NextUp(v));
    hide NextUp, NextDown, Saturated, Representable;
    forall w | Representable(w) && w > v ensures Saturated(NextUp(v)) <= w {
      if v < TWO_63 {
        NextUpIsNext(v, w);
      }
    }
    if v == TWO_63 {
      forall w | Representable(w) && w < v ensures w <= TWO_63 - 1024 {
        NothingBelowTop(w);
      }
    }
  }

  lemma SaturatedIsNoMore(v: int)
    ensures v >= MIN_I64 ==> Saturated(v) <= v
    ensures v < MIN_I64 ==> Saturated(v) == MIN_I64
    ensures Saturated(v) <= MAX_I64
  {
  }

  lemma NothingBelowTop(w: int)
    requires Representable(w) && w < TWO_63
    ensures w <= TWO_63 - 1024
  {
    if w >= 0 {
      NothingBelowBinade(TWO_63, w);
    }
  }

  /** Where the successor of `end` does not help, the double above does, and at the top the double below. */
  lemma NeighboursHelp(start: int, end: int)
    requires IsI64(start) && IsI64(end) && start <= end && !Brushable(start, end)
    requires end < MAX_I64 ==> !Brushable(start, end + 1)
    ensures Representable(Rendered(start)) && Magnitude(Rendered(start)) >= TWO_53
    ensures var (v, next) := (Rendered(start), Saturated(NextUp(Rendered(start))));
            && v <= TWO_63
            && (v < TWO_63 ==> next > end && Rendered(next) > v)
            && (v == TWO_63 ==> next == MAX_I64 && Saturated(NextDown(v)) == TWO_63 - 1024)
    ensures Rendered(MAX_I64) == TWO_63 && Rendered(TWO_63 - 1024) == TWO_63 - 1024
  {
    hide Rendered, Representable, NextUp, NextDown, Ulp;
    SuccessorRendersAlike(start, end);
    RenderedIsDouble(start);
    NextRendersLater(Rendered(start));
    RendersAtTop(end);
    hide Saturated;
    SaturatedBeyond(NextUp(Rendered(start)), end);
  }

  lemma SaturatedBeyond(v: int, end: int)
    ensures v > end && IsI64(end) && end < MAX_I64 ==> Saturated(v) > end
    ensures TWO_63 > TWO_63 - 1024 >= MIN_I64 && Saturated(TWO_63 - 1024) == TWO_63 - 1024
  {
  }

  lemma NextRendersLater(v: int)
    requires Representable(v) && Magnitude(v) >= TWO_53 && v <= TWO_63
    ensures v < TWO_63 ==> Rendered(Saturated(NextUp(v))) > v
    ensures v == TWO_63 ==> Saturated(NextUp(v)) == MAX_I64 && NextDown(v) == TWO_63 - 1024
    ensures Rendered(MAX_I64) == TWO_63 && Rendered(TWO_63 - 1024) == TWO_63 - 1024
  {
    AroundTop();
    RendersAtTop(MAX_I64);
    RenderedFixes(TWO_63 - 1024);
    hide Rendered, Representable, NextUp, NextDown, Ulp;
    if v < TWO_63 {
      NextUpIsNext(v, TWO_63);
      if NextUp(v) < TWO_63 {
        RenderedFixes(NextUp(v));
      }
    }
  }

  lemma AroundTop()
    ensures Representable(TWO_63) && Representable(TWO_63 - 1024)
    ensures NextUp(TWO_63) >= TWO_63 && NextDown(TWO_63) == TWO_63 - 1024
  {
  }

  // ------------------------------------------------------------ the range of an overview

  /** One Run's aligned points, by their axis values, and whether its evidence may be drawn. */
  datatype Curve = Curve(drawable: bool, axisValues: seq<int>)

  predicate IsDrawn(curves: seq<Curve>, i: int, j: int, viewStart: int, viewEnd: int) {
    0 <= i < |curves| && curves[i].drawable && 0 <= j < |curves[i].axisValues| && viewStart <= curves[i].axisValues[j] <= viewEnd
  }

  /** The bounds cover what is drawn of the first `n` curves and of `m` points of the next, and are attained. */
  ghost predicate Bounds(curves: seq<Curve>, n: int, m: int, viewStart: int, viewEnd: int, bounds: Option<(int, int)>) {
    && (forall i, j :: IsDrawn(curves, i, j, viewStart, viewEnd) && (i < n || (i == n && j < m)) ==>
          bounds.Some? && bounds.value.0 <= curves[i].axisValues[j] <= bounds.value.1)
    && (bounds.Some? ==> Attained(curves, viewStart, viewEnd, bounds.value.0) && Attained(curves, viewStart, viewEnd, bounds.value.1))
  }

  ghost predicate Attained(curves: seq<Curve>, viewStart: int, viewEnd: int, x: int) {
    exists i, j :: IsDrawn(curves, i, j, viewStart, viewEnd) && curves[i].axisValues[j] == x
  }

  /** What the bounds say: every point of a drawable curve in the closed viewport lies between them, and each of them is such a point. */
  lemma BoundsMean(curves: seq<Curve>, viewStart: int, viewEnd: int, bounds: Option<(int, int)>, i: nat, j: nat) returns (a: nat, b: nat, c: nat, d: nat)
    requires Bounds(curves, |curves|, 0, viewStart, viewEnd, bounds)
    ensures i < |curves| && j < |curves[i].axisValues| && curves[i].drawable && viewStart <= curves[i].axisValues[j] <= viewEnd ==>
              bounds.Some? && bounds.value.0 <= curves[i].axisValues[j] <= bounds.value.1
    ensures bounds.Some? ==>
              && a < |curves| && b < |curves[a].axisValues| && curves[a].drawable && viewStart <= curves[a].axisValues[b] <= viewEnd
              && c < |curves| && d < |curves[c].axisValues| && curves[c].drawable && viewStart <= curves[c].axisValues[d] <= viewEnd
              && bounds.value == (curves[a].axisValues[b], curves[c].axisValues[d])
  {
    a, b, c, d := 0, 0, 0, 0;
    if bounds.Some? {
      a, b :| IsDrawn(curves, a, b, viewStart, viewEnd) && curves[a].axisValues[b] == bounds.value.0;
      c, d :| IsDrawn(curves, c, d, viewStart, viewEnd) && curves[c].axisValues[d] == bounds.value.1;
    }
    assert i < |curves| && j < |curves[i].axisValues| && curves[i].drawable && viewStart <= curves[i].axisValues[j] <= viewEnd ==>
      IsDrawn(curves, i, j, viewStart, viewEnd);
  }

  /** The extent of the real points in the viewport; neighbours outside it and undrawable curves do not count. */
  method RealBounds(curves: seq<Curve>, viewStart: int, viewEnd: int) returns (bounds: Option<(int, int)>)
    ensures Bounds(curves, |curves|, 0, viewStart, viewEnd, bounds)
    ensures bounds.Some? ==> bounds.value.0 <= bounds.value.1 && viewStart <= bounds.value.0 && bounds.value.1 <= viewEnd
  {
    bounds := None;
    for i := 0 to |curves|
      invariant Bounds(curves, i, 0, viewStart, viewEnd, bounds)
      invariant bounds.Some? ==> bounds.value.0 <= bounds.value.1
    {
      var values := curves[i].axisValues;
      if curves[i].drawable {
        for j := 0 to |values|
          invariant Bounds(curves, i, j, viewStart, viewEnd, bounds)
          invariant bounds.Some? ==> bounds.value.0 <= bounds.value.1
        {
          var x := values[j];
          if viewStart <= x && x <= viewEnd {
            assert IsDrawn(curves, i, j, viewStart, viewEnd);
            bounds := match bounds
              case None => Some((x, x))
              case Some((low, high)) => Some((if x < low then x else low, if x > high then x else high));
          }
        }
      }
    }
  }

  /** The home range that an overview's real range gives the brush. */
  function Home(start: int, end: int): B.Range
    requires IsI64(start) && IsI64(end)
  {
    B.Range(Rendered(start) as real, Rendered(end) as real)
  }

  /** The brush accepts a home range exactly when it is rendered wide enough. */
  lemma BrushableHasBrush(start: int, end: int)
    requires IsI64(start) && IsI64(end)
    ensures B.NewBrush(Home(start, end)).Ok? <==> Brushable(start, end)
  {
  }
}
