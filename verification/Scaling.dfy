/** The global scaling factor G_stretch/G_shrink and its normalisation (fisheye.c). */
module Scaling {
  import opened Clipping

  const MAX_RATIO := 5000
  const UNITS := 60

  ghost predicate Coprime(a: int, b: int)
  {
    forall k :: k > 1 ==> !(a % k == 0 && b % k == 0)
  }

  /** Positive, in lowest terms and bounded. */
  ghost predicate Normal(stretch: int, shrink: int)
  {
    0 < stretch <= MAX_RATIO * UNITS && 0 < shrink <= MAX_RATIO * UNITS && Coprime(stretch, shrink)
  }

  function OneForZero(x: int): int {
    if x == 0 then 1 else x
  }

  /** How often `small` fits into `large`, in sixtieths and within the bounds. */
  function Sixtieths(large: int, small: int): (f: int)
    requires large >= small > 0
    ensures UNITS <= f <= MAX_RATIO * UNITS
  {
    if large > small * MAX_RATIO then MAX_RATIO * UNITS
    else
      var f := large * UNITS / small;
      DivBracket(large * UNITS, small, UNITS);
      DivBracket(large * UNITS, small, MAX_RATIO * UNITS);
      f
  }

  /** Within the bounds the ratio drops by less than one sixtieth. */
  lemma SixtiethsClose(large: int, small: int)
    requires large >= small > 0 && large <= small * MAX_RATIO
    ensures var f := Sixtieths(large, small); f * small <= large * UNITS < (f + 1) * small
  {
    QuotientBounds(large * UNITS, small);
  }

  /** A divisor of 60 other than 1 is a multiple of 2, 3 or 5. */
  lemma DivisorOfUnits(k: int)
    requires 1 < k <= UNITS && UNITS % k == 0
    ensures k % 2 == 0 || k % 3 == 0 || k % 5 == 0
  {
    var q := UNITS / k;
    assert q * k == UNITS;
    if k >= 8 && q >= 8 { MulMonotone(8, q, k); }
    if k >= 8 { QuotientOfUnits(k, q); }
  }

  lemma QuotientOfUnits(k: int, q: int)
    requires 0 < q < 8 && q * k == UNITS
    ensures k % 2 == 0 || k % 3 == 0 || k % 5 == 0
  {
    if q == 1 { assert k == 60; } else if q == 2 { assert k == 30; } else if q == 3 { assert k == 20; }
    else if q == 4 { assert k == 15; } else if q == 5 { assert k == 12; } else if q == 6 { assert k == 10; }
  }

  lemma DividesTrans(k: int, a: int, b: int)
    requires k > 0 && a > 0 && a % k == 0 && b % a == 0
    ensures b % k == 0
  {
    var p, q := a / k, b / a;
    assert a == p * k && b == q * a;
    assert b == (q * p) * k;
    MultipleMod(q * p, k);
  }

  lemma MultipleMod(m: int, k: int)
    requires k > 0
    ensures (m * k) % k == 0
  {
    var n := m * k;
    var q, r := n / k, n % k;
    assert (m - q) * k == r;
    if m - q >= 1 { MulMonotone(1, m - q, k); }
    if m - q <= -1 { MulMonotone(m - q, -1, k); }
  }

  /** Numbers without common factor 2, 3 and 5, one of which divides 60, are coprime. */
  lemma LowestTerms(a: int, b: int)
    requires a > 0 && b > 0 && UNITS % a == 0
    requires !(a % 2 == 0 && b % 2 == 0) && !(a % 3 == 0 && b % 3 == 0) && !(a % 5 == 0 && b % 5 == 0)
    ensures Coprime(a, b) && Coprime(b, a)
  {
    forall k | k > 1 ensures !(a % k == 0 && b % k == 0) {
      if a % k == 0 && b % k == 0 {
        DividesTrans(k, a, UNITS);
        SmallDivisor(k, UNITS);
        DivisorOfUnits(k);
        var p := if k % 2 == 0 then 2 else if k % 3 == 0 then 3 else 5;
        DividesTrans(p, k, a);
        DividesTrans(p, k, b);
      }
    }
  }

  lemma SmallDivisor(k: int, n: int)
    requires k > 0 && n > 0 && n % k == 0
    ensures k <= n
  {
    assert n == (n / k) * k;
    if n / k >= 1 { MulMonotone(1, n / k, k); } else { MulMonotone(n / k, 0, k); }
  }

  /** What normalize_scaling makes of a ratio: lowest terms of the larger one in sixtieths of
      the smaller one. */
  ghost predicate Normalized(stretch0: int, shrink0: int, stretch: int, shrink: int)
  {
    var a, b := OneForZero(Abs(stretch0)), OneForZero(Abs(shrink0));
    && Normal(stretch, shrink)
    && (a >= b ==> stretch * UNITS == Sixtieths(a, b) * shrink)
    && (a <= b ==> shrink * UNITS == Sixtieths(b, a) * stretch)
  }

  /** What stays the same while common factors are taken out of both numbers. */
  ghost predicate Reduced(large: int, small: int, f: int)
  {
    0 < small <= UNITS && UNITS % small == 0 && 0 < large <= MAX_RATIO * UNITS && large * UNITS == f * small
  }

  lemma Cancel(x: int, y: int, p: int)
    requires p > 0 && x * p == y * p
    ensures x == y
  {
    if x < y { MulMonotone(x + 1, y, p); }
    if y < x { MulMonotone(y + 1, x, p); }
  }

  lemma ExactQuotient(x: int, p: int)
    requires x > 0 && p > 1 && x % p == 0
    ensures x == (x / p) * p && 0 < x / p < x && x % (x / p) == 0
  {
    var q := x / p;
    assert x == q * p;
    if q <= 0 { MulMonotone(q, 0, p); }
    MulMonotone(2, p, q);
    MultipleMod(p, q);
  }

  lemma ReducedFurther(large: int, small: int, f: int, p: int)
    requires Reduced(large, small, f) && p > 1 && large % p == 0 && small % p == 0
    ensures Reduced(large / p, small / p, f) && large / p < large && small / p < small
  {
    ExactQuotient(large, p);
    ExactQuotient(small, p);
    var l, s := large / p, small / p;
    DividesTrans(s, small, UNITS);
    assert (l * UNITS) * p == large * UNITS;
    assert (f * s) * p == f * small;
    Cancel(l * UNITS, f * s, p);
  }

  /** p is a factor of both numbers. */
  predicate Shared(p: int, x: int, y: int)
    requires p != 0
  {
    x % p == 0 && y % p == 0
  }

  lemma NoNewFactor(x: int, y: int, p: int, q: int)
    requires x > 0 && y > 0 && p > 1 && q > 1 && Shared(p, x, y) && Shared(q, x / p, y / p)
    ensures Shared(q, x, y)
  {
    ExactQuotient(x, p);
    ExactQuotient(y, p);
    DividesTrans(q, x / p, x);
    DividesTrans(q, y / p, y);
  }

  lemma SixtiethsOfEqual(a: int)
    requires a > 0
    ensures Sixtieths(a, a) == UNITS
  {
    DivBracket(a * UNITS, a, UNITS);
  }

  lemma NormalizedNow(stretch0: int, shrink0: int, stretch: int, shrink: int, f: int, swapped: bool)
    requires var a, b := OneForZero(Abs(stretch0)), OneForZero(Abs(shrink0));
      && (swapped <==> a < b) && f == (if swapped then Sixtieths(b, a) else if a == b then UNITS else Sixtieths(a, b))
    requires if swapped then Reduced(shrink, stretch, f) else Reduced(stretch, shrink, f)
    requires !Shared(2, shrink, stretch) && !Shared(3, shrink, stretch) && !Shared(5, shrink, stretch)
    ensures Normalized(stretch0, shrink0, stretch, shrink) && stretch > 0 && shrink > 0
  {
    hide Sixtieths;
    var a, b := OneForZero(Abs(stretch0)), OneForZero(Abs(shrink0));
    if a == b { SixtiethsOfEqual(a); }
    if swapped { LowestTerms(stretch, shrink); } else { LowestTerms(shrink, stretch); }
  }

  /** A normal ratio f/60 is not changed by a further normalisation. */
  lemma SixtiethsAgain(large: int, small: int, f: int)
    requires large >= small > 0 && f <= MAX_RATIO * UNITS && large * UNITS == f * small
    ensures Sixtieths(large, small) == f
  {
    if large > small * MAX_RATIO { MulMonotone(f, MAX_RATIO * UNITS, small); }
    DivBracket(large * UNITS, small, f);
  }

  lemma NoDrift(stretch0: int, shrink0: int, stretch1: int, shrink1: int, stretch2: int, shrink2: int)
    requires Normalized(stretch0, shrink0, stretch1, shrink1) && Normalized(stretch1, shrink1, stretch2, shrink2)
    ensures stretch2 * shrink1 == stretch1 * shrink2
  {
    var a, b := OneForZero(Abs(stretch0)), OneForZero(Abs(shrink0));
    if a >= b {
      SameRatio(stretch1, shrink1, stretch2, shrink2, Sixtieths(a, b));
    } else {
      SameRatio(shrink1, stretch1, shrink2, stretch2, Sixtieths(b, a));
    }
  }

  lemma SameRatio(large1: int, small1: int, large2: int, small2: int, f: int)
    requires small1 > 0 && small2 > 0 && large1 > 0 && large2 > 0 && UNITS <= f <= MAX_RATIO * UNITS
        && large1 * UNITS == f * small1
    requires large1 >= small1 ==> large2 * UNITS == Sixtieths(large1, small1) * small2
    ensures large2 * small1 == large1 * small2
  {
    if large1 < small1 { MulMonotone(UNITS, f, small1); }
    SixtiethsAgain(large1, small1, f);
    assert (large2 * small1) * UNITS == (large2 * UNITS) * small1 == (f * small2) * small1;
    assert (large1 * small2) * UNITS == (large1 * UNITS) * small2 == (f * small1) * small2;
    Cancel(large2 * small1, large1 * small2, UNITS);
  }

  /** G_stretch and G_shrink with the functions that change them. */
  class GlobalScale {
    var stretch: int
    var shrink: int

    ghost predicate Holds(f: int, swapped: bool)
      reads this
    {
      if swapped then Reduced(shrink, stretch, f) else Reduced(stretch, shrink, f)
    }

    /** One of the four loops of normalize_scaling. */
    method TakeOut(p: int, ghost f: int, ghost swapped: bool)
      requires p > 1 && Holds(f, swapped)
      modifies this
      ensures Holds(f, swapped) && !Shared(p, shrink, stretch)
      ensures forall q :: q > 1 && !Shared(q, old(shrink), old(stretch)) ==> !Shared(q, shrink, stretch)
    {
      while shrink % p == 0 && stretch % p == 0
        invariant Holds(f, swapped)
        invariant forall q :: q > 1 && !Shared(q, old(shrink), old(stretch)) ==> !Shared(q, shrink, stretch)
        decreases shrink + stretch
      {
        Divide(p, f, swapped);
      }
    }

    /** The body of these loops. */
    method Divide(p: int, ghost f: int, ghost swapped: bool)
      requires p > 1 && Holds(f, swapped) && Shared(p, shrink, stretch)
      modifies this
      ensures Holds(f, swapped) && 0 < shrink + stretch < old(shrink) + old(stretch)
      ensures forall q :: q > 1 && !Shared(q, old(shrink), old(stretch)) ==> !Shared(q, shrink, stretch)
    {
      if swapped { ReducedFurther(shrink, stretch, f, p); } else { ReducedFurther(stretch, shrink, f, p); }
      hide Shared;
      forall q | q > 1 && Shared(q, shrink / p, stretch / p) ensures Shared(q, shrink, stretch) {
        NoNewFactor(shrink, stretch, p, q);
      }
      shrink, stretch := shrink / p, stretch / p;
    }

    /** The first lines of normalize_scaling: both numbers become positive. */
    method MakePositive()
      modifies this
      ensures var a, b := OneForZero(Abs(old(stretch))), OneForZero(Abs(old(shrink)));
        if a == b then stretch == shrink == 1 else stretch == a && shrink == b
    {
      if shrink < 0 { shrink := shrink * -1; }
      if stretch < 0 { stretch := stretch * -1; }
      if shrink == stretch { shrink, stretch := 1, 1; }
      if shrink == 0 { shrink := 1; }
      if stretch == 0 { stretch := 1; }
    }

    /** The branch for a ratio above one. */
    method QuantizeStretch()
      requires 0 < shrink < stretch
      modifies this
      ensures shrink == UNITS && stretch == Sixtieths(old(stretch), old(shrink))
    {
      if shrink * MAX_RATIO < stretch { shrink, stretch := 1, MAX_RATIO; }
      stretch := stretch * UNITS / shrink;
      shrink := UNITS;
    }

    /** The branch for a ratio below one. */
    method QuantizeShrink()
      requires 0 < stretch < shrink
      modifies this
      ensures stretch == UNITS && shrink == Sixtieths(old(shrink), old(stretch))
    {
      if shrink > stretch * MAX_RATIO { shrink, stretch := MAX_RATIO, 1; }
      shrink := shrink * UNITS / stretch;
      stretch := UNITS;
    }

    /** The ratio in sixtieths. */
    method Quantize(ghost a: int, ghost b: int)
      requires a > 0 && b > 0 && if a == b then stretch == shrink == 1 else stretch == a && shrink == b
      modifies this
      ensures if a == b then stretch == shrink == 1
              else if a < b then stretch == UNITS && shrink == Sixtieths(b, a)
              else shrink == UNITS && stretch == Sixtieths(a, b)
    {
      hide Sixtieths;
      if stretch > shrink { QuantizeStretch(); }
      if stretch < shrink { QuantizeShrink(); }
    }

    /** The part of normalize_scaling before the loops. */
    method Prepare() returns (ghost f: int, ghost swapped: bool)
      modifies this
      ensures var a, b := OneForZero(Abs(old(stretch))), OneForZero(Abs(old(shrink)));
        && (swapped <==> a < b) && f == (if swapped then Sixtieths(b, a) else if a == b then UNITS else Sixtieths(a, b))
      ensures Holds(f, swapped)
    {
      ghost var a, b := OneForZero(Abs(stretch)), OneForZero(Abs(shrink));
      MakePositive();
      Quantize(a, b);
      hide Sixtieths;
      swapped := a < b;
      f := if swapped then Sixtieths(b, a) else if a == b then UNITS else Sixtieths(a, b);
    }

    /** normalize_scaling. At its end the source replaces zeros by one; there are none. */
    method NormalizeScaling()
      modifies this
      ensures Normalized(old(stretch), old(shrink), stretch, shrink)
    {
      hide Shared, Normalized, Sixtieths, Reduced;
      ghost var f, swapped := Prepare();
      TakeOut(2, f, swapped);
      TakeOut(3, f, swapped);
      TakeOut(5, f, swapped);
      TakeOut(7, f, swapped);
      NormalizedNow(old(stretch), old(shrink), stretch, shrink, f, swapped);
      assert shrink != 0 && stretch != 0;
    }

    /** The scaling part of set_fe_scaling, without a fisheye. */
    method SetScaling(newStretch: int, newShrink: int)
      modifies this
      ensures Normalized(newStretch, newShrink, stretch, shrink)
    {
      stretch, shrink := newStretch, newShrink;
      NormalizeScaling();
    }

    /** The scaling part of change_fe_scaling, without a fisheye. */
    method ChangeScaling(byStretch: int, byShrink: int)
      modifies this
      ensures Normalized(old(stretch) * byStretch, old(shrink) * byShrink, stretch, shrink)
    {
      stretch, shrink := stretch * byStretch, shrink * byShrink;
      NormalizeScaling();
    }
  }
}
