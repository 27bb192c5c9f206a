/** Lines in a bitmap (grprint2.c, bw_point and bw_line, and the colour versions). */
module Raster {
  import opened Clipping

  datatype Point = Point(x: int, y: int)

  /** The line from (x1,y1) to (x2,y2), point by point. */
  datatype Line = Line(x1: int, y1: int, x2: int, y2: int)
  {
    /** More columns than rows. */
    predicate Flat() {
      (x2 - x1) * (x2 - x1) > (y2 - y1) * (y2 - y1)
    }

    predicate Single() {
      x1 == x2 && y1 == y2
    }

    /** The number of steps along the longer side. */
    function Steps(): (n: int)
      ensures n >= 0
    {
      if Flat() then Abs(x2 - x1) else Abs(y2 - y1)
    }

    function YAt(xp: int): int
      requires x1 != x2
    {
      TruncDiv((y2 - y1) * (xp - x1) + y1 * (x2 - x1), x2 - x1)
    }

    function XAt(yp: int): int
      requires y1 != y2
    {
      TruncDiv((x2 - x1) * (yp - y1) + x1 * (y2 - y1), y2 - y1)
    }

    /** The i-th point. */
    ghost function At(i: int): Point
    {
      if Single() then Point(x1, y1)
      else if Flat() && x1 != x2 then
        var xp := if x1 < x2 then x1 + i else x1 - i;
        Point(xp, YAt(xp))
      else if y1 != y2 then
        var yp := if y1 < y2 then y1 + i else y1 - i;
        Point(XAt(yp), yp)
      else Point(x1, y1)
    }
  }

  lemma SquareOrder(a: int, b: int)
    ensures a * a > b * b <==> Abs(a) > Abs(b)
  {
    var p, q := Abs(a), Abs(b);
    assert a * a == p * p && b * b == q * q;
    if p > q { MulMonotone(q, p, q); MulMonotone(q + 1, p, p); } else { MulMonotone(p, q, p); MulMonotone(p, q, q); }
  }

  /** Adding at most the divisor to the dividend adds at most one to the quotient. */
  lemma TruncStep(n: int, m: int, d: int)
    requires d != 0 && Abs(m) <= Abs(d)
    ensures -1 <= TruncDiv(n + m, d) - TruncDiv(n, d) <= 1
  {
    var p := Abs(d);
    TruncNext(n, d);
    TruncNext(n - p, d);
    if m >= 0 { TruncMonotone(n, n + m, d); TruncMonotone(n + m, n + p, d); }
    else { TruncMonotone(n + m, n, d); TruncMonotone(n - p, n + m, d); }
  }

  lemma TruncNext(n: int, d: int)
    requires d != 0
    ensures -1 <= TruncDiv(n + Abs(d), d) - TruncDiv(n, d) <= 1
  {
    var p := Abs(d);
    if n >= 0 {
      DivNext(n, p);
    } else if n + p <= 0 {
      DivNext(-(n + p), p);
      assert n + p == 0 ==> (n + p) / p == 0;
    } else {
      DivBracket(-n, p, 1);
      DivBracket(n + p, p, 0);
      DivBracket(n + p, p, 1);
      DivBracket(-n, p, 0);
    }
  }

  lemma DivNext(n: int, p: int)
    requires n >= 0 && p > 0
    ensures (n + p) / p == n / p + 1
  {
    QuotientBounds(n, p);
    DivBracket(n + p, p, n / p + 1);
    QuotientBounds(n + p, p);
    if (n + p) / p > n / p + 1 { MulMonotone(n / p + 2, (n + p) / p, p); }
  }

  lemma YAtEnds(l: Line)
    requires l.x1 != l.x2
    ensures l.YAt(l.x1) == l.y1 && l.YAt(l.x2) == l.y2
  {
    hide TruncDiv;
    var d := l.x2 - l.x1;
    ExactTrunc(l.y1, d);
    ExactTrunc(l.y2, d);
    assert (l.y2 - l.y1) * (l.x1 - l.x1) + l.y1 * d == l.y1 * d;
    assert (l.y2 - l.y1) * d + l.y1 * d == l.y2 * d;
  }

  lemma XAtEnds(l: Line)
    requires l.y1 != l.y2
    ensures l.XAt(l.y1) == l.x1 && l.XAt(l.y2) == l.x2
  {
    hide TruncDiv;
    var d := l.y2 - l.y1;
    ExactTrunc(l.x1, d);
    ExactTrunc(l.x2, d);
    assert (l.x2 - l.x1) * (l.y1 - l.y1) + l.x1 * d == l.x1 * d;
    assert (l.x2 - l.x1) * d + l.x1 * d == l.x2 * d;
  }

  /** Both ends are on the line. */
  lemma Ends(l: Line)
    ensures l.At(0) == Point(l.x1, l.y1) && l.At(l.Steps()) == Point(l.x2, l.y2)
  {
    SquareOrder(l.x2 - l.x1, l.y2 - l.y1);
    if l.x1 != l.x2 { YAtEnds(l); }
    if l.y1 != l.y2 { XAtEnds(l); }
    hide Line.XAt, Line.YAt;
  }

  lemma ExactTrunc(q: int, d: int)
    requires d != 0
    ensures TruncDiv(q * d, d) == q
  {
    TruncBracket(q * d, d, q);
  }

  /** One step along the longer side (of length d) moves at most one step along the other. */
  lemma MinorStep(v: int, d: int, k: int, o: int, step: int)
    requires d != 0 && Abs(v) <= Abs(d) && (step == 1 || step == -1)
    ensures -1 <= TruncDiv(v * (k + step) + o * d, d) - TruncDiv(v * k + o * d, d) <= 1
  {
    assert v * (k + step) == v * k + v * step;
    assert v * step == if step == 1 then v else -v;
    hide TruncDiv;
    TruncStep(v * k + o * d, v * step, d);
  }

  /** Where the line has more columns than rows. */
  lemma YStep(l: Line, xp: int, step: int)
    requires l.x1 != l.x2 && Abs(l.y2 - l.y1) <= Abs(l.x2 - l.x1) && (step == 1 || step == -1)
    ensures -1 <= l.YAt(xp + step) - l.YAt(xp) <= 1
  {
    hide TruncDiv;
    assert xp + step - l.x1 == xp - l.x1 + step;
    MinorStep(l.y2 - l.y1, l.x2 - l.x1, xp - l.x1, l.y1, step);
  }

  /** Where it has not. */
  lemma XStep(l: Line, yp: int, step: int)
    requires l.y1 != l.y2 && Abs(l.x2 - l.x1) <= Abs(l.y2 - l.y1) && (step == 1 || step == -1)
    ensures -1 <= l.XAt(yp + step) - l.XAt(yp) <= 1
  {
    hide TruncDiv;
    assert yp + step - l.y1 == yp - l.y1 + step;
    MinorStep(l.x2 - l.x1, l.y2 - l.y1, yp - l.y1, l.x1, step);
  }

  /** From point to point the line goes one step along its longer side and at most one step
      along the other: it is an unbroken chain of neighbouring pixels. */
  lemma Connected(l: Line, i: int)
    requires 0 <= i < l.Steps()
    ensures var p, q := l.At(i), l.At(i + 1);
      && -1 <= q.x - p.x <= 1 && -1 <= q.y - p.y <= 1
      && if l.Flat() then q.x - p.x == (if l.x1 < l.x2 then 1 else -1) else q.y - p.y == if l.y1 < l.y2 then 1 else -1
  {
    LongerSide(l);
    hide Line.XAt, Line.YAt, Line.Flat;
    if l.Flat() {
      var step := if l.x1 < l.x2 then 1 else -1;
      YStep(l, if l.x1 < l.x2 then l.x1 + i else l.x1 - i, step);
    } else {
      var step := if l.y1 < l.y2 then 1 else -1;
      XStep(l, if l.y1 < l.y2 then l.y1 + i else l.y1 - i, step);
    }
  }

  lemma LongerSide(l: Line)
    ensures l.Flat() ==> Abs(l.y2 - l.y1) < Abs(l.x2 - l.x1)
    ensures !l.Flat() ==> Abs(l.x2 - l.x1) <= Abs(l.y2 - l.y1)
  {
    SquareOrder(l.x2 - l.x1, l.y2 - l.y1);
  }

  lemma TruncNear(n: int, d: int)
    requires d != 0
    ensures -Abs(d) < TruncDiv(n, d) * d - n < Abs(d)
  {
    var m, p := Abs(n), Abs(d);
    var q := m / p;
    QuotientBounds(m, p);
    assert TruncDiv(n, d) == if (n >= 0) == (d > 0) then q else -q;
    hide TruncDiv;
    SignedProduct(q, p, n >= 0, d > 0);
  }

  lemma SignedProduct(q: int, p: int, plus: bool, up: bool)
    ensures (if plus == up then q else -q) * (if up then p else -p) == if plus then q * p else -(q * p)
  {
  }

  lemma YNear(l: Line, xp: int)
    requires l.x1 != l.x2
    ensures -Abs(l.x2 - l.x1) < (l.YAt(xp) - l.y1) * (l.x2 - l.x1) - (l.y2 - l.y1) * (xp - l.x1) < Abs(l.x2 - l.x1)
  {
    hide TruncDiv;
    var dx := l.x2 - l.x1;
    TruncNear((l.y2 - l.y1) * (xp - l.x1) + l.y1 * dx, dx);
    assert (l.YAt(xp) - l.y1) * dx == l.YAt(xp) * dx - l.y1 * dx;
  }

  lemma XNear(l: Line, yp: int)
    requires l.y1 != l.y2
    ensures -Abs(l.y2 - l.y1) < (l.x2 - l.x1) * (yp - l.y1) - (l.XAt(yp) - l.x1) * (l.y2 - l.y1) < Abs(l.y2 - l.y1)
  {
    hide TruncDiv;
    var dy := l.y2 - l.y1;
    TruncNear((l.x2 - l.x1) * (yp - l.y1) + l.x1 * dy, dy);
    assert (l.XAt(yp) - l.x1) * dy == l.XAt(yp) * dy - l.x1 * dy;
  }

  /** How far p is from the real line, times the length of its longer side. */
  function Off(l: Line, p: Point): int
  {
    if l.Flat() then (p.y - l.y1) * (l.x2 - l.x1) - (l.y2 - l.y1) * (p.x - l.x1)
    else (l.x2 - l.x1) * (p.y - l.y1) - (p.x - l.x1) * (l.y2 - l.y1)
  }

  /** Every point is less than a pixel away from the real line. */
  lemma NearLine(l: Line, i: int)
    requires 0 <= i <= l.Steps() && !l.Single()
    ensures -l.Steps() < Off(l, l.At(i)) < l.Steps()
  {
    LongerSide(l);
    hide Line.Flat, Line.XAt, Line.YAt;
    if l.Flat() {
      YNear(l, if l.x1 < l.x2 then l.x1 + i else l.x1 - i);
    } else {
      XNear(l, if l.y1 < l.y2 then l.y1 + i else l.y1 - i);
    }
  }

  /** x lies between a and b, which may be in either order. */
  predicate Between(a: int, x: int, b: int)
  {
    a <= x <= b || b <= x <= a
  }

  /** The line stays in its bounding box. */
  lemma Boxed(l: Line, i: int)
    requires 0 <= i <= l.Steps()
    ensures Between(l.x1, l.At(i).x, l.x2) && Between(l.y1, l.At(i).y, l.y2)
  {
    SquareOrder(l.x2 - l.x1, l.y2 - l.y1);
    if !l.Single() {
      if l.Flat() {
        BetweenEnds(l.y1, l.y2, l.At(i).x - l.x1, l.x2 - l.x1);
      } else {
        BetweenEnds(l.x1, l.x2, l.At(i).y - l.y1, l.y2 - l.y1);
      }
    }
  }

  lemma BetweenEnds(a: int, b: int, k: int, d: int)
    requires d != 0 && Between(0, k, d)
    ensures Between(a, TruncDiv((b - a) * k + a * d, d), b)
  {
    var n := (b - a) * k + a * d;
    assert n - a * d == (b - a) * k && b * d - n == (b - a) * (d - k);
    ProductSign(b - a, k);
    ProductSign(b - a, d - k);
    TruncBracket(n, d, a);
    TruncBracket(n, d, b);
  }
}
