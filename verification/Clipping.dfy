/** Clipping of lines at the window (drawlib.c, check_visible and the cut_ macros). */
module Clipping {

  function Abs(x: int): (r: int)
    ensures r >= 0 && (r == x || r == -x)
  {
    if x < 0 then -x else x
  }

  /** The division of C. */
  function TruncDiv(n: int, d: int): (q: int)
    requires d != 0
  {
    if n >= 0 then (if d > 0 then n / d else -(n / -d))
    else (if d > 0 then -(-n / d) else -n / -d)
  }

  lemma MulMonotone(x: int, y: int, d: int)
    requires x <= y && 0 <= d
    ensures x * d <= y * d
  {
    assert (y - x) * d >= 0;
  }

  lemma QuotientBounds(n: int, d: int)
    requires n >= 0 && d > 0
    ensures (n / d) * d <= n < (n / d + 1) * d
  {
    assert n == (n / d) * d + n % d;
  }

  lemma DivBracket(n: int, d: int, m: int)
    requires n >= 0 && d > 0
    ensures m * d <= n ==> m <= n / d
    ensures n <= m * d ==> n / d <= m
  {
    var q := n / d;
    QuotientBounds(n, d);
    if m > q { MulMonotone(q + 1, m, d); }
    if m < q { MulMonotone(m + 1, q, d); assert (m + 1) * d == m * d + d; }
  }

  /** No integer lies between a quotient and its truncation. */
  lemma TruncBracket(n: int, d: int, m: int)
    requires d != 0
    ensures d > 0 && m * d <= n ==> m <= TruncDiv(n, d)
    ensures d > 0 && n <= m * d ==> TruncDiv(n, d) <= m
    ensures d < 0 && n <= m * d ==> m <= TruncDiv(n, d)
    ensures d < 0 && m * d <= n ==> TruncDiv(n, d) <= m
  {
    var nn, dd := if n >= 0 then n else -n, if d > 0 then d else -d;
    DivBracket(nn, dd, m);
    DivBracket(nn, dd, -m);
    assert m * -d == -(m * d) == -m * d;
    assert -m * -d == m * d;
  }

  datatype Window = Window(xmin: int, ymin: int, xmax: int, ymax: int)
  {
    ghost predicate Proper() {
      xmin < xmax && ymin < ymax
    }

    /** The number of the quadrant of a point, row by row; 5 is the window. */
    function Quadrant(x: int, y: int): (q: int)
      ensures Proper() ==> 1 <= q <= 9 && (q == 5 <==> xmin <= x < xmax && ymin <= y < ymax)
    {
      (if y >= ymin then 4 else 1) + (if y >= ymax then 3 else 0) + (if x >= xmin then 1 else 0)
          + (if x >= xmax then 1 else 0)
    }

    /** The points that check_visible may return: V_xmax and V_ymax belong to them. */
    predicate Holds(x: int, y: int) {
      xmin <= x <= xmax && ymin <= y <= ymax
    }
  }

  /** The segment from (a,b) to (c,d). */
  datatype Segment = Segment(a: int, b: int, c: int, d: int)
  {
    /** On which side of the straight line a point is. */
    ghost function Side(x: int, y: int): int {
      (y - d) * (a - c) + (c - x) * (b - d)
    }

    /** The rounded x where the straight line crosses the horizontal line at y. */
    function XAt(y: int): int
      requires b != d
    {
      TruncDiv((y - d) * (a - c) + c * (b - d), b - d)
    }

    /** The rounded y where the straight line crosses the vertical line at x. */
    function YAt(x: int): int
      requires a != c
    {
      TruncDiv((x - c) * (b - d) + d * (a - c), a - c)
    }
  }

  lemma XAtSide(s: Segment, x: int, y: int)
    requires s.b != s.d
    ensures s.b > s.d ==> (s.XAt(y) < x ==> s.Side(x, y) < 0) && (s.XAt(y) > x ==> s.Side(x, y) > 0)
    ensures s.b < s.d ==> (s.XAt(y) < x ==> s.Side(x, y) > 0) && (s.XAt(y) > x ==> s.Side(x, y) < 0)
  {
    var n := (y - s.d) * (s.a - s.c) + s.c * (s.b - s.d);
    TruncBracket(n, s.b - s.d, x);
    assert (s.c - x) * (s.b - s.d) == s.c * (s.b - s.d) - x * (s.b - s.d);
    assert n - x * (s.b - s.d) == s.Side(x, y);
  }

  lemma YAtSide(s: Segment, x: int, y: int)
    requires s.a != s.c
    ensures s.a > s.c ==> (s.YAt(x) < y ==> s.Side(x, y) > 0) && (s.YAt(x) > y ==> s.Side(x, y) < 0)
    ensures s.a < s.c ==> (s.YAt(x) < y ==> s.Side(x, y) < 0) && (s.YAt(x) > y ==> s.Side(x, y) > 0)
  {
    var n := (x - s.c) * (s.b - s.d) + s.d * (s.a - s.c);
    TruncBracket(n, s.a - s.c, y);
    assert (s.c - x) * (s.b - s.d) == -((x - s.c) * (s.b - s.d));
    assert (y - s.d) * (s.a - s.c) == y * (s.a - s.c) - s.d * (s.a - s.c);
    assert n - y * (s.a - s.c) == -s.Side(x, y);
  }

  lemma DivMonotone(n: int, m: int, d: int)
    requires 0 <= n <= m && d > 0
    ensures 0 <= n / d <= m / d
  {
    QuotientBounds(n, d);
    DivBracket(m, d, n / d);
    DivBracket(n, d, 0);
  }

  lemma TruncMonotone(n: int, m: int, d: int)
    requires n <= m && d != 0
    ensures d > 0 ==> TruncDiv(n, d) <= TruncDiv(m, d)
    ensures d < 0 ==> TruncDiv(m, d) <= TruncDiv(n, d)
  {
    var dd := if d > 0 then d else -d;
    if n >= 0 {
      DivMonotone(n, m, dd);
    } else if m < 0 {
      DivMonotone(-m, -n, dd);
    } else {
      DivMonotone(0, m, dd);
      DivMonotone(0, -n, dd);
    }
  }

  // ---------- facts about the four crossings ----------

  lemma SideAtEnds(s: Segment, x: int, y: int)
    ensures s.Side(s.a, y) == (s.a - s.c) * (y - s.b) && s.Side(s.c, y) == (s.a - s.c) * (y - s.d)
    ensures s.Side(x, s.b) == (s.b - s.d) * (s.a - x) && s.Side(x, s.d) == (s.b - s.d) * (s.c - x)
  {
    assert (y - s.d) * (s.a - s.c) + (s.c - s.a) * (s.b - s.d) == (s.a - s.c) * ((y - s.d) - (s.b - s.d));
    assert (s.b - s.d) * (s.a - s.c) + (s.c - x) * (s.b - s.d) == (s.b - s.d) * ((s.a - s.c) + (s.c - x));
  }

  /** Where the straight line crosses y, compared with the ends of the segment. */
  lemma XAtBetween(s: Segment, y: int)
    requires s.b != s.d && (s.b <= y <= s.d || s.d <= y <= s.b)
    ensures s.a <= s.c ==> s.a <= s.XAt(y) <= s.c
    ensures s.c <= s.a ==> s.c <= s.XAt(y) <= s.a
  {
    XAtSide(s, s.a, y);
    XAtSide(s, s.c, y);
    SideAtEnds(s, 0, y);
    ProductSign(s.a - s.c, y - s.b);
    ProductSign(s.a - s.c, y - s.d);
    hide Segment.XAt, Segment.Side;
  }

  lemma YAtBetween(s: Segment, x: int)
    requires s.a != s.c && (s.a <= x <= s.c || s.c <= x <= s.a)
    ensures s.b <= s.d ==> s.b <= s.YAt(x) <= s.d
    ensures s.d <= s.b ==> s.d <= s.YAt(x) <= s.b
  {
    YAtSide(s, x, s.b);
    YAtSide(s, x, s.d);
    SideAtEnds(s, x, 0);
    ProductSign(s.b - s.d, s.a - x);
    ProductSign(s.b - s.d, s.c - x);
    hide Segment.YAt, Segment.Side;
  }

  lemma ProductSign(x: int, y: int)
    ensures (x >= 0 && y >= 0) || (x <= 0 && y <= 0) ==> x * y >= 0
    ensures (x >= 0 && y <= 0) || (x <= 0 && y >= 0) ==> x * y <= 0
  {
    if x >= 0 { MulMonotone(0, x, if y >= 0 then y else -y); } else { MulMonotone(0, -x, if y >= 0 then y else -y); }
  }

  /** The quotients (k*p + q) / d have the order of k, or the reverse one. */
  lemma QuotientOrder(k: int, k': int, p: int, q: int, d: int)
    requires d != 0 && k <= k'
    ensures (p <= 0 && d <= 0) || (p >= 0 && d >= 0) ==> TruncDiv(k * p + q, d) <= TruncDiv(k' * p + q, d)
    ensures (p <= 0 && d >= 0) || (p >= 0 && d <= 0) ==> TruncDiv(k' * p + q, d) <= TruncDiv(k * p + q, d)
  {
    hide TruncDiv;
    if p >= 0 {
      MulMonotone(k, k', p);
      TruncMonotone(k * p + q, k' * p + q, d);
    }
    if p <= 0 {
      MulMonotone(k, k', -p);
      assert k * -p == -(k * p) && k' * -p == -(k' * p);
      TruncMonotone(k' * p + q, k * p + q, d);
    }
  }

  lemma XAtOrder(s: Segment, y: int, y': int)
    requires s.b != s.d && y <= y'
    ensures (s.a <= s.c && s.b <= s.d) || (s.a >= s.c && s.b >= s.d) ==> s.XAt(y) <= s.XAt(y')
    ensures (s.a <= s.c && s.b >= s.d) || (s.a >= s.c && s.b <= s.d) ==> s.XAt(y') <= s.XAt(y)
  {
    hide TruncDiv;
    QuotientOrder(y - s.d, y' - s.d, s.a - s.c, s.c * (s.b - s.d), s.b - s.d);
  }

  lemma YAtOrder(s: Segment, x: int, x': int)
    requires s.a != s.c && x <= x'
    ensures (s.a <= s.c && s.b <= s.d) || (s.a >= s.c && s.b >= s.d) ==> s.YAt(x) <= s.YAt(x')
    ensures (s.a <= s.c && s.b >= s.d) || (s.a >= s.c && s.b <= s.d) ==> s.YAt(x') <= s.YAt(x)
  {
    hide TruncDiv;
    QuotientOrder(x - s.c, x' - s.c, s.b - s.d, s.d * (s.a - s.c), s.a - s.c);
  }

  // ---------- missing the window ----------

  /** The segment has a real point with xmin <= x <= xmax-1 and ymin <= y <= ymax-1. */
  ghost predicate Meets(w: Window, s: Segment)
  {
    exists t: real :: 0.0 <= t <= 1.0 && Inside(w, PointX(s, t), PointY(s, t))
  }

  ghost predicate Inside(w: Window, x: real, y: real)
  {
    w.xmin as real <= x <= (w.xmax - 1) as real && w.ymin as real <= y <= (w.ymax - 1) as real
  }

  ghost function PointX(s: Segment, t: real): real {
    s.a as real + t * (s.c - s.a) as real
  }

  ghost function PointY(s: Segment, t: real): real {
    s.b as real + t * (s.d - s.b) as real
  }

  ghost function RealSide(s: Segment, x: real, y: real): real {
    (y - s.d as real) * (s.a - s.c) as real + (s.c as real - x) * (s.b - s.d) as real
  }

  /** Both ends are beyond the same border. */
  ghost predicate Beyond(w: Window, s: Segment)
  {
    (s.a < w.xmin && s.c < w.xmin) || (s.a >= w.xmax && s.c >= w.xmax) || (s.b < w.ymin && s.d < w.ymin)
        || (s.b >= w.ymax && s.d >= w.ymax)
  }

  /** The whole window is on one side of the straight line. */
  ghost predicate Aside(w: Window, s: Segment)
  {
    var l, r, t, u := w.xmin, w.xmax - 1, w.ymin, w.ymax - 1;
    || (s.a <= s.c && s.b <= s.d && (s.Side(l, u) > 0 || s.Side(r, t) < 0))
    || (s.a >= s.c && s.b >= s.d && (s.Side(l, u) < 0 || s.Side(r, t) > 0))
    || (s.a <= s.c && s.b >= s.d && (s.Side(l, t) < 0 || s.Side(r, u) > 0))
    || (s.a >= s.c && s.b <= s.d && (s.Side(l, t) > 0 || s.Side(r, u) < 0))
  }

  lemma PointOnLine(s: Segment, t: real)
    ensures RealSide(s, PointX(s, t), PointY(s, t)) == 0.0
  {
    var dx, dy := (s.a - s.c) as real, (s.b - s.d) as real;
    assert PointY(s, t) - s.d as real == (1.0 - t) * dy;
    assert s.c as real - PointX(s, t) == (t - 1.0) * dx;
    assert (1.0 - t) * dy * dx + (t - 1.0) * dx * dy == 0.0;
  }

  lemma SideAsReal(s: Segment, x: int, y: int)
    ensures RealSide(s, x as real, y as real) == s.Side(x, y) as real
  {
    assert ((y - s.d) * (s.a - s.c)) as real == (y - s.d) as real * (s.a - s.c) as real;
    assert ((s.c - x) * (s.b - s.d)) as real == (s.c - x) as real * (s.b - s.d) as real;
  }

  lemma RealProductSign(x: real, y: real)
    ensures (x >= 0.0 && y >= 0.0) || (x <= 0.0 && y <= 0.0) ==> x * y >= 0.0
    ensures (x >= 0.0 && y <= 0.0) || (x <= 0.0 && y >= 0.0) ==> x * y <= 0.0
  {
  }

  /** How the side changes from a corner of the window to a point inside. */
  lemma SideFromCorner(s: Segment, x0: int, y0: int, x: real, y: real)
    ensures RealSide(s, x, y) == s.Side(x0, y0) as real + (y - y0 as real) * (s.a - s.c) as real
        + (x0 as real - x) * (s.b - s.d) as real
  {
    SideAsReal(s, x0, y0);
  }

  lemma AsideMisses(w: Window, s: Segment, x: real, y: real)
    requires Aside(w, s) && Inside(w, x, y)
    ensures RealSide(s, x, y) != 0.0
  {
    hide Segment.Side, RealSide;
    var l, r, t, u := w.xmin, w.xmax - 1, w.ymin, w.ymax - 1;
    FarFromCorner(s, l, u, x, y);
    FarFromCorner(s, r, t, x, y);
    FarFromCorner(s, l, t, x, y);
    FarFromCorner(s, r, u, x, y);
  }

  /** From a corner the side changes in one direction only. */
  lemma FarFromCorner(s: Segment, x0: int, y0: int, x: real, y: real)
    ensures y <= y0 as real && x >= x0 as real && s.a <= s.c && s.b <= s.d
        ==> RealSide(s, x, y) >= s.Side(x0, y0) as real
    ensures y >= y0 as real && x <= x0 as real && s.a <= s.c && s.b <= s.d
        ==> RealSide(s, x, y) <= s.Side(x0, y0) as real
    ensures y <= y0 as real && x >= x0 as real && s.a >= s.c && s.b >= s.d
        ==> RealSide(s, x, y) <= s.Side(x0, y0) as real
    ensures y >= y0 as real && x <= x0 as real && s.a >= s.c && s.b >= s.d
        ==> RealSide(s, x, y) >= s.Side(x0, y0) as real
    ensures y >= y0 as real && x >= x0 as real && s.a <= s.c && s.b >= s.d
        ==> RealSide(s, x, y) <= s.Side(x0, y0) as real
    ensures y <= y0 as real && x <= x0 as real && s.a <= s.c && s.b >= s.d
        ==> RealSide(s, x, y) >= s.Side(x0, y0) as real
    ensures y >= y0 as real && x >= x0 as real && s.a >= s.c && s.b <= s.d
        ==> RealSide(s, x, y) >= s.Side(x0, y0) as real
    ensures y <= y0 as real && x <= x0 as real && s.a >= s.c && s.b <= s.d
        ==> RealSide(s, x, y) <= s.Side(x0, y0) as real
  {
    SideFromCorner(s, x0, y0, x, y);
    RealProductSign(y - y0 as real, (s.a - s.c) as real);
    RealProductSign(x0 as real - x, (s.b - s.d) as real);
    hide Segment.Side, RealSide;
  }

  lemma BeyondMisses(w: Window, s: Segment, t: real)
    requires Beyond(w, s) && 0.0 <= t <= 1.0
    ensures !Inside(w, PointX(s, t), PointY(s, t))
  {
    assert PointX(s, t) == (1.0 - t) * s.a as real + t * s.c as real;
    assert PointY(s, t) == (1.0 - t) * s.b as real + t * s.d as real;
    if s.a < w.xmin && s.c < w.xmin { Convex(s.a as real, s.c as real, w.xmin as real - 1.0, t); }
    if s.a >= w.xmax && s.c >= w.xmax { Convex(-s.a as real, -s.c as real, -w.xmax as real, t); }
    if s.b < w.ymin && s.d < w.ymin { Convex(s.b as real, s.d as real, w.ymin as real - 1.0, t); }
    if s.b >= w.ymax && s.d >= w.ymax { Convex(-s.b as real, -s.d as real, -w.ymax as real, t); }
  }

  lemma Convex(p: real, q: real, bound: real, t: real)
    requires p <= bound && q <= bound && 0.0 <= t <= 1.0
    ensures (1.0 - t) * p + t * q <= bound
  {
    assert (1.0 - t) * (bound - p) >= 0.0 && t * (bound - q) >= 0.0;
  }

  lemma Misses(w: Window, s: Segment)
    requires Aside(w, s) || Beyond(w, s)
    ensures !Meets(w, s)
  {
    forall t: real | 0.0 <= t <= 1.0 ensures !Inside(w, PointX(s, t), PointY(s, t)) {
      if Beyond(w, s) {
        BeyondMisses(w, s, t);
      } else if Inside(w, PointX(s, t), PointY(s, t)) {
        AsideMisses(w, s, PointX(s, t), PointY(s, t));
        PointOnLine(s, t);
      }
    }
  }
}
