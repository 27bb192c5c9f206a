/** The cartesian fisheye (fisheye.c): the map from the screen to the graph for one axis, and
    the table that inverts it. */
module Fisheye {
  import opened Clipping

  const COORD_HASHSIZE := 20000

  /** The part of the parameters that belongs to the x-axis (or to the y-axis): the focus on
      the screen and in the graph, the borders of both, and the scaling in percent. */
  datatype Axis = Axis(sfocus: int, gfocus: int, smin: int, smax: int, gmin: int, gmax: int, scaling: int,
                       rp1: int, rp2: int, lp1: int, lp2: int)
  {
    predicate OnScreen(i: int) {
      smin <= i <= smax
    }

    /** The denominator of the map. */
    function Denominator(x: int): int {
      if x > sfocus then -rp2 * (x - sfocus) + rp1 * scaling else -lp2 * (sfocus - x) + lp1 * scaling
    }

    /** cscf_sx_to_gx (and cscf_sy_to_gy). */
    function ToGraph(x: int): int {
      if x > sfocus then
        var dist := x - sfocus;
        var help := -rp2 * dist + rp1 * scaling;
        if help != 0 then gfocus + TruncDiv(100 * dist * rp1, help) else COORD_HASHSIZE
      else
        var dist := sfocus - x;
        var help := -lp2 * dist + lp1 * scaling;
        if help != 0 then gfocus - TruncDiv(100 * dist * lp1, help) else COORD_HASHSIZE
    }

    /** The foci lie within the borders, the scaling is positive. */
    predicate Proper() {
      smin <= sfocus <= smax && gmin <= gfocus <= gmax && scaling > 0
    }
  }

  /** Zero parameters are replaced by one. */
  function NonZero(p: int): int {
    if p == 0 then 1 else p
  }

  /** The first part of calc_cscf_parameters. */
  function WithParameters(a: Axis): Axis
  {
    a.(rp1 := NonZero((a.smax - a.sfocus) * (a.gmax - a.gfocus)),
       rp2 := NonZero(a.scaling * (a.gmax - a.gfocus) - 100 * (a.smax - a.sfocus)),
       lp1 := NonZero((a.sfocus - a.smin) * (a.gfocus - a.gmin)),
       lp2 := NonZero(a.scaling * (a.gfocus - a.gmin) - 100 * (a.sfocus - a.smin)))
  }

  /** The map is monotone from i to j. */
  ghost predicate Monotone(a: Axis, lo: int, hi: int)
  {
    forall i, j :: lo <= i <= j <= hi ==> a.ToGraph(i) <= a.ToGraph(j)
  }

  /** Fractions with positive denominators have the order of their cross products. */
  lemma QuotientsOrdered(n: int, h: int, n': int, h': int)
    requires n >= 0 && h > 0 && n' >= 0 && h' > 0 && n * h' <= n' * h
    ensures 0 <= n / h <= n' / h'
  {
    var q := n / h;
    DivBracket(n, h, 0);
    QuotientBounds(n, h);
    MulMonotone(q * h, n, h');
    assert (q * h') * h == (q * h) * h' <= n' * h;
    if q * h' > n' { MulMonotone(n' + 1, q * h', h); }
    DivBracket(n', h', q);
  }

  /** One side of the focus: 100*dist*p1 / (p1*scaling - p2*dist) grows with dist. */
  lemma SideGrows(p1: int, p2: int, s: int, d: int, e: int)
    requires p1 > 0 && s > 0 && 0 <= d <= e
    requires -p2 * d + p1 * s > 0 && -p2 * e + p1 * s > 0
    ensures 0 <= TruncDiv(100 * d * p1, -p2 * d + p1 * s) <= TruncDiv(100 * e * p1, -p2 * e + p1 * s)
  {
    MulMonotone(0, d, p1);
    MulMonotone(0, e, p1);
    CrossProducts(p1, p2, s, d, e);
    QuotientsOrdered(100 * d * p1, -p2 * d + p1 * s, 100 * e * p1, -p2 * e + p1 * s);
  }

  lemma CrossProducts(p1: int, p2: int, s: int, d: int, e: int)
    requires p1 > 0 && s > 0 && 0 <= d <= e
    ensures (100 * d * p1) * (-p2 * e + p1 * s) <= (100 * e * p1) * (-p2 * d + p1 * s)
  {
    var c := 100 * p1 * p1 * s;
    MulMonotone(0, p1, p1);
    MulMonotone(0, p1 * p1, s);
    MulMonotone(d, e, c);
    assert (100 * d * p1) * (-p2 * e + p1 * s) == -(100 * p1 * p2) * (d * e) + d * c;
    assert (100 * e * p1) * (-p2 * d + p1 * s) == -(100 * p1 * p2) * (d * e) + e * c;
  }

  /** The map is monotone wherever the denominator is positive. */
  lemma MonotoneWherePositive(a: Axis, i: int, j: int)
    requires a.rp1 > 0 && a.lp1 > 0 && a.scaling > 0 && i <= j
    requires a.Denominator(i) > 0 && a.Denominator(j) > 0
    ensures a.ToGraph(i) <= a.ToGraph(j)
    ensures i <= a.sfocus ==> a.ToGraph(i) <= a.gfocus
    ensures j > a.sfocus ==> a.gfocus <= a.ToGraph(j)
  {
    if i > a.sfocus {
      SideGrows(a.rp1, a.rp2, a.scaling, i - a.sfocus, j - a.sfocus);
    } else if j <= a.sfocus {
      SideGrows(a.lp1, a.lp2, a.scaling, a.sfocus - j, a.sfocus - i);
    } else {
      SideGrows(a.lp1, a.lp2, a.scaling, a.sfocus - i, a.sfocus - i);
      SideGrows(a.rp1, a.rp2, a.scaling, j - a.sfocus, j - a.sfocus);
    }
  }

  /** One side of the focus: pixels are 100/s apart in the graph, or further if p2 is positive. */
  lemma SideScale(p1: int, p2: int, s: int, d: int)
    requires p1 > 0 && s > 0 && d >= 0 && -p2 * d + p1 * s > 0
    ensures p2 >= 0 ==> 100 * d / s <= TruncDiv(100 * d * p1, -p2 * d + p1 * s)
    ensures p2 <= 0 ==> TruncDiv(100 * d * p1, -p2 * d + p1 * s) <= 100 * d / s
  {
    var n, h := 100 * d * p1, -p2 * d + p1 * s;
    MulMonotone(0, d, p1);
    assert n * s == (100 * d) * (p1 * s) && (100 * d) * h == (100 * d) * (p1 * s) - 100 * (p2 * d) * d;
    if p2 >= 0 {
      MulMonotone(0, p2, d);
      MulMonotone(0, p2 * d, d);
      QuotientsOrdered(100 * d, s, n, h);
    }
    if p2 <= 0 {
      MulMonotone(p2, 0, d);
      MulMonotone(p2 * d, 0, d);
      QuotientsOrdered(n, h, 100 * d, s);
    }
  }

  /** The focus is shown in its place and in the given scale: towards a border the graph is
      compressed if it is larger than the screen in this scale (the second parameter of the side
      is positive), and stretched if it is smaller. */
  lemma FocusInScale(a: Axis, x: int)
    requires a.rp1 > 0 && a.lp1 > 0 && a.scaling > 0 && a.Denominator(x) > 0
    ensures x == a.sfocus ==> a.ToGraph(x) == a.gfocus
    ensures x > a.sfocus && a.rp2 >= 0 ==> a.ToGraph(x) >= a.gfocus + 100 * (x - a.sfocus) / a.scaling
    ensures x > a.sfocus && a.rp2 <= 0 ==> a.ToGraph(x) <= a.gfocus + 100 * (x - a.sfocus) / a.scaling
    ensures x < a.sfocus && a.lp2 >= 0 ==> a.ToGraph(x) <= a.gfocus - 100 * (a.sfocus - x) / a.scaling
    ensures x < a.sfocus && a.lp2 <= 0 ==> a.ToGraph(x) >= a.gfocus - 100 * (a.sfocus - x) / a.scaling
  {
    hide TruncDiv;
    if x > a.sfocus {
      SideScale(a.rp1, a.rp2, a.scaling, x - a.sfocus);
    } else {
      SideScale(a.lp1, a.lp2, a.scaling, a.sfocus - x);
      ZeroTrunc(a.lp1 * a.scaling, a.lp1);
    }
  }

  lemma ZeroTrunc(d: int, p: int)
    ensures d > 0 ==> TruncDiv(100 * 0 * p, -0 + d) == 0
  {
  }

  // ---------- with the parameters that calc_cscf_parameters sets ----------

  /** On one side, with extents `w` on the screen and `b` in the graph. */
  lemma SidePositive(w: int, b: int, s: int, dist: int)
    requires 0 <= dist <= w && b >= 0 && s > 0
    ensures NonZero(w * b) > 0
    ensures -NonZero(s * b - 100 * w) * dist + NonZero(w * b) * s > 0
  {
    MulMonotone(0, w, b);
    MulMonotone(0, w, dist);
    if w > 0 && b > 0 {
      MulMonotone(1, w, b);
      MulMonotone(1, s, b);
      MulMonotone(1, w, w);
      assert w * b * s == w * (s * b);
      if s * b != 100 * w { ExactPositive(w, s * b, dist); }
    }
  }

  lemma ExactPositive(w: int, p: int, dist: int)
    requires 0 <= dist <= w && w > 0 && p > 0
    ensures -(p - 100 * w) * dist + w * p > 0
  {
    assert -(p - 100 * w) * dist + w * p == (w - dist) * p + 100 * (w * dist);
    MulMonotone(0, w, dist);
    if dist < w { MulMonotone(1, w - dist, p); } else { MulMonotone(1, w, w); }
  }

  lemma DivUnique(n: int, h: int, b: int, r: int)
    requires b >= 0 && r >= 0 && h > 0 && n == b * h + r
    ensures n >= 0 && (n / h == b <==> r < h)
  {
    MulMonotone(0, b, h);
    DivBracket(n, h, b);
    QuotientBounds(n, h);
    if r < h {
      if n / h >= b + 1 { MulMonotone(b + 1, n / h, h); }
    } else {
      DivBracket(n, h, b + 1);
    }
    assert (b + 1) * h == b * h + h;
  }

  /** n / h for h = k*w and n = b*(k+1)*w. */
  lemma AlmostExact(b: int, k: int, w: int)
    requires b >= 0 && k > 0 && w > 0
    ensures b * (k + 1) * w >= 0 && k * w > 0
    ensures b * (k + 1) * w / (k * w) == b <==> b < k
  {
    MulMonotone(1, k, w);
    MulMonotone(0, b, w);
    assert b * (k + 1) * w == b * (k * w) + b * w;
    DivUnique(b * (k + 1) * w, k * w, b, b * w);
    if b < k { MulMonotone(b + 1, k, w); } else { MulMonotone(k, b, w); }
  }

  /** The farthest point on one side: exact, but for parameters that were zero. */
  lemma SideEdge(w: int, b: int, s: int)
    requires w > 0 && b >= 0 && s > 0
    ensures var help := -NonZero(s * b - 100 * w) * w + NonZero(w * b) * s;
      help != 0 && (TruncDiv(100 * w * NonZero(w * b), help) == b <==> s * b != 100 * w || b < 100 * w - 1)
  {
    MulMonotone(1, w, w);
    if b == 0 {
      assert -(s * b - 100 * w) * w + 1 * s == 100 * (w * w) + s;
      DivUnique(100 * w, 100 * (w * w) + s, 0, 100 * w);
    } else if s * b != 100 * w {
      MulMonotone(1, b, w);
      ExactEdge(w, b, s);
    } else {
      MulMonotone(1, b, w);
      RoundedEdge(w, b, s);
    }
  }

  lemma ExactEdge(w: int, b: int, s: int)
    requires w > 0 && b > 0 && s > 0
    ensures var help := -(s * b - 100 * w) * w + w * b * s;
      help > 0 && TruncDiv(100 * w * (w * b), help) == b
  {
    MulMonotone(1, w, w);
    assert w * b * s == w * (s * b);
    assert -(s * b - 100 * w) * w == -(w * (s * b)) + 100 * (w * w);
    assert 100 * w * (w * b) == b * (100 * (w * w)) + 0;
    DivUnique(100 * w * (w * b), 100 * (w * w), b, 0);
  }

  lemma RoundedEdge(w: int, b: int, s: int)
    requires w > 0 && b > 0 && s > 0 && s * b == 100 * w
    ensures var help := -1 * w + w * b * s;
      help > 0 && (TruncDiv(100 * w * (w * b), help) == b <==> b < 100 * w - 1)
  {
    var k := 100 * w - 1;
    assert w * b * s == w * (s * b) == w * (100 * w);
    assert k * w == w * (100 * w) - w;
    assert 100 * w * (w * b) == b * (k + 1) * w;
    AlmostExact(b, k, w);
  }

  /** On the whole screen the denominator is positive, so the map is monotone there. */
  lemma ScreenIsMonotone(a: Axis)
    requires a.Proper()
    ensures Monotone(WithParameters(a), a.smin, a.smax)
    ensures forall i :: a.OnScreen(i) ==> WithParameters(a).Denominator(i) > 0
  {
    var p := WithParameters(a);
    forall i | a.OnScreen(i) ensures p.Denominator(i) > 0 && p.rp1 > 0 && p.lp1 > 0 {
      SidePositive(a.smax - a.sfocus, a.gmax - a.gfocus, a.scaling, if i > a.sfocus then i - a.sfocus else 0);
      SidePositive(a.sfocus - a.smin, a.gfocus - a.gmin, a.scaling, if i > a.sfocus then 0 else a.sfocus - i);
    }
    forall i, j | a.smin <= i <= j <= a.smax ensures p.ToGraph(i) <= p.ToGraph(j) {
      assert a.OnScreen(i) && a.OnScreen(j);
      MonotoneWherePositive(p, i, j);
    }
  }

  /** The right edge of the screen shows the right edge of the graph, exactly if the second
      parameter was not zero or the graph is not too wide for its replacement. */
  lemma RightEdge(a: Axis)
    requires a.Proper() && a.sfocus < a.smax
    ensures WithParameters(a).ToGraph(a.smax) == a.gmax <==>
            a.scaling * (a.gmax - a.gfocus) != 100 * (a.smax - a.sfocus)
                || a.gmax - a.gfocus < 100 * (a.smax - a.sfocus) - 1
  {
    SideEdge(a.smax - a.sfocus, a.gmax - a.gfocus, a.scaling);
  }

  lemma LeftEdge(a: Axis)
    requires a.Proper() && a.smin < a.sfocus
    ensures WithParameters(a).ToGraph(a.smin) == a.gmin <==>
            a.scaling * (a.gfocus - a.gmin) != 100 * (a.sfocus - a.smin)
                || a.gfocus - a.gmin < 100 * (a.sfocus - a.smin) - 1
  {
    SideEdge(a.sfocus - a.smin, a.gfocus - a.gmin, a.scaling);
  }

  // ---------- normalize_fe_parameters ----------

  /** (long)(k * p / q + 0.5). */
  function Rounded(k: int, p: int, q: int): int
    requires q > 0
  {
    (2 * k * p + q) / (2 * q)
  }

  /** The ratio of p to q with three digits, and at most 1000. */
  function Ratio(p: int, q: int): (int, int)
    requires 0 < q <= p
  {
    if p < 10 * q then (Rounded(100, p, q), 100)
    else if p < 100 * q then (Rounded(10, p, q), 10)
    else if p > 1000 * q then (1000, 1)
    else (Rounded(1, p, q), 1)
  }

  /** normalize_fe_parameters for one side of the focus. */
  function NormalizedSide(p1: int, p2: int): (int, int)
    requires p1 > 0 && p2 != 0
  {
    var s := if p2 < 0 then -1 else 1;
    if p1 > p2 * s then
      var r := Ratio(p1, p2 * s);
      (r.0, s * r.1)
    else
      var r := Ratio(p2 * s, p1);
      (r.1, s * r.0)
  }

  /** normalize_fe_parameters for one axis. */
  function Normalized(a: Axis): Axis
    requires a.rp1 > 0 && a.rp2 != 0 && a.lp1 > 0 && a.lp2 != 0
  {
    var (rp1, rp2) := NormalizedSide(a.rp1, a.rp2);
    var (lp1, lp2) := NormalizedSide(a.lp1, a.lp2);
    a.(rp1 := rp1, rp2 := rp2, lp1 := lp1, lp2 := lp2)
  }

  lemma RoundedClose(k: int, p: int, q: int)
    requires q > 0
    ensures 2 * Rounded(k, p, q) * q - q <= 2 * k * p < 2 * Rounded(k, p, q) * q + q
  {
    var x, n := 2 * k * p + q, Rounded(k, p, q);
    assert x == (2 * q) * n + x % (2 * q);
    assert (2 * q) * n == 2 * n * q;
  }

  lemma RatioRounds(k: int, p: int, q: int)
    requires 0 < q <= p && k > 0 && k * p <= 1000 * q
    ensures k <= Rounded(k, p, q) <= 1000
    ensures -q <= 2 * (Rounded(k, p, q) * q - k * p) <= q
  {
    var n := Rounded(k, p, q);
    RoundedClose(k, p, q);
    MulMonotone(q, p, k);
    if n < k { MulMonotone(n + 1, k, q); }
    if n > 1000 { MulMonotone(1001, n, q); }
  }

  /** The result has the precision of half a percent, up to the limit of 1000. */
  lemma RatioClose(p: int, q: int)
    requires 0 < q <= p
    ensures var (n, m) := Ratio(p, q);
      && 1 <= m <= n <= 1000 && m * p >= 100 * q
      && 2 * (n * q - m * p) <= q
      && (p <= 1000 * q ==> 2 * (n * q - m * p) >= -q)
  {
    if p < 10 * q {
      RatioRounds(100, p, q);
    } else if p < 100 * q {
      RatioRounds(10, p, q);
    } else if p <= 1000 * q {
      RatioRounds(1, p, q);
    }
  }

  /** normalize_fe_parameters keeps the sign, makes both parameters small, and keeps their ratio
      up to half a percent as long as it is between 1/1000 and 1000. */
  lemma NormalizedRatio(p1: int, p2: int)
    requires p1 > 0 && p2 != 0
    ensures var (n1, n2) := NormalizedSide(p1, p2);
      && 1 <= n1 <= 1000 && 1 <= Abs(n2) <= 1000 && (n2 > 0 <==> p2 > 0)
      && (p1 <= 1000 * Abs(p2) && Abs(p2) <= 1000 * p1 ==>
            200 * Abs(n1 * Abs(p2) - Abs(n2) * p1) <= if p1 > Abs(p2) then Abs(n2) * p1 else n1 * Abs(p2))
  {
    if p1 > Abs(p2) { RatioClose(p1, Abs(p2)); } else { RatioClose(Abs(p2), p1); }
  }

  // ---------- where the normalised map is monotone ----------

  /** What the caller can check: at both edges of the screen the denominator is positive, or the
      value that is given for a zero denominator has the right order. */
  predicate EdgesFit(a: Axis)
  {
    && (a.Denominator(a.smax) > 0
        || (a.Denominator(a.smax) == 0 && a.smax > a.sfocus && a.ToGraph(a.smax - 1) <= COORD_HASHSIZE))
    && (a.Denominator(a.smin) > 0
        || (a.Denominator(a.smin) == 0 && a.smin < a.sfocus && COORD_HASHSIZE <= a.ToGraph(a.smin + 1)))
  }

  /** One side, with the extent w on the screen: behind a pole, the edge is shown on the wrong
      side of the focus. */
  predicate PoleShows(p1: int, p2: int, s: int, w: int) {
    -(-p2 * w + p1 * s) <= 100 * w * p1
  }

  lemma NormalizedPoleShows(w: int, b: int, s: int)
    requires w >= 0 && b >= 0 && s > 0
    ensures NonZero(w * b) > 0
    ensures var n := NormalizedSide(NonZero(w * b), NonZero(s * b - 100 * w)); PoleShows(n.0, n.1, s, w)
  {
    MulMonotone(0, w, b);
    var p1, p2 := NonZero(w * b), NonZero(s * b - 100 * w);
    NormalizedClose(p1, p2);
    if w > 0 { ParametersFit(w, b, s); }
    var n := NormalizedSide(p1, p2);
    hide NonZero, NormalizedSide;
    SmallPoleShows(p1, p2, s, w, n.0, n.1);
  }

  lemma NormalizedClose(p1: int, p2: int)
    requires p1 > 0 && p2 != 0
    ensures var n := NormalizedSide(p1, p2); n.0 > 0 && (n.1 <= n.0 || 2 * (n.1 * p1 - n.0 * p2) <= p1)
  {
    if p1 > Abs(p2) { RatioClose(p1, Abs(p2)); } else { RatioClose(Abs(p2), p1); }
  }

  lemma SmallPoleShows(p1: int, p2: int, s: int, w: int, n1: int, n2: int)
    requires p1 > 0 && w >= 0 && n1 > 0 && s > 0 && (w > 0 ==> p2 * w <= s * p1)
    requires n2 <= n1 || 2 * (n2 * p1 - n1 * p2) <= p1
    ensures PoleShows(n1, n2, s, w)
  {
    MulMonotone(1, n1, s);
    MulMonotone(0, w, n1);
    if n2 <= n1 {
      MulMonotone(n2, n1, w);
    } else if w > 0 {
      PoleStays(p1, p2, s, w, n1, n2);
    }
  }

  lemma ParametersFit(w: int, b: int, s: int)
    requires w > 0 && b >= 0 && s > 0
    ensures NonZero(s * b - 100 * w) * w <= s * NonZero(w * b)
  {
    if b == 0 {
      MulMonotone(1, w, w);
    } else {
      MulMonotone(1, w, b);
      MulMonotone(1, b, w);
      MulMonotone(1, s, w * b);
      assert (s * b - 100 * w) * w == s * (w * b) - 100 * (w * w);
      MulMonotone(0, w, w);
    }
  }

  lemma PoleStays(p1: int, p2: int, s: int, w: int, n1: int, n2: int)
    requires p1 > 0 && w > 0 && n1 > 0 && s > 0 && p2 * w <= s * p1 && 2 * (n2 * p1 - n1 * p2) <= p1
    ensures PoleShows(n1, n2, s, w)
  {
    TimesExtent(p1, p2, w, n1, n2);
    TimesScale(p1, p2 * w, s, n1);
    Halved(n2 * w, n1 * s, n1 * (p2 * w), p1, w);
    ShowsIfClose(n1, n2, s, w);
  }

  lemma TimesExtent(p1: int, p2: int, w: int, n1: int, n2: int)
    requires 2 * (n2 * p1 - n1 * p2) <= p1 && w > 0
    ensures 2 * (n2 * w * p1 - n1 * (p2 * w)) <= w * p1
  {
    MulMonotone(2 * (n2 * p1 - n1 * p2), p1, w);
    assert n2 * p1 * w == n2 * w * p1;
    assert n1 * p2 * w == n1 * (p2 * w);
  }

  lemma TimesScale(p1: int, x: int, s: int, n1: int)
    requires x <= s * p1 && n1 > 0
    ensures n1 * x <= n1 * s * p1
  {
    MulMonotone(x, s * p1, n1);
    assert s * p1 * n1 == n1 * s * p1;
  }

  lemma Halved(u: int, v: int, x: int, p: int, w: int)
    requires p > 0 && 2 * (u * p - x) <= w * p && x <= v * p
    ensures 2 * (u - v) <= w
  {
    if 2 * (u - v) >= w + 1 { MulMonotone(w + 1, 2 * (u - v), p); }
  }

  lemma ShowsIfClose(n1: int, n2: int, s: int, w: int)
    requires 2 * (n2 * w - n1 * s) <= w && w > 0 && n1 > 0
    ensures PoleShows(n1, n2, s, w)
  {
    MulMonotone(1, n1, w);
  }

  /** The parameters of the map are usable on both sides. */
  predicate Usable(a: Axis) {
    && a.smin <= a.sfocus <= a.smax && a.rp1 > 0 && a.lp1 > 0 && a.scaling > 0
    && PoleShows(a.rp1, a.rp2, a.scaling, a.smax - a.sfocus)
    && PoleShows(a.lp1, a.lp2, a.scaling, a.sfocus - a.smin)
  }

  lemma FocusShown(a: Axis)
    requires Usable(a)
    ensures a.ToGraph(a.sfocus) == a.gfocus && a.Denominator(a.sfocus) > 0
  {
    MulMonotone(1, a.lp1, a.scaling);
    DivBracket(0, a.lp1 * a.scaling, 0);
  }

  /** Behind the pole the map gives values on the other side of the focus. */
  lemma BehindPole(p1: int, p2: int, s: int, w: int)
    requires PoleShows(p1, p2, s, w) && -p2 * w + p1 * s < 0
    ensures TruncDiv(100 * w * p1, -p2 * w + p1 * s) <= -1
  {
    DivBracket(100 * w * p1, -(-p2 * w + p1 * s), 1);
  }

  /** Between the edges the denominator is positive if it is not negative at the edges. */
  lemma DenominatorFalls(p1: int, p2: int, s: int, d: int, w: int)
    requires p1 > 0 && s > 0 && 0 <= d < w && -p2 * w + p1 * s >= 0
    ensures -p2 * d + p1 * s > 0
  {
    MulMonotone(1, p1, s);
    if p2 <= 0 { MulMonotone(0, d, -p2); } else { MulMonotone(d + 1, w, p2); }
  }

  lemma PositiveBetween(a: Axis, i: int)
    requires Usable(a) && a.smin <= i <= a.smax && a.Denominator(a.smin) >= 0 && a.Denominator(a.smax) >= 0
    requires i == a.smin ==> a.Denominator(i) != 0
    requires i == a.smax ==> a.Denominator(i) != 0
    ensures a.Denominator(i) > 0
  {
    MulMonotone(1, a.lp1, a.scaling);
    if a.sfocus < i < a.smax {
      DenominatorFalls(a.rp1, a.rp2, a.scaling, i - a.sfocus, a.smax - a.sfocus);
    } else if a.smin < i <= a.sfocus {
      DenominatorFalls(a.lp1, a.lp2, a.scaling, a.sfocus - i, a.sfocus - a.smin);
    }
  }

  /** The map is monotone on the screen exactly if the edges fit. */
  lemma MonotoneIffEdgesFit(a: Axis)
    requires Usable(a)
    ensures Monotone(a, a.smin, a.smax) <==> EdgesFit(a)
  {
    FocusShown(a);
    if EdgesFit(a) {
      forall i, j | a.smin <= i <= j <= a.smax ensures a.ToGraph(i) <= a.ToGraph(j) { OrderedWhereEdgesFit(a, i, j); }
    }
    if Monotone(a, a.smin, a.smax) { EdgesFitIfMonotone(a); }
  }

  lemma EdgesFitIfMonotone(a: Axis)
    requires Usable(a) && Monotone(a, a.smin, a.smax)
    ensures EdgesFit(a)
  {
    FocusShown(a);
    assert a.ToGraph(a.smin) <= a.ToGraph(a.sfocus) <= a.ToGraph(a.smax);
    if a.Denominator(a.smax) < 0 { BehindPole(a.rp1, a.rp2, a.scaling, a.smax - a.sfocus); }
    if a.Denominator(a.smin) < 0 { BehindPole(a.lp1, a.lp2, a.scaling, a.sfocus - a.smin); }
    if a.Denominator(a.smax) == 0 { assert a.ToGraph(a.smax - 1) <= a.ToGraph(a.smax) == COORD_HASHSIZE; }
    if a.Denominator(a.smin) == 0 { assert COORD_HASHSIZE == a.ToGraph(a.smin) <= a.ToGraph(a.smin + 1); }
  }

  lemma OrderedWhereEdgesFit(a: Axis, i: int, j: int)
    requires Usable(a) && EdgesFit(a) && a.smin <= i <= j <= a.smax
    ensures a.ToGraph(i) <= a.ToGraph(j)
  {
    if i < j {
      var i' := if a.Denominator(i) == 0 then i + 1 else i;
      var j' := if a.Denominator(j) == 0 then j - 1 else j;
      OnlyEdgesVanish(a, i);
      OnlyEdgesVanish(a, j);
      if i' <= j' {
        PositiveBetween(a, i');
        PositiveBetween(a, j');
        MonotoneWherePositive(a, i', j');
      }
    }
  }

  lemma OnlyEdgesVanish(a: Axis, i: int)
    requires Usable(a) && EdgesFit(a) && a.smin <= i <= a.smax
    ensures a.Denominator(i) == 0 ==> a.ToGraph(i) == COORD_HASHSIZE && (i == a.smin || i == a.smax)
    ensures a.Denominator(i) >= 0
  {
    if a.Denominator(i) != 0 || a.smin < i < a.smax { PositiveBetween(a, i); }
  }

  /** So the parameters that calc_cscf_parameters works with give a monotone map exactly if the
      edges fit. */
  lemma NormalizedIsMonotoneIff(a: Axis)
    requires a.Proper()
    ensures var p := WithParameters(a); p.rp1 > 0 && p.lp1 > 0 && p.rp2 != 0 && p.lp2 != 0
    ensures var n := Normalized(WithParameters(a)); Monotone(n, a.smin, a.smax) <==> EdgesFit(n)
  {
    var p := WithParameters(a);
    NormalizedPoleShows(a.smax - a.sfocus, a.gmax - a.gfocus, a.scaling);
    NormalizedPoleShows(a.sfocus - a.smin, a.gfocus - a.gmin, a.scaling);
    NormalizedClose(p.rp1, p.rp2);
    NormalizedClose(p.lp1, p.lp2);
    hide NormalizedSide, PoleShows, NonZero, EdgesFit, Monotone;
    MonotoneIffEdgesFit(Normalized(p));
  }

  /** The edges need not fit: a graph of width 3000, magnified 50 times, on a screen that
      extends 397 to the right of the focus. The second parameter is rounded up, and the right
      edge is shown far to the left of the focus. */
  lemma RoundingMisplacesEdge()
    ensures var a := Axis(0, 0, 0, 397, 0, 3000, 5000, 0, 0, 0, 0);
      && a.Proper()
      && WithParameters(a) == a.(rp1 := 1191000, rp2 := 14960300, lp1 := 1, lp2 := 1)
      && Normalized(WithParameters(a)) == a.(rp1 := 10, rp2 := 126, lp1 := 100, lp2 := 100)
      && WithParameters(a).ToGraph(397) == 3000 && Normalized(WithParameters(a)).ToGraph(397) == -18045
  {
    var a := Axis(0, 0, 0, 397, 0, 3000, 5000, 0, 0, 0, 0);
    assert Ratio(14960300, 1191000) == (126, 10);
    assert NormalizedSide(1191000, 14960300) == (10, 126);
  }
}
