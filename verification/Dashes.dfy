/** Dashed and dotted lines (drawlib.c, the offset tables, gs_sodashedline to gs_swdottedline). */
module Dashes {
  import opened Clipping
  import opened LineClipping
  import opened SolidLines

  /** The table xoffset, whose equal neighbours are taken together. */
  function XOffset(h: int): (r: int)
    requires 0 <= h <= 50
    ensures 11 <= r <= 15
  {
    if h <= 13 then 15 else if h <= 24 then 14 else if h <= 33 then 13 else if h <= 41 then 12 else 11
  }

  /** The table yoffset. */
  function YOffset(h: int): (r: int)
    requires 0 <= h <= 50
    ensures 0 <= r <= XOffset(h)
  {
    if h <= 1 then 0 else if h <= 4 then 1 else if h <= 8 then 2 else if h <= 11 then 3
    else if h <= 15 then 4 else if h <= 19 then 5 else if h <= 23 then 6 else if h <= 28 then 7
    else if h <= 34 then 8 else if h <= 40 then 9 else if h <= 49 then 10 else 11
  }

  /** The tables hold vectors of about 15 pixels: that of entry h is 14 to 16 pixels long, and
      its slope is h/50 but for less than one pixel. */
  lemma OffsetTables(h: int)
    requires 0 <= h <= 50
    ensures var x, y := XOffset(h), YOffset(h);
      14 * 14 <= x * x + y * y <= 16 * 16 && -50 < 50 * y - h * x < 50
  {
  }

  /** The global scaling factor. */
  datatype Scale = Scale(stretch: int, shrink: int)
  {
    predicate Positive() {
      stretch > 0 && shrink > 0
    }
  }

  /** A dash: a line from (xx1,yy1) to (xx2,yy2). */
  datatype Dash = Dash(xx1: int, yy1: int, xx2: int, yy2: int)

  /** A line to be dashed: its ends, the offsets of a dash and whether it is steep. */
  datatype Dashing = Dashing(x1: int, y1: int, x2: int, y2: int, xof: int, yof: int, steep: bool)
  {
    function Sx(): int { if x1 > x2 then -1 else 1 }
    function Sy(): int { if y1 > y2 then -1 else 1 }
    function Width(): (u: int) ensures u >= 0 { Abs(x2 - x1) }
    function Height(): (v: int) ensures v >= 0 { Abs(y2 - y1) }

    /** The step along the longer side, and the length of this side. */
    function D(): int { if steep then yof else xof }
    function Major(): int { if steep then Height() else Width() }

    ghost predicate Valid()
    {
      xof >= 0 && yof >= 0 && D() > 0 && Major() > 0 && Width() <= Major() && Height() <= Major()
    }

    /** How far step i has got in either direction. */
    ghost function FarX(i: nat): int
      requires Valid()
    {
      if steep then i * D() * Width() / Height() else i * D()
    }

    ghost function FarY(i: nat): int
      requires Valid()
    {
      if steep then i * D() else i * D() * Height() / Width()
    }

    /** The dash of step i: it starts at the point that has been got to, or one offset before
        the end, and does not go beyond the end. */
    ghost function At(i: nat): Dash
      requires Valid()
    {
      var (px, qx) := Bar(FarX(i), Width(), xof);
      var (py, qy) := Bar(FarY(i), Height(), yof);
      Dash(x1 + Sx() * px, y1 + Sy() * py, x1 + Sx() * qx, y1 + Sy() * qy)
    }

    /** The dashes of the first n steps; i grows by 2 from step to step. */
    ghost function First(n: nat): seq<Dash>
      requires Valid()
    {
      if n == 0 then [] else First(n - 1) + [At(2 * (n - 1))]
    }

    /** The condition of the loops: more than an offset is missing from (xx2,yy2) to the end. */
    predicate More(xx2: int, yy2: int)
    {
      || (if x1 > x2 then xx2 - xof > x2 else xx2 + xof < x2)
      || (if y1 > y2 then yy2 - yof > y2 else yy2 + yof < y2)
    }
  }

  function Bar(far: int, extent: int, of: int): (r: (int, int))
  {
    var p := if far > extent then extent else far;
    if p + of > extent then (extent - of, extent) else (p, p + of)
  }

  // ---------- the loops end ----------

  lemma DivExact(i: nat, d: int, ext: int, minor: int)
    requires d > 0 && ext > 0 && 0 <= minor
    ensures i * d * minor >= 0 && i * d * minor / ext >= 0
    ensures i * d >= ext ==> i * d * minor / ext >= minor
  {
    MulMonotone(0, i, d);
    MulMonotone(0, i * d, minor);
    DivBracket(i * d * minor, ext, 0);
    if i * d >= ext {
      MulMonotone(ext, i * d, minor);
      DivBracket(i * d * minor, ext, minor);
    }
  }

  lemma FarBounds(l: Dashing, i: nat)
    requires l.Valid()
    ensures l.FarX(i) >= 0 && l.FarY(i) >= 0
    ensures i * l.D() >= l.Major() ==> l.FarX(i) >= l.Width() && l.FarY(i) >= l.Height()
  {
    MulMonotone(0, i, l.D());
    if l.steep { DivExact(i, l.D(), l.Height(), l.Width()); } else { DivExact(i, l.D(), l.Width(), l.Height()); }
  }

  /** Once i*d has reached the longer extent, both conditions of the loops are false. */
  lemma LoopsEnd(l: Dashing, i: nat)
    requires l.Valid() && i * l.D() >= l.Major()
    ensures !l.More(l.At(i).xx2, l.At(i).yy2)
  {
    FarBounds(l, i);
  }

  /** Every dash runs in the direction of the line, does not go beyond the end of the line,
      and is one offset long in both directions. */
  lemma DashFits(l: Dashing, i: nat)
    requires l.Valid()
    ensures var k := l.At(i);
      && l.Sx() * (k.xx2 - k.xx1) == l.xof && l.Sy() * (k.yy2 - k.yy1) == l.yof
      && 0 <= l.Sx() * (k.xx2 - l.x1) <= l.Width() && 0 <= l.Sy() * (k.yy2 - l.y1) <= l.Height()
  {
    FarBounds(l, i);
    hide Dashing.FarX, Dashing.FarY;
  }

  // ---------- the loops ----------

  lemma TruncSigns(n: int, e: int)
    requires n >= 0 && e > 0
    ensures TruncDiv(n, e) == n / e >= 0 && TruncDiv(-n, e) == -(n / e)
    ensures TruncDiv(n, -e) == -(n / e) && TruncDiv(-n, -e) == n / e
  {
    DivBracket(n, e, 0);
    if n == 0 { assert 0 / e == 0; }
  }

  /** The truncated products of the source are the distances, with their signs. */
  lemma ScaledWithSign(p: int, m: int, e: int, sm: int, se: int)
    requires p >= 0 && m >= 0 && e > 0 && (sm == 1 || sm == -1) && (se == 1 || se == -1)
    ensures se * TruncDiv(p * (sm * m), se * e) == sm * (p * m / e)
  {
    MulMonotone(0, p, m);
    var n := p * m;
    TruncSigns(n, e);
    hide TruncDiv;
    assert p * (sm * m) == (if sm == 1 then n else -n) by {
      if sm == -1 { assert p * (-m) == -(p * m); }
    }
    assert se * e == if se == 1 then e else -e;
  }

  /** Where a dash begins before it is fitted to the end of the line: the assignments to xx1
      and yy1 at the beginning of the loop bodies. */
  method DashStart(l: Dashing, i: nat) returns (xx1: int, yy1: int)
    requires l.Valid()
    ensures xx1 == l.x1 + l.Sx() * l.FarX(i) && yy1 == l.y1 + l.Sy() * l.FarY(i)
  {
    var d, s1, s2 := l.D(), l.x2 - l.x1, l.y2 - l.y1;
    MulMonotone(0, i, d);
    assert s1 == l.Sx() * l.Width() && s2 == l.Sy() * l.Height();
    if l.steep {
      ScaledWithSign(i * d, l.Width(), l.Height(), l.Sx(), l.Sy());
      xx1 := l.x1 + l.Sy() * TruncDiv(i * d * s1, s2);
      yy1 := l.y1 + l.Sy() * (i * d);
    } else {
      ScaledWithSign(i * d, l.Height(), l.Width(), l.Sy(), l.Sx());
      xx1 := l.x1 + l.Sx() * (i * d);
      yy1 := l.y1 + l.Sx() * TruncDiv(i * d * s2, s1);
    }
  }

  /** The assignments of the loop bodies for one direction: zz1 is fitted to the end z2 of
      the line, and zz2 is one offset further on. */
  method FitBar(z1: int, z2: int, of: int, start: int, ghost far: int) returns (zz1: int, zz2: int)
    requires start == if z1 > z2 then z1 - far else z1 + far
    ensures var (p, q) := Bar(far, Abs(z2 - z1), of);
      if z1 > z2 then zz1 == z1 - p && zz2 == z1 - q else zz1 == z1 + p && zz2 == z1 + q
  {
    zz1 := start;
    if z1 > z2 {
      if zz1 < z2 { zz1 := z2; }
      zz2 := zz1 - of;
      if zz2 < z2 { zz2, zz1 := z2, z2 + of; }
    } else {
      if zz1 > z2 { zz1 := z2; }
      zz2 := zz1 + of;
      if zz2 > z2 { zz2, zz1 := z2, z2 - of; }
    }
  }

  /** The dashes in order, up to the first one that comes within an offset of the end. */
  ghost predicate AllDashes(l: Dashing, dashes: seq<Dash>)
    requires l.Valid()
  {
    && dashes == l.First(|dashes|)
    && (if dashes == [] then !l.More(l.x1, l.y1)
        else l.More(l.x1, l.y1) && !l.More(l.At(2 * (|dashes| - 1)).xx2, l.At(2 * (|dashes| - 1)).yy2))
    && forall k :: 0 <= k < |dashes| - 1 ==> l.More(l.At(2 * k).xx2, l.At(2 * k).yy2)
  }

  /** The state of the loops: the last dash ends at (xx2,yy2). */
  ghost predicate DashState(l: Dashing, dashes: seq<Dash>, xx2: int, yy2: int)
    requires l.Valid()
  {
    && dashes == l.First(|dashes|)
    && (if dashes == [] then xx2 == l.x1 && yy2 == l.y1
        else l.More(l.x1, l.y1) && xx2 == l.At(2 * (|dashes| - 1)).xx2 && yy2 == l.At(2 * (|dashes| - 1)).yy2)
    && forall k :: 0 <= k < |dashes| - 1 ==> l.More(l.At(2 * k).xx2, l.At(2 * k).yy2)
  }

  lemma NextDash(l: Dashing, dashes: seq<Dash>, xx2: int, yy2: int, k: Dash)
    requires l.Valid() && DashState(l, dashes, xx2, yy2) && l.More(xx2, yy2) && k == l.At(2 * |dashes|)
    ensures DashState(l, dashes + [k], k.xx2, k.yy2)
  {
    hide Dashing.At, Dashing.More, Dashing.Valid;
  }

  /** The body of the loops, up to the call. */
  method DashAt(l: Dashing, i: nat) returns (k: Dash)
    requires l.Valid()
    ensures k == l.At(i)
  {
    hide Dashing.FarX, Dashing.FarY, Bar;
    var xx1, yy1 := DashStart(l, i);
    var xx2, yy2;
    xx1, xx2 := FitBar(l.x1, l.x2, l.xof, xx1, l.FarX(i));
    yy1, yy2 := FitBar(l.y1, l.y2, l.yof, yy1, l.FarY(i));
    k := Dash(xx1, yy1, xx2, yy2);
  }

  /** The loops of the dashed lines; the result are the calls of the function that draws
      solid lines. */
  method DashLoop(l: Dashing) returns (dashes: seq<Dash>)
    requires l.Valid()
    ensures AllDashes(l, dashes)
  {
    var i, xx2, yy2 := 0, l.x1, l.y1;
    dashes := [];
    hide Dashing.At, Dashing.More, Dashing.Valid;
    while l.More(xx2, yy2)
      invariant i == 2 * |dashes| && DashState(l, dashes, xx2, yy2)
      decreases l.Major() + 2 - i
    {
      if i > 0 { NotYetThere(l, i - 2); }
      var k := DashAt(l, i);
      NextDash(l, dashes, xx2, yy2, k);
      dashes, xx2, yy2 := dashes + [k], k.xx2, k.yy2;
      i := i + 2;
    }
  }

  lemma NotYetThere(l: Dashing, i: nat)
    requires l.Valid() && l.More(l.At(i).xx2, l.At(i).yy2)
    ensures i < l.Major()
  {
    if i >= l.Major() {
      MulMonotone(l.Major(), i, l.D());
      MulMonotone(1, l.D(), l.Major());
      LoopsEnd(l, i);
    }
  }

  // ---------- dots ----------

  /** The dot of step i, which is drawn as a line from (xx1,yy1) to itself. */
  ghost function DotAt(l: Dashing, i: nat): Dash
    requires l.Valid()
  {
    var x, y := l.x1 + l.Sx() * Min(l.FarX(i), l.Width()), l.y1 + l.Sy() * Min(l.FarY(i), l.Height());
    Dash(x, y, x, y)
  }

  function Min(a: int, b: int): int { if a > b then b else a }

  ghost function FirstDots(l: Dashing, n: nat): seq<Dash>
    requires l.Valid()
  {
    if n == 0 then [] else FirstDots(l, n - 1) + [DotAt(l, 2 * (n - 1))]
  }

  lemma DotsEnd(l: Dashing, i: nat)
    requires l.Valid() && i * l.D() >= l.Major()
    ensures DotAt(l, i) == Dash(l.x2, l.y2, l.x2, l.y2)
  {
    FarBounds(l, i);
  }

  /** The assignment to one coordinate that fits a dot to the end z2 of the line. */
  method FitDot(z1: int, z2: int, start: int, ghost far: int) returns (zz1: int)
    requires start == if z1 > z2 then z1 - far else z1 + far
    ensures zz1 == if z1 > z2 then z1 - Min(far, Abs(z2 - z1)) else z1 + Min(far, Abs(z2 - z1))
  {
    zz1 := start;
    if z1 > z2 {
      if zz1 < z2 { zz1 := z2; }
    } else {
      if zz1 > z2 { zz1 := z2; }
    }
  }

  /** The dots in order, up to the first one that comes within an offset of the end. */
  ghost predicate AllDots(l: Dashing, dots: seq<Dash>)
    requires l.Valid()
  {
    && dots == FirstDots(l, |dots|)
    && (if dots == [] then !l.More(l.x1, l.y1)
        else l.More(l.x1, l.y1) && !l.More(DotAt(l, 2 * (|dots| - 1)).xx1, DotAt(l, 2 * (|dots| - 1)).yy1))
    && forall k :: 0 <= k < |dots| - 1 ==> l.More(DotAt(l, 2 * k).xx1, DotAt(l, 2 * k).yy1)
  }

  /** The state of the loops: the last dot is at (xx1,yy1). */
  ghost predicate DotState(l: Dashing, dots: seq<Dash>, xx1: int, yy1: int)
    requires l.Valid()
  {
    && dots == FirstDots(l, |dots|)
    && (if dots == [] then xx1 == l.x1 && yy1 == l.y1
        else l.More(l.x1, l.y1) && xx1 == DotAt(l, 2 * (|dots| - 1)).xx1 && yy1 == DotAt(l, 2 * (|dots| - 1)).yy1)
    && forall k :: 0 <= k < |dots| - 1 ==> l.More(DotAt(l, 2 * k).xx1, DotAt(l, 2 * k).yy1)
  }

  lemma NextDot(l: Dashing, dots: seq<Dash>, xx1: int, yy1: int, k: Dash)
    requires l.Valid() && DotState(l, dots, xx1, yy1) && l.More(xx1, yy1) && k == DotAt(l, 2 * |dots|)
    ensures DotState(l, dots + [k], k.xx1, k.yy1)
  {
    hide DotAt, Dashing.More, Dashing.Valid;
  }

  /** The body of the loops, up to the call. */
  method DotOf(l: Dashing, i: nat) returns (k: Dash)
    requires l.Valid()
    ensures k == DotAt(l, i)
  {
    hide Dashing.FarX, Dashing.FarY, Min;
    var xx1, yy1 := DashStart(l, i);
    xx1 := FitDot(l.x1, l.x2, xx1, l.FarX(i));
    yy1 := FitDot(l.y1, l.y2, yy1, l.FarY(i));
    k := Dash(xx1, yy1, xx1, yy1);
  }

  /** The loops of the dotted lines. */
  method DotLoop(l: Dashing) returns (dots: seq<Dash>)
    requires l.Valid()
    ensures AllDots(l, dots)
  {
    var i, xx1, yy1 := 0, l.x1, l.y1;
    dots := [];
    hide DotAt, Dashing.More, Dashing.Valid;
    while l.More(xx1, yy1)
      invariant i == 2 * |dots| && DotState(l, dots, xx1, yy1)
      decreases l.Major() + 2 - i
    {
      if i > 0 { DotNotYetThere(l, i - 2); }
      var k := DotOf(l, i);
      NextDot(l, dots, xx1, yy1, k);
      dots, xx1, yy1 := dots + [k], k.xx1, k.yy1;
      i := i + 2;
    }
  }

  lemma DotNotYetThere(l: Dashing, i: nat)
    requires l.Valid() && l.More(DotAt(l, i).xx1, DotAt(l, i).yy1)
    ensures i < l.Major()
  {
    if i >= l.Major() {
      MulMonotone(l.Major(), i, l.D());
      MulMonotone(1, l.D(), l.Major());
      DotsEnd(l, i);
    }
  }

  // ---------- the eight functions ----------

  /** r is the offset o of the tables, a quarter of it for dots, in the given scale; both are
      rounded down. */
  predicate IsScaled(o: int, dotted: bool, g: Scale, r: int)
  {
    var q := if dotted then o / 4 else o;
    r * g.shrink <= q * g.stretch < (r + 1) * g.shrink
  }

  /** The offsets of the table entry for the slope of a line in fiftieths, or one pixel if they
      vanish: `major` is the length of the line along its longer side. */
  ghost predicate Offers(minor: int, major: int, g: Scale, dotted: bool, along: int, across: int)
    requires g.Positive()
  {
    && 0 <= minor <= major && major > 0 && 0 <= minor * 50 / major <= 50
    && var h := minor * 50 / major;
    if IsScaled(XOffset(h), dotted, g, 0) then along == across == 1
    else IsScaled(XOffset(h), dotted, g, along) && IsScaled(YOffset(h), dotted, g, across)
  }

  /** l has these offsets, the longer one along its longer side. */
  ghost predicate HasOffsets(l: Dashing, g: Scale, dotted: bool)
    requires g.Positive()
  {
    Offers(if l.steep then l.Width() else l.Height(), l.Major(), g, dotted, l.D(), if l.steep then l.xof else l.yof)
  }

  /** The division of the source gives this offset, and it is the only one. */
  lemma ScaledOffset(o: int, dotted: bool, g: Scale, r: int)
    requires o >= 0 && g.Positive() && r == (if dotted then o * 3 / 12 else o) * g.stretch / g.shrink
    ensures r >= 0 && IsScaled(o, dotted, g, r)
    ensures IsScaled(o, dotted, g, 0) <==> r == 0
  {
    assert o * 3 / 12 == o / 4;
    var q := if dotted then o / 4 else o;
    MulMonotone(0, q, g.stretch);
    DivBracket(q * g.stretch, g.shrink, 0);
    DivBracket(q * g.stretch, g.shrink, 1);
    QuotientBounds(q * g.stretch, g.shrink);
  }

  /** The computation of the offsets. */
  lemma OffsetsOffered(minor: int, major: int, g: Scale, dotted: bool, p: int, q: int)
    requires 0 <= minor <= major && major > 0 && g.Positive() && 0 <= minor * 50 / major <= 50
    requires var h := minor * 50 / major;
      && p == (if dotted then XOffset(h) * 3 / 12 else XOffset(h)) * g.stretch / g.shrink
      && q == (if dotted then YOffset(h) * 3 / 12 else YOffset(h)) * g.stretch / g.shrink
    ensures 0 <= q <= p
    ensures Offers(minor, major, g, dotted, if p == 0 then 1 else p, if p == 0 then 1 else q)
  {
    var h := minor * 50 / major;
    ScaledOffset(XOffset(h), dotted, g, p);
    ScaledOffset(YOffset(h), dotted, g, q);
    var x, y := if dotted then XOffset(h) * 3 / 12 else XOffset(h), if dotted then YOffset(h) * 3 / 12 else YOffset(h);
    assert 0 <= y <= x;
    OffsetsScale(y, x, g);
    hide IsScaled, XOffset, YOffset;
  }

  /** The offsets of a dash (or of the space between dots) in both directions. */
  method Measure(x1: int, y1: int, x2: int, y2: int, g: Scale, dotted: bool) returns (l: Dashing)
    requires (x1 != x2 || y1 != y2) && g.Positive()
    ensures l.x1 == x1 && l.y1 == y1 && l.x2 == x2 && l.y2 == y2
    ensures l.Valid() && (l.steep <==> Abs(x2 - x1) < Abs(y2 - y1)) && HasOffsets(l, g, dotted)
  {
    hide Offers, XOffset, YOffset;
    var abss1, abss2 := Abs(x2 - x1), Abs(y2 - y1);
    var xof, yof, flag, h;
    if abss1 >= abss2 {
      TableIndex(abss2, abss1);
      h := abss2 * 50 / abss1;
      xof, yof, flag := XOffset(h), YOffset(h), false;
    } else {
      TableIndex(abss1, abss2);
      h := abss1 * 50 / abss2;
      yof, xof, flag := XOffset(h), YOffset(h), true;
    }
    if dotted { xof, yof := xof * 3 / 12, yof * 3 / 12; }
    xof := xof * g.stretch / g.shrink;
    yof := yof * g.stretch / g.shrink;
    if flag {
      OffsetsOffered(abss1, abss2, g, dotted, yof, xof);
    } else {
      OffsetsOffered(abss2, abss1, g, dotted, xof, yof);
    }
    if xof == 0 && yof == 0 { xof, yof := 1, 1; }
    l := Dashing(x1, y1, x2, y2, xof, yof, flag || xof == 0);
  }

  lemma TableIndex(minor: int, major: int)
    requires 0 <= minor <= major && major > 0
    ensures 0 <= minor * 50 / major <= 50
  {
    DivBracket(minor * 50, major, 0);
    DivBracket(minor * 50, major, 50);
  }

  /** Scaling keeps which of the offsets is the longer one. */
  lemma OffsetsScale(p: int, q: int, g: Scale)
    requires p >= 0 && q >= 0 && g.Positive()
    ensures p * g.stretch / g.shrink >= 0 && q * g.stretch / g.shrink >= 0
    ensures p <= q ==> p * g.stretch / g.shrink <= q * g.stretch / g.shrink
    ensures q <= p ==> q * g.stretch / g.shrink <= p * g.stretch / g.shrink
  {
    MulMonotone(0, p, g.stretch);
    MulMonotone(0, q, g.stretch);
    if p <= q { MulMonotone(p, q, g.stretch); DivMonotone(p * g.stretch, q * g.stretch, g.shrink); }
    if q <= p { MulMonotone(q, p, g.stretch); DivMonotone(q * g.stretch, p * g.stretch, g.shrink); }
    DivBracket(p * g.stretch, g.shrink, 0);
    DivBracket(q * g.stretch, g.shrink, 0);
  }

  /** In the normal scale the dashes are 11 to 15 pixels long, and the dots 2 or 3 apart. */
  lemma NormalOffsets(l: Dashing, dotted: bool)
    requires l.Valid() && HasOffsets(l, Scale(1, 1), dotted)
    ensures if dotted then 2 <= l.D() <= 3 else 11 <= l.D() <= 15
  {
  }

  /** How far from the beginning of the line, along its longer side, a dash (dot) starts. */
  function Along(l: Dashing, k: Dash): int
  {
    if l.steep then l.Sy() * (k.yy1 - l.y1) else l.Sx() * (k.xx1 - l.x1)
  }

  /** In the normal scale a dash is 14 to 16 pixels long, and has the slope of the line (in
      fiftieths, rounded down) but for less than a pixel. */
  lemma DashSlope(l: Dashing)
    requires l.Valid() && HasOffsets(l, Scale(1, 1), false)
    ensures var across := if l.steep then l.xof else l.yof;
      var h := (if l.steep then l.Width() else l.Height()) * 50 / l.Major();
      && 14 * 14 <= l.xof * l.xof + l.yof * l.yof <= 16 * 16
      && -50 < 50 * across - h * l.D() < 50
  {
    var h := (if l.steep then l.Width() else l.Height()) * 50 / l.Major();
    OffsetsAtOne(l, h);
    OffsetTables(h);
    hide Dashing.Valid, Dashing.Width, Dashing.Height, XOffset, YOffset, HasOffsets;
  }

  lemma OffsetsAtOne(l: Dashing, h: int)
    requires l.Valid() && HasOffsets(l, Scale(1, 1), false)
    requires h == (if l.steep then l.Width() else l.Height()) * 50 / l.Major()
    ensures 0 <= h <= 50 && l.D() == XOffset(h) && (if l.steep then l.xof else l.yof) == YOffset(h)
  {
  }

  /** Before the end the start of a dash and a dot are where the step is. */
  lemma AlongLine(l: Dashing, i: nat)
    requires l.Valid()
    ensures i * l.D() <= l.Major() ==> Along(l, DotAt(l, i)) == i * l.D()
    ensures (i + 1) * l.D() <= l.Major() ==> Along(l, l.At(i)) == i * l.D()
  {
    assert (i + 1) * l.D() == i * l.D() + l.D();
    hide Dashing.Width, Dashing.Height;
  }

  lemma NextStep(k: nat, d: nat)
    ensures 2 * (k + 1) * d == 2 * k * d + 2 * d && (2 * (k + 1) + 1) * d == 2 * k * d + 3 * d
    ensures (2 * k + 1) * d <= (2 * (k + 1) + 1) * d && 2 * k * d <= 2 * (k + 1) * d
  {
  }

  lemma {:induction false} PartAt(l: Dashing, n: nat, k: nat)
    requires l.Valid() && k < n
    ensures |l.First(n)| == |FirstDots(l, n)| == n
    ensures l.First(n)[k] == l.At(2 * k) && FirstDots(l, n)[k] == DotAt(l, 2 * k)
  {
    hide Dashing.At, DotAt;
    if n > 1 { PartAt(l, n - 1, if k < n - 1 then k else 0); }
  }

  /** Before the end consecutive dots are 4 or 6 pixels apart along the longer side. */
  lemma DotsApart(l: Dashing, dots: seq<Dash>, k: nat)
    requires l.Valid() && HasOffsets(l, Scale(1, 1), true) && AllDots(l, dots) && k + 1 < |dots|
    requires 2 * (k + 1) * l.D() <= l.Major()
    ensures Along(l, dots[k + 1]) - Along(l, dots[k]) in {4, 6}
  {
    hide AllDots, HasOffsets, DotAt, Dashing.At, Dashing.Major, Dashing.D, Dashing.Valid, Along;
    DotsKnown(l, dots);
    PartAt(l, |dots|, k);
    PartAt(l, |dots|, k + 1);
    NormalOffsets(l, true);
    NextStep(k, l.D());
    AlongLine(l, 2 * k);
    AlongLine(l, 2 * (k + 1));
  }

  lemma DotsKnown(l: Dashing, dots: seq<Dash>)
    requires l.Valid() && AllDots(l, dots)
    ensures dots == FirstDots(l, |dots|)
  {
  }

  /** Consecutive dashes are 22 to 30 pixels apart. */
  lemma DashesApart(l: Dashing, dashes: seq<Dash>, k: nat)
    requires l.Valid() && HasOffsets(l, Scale(1, 1), false) && AllDashes(l, dashes) && k + 1 < |dashes|
    requires (2 * (k + 1) + 1) * l.D() <= l.Major()
    ensures 22 <= Along(l, dashes[k + 1]) - Along(l, dashes[k]) <= 30
  {
    hide AllDashes, HasOffsets, DotAt, Dashing.At, Dashing.Major, Dashing.D, Dashing.Valid, Along;
    DashesKnown(l, dashes);
    PartAt(l, |dashes|, k);
    PartAt(l, |dashes|, k + 1);
    NormalOffsets(l, false);
    NextStep(k, l.D());
    AlongLine(l, 2 * k);
    AlongLine(l, 2 * (k + 1));
  }

  lemma DashesKnown(l: Dashing, dashes: seq<Dash>)
    requires l.Valid() && AllDashes(l, dashes)
    ensures dashes == l.First(|dashes|)
  {
  }

  /** How far from the beginning of the line a dash (dot) starts across its longer side. */
  function Across(l: Dashing, k: Dash): int
  {
    if l.steep then l.Sx() * (k.xx1 - l.x1) else l.Sy() * (k.yy1 - l.y1)
  }

  function Minor(l: Dashing): int
  {
    if l.steep then l.Width() else l.Height()
  }

  /** The start of the part k is less than a pixel from the line, on the side of its beginning. */
  predicate OnLine(l: Dashing, k: Dash)
  {
    Across(l, k) * l.Major() <= Along(l, k) * Minor(l) < (Across(l, k) + 1) * l.Major()
  }

  /** Before the end dots are on the line, and so are the starts of dashes that do not end at its end. */
  lemma PartsOnLine(l: Dashing, i: nat)
    requires l.Valid()
    ensures i * l.D() <= l.Major() ==> OnLine(l, DotAt(l, i))
    ensures (i + 1) * l.D() <= l.Major() && Across(l, l.At(i)) + (if l.steep then l.xof else l.yof) < Minor(l) ==>
              OnLine(l, l.At(i))
  {
    AlongLine(l, i);
    AcrossLine(l, i);
    assert (i + 1) * l.D() == i * l.D() + l.D();
    MulMonotone(0, i, l.D());
    MulMonotone(0, i * l.D(), Minor(l));
    QuotientBounds(i * l.D() * Minor(l), l.Major());
    hide Along, Across, DotAt, Dashing.At;
  }

  ghost function FarAcross(l: Dashing, i: nat): int
    requires l.Valid()
  {
    if l.steep then l.FarX(i) else l.FarY(i)
  }

  lemma FarAcrossIs(l: Dashing, i: nat)
    requires l.Valid()
    ensures FarAcross(l, i) == i * l.D() * Minor(l) / l.Major()
    ensures i * l.D() <= l.Major() ==> FarAcross(l, i) <= Minor(l)
  {
    MulMonotone(0, i, l.D());
    MulMonotone(0, i * l.D(), Minor(l));
    if i * l.D() <= l.Major() {
      MulMonotone(i * l.D(), l.Major(), Minor(l));
      DivBracket(i * l.D() * Minor(l), l.Major(), Minor(l));
    }
  }

  lemma AcrossIs(l: Dashing, i: nat)
    requires l.Valid()
    ensures Across(l, DotAt(l, i)) == Min(FarAcross(l, i), Minor(l))
    ensures Across(l, l.At(i)) == Bar(FarAcross(l, i), Minor(l), if l.steep then l.xof else l.yof).0
  {
    hide Dashing.FarX, Dashing.FarY, Dashing.Width, Dashing.Height, Dashing.D, Dashing.Valid, Bar, Min;
  }

  lemma AcrossLine(l: Dashing, i: nat)
    requires l.Valid()
    ensures var far := i * l.D() * Minor(l) / l.Major();
      && (i * l.D() <= l.Major() ==> Across(l, DotAt(l, i)) == far)
      && (Across(l, l.At(i)) + (if l.steep then l.xof else l.yof) < Minor(l) ==> Across(l, l.At(i)) == far)
  {
    FarAcrossIs(l, i);
    AcrossIs(l, i);
    hide Across, FarAcross, Minor, DotAt, Dashing.At, Dashing.D, Dashing.Major, Dashing.Valid;
  }

  datatype Direction = So | We | Se | Sw

  /** The function for solid lines that the one for dashed lines of this direction calls. */
  function Solid(dir: Direction, k: Dash): Call
  {
    match dir
    case So => SoLine(k.xx1, k.yy1, k.xx2, k.yy2)
    case We => WeLine(k.xx1, k.yy1, k.xx2, k.yy2)
    case Se => SeLine(k.xx1, k.yy1, k.xx2, k.yy2)
    case Sw => SwLine(k.xx1, k.yy1, k.xx2, k.yy2)
  }

  lemma DashAsserts(l: Dashing, dir: Direction, i: nat)
    requires l.Valid() && Solid(dir, Dash(l.x1, l.y1, l.x2, l.y2)).AssertsHold()
    requires dir == We || dir == Sw ==> l.x1 != l.x2
    ensures Solid(dir, l.At(i)).AssertsHold() && Solid(dir, DotAt(l, i)).AssertsHold()
  {
    DashFits(l, i);
    hide Dashing.At;
  }

  lemma {:induction false} DashesAssert(l: Dashing, dir: Direction, n: nat)
    requires l.Valid() && Solid(dir, Dash(l.x1, l.y1, l.x2, l.y2)).AssertsHold()
    requires dir == We || dir == Sw ==> l.x1 != l.x2
    ensures |l.First(n)| == |FirstDots(l, n)| == n
    ensures forall k :: 0 <= k < n ==>
        Solid(dir, l.First(n)[k]).AssertsHold() && Solid(dir, FirstDots(l, n)[k]).AssertsHold()
  {
    hide Dashing.At, DotAt, Solid, Call.AssertsHold;
    if n > 0 {
      DashAsserts(l, dir, 2 * (n - 1));
      DashesAssert(l, dir, n - 1);
    }
  }

  /** The lines that the functions for one direction do not draw. */
  predicate NotDrawn(dir: Direction, x1: int, y1: int, x2: int, y2: int)
  {
    match dir
    case So => y1 == y2
    case We => x1 == x2
    case _ => x1 == x2 || y1 == y2
  }

  /** The line k is drawn by these calls: those of its dashes (or dots), in order. */
  ghost predicate IsDashed(dir: Direction, k: Dash, g: Scale, dotted: bool, calls: seq<Call>, l: Dashing,
                           parts: seq<Dash>)
    requires g.Positive()
  {
    if NotDrawn(dir, k.xx1, k.yy1, k.xx2, k.yy2) then calls == []
    else
      && l.Valid() && l == Dashing(k.xx1, k.yy1, k.xx2, k.yy2, l.xof, l.yof, l.steep) && HasOffsets(l, g, dotted)
      && (if dotted then AllDots(l, parts) else AllDashes(l, parts)) && Drawn(calls, dir, parts)
  }

  /** gs_sodashedline to gs_swdashedline and gs_sodottedline to gs_swdottedline: no division by
      zero, the tables are not left, the loops end, and no assertion of the function for
      solid lines fails. */
  method DashedLine(dir: Direction, x1: int, y1: int, x2: int, y2: int, g: Scale, dotted: bool)
    returns (calls: seq<Call>, ghost l: Dashing, ghost parts: seq<Dash>)
    requires g.Positive() && Solid(dir, Dash(x1, y1, x2, y2)).AssertsHold()
    ensures forall k :: 0 <= k < |calls| ==> calls[k].AssertsHold()
    ensures IsDashed(dir, Dash(x1, y1, x2, y2), g, dotted, calls, l, parts)
  {
    calls, parts := [], [];
    l := Dashing(x1, y1, x2, y2, 0, 0, false);
    if NotDrawn(dir, x1, y1, x2, y2) { return; }
    var m := Measure(x1, y1, x2, y2, g, dotted);
    hide HasOffsets, AllDots, AllDashes;
    l := m;
    var dashes;
    if dotted { dashes := DotLoop(m); } else { dashes := DashLoop(m); }
    parts := dashes;
    PartsAssert(m, dir, dashes, dotted);
    for k := 0 to |dashes|
      invariant |calls| == k && forall j :: 0 <= j < k ==> calls[j] == Solid(dir, dashes[j])
    {
      calls := calls + [Solid(dir, dashes[k])];
    }
  }

  lemma PartsAssert(l: Dashing, dir: Direction, parts: seq<Dash>, dotted: bool)
    requires l.Valid() && Solid(dir, Dash(l.x1, l.y1, l.x2, l.y2)).AssertsHold()
    requires dir == We || dir == Sw ==> l.x1 != l.x2
    requires if dotted then AllDots(l, parts) else AllDashes(l, parts)
    ensures forall k :: 0 <= k < |parts| ==> Solid(dir, parts[k]).AssertsHold()
  {
    hide Dashing.At, DotAt, Solid, Call.AssertsHold, Dashing.More;
    DashesAssert(l, dir, |parts|);
  }

  ghost predicate Drawn(calls: seq<Call>, dir: Direction, parts: seq<Dash>)
  {
    |calls| == |parts| && forall k :: 0 <= k < |calls| ==> calls[k] == Solid(dir, parts[k])
  }

  /** The function that gs_mydashedline calls for an orientation. */
  function DirectionOf(ori: Orientation): Direction
  {
    match ori
    case North => So
    case South => So
    case West => We
    case East => We
    case SouthEast => Se
    case NorthWest => Se
    case SouthWest => Sw
    case NorthEast => Sw
  }

  /** gs_mydashedline and gs_mydottedline: whatever the ends of the line are, no assertion
      fails; the dashes are those of the clipped line, and if there is none, nothing is visible. */
  method MyDashedLine(c: Clipper, w: Window, fisheyeView: bool, x1: int, y1: int, x2: int, y2: int, g: Scale,
                      dotted: bool)
    returns (visible: bool, calls: seq<Call>, ghost l: Dashing, ghost parts: seq<Dash>)
    requires w.Proper() && g.Positive()
    modifies c
    ensures forall k :: 0 <= k < |calls| ==> calls[k].AssertsHold()
    ensures visible ==>
      var dir, clipped := DirectionOf(ArrowOrientation(x1, y1, x2, y2)), Dash(c.x1, c.y1, c.x2, c.y2);
      && IsLine(Solid(dir, clipped), w, Directed(x1, y1, x2, y2), fisheyeView)
      && IsDashed(dir, clipped, g, dotted, calls, l, parts)
    ensures !visible ==> calls == [] && !fisheyeView && !Meets(w, Segment(x1, y1, x2, y2))
  {
    hide IsLine, IsDashed, Meets, Call.AssertsHold;
    calls, parts := [], [];
    l := Dashing(x1, y1, x2, y2, 0, 0, false);
    visible := ClipDirected(c, w, fisheyeView, x1, y1, x2, y2);
    if visible {
      var dir := DirectionOf(ArrowOrientation(x1, y1, x2, y2));
      assert Solid(dir, Dash(c.x1, c.y1, c.x2, c.y2))
          == CallFor(ArrowOrientation(x1, y1, x2, y2), c.x1, c.y1, c.x2, c.y2);
      calls, l, parts := DashedLine(dir, c.x1, c.y1, c.x2, c.y2, g, dotted);
    }
  }
}
