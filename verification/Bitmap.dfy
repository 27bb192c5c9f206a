/** The bitmap of the pbm device (grprint2.c). */
module Bitmap {
  import opened Clipping
  import opened Raster

  const WHITE := 0

  /** The bit of a pixel in its byte. */
  function Mask(i: int): bv8
    requires 0 <= i < 8
  {
    if i == 0 then 0x80 else if i == 1 then 0x40 else if i == 2 then 0x20 else if i == 3 then 0x10
    else if i == 4 then 0x08 else if i == 5 then 0x04 else if i == 6 then 0x02 else 0x01
  }

  predicate IsSet(b: bv8, i: int)
    requires 0 <= i < 8
  {
    b & Mask(i) != 0
  }

  /** The byte b after the assignment of bw_point to the pixel with bit i. */
  function WithPixel(b: bv8, i: int, c: int): bv8
    requires 0 <= i < 8
  {
    if c == WHITE then b & !Mask(i) else b | Mask(i)
  }

  /** The pixels of a byte run from its highest bit to its lowest. */
  lemma LeftIsHigh(b: bv8, i: int)
    requires 0 <= i < 8
    ensures IsSet(b, i) <==> b & ((0x80 as bv8) >> i) != 0
  {
  }

  lemma OnlyOneBit(b: bv8, i: int, j: int, c: int)
    requires 0 <= i < 8 && 0 <= j < 8
    ensures IsSet(WithPixel(b, i, c), j) == if i == j then c != WHITE else IsSet(b, j)
  {
    hide Mask;
    MasksApart(i, j);
    BitSet(b, Mask(i), Mask(j));
    BitCleared(b, Mask(i), Mask(j));
  }

  lemma MasksApart(i: int, j: int)
    requires 0 <= i < 8 && 0 <= j < 8
    ensures Mask(i) != 0 && (i != j ==> Mask(i) & Mask(j) == 0)
  {
  }

  lemma BitSet(b: bv8, m: bv8, n: bv8)
    ensures (b | m) & m == m && (m & n == 0 ==> (b | m) & n == b & n)
  {
  }

  lemma BitCleared(b: bv8, m: bv8, n: bv8)
    ensures (b & !m) & m == 0 && (m & n == 0 ==> (b & !m) & n == b & n)
  {
  }

  lemma SameRow(y: int, c: int, y': int, c': int, k: int)
    requires 0 <= c < k && 0 <= c' < k && y * k + c == y' * k + c'
    ensures y == y' && c == c'
  {
    if y < y' { MulMonotone(y + 1, y', k); }
    if y' < y { MulMonotone(y' + 1, y, k); }
  }

  lemma RowMajor(y: int, c: int, y': int, c': int, k: int)
    requires 0 <= c < k && 0 <= c' < k
    ensures y * k + c < y' * k + c' <==> y < y' || (y == y' && c < c')
  {
    if y < y' { MulMonotone(y + 1, y', k); assert (y + 1) * k == y * k + k; }
    if y' < y { MulMonotone(y' + 1, y, k); assert (y' + 1) * k == y' * k + k; }
  }

  class BwBitmap {
    const hlen: int
    const vlen: int
    const topmargin: int
    const leftmargin: int
    const rotated: bool
    const bits: array<bv8>

    /** What pbm printing sets up: hlen is aligned to 8, and vlen spare bytes are allocated. */
    predicate Valid()
    {
      hlen > 0 && vlen > 0 && hlen % 8 == 0 && bits.Length == hlen / 8 * vlen + vlen
    }

    constructor (width: int, height: int, topmargin: int, leftmargin: int, rotated: bool)
      requires width > 0 && height > 0
      ensures Valid() && fresh(bits) && width <= hlen < width + 8 && vlen == height
    {
      hlen, vlen := (width + 7) / 8 * 8, height;
      this.topmargin, this.leftmargin, this.rotated := topmargin, leftmargin, rotated;
      MulMonotone(0, (width + 7) / 8, height);
      bits := new bv8[(width + 7) / 8 * height + height];
    }

    /** The column and row of a point of the drawing. */
    function Place(p: Point): Point
    {
      if rotated then Point(hlen - 1 - (p.y + topmargin), p.x + leftmargin)
      else Point(p.x + leftmargin, p.y + topmargin)
    }

    /** The drawing is moved by the margins; a rotated one is turned clockwise: what is to the
        right in the drawing is below on the map, and what is below is to the left. */
    lemma PlaceTurns(p: Point, dx: int, dy: int)
      ensures var q, r := Place(p), Place(Point(p.x + dx, p.y + dy));
        if rotated then r == Point(q.x - dy, q.y + dx) else r == Point(q.x + dx, q.y + dy)
      ensures Place(Point(-leftmargin, -topmargin)) == if rotated then Point(hlen - 1, 0) else Point(0, 0)
    {
    }

    predicate OnMap(q: Point)
    {
      0 <= q.x < hlen && 0 <= q.y < vlen
    }

    function Index(q: Point): int
    {
      q.y * (hlen / 8) + q.x / 8
    }

    /** The bytes are in the order of the pixels, row by row from the top. */
    lemma RowsInOrder(q: Point, r: Point)
      requires Valid() && OnMap(q) && OnMap(r)
      ensures Index(q) < Index(r) <==> q.y < r.y || (q.y == r.y && q.x / 8 < r.x / 8)
      ensures q.y == r.y ==> Index(r) - Index(q) == r.x / 8 - q.x / 8
      ensures Index(Point(0, 0)) == 0 && Index(Point(0, q.y)) == q.y * (hlen / 8)
    {
      RowMajor(q.y, q.x / 8, r.y, r.x / 8, hlen / 8);
    }

    lemma IndexInside(q: Point)
      requires Valid() && OnMap(q)
      ensures 0 <= Index(q) < hlen / 8 * vlen
    {
      MulMonotone(0, q.y, hlen / 8);
      MulMonotone(q.y + 1, vlen, hlen / 8);
    }

    lemma IndexApart(q: Point, r: Point)
      requires Valid() && OnMap(q) && OnMap(r) && Index(q) == Index(r) && q.x % 8 == r.x % 8
      ensures q == r
    {
      var k := hlen / 8;
      assert 0 <= q.x / 8 < k && 0 <= r.x / 8 < k;
      SameRow(q.y, q.x / 8, r.y, r.x / 8, k);
      assert q.x == q.x / 8 * 8 + q.x % 8 && r.x == r.x / 8 * 8 + r.x % 8;
    }

    /** The pixel is set. */
    ghost predicate Black(q: Point)
      requires Valid() && OnMap(q)
      reads bits
    {
      IndexInside(q);
      IsSet(bits[Index(q)], q.x % 8)
    }

    /** The pixel q, in its byte b, after the assignment to the byte of the pixel p. */
    lemma PixelChange(p: Point, q: Point, b: bv8, c: int)
      requires Valid() && OnMap(p) && OnMap(q)
      ensures IsSet(if Index(q) == Index(p) then WithPixel(b, p.x % 8, c) else b, q.x % 8)
           == if q == p then c != WHITE else IsSet(b, q.x % 8)
    {
      hide BwBitmap.Index, IsSet, WithPixel;
      OnlyOneBit(b, p.x % 8, q.x % 8, c);
      if Index(q) == Index(p) && q.x % 8 == p.x % 8 { IndexApart(q, p); }
    }

    /** bw_point: exactly the pixel of the point changes, if it is on the map. */
    method BwPoint(x: int, y: int, c: int)
      requires Valid()
      modifies bits
      ensures forall q :: OnMap(q) ==> Black(q) == if q == Place(Point(x, y)) then c != WHITE else old(Black(q))
    {
      hide BwBitmap.Index, IsSet, WithPixel;
      var p := Place(Point(x, y));
      if p.x < 0 { return; }
      if p.y < 0 { return; }
      if p.x >= hlen { return; }
      if p.y >= vlen { return; }
      IndexInside(p);
      var k := Index(p);
      bits[k] := WithPixel(bits[k], p.x % 8, c);
      forall q | OnMap(q) ensures Black(q) == if q == p then c != WHITE else old(Black(q)) {
        IndexInside(q);
        PixelChange(p, q, old(bits[Index(q)]), c);
      }
    }

    /** The pixel q belongs to one of the first n points of the line. */
    ghost predicate Touched(l: Line, n: int, q: Point)
    {
      exists i :: 0 <= i < n && Place(l.At(i)) == q
    }

    lemma TouchedNext(l: Line, n: int, q: Point)
      requires n >= 0
      ensures Touched(l, n + 1, q) <==> Touched(l, n, q) || Place(l.At(n)) == q
    {
      if Touched(l, n, q) {
        var i :| 0 <= i < n && Place(l.At(i)) == q;
        assert 0 <= i < n + 1;
      }
    }

    /** The pixels that are set. */
    ghost function Picture(): (r: iset<Point>)
      requires Valid()
      reads bits
    {
      iset q | OnMap(q) && Black(q)
    }

    /** The first n points of the line have been drawn on a map that showed `before`. */
    ghost predicate Drawn(l: Line, n: int, c: int, before: iset<Point>)
      requires Valid()
      reads bits
    {
      forall q :: OnMap(q) ==> Black(q) == if Touched(l, n, q) then c != WHITE else q in before
    }

    /** bw_point of the next point of a line. */
    method DrawNext(l: Line, ghost i: int, x: int, y: int, c: int, ghost before: iset<Point>)
      requires Valid() && i >= 0 && l.At(i) == Point(x, y) && Drawn(l, i, c, before)
      modifies bits
      ensures Drawn(l, i + 1, c, before)
    {
      hide BwBitmap.Black, BwBitmap.Place, Line.At;
      BwPoint(x, y, c);
      forall q | OnMap(q) ensures Black(q) == if Touched(l, i + 1, q) then c != WHITE else q in before {
        TouchedNext(l, i, q);
      }
    }

    lemma NothingDrawn(l: Line, c: int)
      requires Valid()
      ensures Drawn(l, 0, c, Picture())
    {
    }

    lemma FirstDrawn(l: Line, c: int, before: iset<Point>)
      requires Valid() && Drawn(l, 1, c, before)
      ensures forall q :: OnMap(q) && !Touched(l, 1, q) ==> (q in Picture() <==> q in before)
    {
    }

    /** The loops draw the first point again. */
    lemma DrawnTwice(l: Line, n: int, c: int, before: iset<Point>, again: iset<Point>)
      requires Valid() && Drawn(l, n, c, again) && n >= 1
      requires forall q :: OnMap(q) && !Touched(l, 1, q) ==> (q in again <==> q in before)
      ensures Drawn(l, n, c, before)
    {
      forall q | Touched(l, 1, q) ensures Touched(l, n, q) {
        assert 0 <= 0 < n && Place(l.At(0)) == q;
      }
    }

    /** The loops of bw_line over columns. */
    method DrawFlat(l: Line, c: int, ghost before: iset<Point>)
      requires Valid() && l.Flat() && l.x1 != l.x2 && Drawn(l, 0, c, before)
      modifies bits
      ensures Drawn(l, l.Steps() + 1, c, before)
    {
      hide BwBitmap.Drawn, Line.YAt;
      var xp := l.x1;
      if l.x1 < l.x2 {
        while xp <= l.x2
          invariant l.x1 <= xp <= l.x2 + 1 && Drawn(l, xp - l.x1, c, before)
          decreases l.x2 - xp
        {
          var yp := l.YAt(xp);
          DrawNext(l, xp - l.x1, xp, yp, c, before);
          xp := xp + 1;
        }
      } else {
        while xp >= l.x2
          invariant l.x2 - 1 <= xp <= l.x1 && Drawn(l, l.x1 - xp, c, before)
          decreases xp - l.x2
        {
          var yp := l.YAt(xp);
          DrawNext(l, l.x1 - xp, xp, yp, c, before);
          xp := xp - 1;
        }
      }
    }

    /** The loops of bw_line over rows. */
    method DrawSteep(l: Line, c: int, ghost before: iset<Point>)
      requires Valid() && !l.Flat() && l.y1 != l.y2 && Drawn(l, 0, c, before)
      modifies bits
      ensures Drawn(l, l.Steps() + 1, c, before)
    {
      hide BwBitmap.Drawn, Line.XAt;
      var yp := l.y1;
      if l.y1 < l.y2 {
        while yp <= l.y2
          invariant l.y1 <= yp <= l.y2 + 1 && Drawn(l, yp - l.y1, c, before)
          decreases l.y2 - yp
        {
          var xp := l.XAt(yp);
          DrawNext(l, yp - l.y1, xp, yp, c, before);
          yp := yp + 1;
        }
      } else {
        while yp >= l.y2
          invariant l.y2 - 1 <= yp <= l.y1 && Drawn(l, l.y1 - yp, c, before)
          decreases yp - l.y2
        {
          var xp := l.XAt(yp);
          DrawNext(l, l.y1 - yp, xp, yp, c, before);
          yp := yp - 1;
        }
      }
    }

    /** bw_line: exactly the pixels of the points of the line are set (or cleared). */
    method BwLine(fx: int, fy: int, tx: int, ty: int, c: int, vxmin: int, vymin: int)
      requires Valid()
      modifies bits
      ensures var l := Line(fx - vxmin, fy - vymin, tx - vxmin, ty - vymin);
        Drawn(l, l.Steps() + 1, c, old(Picture()))
    {
      hide BwBitmap.Drawn, BwBitmap.Picture, BwBitmap.Place, BwBitmap.Touched, Line.At;
      var l := Line(fx - vxmin, fy - vymin, tx - vxmin, ty - vymin);
      ghost var before := Picture();
      NothingDrawn(l, c);
      Ends(l);
      SquareOrder(l.x2 - l.x1, l.y2 - l.y1);
      DrawNext(l, 0, l.x1, l.y1, c, before);
      if l.x2 - l.x1 == 0 && l.y2 - l.y1 == 0 { return; }
      FirstDrawn(l, c, before);
      ghost var again := Picture();
      NothingDrawn(l, c);
      if (l.x2 - l.x1) * (l.x2 - l.x1) > (l.y2 - l.y1) * (l.y2 - l.y1) {
        DrawFlat(l, c, again);
      } else {
        DrawSteep(l, c, again);
      }
      DrawnTwice(l, l.Steps() + 1, c, before, again);
    }
  }
}
