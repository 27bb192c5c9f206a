/** check_visible as a whole (drawlib.c). */
module LineClipping {
  import opened Clipping

  /** What is known about the straight line of s at the height y. */
  ghost predicate XKnown(w: Window, s: Segment, y: int)
    requires s.b != s.d
  {
    && (s.b <= y <= s.d || s.d <= y <= s.b ==>
          && (s.a <= s.c ==> s.a <= s.XAt(y) <= s.c)
          && (s.c <= s.a ==> s.c <= s.XAt(y) <= s.a))
    && (s.b > s.d ==>
          && (s.XAt(y) < w.xmin ==> s.Side(w.xmin, y) < 0)
          && (s.XAt(y) > w.xmax - 1 ==> s.Side(w.xmax - 1, y) > 0))
    && (s.b < s.d ==>
          && (s.XAt(y) < w.xmin ==> s.Side(w.xmin, y) > 0)
          && (s.XAt(y) > w.xmax - 1 ==> s.Side(w.xmax - 1, y) < 0))
  }

  ghost predicate YKnown(w: Window, s: Segment, x: int)
    requires s.a != s.c
  {
    && (s.a <= x <= s.c || s.c <= x <= s.a ==>
          && (s.b <= s.d ==> s.b <= s.YAt(x) <= s.d)
          && (s.d <= s.b ==> s.d <= s.YAt(x) <= s.b))
    && (s.a > s.c ==>
          && (s.YAt(x) < w.ymin ==> s.Side(x, w.ymin) > 0)
          && (s.YAt(x) > w.ymax - 1 ==> s.Side(x, w.ymax - 1) < 0))
    && (s.a < s.c ==>
          && (s.YAt(x) < w.ymin ==> s.Side(x, w.ymin) < 0)
          && (s.YAt(x) > w.ymax - 1 ==> s.Side(x, w.ymax - 1) > 0))
  }

  ghost predicate SameSense(s: Segment) {
    (s.a <= s.c && s.b <= s.d) || (s.a >= s.c && s.b >= s.d)
  }

  ghost predicate OppositeSense(s: Segment) {
    (s.a <= s.c && s.b >= s.d) || (s.a >= s.c && s.b <= s.d)
  }

  ghost predicate Known(w: Window, s: Segment)
  {
    && (s.b != s.d ==>
          && XKnown(w, s, w.ymin) && XKnown(w, s, w.ymax - 1)
          && (SameSense(s) ==> s.XAt(w.ymin) <= s.XAt(w.ymax - 1))
          && (OppositeSense(s) ==> s.XAt(w.ymax - 1) <= s.XAt(w.ymin)))
    && (s.a != s.c ==>
          && YKnown(w, s, w.xmin) && YKnown(w, s, w.xmax - 1)
          && (SameSense(s) ==> s.YAt(w.xmin) <= s.YAt(w.xmax - 1))
          && (OppositeSense(s) ==> s.YAt(w.xmax - 1) <= s.YAt(w.xmin)))
  }

  lemma XIsKnown(w: Window, s: Segment, y: int)
    requires s.b != s.d
    ensures XKnown(w, s, y)
  {
    XAtSide(s, w.xmin, y);
    XAtSide(s, w.xmax - 1, y);
    if s.b <= y <= s.d || s.d <= y <= s.b { XAtBetween(s, y); }
    hide Segment.XAt, Segment.Side;
  }

  lemma YIsKnown(w: Window, s: Segment, x: int)
    requires s.a != s.c
    ensures YKnown(w, s, x)
  {
    YAtSide(s, x, w.ymin);
    YAtSide(s, x, w.ymax - 1);
    if s.a <= x <= s.c || s.c <= x <= s.a { YAtBetween(s, x); }
    hide Segment.YAt, Segment.Side;
  }

  lemma AllIsKnown(w: Window, s: Segment)
    requires w.Proper()
    ensures Known(w, s)
  {
    hide Segment.XAt, Segment.YAt, Segment.Side, XKnown, YKnown;
    if s.b != s.d {
      XIsKnown(w, s, w.ymin);
      XIsKnown(w, s, w.ymax - 1);
      XAtOrder(s, w.ymin, w.ymax - 1);
    }
    if s.a != s.c {
      YIsKnown(w, s, w.xmin);
      YIsKnown(w, s, w.xmax - 1);
      YAtOrder(s, w.xmin, w.xmax - 1);
    }
  }

  /** (x,y) replaces the end (x0,y0) of s: it is this end, if that is visible, or a rounded
      crossing with a border; the borders on the right and below are stored one too far. */
  ghost predicate Replaces(w: Window, s: Segment, x: int, y: int, x0: int, y0: int)
  {
    || (x == x0 && y == y0 && w.Quadrant(x0, y0) == 5)
    || (s.b != s.d && y0 < w.ymin && y == w.ymin && x == s.XAt(w.ymin))
    || (s.b != s.d && y0 >= w.ymax && y == w.ymax && x == s.XAt(w.ymax - 1))
    || (s.a != s.c && x0 < w.xmin && x == w.xmin && y == s.YAt(w.xmin))
    || (s.a != s.c && x0 >= w.xmax && x == w.xmax && y == s.YAt(w.xmax - 1))
  }

  /** The part of s from (x1,y1) to (x2,y2) has the direction of s. */
  ghost predicate SameDirection(s: Segment, x1: int, y1: int, x2: int, y2: int)
  {
    && (s.a <= s.c ==> x1 <= x2) && (s.a >= s.c ==> x1 >= x2)
    && (s.b <= s.d ==> y1 <= y2) && (s.b >= s.d ==> y1 >= y2)
  }

  ghost predicate Clipped(w: Window, s: Segment, x1: int, y1: int, x2: int, y2: int)
  {
    && w.Holds(x1, y1) && w.Holds(x2, y2) && SameDirection(s, x1, y1, x2, y2)
    && Replaces(w, s, x1, y1, s.a, s.b) && Replaces(w, s, x2, y2, s.c, s.d)
  }

  /** The global variables gbl_x1 to gbl_y2 and the functions that set them. */
  class Clipper {
    var x1: int
    var y1: int
    var x2: int
    var y2: int

    constructor () {
      x1, y1, x2, y2 := 0, 0, 0, 0;
    }

    ghost predicate Correct(w: Window, s: Segment, res: bool)
      reads this
    {
      if res then Clipped(w, s, x1, y1, x2, y2) else Aside(w, s) || Beyond(w, s)
    }

    ghost predicate Whole(s: Segment)
      reads this
    {
      x1 == s.a && y1 == s.b && x2 == s.c && y2 == s.d
    }

    method CutAbYmin(w: Window, s: Segment) returns (res: bool)
      requires s.b != s.d
      modifies this`x1, this`y1
      ensures res <==> w.xmin <= s.XAt(w.ymin) < w.xmax
      ensures if res then x1 == s.XAt(w.ymin) && y1 == w.ymin else x1 == old(x1) && y1 == old(y1)
    {
      var p := s.XAt(w.ymin);
      res := w.xmin <= p < w.xmax;
      if res { x1, y1 := p, w.ymin; }
    }

    method CutAbYmax(w: Window, s: Segment) returns (res: bool)
      requires s.b != s.d
      modifies this`x1, this`y1
      ensures res <==> w.xmin <= s.XAt(w.ymax - 1) < w.xmax
      ensures if res then x1 == s.XAt(w.ymax - 1) && y1 == w.ymax else x1 == old(x1) && y1 == old(y1)
    {
      var p := s.XAt(w.ymax - 1);
      res := w.xmin <= p < w.xmax;
      if res { x1, y1 := p, w.ymax; }
    }

    method CutAbXmin(w: Window, s: Segment) returns (res: bool)
      requires s.a != s.c
      modifies this`x1, this`y1
      ensures res <==> w.ymin <= s.YAt(w.xmin) < w.ymax
      ensures if res then x1 == w.xmin && y1 == s.YAt(w.xmin) else x1 == old(x1) && y1 == old(y1)
    {
      var p := s.YAt(w.xmin);
      res := w.ymin <= p < w.ymax;
      if res { x1, y1 := w.xmin, p; }
    }

    method CutAbXmax(w: Window, s: Segment) returns (res: bool)
      requires s.a != s.c
      modifies this`x1, this`y1
      ensures res <==> w.ymin <= s.YAt(w.xmax - 1) < w.ymax
      ensures if res then x1 == w.xmax && y1 == s.YAt(w.xmax - 1) else x1 == old(x1) && y1 == old(y1)
    {
      var p := s.YAt(w.xmax - 1);
      res := w.ymin <= p < w.ymax;
      if res { x1, y1 := w.xmax, p; }
    }

    method CutCdYmin(w: Window, s: Segment) returns (res: bool)
      requires s.b != s.d
      modifies this`x2, this`y2
      ensures res <==> w.xmin <= s.XAt(w.ymin) < w.xmax
      ensures if res then x2 == s.XAt(w.ymin) && y2 == w.ymin else x2 == old(x2) && y2 == old(y2)
    {
      var p := s.XAt(w.ymin);
      res := w.xmin <= p < w.xmax;
      if res { x2, y2 := p, w.ymin; }
    }

    method CutCdYmax(w: Window, s: Segment) returns (res: bool)
      requires s.b != s.d
      modifies this`x2, this`y2
      ensures res <==> w.xmin <= s.XAt(w.ymax - 1) < w.xmax
      ensures if res then x2 == s.XAt(w.ymax - 1) && y2 == w.ymax else x2 == old(x2) && y2 == old(y2)
    {
      var p := s.XAt(w.ymax - 1);
      res := w.xmin <= p < w.xmax;
      if res { x2, y2 := p, w.ymax; }
    }

    method CutCdXmin(w: Window, s: Segment) returns (res: bool)
      requires s.a != s.c
      modifies this`x2, this`y2
      ensures res <==> w.ymin <= s.YAt(w.xmin) < w.ymax
      ensures if res then x2 == w.xmin && y2 == s.YAt(w.xmin) else x2 == old(x2) && y2 == old(y2)
    {
      var p := s.YAt(w.xmin);
      res := w.ymin <= p < w.ymax;
      if res { x2, y2 := w.xmin, p; }
    }

    method CutCdXmax(w: Window, s: Segment) returns (res: bool)
      requires s.a != s.c
      modifies this`x2, this`y2
      ensures res <==> w.ymin <= s.YAt(w.xmax - 1) < w.ymax
      ensures if res then x2 == w.xmax && y2 == s.YAt(w.xmax - 1) else x2 == old(x2) && y2 == old(y2)
    {
      var p := s.YAt(w.xmax - 1);
      res := w.ymin <= p < w.ymax;
      if res { x2, y2 := w.xmax, p; }
    }

    /** The other end is above or below. */
    method CheckAboveOrBelow(w: Window, s: Segment, relation: int) returns (res: bool)
      requires w.Proper() && Known(w, s) && Whole(s) && relation == w.Quadrant(s.a, s.b) * 10 + w.Quadrant(s.c, s.d)
      requires relation in {25, 52, 85, 58}
      modifies this
      ensures Correct(w, s, res)
    {
      hide Segment.XAt, Segment.YAt, Segment.Side;
      match relation {
        case 25 =>
          res := CutAbYmin(w, s);
        case 52 =>
          res := CutCdYmin(w, s);
        case 85 =>
          res := CutAbYmax(w, s);
        case _ =>
          res := CutCdYmax(w, s);
      }
    }

    /** The other end is left or right. */
    method CheckLeftOrRight(w: Window, s: Segment, relation: int) returns (res: bool)
      requires w.Proper() && Known(w, s) && Whole(s) && relation == w.Quadrant(s.a, s.b) * 10 + w.Quadrant(s.c, s.d)
      requires relation in {45, 54, 65, 56}
      modifies this
      ensures Correct(w, s, res)
    {
      hide Segment.XAt, Segment.YAt, Segment.Side;
      match relation {
        case 45 =>
          res := CutAbXmin(w, s);
        case 54 =>
          res := CutCdXmin(w, s);
        case 65 =>
          res := CutAbXmax(w, s);
        case _ =>
          res := CutCdXmax(w, s);
      }
    }

    /** The other end is beyond one border. */
    method CheckBorder(w: Window, s: Segment, relation: int) returns (res: bool)
      requires w.Proper() && Known(w, s) && Whole(s) && relation == w.Quadrant(s.a, s.b) * 10 + w.Quadrant(s.c, s.d)
      requires relation in {25, 52, 85, 58, 45, 54, 65, 56}
      modifies this
      ensures Correct(w, s, res)
    {
      hide *;
      if relation in {25, 52, 85, 58} {
        res := CheckAboveOrBelow(w, s, relation);
      } else {
        res := CheckLeftOrRight(w, s, relation);
      }
    }

    /** The other end is beyond an upper corner. */
    method CheckUpperCorner(w: Window, s: Segment, relation: int) returns (res: bool)
      requires w.Proper() && Known(w, s) && Whole(s) && relation == w.Quadrant(s.a, s.b) * 10 + w.Quadrant(s.c, s.d)
      requires relation in {15, 51, 35, 53}
      modifies this
      ensures Correct(w, s, res)
    {
      hide Segment.XAt, Segment.YAt, Segment.Side;
      match relation {
        case 15 =>
          res := CutAbXmin(w, s);
          if !res { res := CutAbYmin(w, s); }
        case 51 =>
          res := CutCdXmin(w, s);
          if !res { res := CutCdYmin(w, s); }
        case 35 =>
          res := CutAbXmax(w, s);
          if !res { res := CutAbYmin(w, s); }
        case _ =>
          res := CutCdXmax(w, s);
          if !res { res := CutCdYmin(w, s); }
      }
    }

    /** The other end is beyond a lower corner. */
    method CheckLowerCorner(w: Window, s: Segment, relation: int) returns (res: bool)
      requires w.Proper() && Known(w, s) && Whole(s) && relation == w.Quadrant(s.a, s.b) * 10 + w.Quadrant(s.c, s.d)
      requires relation in {75, 57, 95, 59}
      modifies this
      ensures Correct(w, s, res)
    {
      hide Segment.XAt, Segment.YAt, Segment.Side;
      match relation {
        case 75 =>
          res := CutAbXmin(w, s);
          if !res { res := CutAbYmax(w, s); }
        case 57 =>
          res := CutCdXmin(w, s);
          if !res { res := CutCdYmax(w, s); }
        case 95 =>
          res := CutAbXmax(w, s);
          if !res { res := CutAbYmax(w, s); }
        case _ =>
          res := CutCdXmax(w, s);
          if !res { res := CutCdYmax(w, s); }
      }
    }

    /** The other end is beyond a corner. */
    method CheckCorner(w: Window, s: Segment, relation: int) returns (res: bool)
      requires w.Proper() && Known(w, s) && Whole(s) && relation == w.Quadrant(s.a, s.b) * 10 + w.Quadrant(s.c, s.d)
      requires relation in {15, 51, 35, 53, 75, 57, 95, 59}
      modifies this
      ensures Correct(w, s, res)
    {
      hide *;
      if relation in {15, 51, 35, 53} {
        res := CheckUpperCorner(w, s, relation);
      } else {
        res := CheckLowerCorner(w, s, relation);
      }
    }

    /** The cases of check_visible in which one end is visible. */
    method CheckInner(w: Window, s: Segment, relation: int) returns (res: bool)
      requires w.Proper() && Known(w, s) && Whole(s) && relation == w.Quadrant(s.a, s.b) * 10 + w.Quadrant(s.c, s.d)
      requires relation in {25, 52, 85, 58, 45, 54, 65, 56, 15, 51, 35, 53, 75, 57, 95, 59}
      modifies this
      ensures Correct(w, s, res)
    {
      hide *;
      if relation in {25, 52, 85, 58, 45, 54, 65, 56} {
        res := CheckBorder(w, s, relation);
      } else {
        res := CheckCorner(w, s, relation);
      }
    }

    /** One of the ends is below. */
    method CheckNextBelow(w: Window, s: Segment, relation: int) returns (res: bool)
      requires w.Proper() && Known(w, s) && Whole(s) && relation == w.Quadrant(s.a, s.b) * 10 + w.Quadrant(s.c, s.d)
      requires relation in {48, 84, 68, 86}
      modifies this
      ensures Correct(w, s, res)
    {
      hide Segment.XAt, Segment.YAt, Segment.Side;
      match relation {
        case 48 =>
          res := CutAbXmin(w, s);
          if res { res := CutCdYmax(w, s); }
        case 84 =>
          res := CutCdXmin(w, s);
          if res { res := CutAbYmax(w, s); }
        case 68 =>
          res := CutAbXmax(w, s);
          if res { res := CutCdYmax(w, s); }
        case _ =>
          res := CutCdXmax(w, s);
          if res { res := CutAbYmax(w, s); }
      }
    }

    /** One of the ends is above. */
    method CheckNextAbove(w: Window, s: Segment, relation: int) returns (res: bool)
      requires w.Proper() && Known(w, s) && Whole(s) && relation == w.Quadrant(s.a, s.b) * 10 + w.Quadrant(s.c, s.d)
      requires relation in {24, 42, 26, 62}
      modifies this
      ensures Correct(w, s, res)
    {
      hide Segment.XAt, Segment.YAt, Segment.Side;
      match relation {
        case 24 =>
          res := CutCdXmin(w, s);
          if res { res := CutAbYmin(w, s); }
        case 42 =>
          res := CutAbXmin(w, s);
          if res { res := CutCdYmin(w, s); }
        case 26 =>
          res := CutCdXmax(w, s);
          if res { res := CutAbYmin(w, s); }
        case _ =>
          res := CutAbXmax(w, s);
          if res { res := CutCdYmin(w, s); }
      }
    }

    /** The cases of check_visible in which the ends are beyond neighbouring borders. */
    method CheckNextSides(w: Window, s: Segment, relation: int) returns (res: bool)
      requires w.Proper() && Known(w, s) && Whole(s) && relation == w.Quadrant(s.a, s.b) * 10 + w.Quadrant(s.c, s.d)
      requires relation in {48, 84, 68, 86, 24, 42, 26, 62}
      modifies this
      ensures Correct(w, s, res)
    {
      hide *;
      if relation in {48, 84, 68, 86} {
        res := CheckNextBelow(w, s, relation);
      } else {
        res := CheckNextAbove(w, s, relation);
      }
    }

    /** From below to an upper corner. */
    method CheckUprightDown(w: Window, s: Segment, relation: int) returns (res: bool)
      requires w.Proper() && Known(w, s) && Whole(s) && relation == w.Quadrant(s.a, s.b) * 10 + w.Quadrant(s.c, s.d)
      requires relation in {18, 81, 38, 83}
      modifies this
      ensures Correct(w, s, res)
    {
      hide Segment.XAt, Segment.YAt, Segment.Side;
      match relation {
        case 18 =>
          res := CutCdYmax(w, s);
          if res {
            res := CutAbXmin(w, s);
            if !res { res := CutAbYmin(w, s); }
          }
        case 81 =>
          res := CutAbYmax(w, s);
          if res {
            res := CutCdXmin(w, s);
            if !res { res := CutCdYmin(w, s); }
          }
        case 38 =>
          res := CutCdYmax(w, s);
          if res {
            res := CutAbXmax(w, s);
            if !res { res := CutAbYmin(w, s); }
          }
        case _ =>
          res := CutAbYmax(w, s);
          if res {
            res := CutCdXmax(w, s);
            if !res { res := CutCdYmin(w, s); }
          }
      }
    }

    /** From above to a lower corner. */
    method CheckUprightUp(w: Window, s: Segment, relation: int) returns (res: bool)
      requires w.Proper() && Known(w, s) && Whole(s) && relation == w.Quadrant(s.a, s.b) * 10 + w.Quadrant(s.c, s.d)
      requires relation in {27, 72, 29, 92}
      modifies this
      ensures Correct(w, s, res)
    {
      hide Segment.XAt, Segment.YAt, Segment.Side;
      match relation {
        case 27 =>
          res := CutAbYmin(w, s);
          if res {
            res := CutCdXmin(w, s);
            if !res { res := CutCdYmax(w, s); }
          }
        case 72 =>
          res := CutCdYmin(w, s);
          if res {
            res := CutAbXmin(w, s);
            if !res { res := CutAbYmax(w, s); }
          }
        case 29 =>
          res := CutAbYmin(w, s);
          if res {
            res := CutCdXmax(w, s);
            if !res { res := CutCdYmax(w, s); }
          }
        case _ =>
          res := CutCdYmin(w, s);
          if res {
            res := CutAbXmax(w, s);
            if !res { res := CutAbYmax(w, s); }
          }
      }
    }

    /** The cases of check_visible in which an end is above or below, the other beyond a corner. */
    method CheckUpright(w: Window, s: Segment, relation: int) returns (res: bool)
      requires w.Proper() && Known(w, s) && Whole(s) && relation == w.Quadrant(s.a, s.b) * 10 + w.Quadrant(s.c, s.d)
      requires relation in {18, 81, 38, 83, 27, 72, 29, 92}
      modifies this
      ensures Correct(w, s, res)
    {
      hide *;
      if relation in {18, 81, 38, 83} {
        res := CheckUprightDown(w, s, relation);
      } else {
        res := CheckUprightUp(w, s, relation);
      }
    }

    /** From the left to a right corner. */
    method CheckSidewaysLeft(w: Window, s: Segment, relation: int) returns (res: bool)
      requires w.Proper() && Known(w, s) && Whole(s) && relation == w.Quadrant(s.a, s.b) * 10 + w.Quadrant(s.c, s.d)
      requires relation in {43, 34, 49, 94}
      modifies this
      ensures Correct(w, s, res)
    {
      hide Segment.XAt, Segment.YAt, Segment.Side;
      match relation {
        case 43 =>
          res := CutAbXmin(w, s);
          if res {
            res := CutCdXmax(w, s);
            if !res { res := CutCdYmin(w, s); }
          }
        case 34 =>
          res := CutCdXmin(w, s);
          if res {
            res := CutAbXmax(w, s);
            if !res { res := CutAbYmin(w, s); }
          }
        case 49 =>
          res := CutAbXmin(w, s);
          if res {
            res := CutCdXmax(w, s);
            if !res { res := CutCdYmax(w, s); }
          }
        case _ =>
          res := CutCdXmin(w, s);
          if res {
            res := CutAbXmax(w, s);
            if !res { res := CutAbYmax(w, s); }
          }
      }
    }

    /** From the right to a left corner. */
    method CheckSidewaysRight(w: Window, s: Segment, relation: int) returns (res: bool)
      requires w.Proper() && Known(w, s) && Whole(s) && relation == w.Quadrant(s.a, s.b) * 10 + w.Quadrant(s.c, s.d)
      requires relation in {61, 16, 67, 76}
      modifies this
      ensures Correct(w, s, res)
    {
      hide Segment.XAt, Segment.YAt, Segment.Side;
      match relation {
        case 61 =>
          res := CutAbXmax(w, s);
          if res {
            res := CutCdXmin(w, s);
            if !res { res := CutCdYmin(w, s); }
          }
        case 16 =>
          res := CutCdXmax(w, s);
          if res {
            res := CutAbXmin(w, s);
            if !res { res := CutAbYmin(w, s); }
          }
        case 67 =>
          res := CutAbXmax(w, s);
          if res {
            res := CutCdXmin(w, s);
            if !res { res := CutCdYmax(w, s); }
          }
        case _ =>
          res := CutCdXmax(w, s);
          if res {
            res := CutAbXmin(w, s);
            if !res { res := CutAbYmax(w, s); }
          }
      }
    }

    /** The cases of check_visible in which an end is left or right, the other beyond a corner. */
    method CheckSideways(w: Window, s: Segment, relation: int) returns (res: bool)
      requires w.Proper() && Known(w, s) && Whole(s) && relation == w.Quadrant(s.a, s.b) * 10 + w.Quadrant(s.c, s.d)
      requires relation in {43, 34, 49, 94, 61, 16, 67, 76}
      modifies this
      ensures Correct(w, s, res)
    {
      hide *;
      if relation in {43, 34, 49, 94} {
        res := CheckSidewaysLeft(w, s, relation);
      } else {
        res := CheckSidewaysRight(w, s, relation);
      }
    }

    /** From the upper left to the lower right corner. */
    method CheckFalling(w: Window, s: Segment, relation: int) returns (res: bool)
      requires w.Proper() && Known(w, s) && Whole(s) && relation == w.Quadrant(s.a, s.b) * 10 + w.Quadrant(s.c, s.d)
      requires relation in {19, 91}
      modifies this
      ensures Correct(w, s, res)
    {
      hide Segment.XAt, Segment.YAt, Segment.Side;
      match relation {
        case 19 =>
          res := CutAbXmin(w, s);
          if res {
            res := CutCdXmax(w, s);
            if !res { res := CutCdYmax(w, s); }
          } else {
            res := CutAbYmin(w, s);
            if res {
              res := CutCdXmax(w, s);
              if !res { res := CutCdYmax(w, s); }
            }
          }
        case _ =>
          res := CutCdXmin(w, s);
          if res {
            res := CutAbXmax(w, s);
            if !res { res := CutAbYmax(w, s); }
          } else {
            res := CutCdYmin(w, s);
            if res {
              res := CutAbXmax(w, s);
              if !res { res := CutAbYmax(w, s); }
            }
          }
      }
    }

    /** From the lower left to the upper right corner. */
    method CheckRising(w: Window, s: Segment, relation: int) returns (res: bool)
      requires w.Proper() && Known(w, s) && Whole(s) && relation == w.Quadrant(s.a, s.b) * 10 + w.Quadrant(s.c, s.d)
      requires relation in {37, 73}
      modifies this
      ensures Correct(w, s, res)
    {
      hide Segment.XAt, Segment.YAt, Segment.Side;
      match relation {
        case 37 =>
          res := CutAbXmax(w, s);
          if res {
            res := CutCdXmin(w, s);
            if !res { res := CutCdYmax(w, s); }
          } else {
            res := CutAbYmin(w, s);
            if res {
              res := CutCdXmin(w, s);
              if !res { res := CutCdYmax(w, s); }
            }
          }
        case _ =>
          res := CutCdXmax(w, s);
          if res {
            res := CutAbXmin(w, s);
            if !res { res := CutAbYmax(w, s); }
          } else {
            res := CutCdYmin(w, s);
            if res {
              res := CutAbXmin(w, s);
              if !res { res := CutAbYmax(w, s); }
            }
          }
      }
    }

    /** The cases of check_visible in which the ends are beyond opposite corners. */
    method CheckCorners(w: Window, s: Segment, relation: int) returns (res: bool)
      requires w.Proper() && Known(w, s) && Whole(s) && relation == w.Quadrant(s.a, s.b) * 10 + w.Quadrant(s.c, s.d)
      requires relation in {19, 91, 37, 73}
      modifies this
      ensures Correct(w, s, res)
    {
      hide *;
      if relation in {19, 91} {
        res := CheckFalling(w, s, relation);
      } else {
        res := CheckRising(w, s, relation);
      }
    }

    method CheckUpDown(w: Window, s: Segment, relation: int) returns (res: bool)
      requires w.Proper() && Known(w, s) && Whole(s) && relation == w.Quadrant(s.a, s.b) * 10 + w.Quadrant(s.c, s.d)
      requires relation in {28, 82}
      modifies this
      ensures Correct(w, s, res)
    {
      hide Segment.XAt, Segment.YAt, Segment.Side;
      if relation == 28 {
        res := CutAbYmin(w, s);
        res := CutCdYmax(w, s);
      } else {
        res := CutCdYmin(w, s);
        res := CutAbYmax(w, s);
      }
    }

    method CheckLeftRight(w: Window, s: Segment, relation: int) returns (res: bool)
      requires w.Proper() && Known(w, s) && Whole(s) && relation == w.Quadrant(s.a, s.b) * 10 + w.Quadrant(s.c, s.d)
      requires relation in {64, 46}
      modifies this
      ensures Correct(w, s, res)
    {
      hide Segment.XAt, Segment.YAt, Segment.Side;
      if relation == 64 {
        res := CutCdXmin(w, s);
        res := CutAbXmax(w, s);
      } else {
        res := CutAbXmin(w, s);
        res := CutCdXmax(w, s);
      }
    }

    /** The cases of check_visible in which the ends are beyond opposite borders. */
    method CheckStraight(w: Window, s: Segment, relation: int) returns (res: bool)
      requires w.Proper() && Known(w, s) && Whole(s) && relation == w.Quadrant(s.a, s.b) * 10 + w.Quadrant(s.c, s.d)
      requires relation in {28, 82, 64, 46}
      modifies this
      ensures Correct(w, s, res)
    {
      hide *;
      if relation in {28, 82} {
        res := CheckUpDown(w, s, relation);
      } else {
        res := CheckLeftRight(w, s, relation);
      }
    }

    /** check_visible: if it returns 1, the ends lie in the window, in the direction of the
        line; if it returns 0, no point of the line is visible. */
    method CheckVisible(w: Window, s: Segment, fisheyeView: bool) returns (res: bool)
      requires w.Proper()
      modifies this
      ensures fisheyeView ==> res && Whole(s)
      ensures !fisheyeView && res ==> Clipped(w, s, x1, y1, x2, y2)
      ensures !res ==> !Meets(w, s)
    {
      x1, y1, x2, y2 := s.a, s.b, s.c, s.d;
      if fisheyeView { return true; }
      var qab, qcd := w.Quadrant(s.a, s.b), w.Quadrant(s.c, s.d);
      if qcd == 5 && qab == 5 { return true; }
      AllIsKnown(w, s);
      hide Segment.XAt, Segment.YAt, Segment.Side, Meets;
      var relation := qab * 10 + qcd;
      if relation in {25, 52, 85, 58, 45, 54, 65, 56, 15, 51, 35, 53, 75, 57, 95, 59} {
        res := CheckInner(w, s, relation);
      } else if relation in {48, 84, 68, 86, 24, 42, 26, 62} {
        res := CheckNextSides(w, s, relation);
      } else if relation in {18, 81, 38, 83, 27, 72, 29, 92} {
        res := CheckUpright(w, s, relation);
      } else if relation in {43, 34, 49, 94, 61, 16, 67, 76} {
        res := CheckSideways(w, s, relation);
      } else if relation in {19, 91, 37, 73} {
        res := CheckCorners(w, s, relation);
      } else if relation in {28, 82, 64, 46} {
        res := CheckStraight(w, s, relation);
      } else {
        res := false;
      }
      if !res { Misses(w, s); }
    }
  }
}
