/** The drawing of solid lines (drawlib.c, gs_arroworientation and gs_mysolidline). */
module SolidLines {
  import opened GraphTypes
  import opened Clipping
  import opened LineClipping

  datatype Orientation = North | South | West | East | SouthEast | NorthWest | SouthWest | NorthEast

  /** gs_arroworientation. The cases that the source provides for overflowing products do not
      occur. */
  function ArrowOrientation(x1: int, y1: int, x2: int, y2: int): (r: Orientation)
    ensures r in {East, SouthEast, NorthEast} ==> x1 <= x2
    ensures r in {West, SouthWest, NorthWest} ==> x2 < x1
    ensures r in {South, SouthEast, SouthWest} ==> y1 < y2
    ensures r in {North, NorthEast, NorthWest} ==> y2 < y1
    ensures r in {East, West} <==> 10 * Abs(y2 - y1) <= 4 * Abs(x2 - x1)
    ensures r in {North, South} <==>
            10 * Abs(x2 - x1) <= 4 * Abs(y2 - y1) && !(10 * Abs(y2 - y1) <= 4 * Abs(x2 - x1))
  {
    var deltaX, deltaY := x2 - x1, y2 - y1;
    var absX, absY := Abs(deltaX), Abs(deltaY);
    if 10 * absY <= 4 * absX then (if deltaX < 0 then West else East)
    else if 10 * absX <= 4 * absY then (if deltaY < 0 then North else South)
    else if deltaY < 0 && deltaX > 0 then NorthEast
    else if deltaY < 0 && deltaX < 0 then NorthWest
    else if deltaY > 0 && deltaX > 0 then SouthEast
    else if deltaY > 0 && deltaX < 0 then SouthWest
    else assert false; North
  }

  /** A call of one of the four functions that draw lines in one direction. */
  datatype Call =
    | SoLine(x1: int, y1: int, x2: int, y2: int)
    | WeLine(x1: int, y1: int, x2: int, y2: int)
    | SeLine(x1: int, y1: int, x2: int, y2: int)
    | SwLine(x1: int, y1: int, x2: int, y2: int)
  {
    /** The assertions at the beginning of gs_sosolidline, gs_wesolidline, gs_sesolidline
        and gs_swsolidline. */
    predicate AssertsHold()
    {
      match this
      case SoLine(x1, y1, x2, y2) => y2 >= y1
      case WeLine(x1, y1, x2, y2) => x2 <= x1
      case SeLine(x1, y1, x2, y2) => y2 >= y1 && x2 >= x1
      case SwLine(x1, y1, x2, y2) => y2 >= y1 && x2 <= x1
    }

  }

  /** c draws the clipped part of s, or all of s in a fisheye view. */
  ghost predicate IsLine(c: Call, w: Window, s: Segment, fisheyeView: bool)
  {
    if fisheyeView then s == Segment(c.x1, c.y1, c.x2, c.y2) else Clipped(w, s, c.x1, c.y1, c.x2, c.y2)
  }

  /** The function that draws lines of this orientation, with its arguments. */
  function CallFor(ori: Orientation, x1: int, y1: int, x2: int, y2: int): Call
  {
    match ori
    case North => SoLine(x1, y1, x2, y2)
    case South => SoLine(x1, y1, x2, y2)
    case West => WeLine(x1, y1, x2, y2)
    case East => WeLine(x1, y1, x2, y2)
    case SouthEast => SeLine(x1, y1, x2, y2)
    case NorthWest => SeLine(x1, y1, x2, y2)
    case SouthWest => SwLine(x1, y1, x2, y2)
    case NorthEast => SwLine(x1, y1, x2, y2)
  }

  /** Lines that rise or fall by at most 4 in 10 are drawn by the function for flat lines, those
      that do so in the other direction by the one for steep lines, and the others by the one for
      their diagonal. */
  lemma FunctionBySlope(x1: int, y1: int, x2: int, y2: int, a: int, b: int, c: int, d: int)
    ensures var call := CallFor(ArrowOrientation(x1, y1, x2, y2), a, b, c, d);
      var flat := 10 * Abs(y2 - y1) <= 4 * Abs(x2 - x1);
      var steep := !flat && 10 * Abs(x2 - x1) <= 4 * Abs(y2 - y1);
      && (call == WeLine(a, b, c, d) <==> flat) && (call == SoLine(a, b, c, d) <==> steep)
      && (call == SeLine(a, b, c, d) <==> !flat && !steep && (x1 < x2 <==> y1 < y2))
      && (call == SwLine(a, b, c, d) <==> !flat && !steep && (x1 < x2 <==> y2 < y1))
  {
  }

  /** The drawing functions, up to their assertions. */
  method Draw(c: Call) returns (drawn: Option<Call>)
    requires c.AssertsHold()
    ensures drawn == Some(c)
  {
    drawn := Some(c);
  }

  lemma MeetsBackwards(w: Window, s: Segment)
    requires Meets(w, Segment(s.c, s.d, s.a, s.b))
    ensures Meets(w, s)
  {
    var r := Segment(s.c, s.d, s.a, s.b);
    var t: real :| 0.0 <= t <= 1.0 && Inside(w, PointX(r, t), PointY(r, t));
    PointBackwards(s, t);
    assert Inside(w, PointX(s, 1.0 - t), PointY(s, 1.0 - t));
  }

  lemma PointBackwards(s: Segment, t: real)
    ensures PointX(Segment(s.c, s.d, s.a, s.b), t) == PointX(s, 1.0 - t)
    ensures PointY(Segment(s.c, s.d, s.a, s.b), t) == PointY(s, 1.0 - t)
  {
    assert t * (s.a - s.c) as real == -(t * (s.c - s.a) as real);
    assert t * (s.b - s.d) as real == -(t * (s.d - s.b) as real);
  }

  /** The line as gs_mysolidline hands it on: from north to south, or from east to west. */
  function Directed(x1: int, y1: int, x2: int, y2: int): (s: Segment)
    ensures s.a >= s.c || s.b <= s.d
  {
    if ArrowOrientation(x1, y1, x2, y2) in {South, West, SouthEast, SouthWest} then Segment(x1, y1, x2, y2)
    else Segment(x2, y2, x1, y1)
  }

  /** The clipping that gs_mysolidline, gs_mydashedline and gs_mydottedline begin with:
      whatever the ends of the line are, the assertions of the function for its orientation
      hold for the clipped line; and if there is none, nothing is visible. */
  method ClipDirected(g: Clipper, w: Window, fisheyeView: bool, x1: int, y1: int, x2: int, y2: int)
    returns (visible: bool)
    requires w.Proper()
    modifies g
    ensures visible ==>
      var c := CallFor(ArrowOrientation(x1, y1, x2, y2), g.x1, g.y1, g.x2, g.y2);
      c.AssertsHold() && IsLine(c, w, Directed(x1, y1, x2, y2), fisheyeView)
    ensures !visible ==> !fisheyeView && !Meets(w, Segment(x1, y1, x2, y2))
  {
    hide Meets, Replaces;
    var s := Directed(x1, y1, x2, y2);
    NotBackwards(w, s);
    visible := g.CheckVisible(w, s, fisheyeView);
  }

  /** gs_mysolidline: no assertion fails; what is drawn is the clipped line, by the function
      for its orientation, and if nothing is drawn, nothing is visible. */
  method MySolidLine(g: Clipper, w: Window, fisheyeView: bool, x1: int, y1: int, x2: int, y2: int)
    returns (drawn: Option<Call>)
    requires w.Proper()
    modifies g
    ensures drawn.Some? ==>
      && drawn.value.AssertsHold() && IsLine(drawn.value, w, Directed(x1, y1, x2, y2), fisheyeView)
      && drawn.value == CallFor(ArrowOrientation(x1, y1, x2, y2), g.x1, g.y1, g.x2, g.y2)
    ensures drawn == None ==> !fisheyeView && !Meets(w, Segment(x1, y1, x2, y2))
  {
    hide IsLine, Meets, Call.AssertsHold, ArrowOrientation;
    drawn := None;
    var visible := ClipDirected(g, w, fisheyeView, x1, y1, x2, y2);
    if visible {
      match ArrowOrientation(x1, y1, x2, y2) {
        case North => drawn := Draw(SoLine(g.x1, g.y1, g.x2, g.y2));
        case South => drawn := Draw(SoLine(g.x1, g.y1, g.x2, g.y2));
        case West => drawn := Draw(WeLine(g.x1, g.y1, g.x2, g.y2));
        case East => drawn := Draw(WeLine(g.x1, g.y1, g.x2, g.y2));
        case SouthEast => drawn := Draw(SeLine(g.x1, g.y1, g.x2, g.y2));
        case NorthWest => drawn := Draw(SeLine(g.x1, g.y1, g.x2, g.y2));
        case SouthWest => drawn := Draw(SwLine(g.x1, g.y1, g.x2, g.y2));
        case NorthEast => drawn := Draw(SwLine(g.x1, g.y1, g.x2, g.y2));
      }
    }
  }

  lemma NotBackwards(w: Window, s: Segment)
    ensures !Meets(w, s) ==> !Meets(w, Segment(s.c, s.d, s.a, s.b))
  {
    if Meets(w, Segment(s.c, s.d, s.a, s.b)) { MeetsBackwards(w, s); }
  }
}
