/** The table of calc_cscf_parameters (fisheye.c), which inverts the map of the fisheye. */
module FisheyeTable {
  import opened Fisheye

  const SHRT_MAX := 32767

  /** x is a coordinate of the graph that fits the table. */
  predicate InTable(a: Axis, x: int) {
    0 <= x <= a.gmax && x < COORD_HASHSIZE
  }

  /** The number of entries that are filled. */
  function Filled(a: Axis): int {
    if a.gmax + 1 > COORD_HASHSIZE then COORD_HASHSIZE else a.gmax + 1
  }

  /** The screen coordinates that the table knows. */
  predicate Scanned(a: Axis, i: int) {
    a.smin < a.smax && a.smin <= i <= a.smax
  }

  /** i is shown at or before x, but in the graph. */
  predicate AtOrBefore(a: Axis, i: int, x: int) {
    Scanned(a, i) && 0 <= a.ToGraph(i) <= x
  }

  /** b is the greatest screen coordinate that shows x or something before x; 0 if there is none. */
  ghost predicate IsInverse(a: Axis, x: int, b: int)
  {
    && (AtOrBefore(a, b, x) || (b == 0 && forall i :: Scanned(a, i) ==> !AtOrBefore(a, i, x)))
    && forall i :: Scanned(a, i) && i > b ==> !AtOrBefore(a, i, x)
  }

  /** v is the greatest coordinate below `hi` that shows exactly x; 0 if there is none. */
  ghost predicate IsLast(a: Axis, x: int, hi: int, v: int)
  {
    && (v == 0 || (a.smin <= v < hi && Scanned(a, v) && a.ToGraph(v) == x))
    && forall i :: a.smin <= i < hi && Scanned(a, i) && i > v ==> a.ToGraph(i) != x
  }

  /** The first two loops: every entry gets the last coordinate that shows it. */
  method RecordCoordinates(a: Axis, hash: array<int>)
    requires hash.Length == COORD_HASHSIZE && 0 <= a.smin && a.smax <= SHRT_MAX
    modifies hash
    ensures forall x :: InTable(a, x) ==> IsLast(a, x, a.smax + 1, hash[x])
  {
    var t := Filled(a);
    for i := 0 to if t > 0 then t else 0
      invariant forall x :: 0 <= x < i ==> hash[x] == 0
    {
      hash[i] := 0;
    }
    if a.smin < a.smax {
      for i := a.smin to a.smax + 1
        invariant forall x :: 0 <= x < t ==> IsLast(a, x, i, hash[x])
      {
        var s := a.ToGraph(i);
        if 0 <= s < COORD_HASHSIZE { hash[s] := i; }
        forall x | 0 <= x < t ensures IsLast(a, x, i + 1, hash[x]) {
          LastStep(a, x, i, if x == s then 0 else hash[x], hash[x]);
        }
      }
    }
  }

  lemma LastStep(a: Axis, x: int, i: int, v: int, w: int)
    requires 0 <= a.smin <= i <= a.smax && a.smin < a.smax
    requires if a.ToGraph(i) == x then w == i else w == v && IsLast(a, x, i, v)
    ensures IsLast(a, x, i + 1, w)
  {
  }

  /** b is the last screen coordinate that shows the nearest position up to x that is shown at
      all; 0 if there is none. The coordinate 0 itself counts as none. */
  ghost predicate IsNearest(a: Axis, x: int, b: int)
  {
    if b == 0 then forall i :: Scanned(a, i) && i > 0 ==> !AtOrBefore(a, i, x)
    else b > 0 && AtOrBefore(a, b, x)
         && forall i :: i > 0 && AtOrBefore(a, i, x) && a.ToGraph(b) <= a.ToGraph(i) ==>
              a.ToGraph(i) == a.ToGraph(b) && i <= b
  }

  /** What the last loop does with one entry. */
  lemma EntryIsNearest(a: Axis, x: int, last: int, k: int)
    requires 0 <= a.smin && x >= 0 && IsLast(a, x, a.smax + 1, last)
    requires if x == 0 then k == last else IsNearest(a, x - 1, k)
    ensures IsNearest(a, x, if last == 0 then k else last)
  {
    forall i | Scanned(a, i) && i > 0 && AtOrBefore(a, i, x)
      ensures if last == 0 then x > 0 && AtOrBefore(a, i, x - 1) else a.ToGraph(i) == x ==> i <= last
    {
    }
    if last == 0 && x > 0 && k > 0 { assert AtOrBefore(a, k, x); }
  }

  /** Where the map is monotone the table is its inverse. */
  lemma NearestIsInverse(a: Axis, x: int, b: int)
    requires 0 <= a.smin && Monotone(a, a.smin, a.smax) && IsNearest(a, x, b)
    ensures IsInverse(a, x, b)
  {
    if b == 0 {
      forall i | Scanned(a, i) && i != 0 ensures !AtOrBefore(a, i, x) {}
    } else {
      forall i | Scanned(a, i) && i > b ensures !AtOrBefore(a, i, x) {
        assert a.ToGraph(b) <= a.ToGraph(i);
      }
    }
  }

  /** The part of calc_cscf_parameters that fills a table. */
  method FillTable(a: Axis, hash: array<int>)
    requires hash.Length == COORD_HASHSIZE && 0 <= a.smin && a.smax <= SHRT_MAX && a.gmax >= 0
    modifies hash
    ensures forall x :: InTable(a, x) ==> IsNearest(a, x, hash[x])
  {
    hide IsNearest, IsLast;
    RecordCoordinates(a, hash);
    var t := Filled(a);
    var k := hash[0];
    for i := 0 to t
      invariant forall x :: 0 <= x < i ==> IsNearest(a, x, hash[x])
      invariant forall x :: i <= x < t ==> IsLast(a, x, a.smax + 1, hash[x])
      invariant if i == 0 then k == hash[0] else IsNearest(a, i - 1, k)
    {
      EntryIsNearest(a, i, hash[i], k);
      if hash[i] == 0 { hash[i] := k; } else { k := hash[i]; }
    }
  }

  /** calc_cscf_parameters for one axis: the assertions of normalize_fe_parameters hold, and
      the table is the inverse of the map if the edges of the screen fit. */
  method CalcParameters(a0: Axis, hash: array<int>) returns (a: Axis)
    requires a0.Proper() && hash.Length == COORD_HASHSIZE
    requires 0 <= a0.smin && a0.smax <= SHRT_MAX && a0.gmax >= 0
    modifies hash
    ensures var p := WithParameters(a0);
      p.rp1 > 0 && p.rp2 != 0 && p.lp1 > 0 && p.lp2 != 0 && a == Normalized(p)
    ensures forall x :: InTable(a, x) ==> IsNearest(a, x, hash[x])
    ensures EdgesFit(a) ==> forall x :: InTable(a, x) ==> IsInverse(a, x, hash[x])
  {
    hide NormalizedSide, EdgesFit, Monotone, IsNearest, IsInverse;
    NormalizedIsMonotoneIff(a0);
    a := WithParameters(a0);
    assert a.rp1 > 0 && a.lp1 > 0;
    a := Normalized(a);
    FillTable(a, hash);
    if EdgesFit(a) {
      forall x | InTable(a, x) ensures IsInverse(a, x, hash[x]) { NearestIsInverse(a, x, hash[x]); }
    }
  }

  /** Looking up what a screen coordinate shows gives a coordinate that shows the same, whether
      the map is monotone or not. */
  lemma LookupShowsTheSame(a: Axis, i: int, b: int)
    requires 0 <= a.smin < a.smax && a.OnScreen(i) && a.ToGraph(i) >= 0 && (i > 0 || Monotone(a, a.smin, a.smax))
    requires IsNearest(a, a.ToGraph(i), b)
    ensures a.OnScreen(b) && i <= b && a.ToGraph(b) == a.ToGraph(i)
  {
    assert AtOrBefore(a, i, a.ToGraph(i));
  }
}
