/** The edges that are drawn: refresh, substed_edge and create_adjacencies (folding.c)
    build the quotient of the graph under "is represented by". */
module Quotient {
  import opened Chains
  import opened GraphTypes
  import opened NodeVisibility
  import opened SearchVisible
  import opened Adjacency

  /** Both ends of e are visible. */
  ghost predicate Drawable(h: Hiding, e: Edge)
  {
    e.start in h.vis && e.end in h.vis && h.vis[e.start] == 0 && h.vis[e.end] == 0
  }

  /** The search for a representative returns for both ends of e. */
  ghost predicate Resolved(h: Hiding, f: nat, e: Edge)
  {
    Search(h, e.start, f).Some? && Search(h, e.end, f).Some?
  }

  ghost function Rep(h: Hiding, f: nat, x: Node): Node?
    requires Search(h, x, f).Some?
  {
    Search(h, x, f).value
  }

  /** e is not drawn but stands for an edge between two different representatives. */
  ghost predicate Induces(h: Hiding, f: nat, e: Edge)
    requires Resolved(h, f, e)
  {
    !Drawable(h, e) && Rep(h, f, e.start) != null && Rep(h, f, e.end) != null && Rep(h, f, e.start) != Rep(h, f, e.end)
  }

  ghost function Drawn(h: Hiding, es: seq<Edge>): set<Edge>
  {
    set e | e in es && Drawable(h, e)
  }

  /** The pairs of representatives that the edges es induce. */
  ghost function Induced(h: Hiding, f: nat, es: seq<Edge>): set<(Node, Node)>
    requires forall e :: e in es ==> Resolved(h, f, e)
  {
    if es == [] then {}
    else var e := es[|es| - 1];
      Induced(h, f, es[..|es| - 1]) + if Induces(h, f, e) then {(Rep(h, f, e.start), Rep(h, f, e.end))} else {}
  }

  ghost function Pairs(ts: seq<Edge>): set<(Node, Node)>
  {
    if ts == [] then {} else {(ts[0].start, ts[0].end)} + Pairs(ts[1..])
  }

  /** At most one edge for each ordered pair of nodes. */
  ghost predicate OnePerPair(ts: seq<Edge>)
  {
    forall i, j :: 0 <= i < j < |ts| ==> (ts[i].start, ts[i].end) != (ts[j].start, ts[j].end)
  }

  lemma {:induction false} PairsMeaning(ts: seq<Edge>, s: Node, t: Node)
    ensures (s, t) in Pairs(ts) <==> exists x :: x in ts && x.start == s && x.end == t
  {
    if ts != [] {
      PairsMeaning(ts[1..], s, t);
      if x :| x in ts && x.start == s && x.end == t { assert x == ts[0] || x in ts[1..]; }
      assert ts[0] in ts;
    }
  }

  lemma {:induction false} InducedMeaning(h: Hiding, f: nat, es: seq<Edge>, s: Node, t: Node)
    requires forall e :: e in es ==> Resolved(h, f, e)
    ensures (s, t) in Induced(h, f, es) <==>
            exists e :: e in es && Induces(h, f, e) && Rep(h, f, e.start) == s && Rep(h, f, e.end) == t
  {
    if es != [] {
      var l := es[|es| - 1];
      InducedMeaning(h, f, es[..|es| - 1], s, t);
      if e :| e in es && Induces(h, f, e) && Rep(h, f, e.start) == s && Rep(h, f, e.end) == t {
        assert e == l || e in es[..|es| - 1];
      }
      assert l in es;
    }
  }

  lemma {:induction false} FoundIsVisible(h: Hiding, v: Node?, f: nat)
    requires Search(h, v, f).Some?
    ensures var r := Search(h, v, f).value; r != null ==> r in h.vis && h.vis[r] == 0
  {
    if v != null && v in h.vis && h.vis[v] != 0 {
      if h.vis[v] == UNFOLDED_SGRAPH {
        FoundIsVisible(h, if h.vis[h.first[v]] == FOLDED_SGNODE then v.root else h.first[v], f - 1);
      } else if h.vis[v] == FOLDED_SGNODE {
        FoundIsVisible(h, v.root, f - 1);
      } else if h.vis[v] == FOLDED_RGNODE {
        FoundIsVisible(h, h.regroot[v], f - 1);
      }
    }
  }

  /** The attributes of a substitute: those of the edge, overridden by the given ones of
      the fold edge (inherit_foldedge_attributes; -1 and NULL mean "not given"). */
  function FoldedAttrs(fe: EdgeAttrs, e: EdgeAttrs): (r: EdgeAttrs)
    ensures InheritsEdge(fe, e, r)
  {
    EdgeAttrs(
      if fe.text.Some? then fe.text else None,
      Given(fe.lstyle, e.lstyle), Given(fe.thickness, e.thickness), Given(fe.eclass, e.eclass),
      Given(fe.prio, e.prio), Given(fe.horder, e.horder), Given(fe.color, e.color),
      Given(fe.labelcol, e.labelcol), Given(fe.arrowsize, e.arrowsize), Given(fe.arrowbsize, e.arrowbsize),
      Given(fe.arrowstyle, e.arrowstyle), Given(fe.arrowbstyle, e.arrowbstyle),
      Given(fe.arrowcol, e.arrowcol), Given(fe.arrowbcol, e.arrowbcol))
  }

  function Given(d: int, x: int): int {
    if d != -1 then d else x
  }

  /** y is d where that is given, and x otherwise. */
  predicate TakesGiven(d: int, x: int, y: int)
  {
    (d != -1 ==> y == d) && (d == -1 ==> y == x)
  }

  /** Every attribute of r is that of the fold edge, where given, and otherwise that of e. The
      label is only that of the fold edge. */
  predicate InheritsEdge(fe: EdgeAttrs, e: EdgeAttrs, r: EdgeAttrs)
  {
    && r.text == fe.text
    && TakesGiven(fe.lstyle, e.lstyle, r.lstyle) && TakesGiven(fe.thickness, e.thickness, r.thickness)
    && TakesGiven(fe.eclass, e.eclass, r.eclass) && TakesGiven(fe.prio, e.prio, r.prio)
    && TakesGiven(fe.horder, e.horder, r.horder) && TakesGiven(fe.color, e.color, r.color)
    && TakesGiven(fe.labelcol, e.labelcol, r.labelcol)
    && TakesGiven(fe.arrowsize, e.arrowsize, r.arrowsize) && TakesGiven(fe.arrowbsize, e.arrowbsize, r.arrowbsize)
    && TakesGiven(fe.arrowstyle, e.arrowstyle, r.arrowstyle)
    && TakesGiven(fe.arrowbstyle, e.arrowbstyle, r.arrowbstyle)
    && TakesGiven(fe.arrowcol, e.arrowcol, r.arrowcol) && TakesGiven(fe.arrowbcol, e.arrowbcol, r.arrowbcol)
  }

  /** t looks as a substitute of e must: its attributes are inherited, and so is the anchor, if t
      starts where e does. */
  predicate LooksLike(fe: EdgeAttrs, e: Edge, t: Edge)
  {
    InheritsEdge(fe, e.attrs, t.attrs) && t.anchor == if e.start == t.start then e.anchor else 0
  }

  /** The fold edge gives nothing. */
  predicate GivesNothing(fe: EdgeAttrs)
  {
    fe == EdgeAttrs(None, -1, -1, -1, -1, -1, -1, -1, -1, -1, -1, -1, -1, -1)
  }

  /** If nothing is given, a substitute has the attributes of its edge, but no label; the
      attributes of a substitute of a substitute are those of the substitute itself. */
  lemma InheritedTwice(fe: EdgeAttrs, e: EdgeAttrs, r: EdgeAttrs, r': EdgeAttrs)
    requires InheritsEdge(fe, e, r) && InheritsEdge(fe, r, r')
    ensures r' == r && (GivesNothing(fe) ==> r == e.(text := None))
  {
  }

  /** The scan of tmpedgelist in substed_edge. */
  method FindSubstitute(ts: seq<Edge>, s: Node, t: Node) returns (r: Edge?)
    ensures r == null ==> (s, t) !in Pairs(ts)
    ensures r != null ==> r in ts && r.start == s && r.end == t && (s, t) in Pairs(ts)
  {
    var i := 0;
    while i < |ts|
      invariant 0 <= i <= |ts|
      invariant (s, t) in Pairs(ts) <==> (s, t) in Pairs(ts[i..])
    {
      if ts[i].start == s && ts[i].end == t { return ts[i]; }
      assert ts[i..][1..] == ts[i + 1..];
      i := i + 1;
    }
    r := null;
  }

  /** The last part of substed_edge: the substitute of e between ss and tt, found or new. */
  method Substitute(g: Vcg, e: Edge, ss: Node, tt: Node) returns (r: Edge)
    modifies g`tmpedgelist
    ensures r.start == ss && r.end == tt
    ensures if (ss, tt) in Pairs(old(g.tmpedgelist))
            then r in old(g.tmpedgelist) && g.tmpedgelist == old(g.tmpedgelist)
            else g.tmpedgelist == [r] + old(g.tmpedgelist) && fresh(r) && !r.invisible
                 && LooksLike(g.foldedge, e, r)
  {
    var h := FindSubstitute(g.tmpedgelist, ss, tt);
    if h != null { return h; }
    r := new Edge(ss, tt, FoldedAttrs(g.foldedge, e.attrs), if e.start == ss then e.anchor else 0);
    g.tmpedgelist := [r] + g.tmpedgelist;
  }

  /** Only a visible node is found, and a visible node is its own representative. */
  lemma VisibleFindsItself(g: Vcg, v: Node, f: nat)
    requires g.ListsOk() && v in g.nodes && Search(HidingOf(g), v, f).Some?
    ensures var h, r := HidingOf(g), Search(HidingOf(g), v, f).value;
            && v in h.vis && (v.inlist <==> h.vis[v] == 0) && (v.inlist <==> r == v)
            && (r != null ==> r in h.vis && h.vis[r] == 0)
  {
    assert g.FlagsOk(v);
    FoundIsVisible(HidingOf(g), v, f);
  }

  /** substed_edge. */
  method SubstedEdge(g: Vcg, e: Edge, ghost f: nat) returns (r: Edge?)
    requires g.ListsOk() && e.start in g.nodes && e.end in g.nodes && Resolved(HidingOf(g), f, e)
    modifies g`tmpedgelist, e`invisible
    ensures old(e.invisible) ==> r == null && e.invisible && g.tmpedgelist == old(g.tmpedgelist)
    ensures !old(e.invisible) ==> e.invisible == !Drawable(HidingOf(g), e)
    ensures !old(e.invisible) && Drawable(HidingOf(g), e) ==> r == e && g.tmpedgelist == old(g.tmpedgelist)
    ensures !old(e.invisible) && !Drawable(HidingOf(g), e) ==> (r != null <==> Induces(HidingOf(g), f, e))
    ensures r == null ==> g.tmpedgelist == old(g.tmpedgelist)
    ensures r != null && r != e ==>
              && !old(e.invisible) && Induces(HidingOf(g), f, e)
              && r.start == Rep(HidingOf(g), f, e.start) && r.end == Rep(HidingOf(g), f, e.end)
              && if (r.start, r.end) in Pairs(old(g.tmpedgelist))
                 then r in old(g.tmpedgelist) && g.tmpedgelist == old(g.tmpedgelist)
                 else g.tmpedgelist == [r] + old(g.tmpedgelist) && fresh(r) && !r.invisible
                      && LooksLike(g.foldedge, e, r)
    ensures r == e ==> !old(e.invisible) && Drawable(HidingOf(g), e)
  {
    hide Search, HidingOf, Vcg.ListsOk, Pairs;
    r := null;
    if !e.invisible {
      var s, t := e.start, e.end;
      VisibleFindsItself(g, s, f);
      VisibleFindsItself(g, t, f);
      if s.inlist && t.inlist {
        r := e;
      } else {
        e.invisible := true;
        var ss := Find(g, s, f);
        var tt := Find(g, t, f);
        if !(((ss != s || tt != t) && ss == tt) || ss == null || tt == null) {
          r := Substitute(g, e, ss, tt);
        }
      }
    }
  }

  /** refresh_all_nodes, as far as the adjacency lists are concerned. */
  method RefreshAllNodes(l: NodeList)
    requires l.Valid()
    modifies l.members`succ, l.members`pred
    ensures forall x :: x in l.members ==> x.succ == Empty() && x.pred == Empty()
  {
    var v := l.first;
    ghost var i := 0;
    while v != null
      invariant 0 <= i <= |l.elems| && v == if i < |l.elems| then l.elems[i] else null
      invariant forall k :: 0 <= k < i ==> l.elems[k].succ == Empty() && l.elems[k].pred == Empty()
      decreases |l.elems| - i
    {
      assert LinkedAt(l.elems, i);
      v.succ, v.pred := Empty(), Empty();
      v := v.next;
      i := i + 1;
    }
  }

  ghost function RevertedTimes(x: Ends, n: nat): Ends
  {
    if n == 0 then x else Reverted(RevertedTimes(x, n - 1))
  }

  /** However often the layout has reverted an edge, refresh restores it. Only a self loop
      keeps exchanged arrows, if it was reverted an odd number of times: revert_edge does not
      mark it as reverted. */
  lemma {:induction false} RefreshRestores(x: Ends, n: nat)
    requires x.art != 'R' && (x.art == 'S' ==> x.source == x.target)
    ensures var y := Restored(RevertedTimes(x, n));
      && y.source == x.source && y.target == x.target
      && y == (if x.art == 'S' && n % 2 == 1 then Exchanged(x) else x).(art := 'U')
      && (y == x.(art := 'U') <==> x.art != 'S' || n % 2 == 0 || x.arrow == x.backArrow)
  {
    RevertedTwice(x, n);
  }

  lemma {:induction false} RevertedTwice(x: Ends, n: nat)
    requires x.art != 'R'
    ensures RevertedTimes(x, n)
         == if n % 2 == 1 then Exchanged(x).(art := if x.art == 'S' then 'S' else 'R')
            else if n == 0 || x.art == 'S' then x else x.(art := 'U')
  {
    if n > 0 { RevertedTwice(x, n - 1); }
  }

  /** A round of the loop of refresh over the specified edges. */
  method RefreshEdge(e: Edge)
    modifies e`invisible, e`ends
    ensures !e.invisible && e.ends == Restored(old(e.ends))
  {
    if e.ends.art == 'R' {
      var v := e.ends.source;
      e.ends := e.ends.(source := e.ends.target, target := v);
      var hh := e.ends.arrow;
      e.ends := e.ends.(arrow := e.ends.backArrow, backArrow := hh);
    }
    e.ends := e.ends.(art := 'U');
    e.invisible := false;
  }

  /** The loop of refresh over the specified edges. */
  method RefreshEdges(es: seq<Edge>)
    requires Distinct(es)
    modifies Elems(es)`invisible, Elems(es)`ends
    ensures forall e :: e in es ==> !e.invisible && e.ends == Restored(old(e.ends))
  {
    for i := 0 to |es|
      invariant forall k :: 0 <= k < i ==> !es[k].invisible && es[k].ends == Restored(old(es[k].ends))
      invariant forall k :: i <= k < |es| ==> es[k].ends == old(es[k].ends)
    {
      RefreshEdge(es[i]);
    }
  }

  /** refresh: the adjacency lists of the nodes on the node list and the graph list become empty
      (those of other nodes are not reached), and the specified edges visible and restored. */
  method Refresh(g: Vcg)
    requires g.ListsOk() && Distinct(g.edgelist)
    modifies g`active, g`listed, g.nodes`succ, g.nodes`pred, Elems(g.edgelist)`invisible, Elems(g.edgelist)`ends
    ensures AdjOk(g) && g.listed == {} && g.active == g.nodelist.members
    ensures forall e :: e in g.edgelist ==> !e.invisible && e.ends == Restored(old(e.ends))
    ensures forall x :: x in g.nodes ==>
              x.succ == if x in g.nodelist.members || x in g.graphlist.members then Empty() else old(x.succ)
  {
    hide NodeList.Valid, Vcg.FlagsOk;
    RefreshAllNodes(g.nodelist);
    RefreshAllNodes(g.graphlist);
    g.active, g.listed := g.nodelist.members, {};
    assert AdjOk(g);
    RefreshEdges(g.edgelist);
  }

  /** The edges of ts that join one of the pairs. */
  ghost function Joining(pairs: set<(Node, Node)>, ts: seq<Edge>): set<Edge>
  {
    set t | t in ts && (t.start, t.end) in pairs
  }

  /** The listed edges and the substitutes when create_adjacencies has handled the edges es:
      the drawn edges, and for each induced pair its substitute. Substitutes that are left
      over from before are listed only if their pair is induced again. */
  ghost predicate Quotiented(h: Hiding, f: nat, es: seq<Edge>, listed: set<Edge>, ts: seq<Edge>)
    requires forall e :: e in es ==> Resolved(h, f, e)
  {
    && listed == Drawn(h, es) + Joining(Induced(h, f, es), ts)
    && Induced(h, f, es) <= Pairs(ts) && OnePerPair(ts)
    && (forall t :: t in ts ==> t !in es)
    && (forall t :: t in Joining(Induced(h, f, es), ts) ==> t.start != t.end && Drawable(h, t))
  }

  /** Visible edges are exactly the listed ones, among the edges es and the substitutes in use. */
  ghost predicate FlagsAgree(h: Hiding, es: seq<Edge>, listed: set<Edge>, ts: seq<Edge>)
    reads es`invisible, ts`invisible
  {
    && (forall e :: e in es ==> (e.invisible <==> !Drawable(h, e)))
    && (forall t :: t in ts && t in listed ==> !t.invisible)
  }

  /** t is a substitute that was made for e: it joins the representatives of its ends, and looks
      like e but for what is given for folded edges. */
  ghost predicate StandsFor(h: Hiding, f: nat, fe: EdgeAttrs, e: Edge, t: Edge)
  {
    && Resolved(h, f, e) && Induces(h, f, e)
    && t.start == Rep(h, f, e.start) && t.end == Rep(h, f, e.end) && LooksLike(fe, e, t)
  }

  /** t was made for e, and its pair is not induced by the edges es before it. */
  ghost predicate MadeFirst(h: Hiding, f: nat, fe: EdgeAttrs, es: seq<Edge>, e: Edge, t: Edge)
  {
    && StandsFor(h, f, fe, e, t)
    && forall x :: x in es && Resolved(h, f, x) && Induces(h, f, x) ==>
         (Rep(h, f, x.start), Rep(h, f, x.end)) != (t.start, t.end)
  }

  /** The temporary edges are those from before (ts0), and some that were made for edges es. */
  ghost predicate Substituted(h: Hiding, f: nat, fe: EdgeAttrs, es: seq<Edge>, ts0: set<Edge>, ts: seq<Edge>)
  {
    && (forall t :: t in ts0 ==> t in ts)
    && forall t :: t in ts ==> t in ts0 || exists i :: 0 <= i < |es| && MadeFirst(h, f, fe, es[..i], es[i], t)
  }

  /** e is handled. */
  lemma SubstitutedMore(h: Hiding, f: nat, fe: EdgeAttrs, es: seq<Edge>, ts0: set<Edge>, ts: seq<Edge>,
                        e: Edge, ts': seq<Edge>)
    requires Substituted(h, f, fe, es, ts0, ts) && forall t :: t in ts ==> t in ts'
    requires forall t :: t in ts' ==> t in ts || MadeFirst(h, f, fe, es, e, t)
    ensures Substituted(h, f, fe, es + [e], ts0, ts')
  {
    hide MadeFirst;
    var es' := es + [e];
    forall t | t in ts' && t !in ts0
      ensures exists i :: 0 <= i < |es'| && MadeFirst(h, f, fe, es'[..i], es'[i], t)
    {
      if t in ts {
        var i :| 0 <= i < |es| && MadeFirst(h, f, fe, es[..i], es[i], t);
        assert es'[..i] == es[..i] && es'[i] == es[i];
      } else {
        assert es'[..|es|] == es && es'[|es|] == e;
      }
    }
  }

  /** A substitute that is new is the first for its pair. */
  lemma NewIsFirst(h: Hiding, f: nat, fe: EdgeAttrs, es: seq<Edge>, listed: set<Edge>, ts: seq<Edge>, e: Edge, t: Edge)
    requires forall x :: x in es ==> Resolved(h, f, x)
    requires Quotiented(h, f, es, listed, ts) && StandsFor(h, f, fe, e, t) && (t.start, t.end) !in Pairs(ts)
    ensures MadeFirst(h, f, fe, es, e, t)
  {
    InducedMeaning(h, f, es, t.start, t.end);
  }

  lemma {:induction false} NewPair(ts: seq<Edge>, r: Edge)
    requires OnePerPair(ts) && (r.start, r.end) !in Pairs(ts)
    ensures OnePerPair([r] + ts) && Pairs([r] + ts) == Pairs(ts) + {(r.start, r.end)}
    ensures Elems([r] + ts) == Elems(ts) + {r}
  {
    assert ([r] + ts)[1..] == ts;
    forall i | 0 <= i < |ts| ensures (ts[i].start, ts[i].end) != (r.start, r.end) {
      PairsMeaning(ts, ts[i].start, ts[i].end);
    }
  }

  /** A pair is added for which there is the edge r in ts, or for which r is put in front. */
  lemma JoiningGrows(pairs: set<(Node, Node)>, ts: seq<Edge>, r: Edge, ts': seq<Edge>)
    requires OnePerPair(ts)
    requires if (r.start, r.end) in Pairs(ts) then r in ts && ts' == ts else ts' == [r] + ts
    ensures OnePerPair(ts') && Pairs(ts') == Pairs(ts) + {(r.start, r.end)}
    ensures Joining(pairs + {(r.start, r.end)}, ts') == Joining(pairs, ts) + {r}
    ensures forall t :: t in ts' <==> t in ts || t == r
  {
    if (r.start, r.end) in Pairs(ts) {
      forall t | t in ts && (t.start, t.end) == (r.start, r.end) ensures t == r {
        var i :| 0 <= i < |ts| && ts[i] == t;
        var j :| 0 <= j < |ts| && ts[j] == r;
      }
    } else {
      NewPair(ts, r);
      forall t | t in ts ensures (t.start, t.end) != (r.start, r.end) {
        PairsMeaning(ts, t.start, t.end);
      }
    }
  }

  lemma OneMore(h: Hiding, f: nat, es: seq<Edge>, e: Edge)
    requires (forall x :: x in es ==> Resolved(h, f, x)) && Resolved(h, f, e)
    ensures Drawn(h, es + [e]) == Drawn(h, es) + if Drawable(h, e) then {e} else {}
    ensures Induced(h, f, es + [e]) ==
      Induced(h, f, es) + if Induces(h, f, e) then {(Rep(h, f, e.start), Rep(h, f, e.end))} else {}
  {
    hide Drawable, Induces, Rep;
    assert (es + [e])[..|es|] == es;
  }

  /** One round of create_adjacencies, on the sets. */
  lemma QuotientStep(h: Hiding, f: nat, es: seq<Edge>, listed: set<Edge>, ts: seq<Edge>, e: Edge, r: Edge?,
                     ts': seq<Edge>)
    requires forall x :: x in es ==> Resolved(h, f, x)
    requires Resolved(h, f, e) && Quotiented(h, f, es, listed, ts) && e !in ts
    requires Drawable(h, e) ==> r == e && ts' == ts && !Induces(h, f, e)
    requires !Drawable(h, e) ==> (r != null <==> Induces(h, f, e)) && r != e
    requires r == null ==> ts' == ts
    requires r != null && r != e ==>
      && r.start == Rep(h, f, e.start) && r.end == Rep(h, f, e.end) && r.start != r.end && Drawable(h, r) && r !in es
      && if (r.start, r.end) in Pairs(ts) then r in ts && ts' == ts else ts' == [r] + ts
    ensures Quotiented(h, f, es + [e], if r == null then listed else listed + {r}, ts')
  {
    hide Drawable, Induces, Rep, Resolved, Induced, Drawn, Pairs, OnePerPair;
    OneMore(h, f, es, e);
    if r != null && r != e { JoiningGrows(Induced(h, f, es), ts, r, ts'); }
  }

  /** One round of create_adjacencies. */
  method HandleEdge(g: Vcg, e: Edge, ghost h: Hiding, ghost f: nat, ghost es: seq<Edge>)
    requires g.ListsOk() && g.active == g.nodelist.members && h == HidingOf(g) && AdjOk(g)
    requires forall x :: x in es ==> Resolved(h, f, x)
    requires e.start in g.nodes && e.end in g.nodes && Resolved(h, f, e)
    requires e !in es && e !in g.tmpedgelist && !e.invisible
    requires Quotiented(h, f, es, g.listed, g.tmpedgelist) && FlagsAgree(h, es, g.listed, g.tmpedgelist)
    modifies g`tmpedgelist, g`listed, e`invisible, g.active`succ, g.active`pred, Elems(g.tmpedgelist)`invisible
    ensures AdjOk(g)
    ensures Quotiented(h, f, es + [e], g.listed, g.tmpedgelist) && FlagsAgree(h, es + [e], g.listed, g.tmpedgelist)
    ensures forall t :: t in g.tmpedgelist ==> t in old(g.tmpedgelist) || fresh(t)
    ensures forall t :: t in g.tmpedgelist ==> t in old(g.tmpedgelist) || MadeFirst(h, f, g.foldedge, es, e, t)
    ensures forall t :: t in old(g.tmpedgelist) ==> t in g.tmpedgelist
  {
    hide Search, HidingOf, Vcg.ListsOk, Pairs, AdjOk, Quotiented, Induced, OnePerPair, Evolves, MadeFirst;
    hide LooksLike;
    ghost var ts, listed := g.tmpedgelist, g.listed;
    RepsAreActive(g, h, f, e);
    label L:
    var r := SubstedEdge(g, e, f);
    assert r != null ==> r.start in g.active && r.end in g.active && Drawable(h, r);
    TmpNotIn(h, f, es, listed, ts);
    QuotientStep(h, f, es, listed, ts, e, r, g.tmpedgelist);
    if r != null {
      if r !in ts && r != e { NewIsFirst(h, f, g.foldedge, es, listed, ts, e, r); }
      CreateAdjEdge(g, r);
    }
  }

  lemma TmpNotIn(h: Hiding, f: nat, es: seq<Edge>, listed: set<Edge>, ts: seq<Edge>)
    requires forall x :: x in es ==> Resolved(h, f, x)
    requires Quotiented(h, f, es, listed, ts)
    ensures forall t :: t in ts ==> t !in es
  {
  }

  /** Representatives and visible ends are on the node list. */
  lemma RepsAreActive(g: Vcg, h: Hiding, f: nat, e: Edge)
    requires g.ListsOk() && h == HidingOf(g)
    requires e.start in g.nodes && e.end in g.nodes && Resolved(h, f, e)
    ensures forall x :: x in {Rep(h, f, e.start), Rep(h, f, e.end)} && x != null ==>
              x in g.nodelist.members && x in h.vis && h.vis[x] == 0
    ensures Drawable(h, e) ==> e.start in g.nodelist.members && e.end in g.nodelist.members
    ensures Drawable(h, e) ==> !Induces(h, f, e)
  {
    VisibleFindsItself(g, e.start, f);
    VisibleFindsItself(g, e.end, f);
    forall x | x in g.nodes ensures g.FlagsOk(x) {}
  }

  /** create_adjacencies, on empty adjacency lists. */
  method CreateAdjacencies(g: Vcg, ghost h: Hiding, ghost f: nat)
    requires g.ListsOk() && g.active == g.nodelist.members && AdjOk(g) && h == HidingOf(g)
    requires g.listed == {} && OnePerPair(g.tmpedgelist) && Distinct(g.edgelist)
    requires forall t :: t in g.tmpedgelist ==> t !in g.edgelist
    requires forall e :: e in g.edgelist ==>
               !e.invisible && e.start in g.nodes && e.end in g.nodes && Resolved(h, f, e)
    modifies g`tmpedgelist, g`listed, g.active`succ, g.active`pred
    modifies Elems(g.edgelist)`invisible, Elems(g.tmpedgelist)`invisible
    ensures AdjOk(g) && forall t :: t in g.tmpedgelist ==> t in old(g.tmpedgelist) || fresh(t)
    ensures Substituted(h, f, g.foldedge, g.edgelist, old(Elems(g.tmpedgelist)), g.tmpedgelist)
    ensures Quotiented(h, f, g.edgelist, g.listed, g.tmpedgelist)
    ensures FlagsAgree(h, g.edgelist, g.listed, g.tmpedgelist)
  {
    hide Search, HidingOf, Vcg.ListsOk, AdjOk, Quotiented, OnePerPair, Substituted, MadeFirst, Induced;
    ghost var es, ts, ts0 := g.edgelist, g.tmpedgelist, Elems(g.tmpedgelist);
    NothingSubstituted(h, f, g.foldedge, ts);
    NothingQuotiented(h, f, ts);
    for i := 0 to |g.edgelist|
      invariant AdjOk(g) && forall t :: t in g.tmpedgelist ==> t in ts || fresh(t)
      invariant forall k :: i <= k < |es| ==> !es[k].invisible
      invariant Quotiented(h, f, es[..i], g.listed, g.tmpedgelist)
      invariant FlagsAgree(h, es[..i], g.listed, g.tmpedgelist)
      invariant Substituted(h, f, g.foldedge, es[..i], ts0, g.tmpedgelist)
    {
      var e := g.edgelist[i];
      assert e !in es[..i];
      ghost var ts1 := g.tmpedgelist;
      HandleEdge(g, e, h, f, es[..i]);
      SubstitutedMore(h, f, g.foldedge, es[..i], ts0, ts1, e, g.tmpedgelist);
      assert es[..i + 1] == es[..i] + [e];
      assert forall k :: i < k < |es| ==> es[k] != e;
    }
    assert es[..|es|] == es;
  }

  lemma NothingSubstituted(h: Hiding, f: nat, fe: EdgeAttrs, ts: seq<Edge>)
    ensures Substituted(h, f, fe, [], Elems(ts), ts)
  {
  }

  lemma NothingQuotiented(h: Hiding, f: nat, ts: seq<Edge>)
    requires OnePerPair(ts)
    ensures Quotiented(h, f, [], {}, ts)
  {
  }

  /** Steps 5 and 6 of the driver `folding`, and its step 8 without labels. */
  method BuildAdjacencies(g: Vcg, ghost h: Hiding, ghost f: nat)
    requires g.ListsOk() && OnePerPair(g.tmpedgelist) && Distinct(g.edgelist) && h == HidingOf(g)
    requires forall t :: t in g.tmpedgelist ==> t !in g.edgelist
    requires forall e :: e in g.edgelist ==> e.start in g.nodes && e.end in g.nodes && Resolved(h, f, e)
    modifies g`tmpedgelist, g`listed, g`active, g.nodes`succ, g.nodes`pred
    modifies Elems(g.edgelist)`invisible, Elems(g.edgelist)`ends, Elems(g.tmpedgelist)`invisible
    ensures AdjOk(g) && g.active == g.nodelist.members && h == HidingOf(g)
    ensures Quotiented(h, f, g.edgelist, g.listed, g.tmpedgelist)
    ensures FlagsAgree(h, g.edgelist, g.listed, g.tmpedgelist)
    ensures Substituted(h, f, g.foldedge, g.edgelist, old(Elems(g.tmpedgelist)), g.tmpedgelist)
    ensures forall e :: e in g.edgelist ==> e.ends == Restored(old(e.ends))
    ensures forall x :: x in g.nodes - g.active ==>
              x.succ == if x in g.graphlist.members then Empty() else old(x.succ)
    ensures forall t :: t in g.tmpedgelist ==> t in old(g.tmpedgelist) || fresh(t)
  {
    hide Search, HidingOf, Vcg.FlagsOk, NodeList.Valid, AdjOk, Quotiented, FlagsAgree, OnePerPair, Substituted;
    Refresh(g);
    CreateAdjacencies(g, h, f);
  }

  /** The quotient graph, stated for the listed edges one by one: a specified edge is listed
      iff both its ends are visible, and from s to t there is a substitute, and only one,
      iff some specified edge that is not drawn has the representatives s and t, s != t. */
  lemma ListedIsQuotient(h: Hiding, f: nat, es: seq<Edge>, listed: set<Edge>, ts: seq<Edge>, s: Node, t: Node)
    requires forall e :: e in es ==> Resolved(h, f, e)
    requires Quotiented(h, f, es, listed, ts)
    ensures forall e :: e in es ==> (e in listed <==> Drawable(h, e))
    ensures forall e :: e in listed ==> Drawable(h, e) && (e in es || e in ts)
    ensures (exists x :: x in listed && x !in es && x.start == s && x.end == t) <==>
            (exists e :: e in es && Induces(h, f, e) && Rep(h, f, e.start) == s && Rep(h, f, e.end) == t)
    ensures forall x, y | x in listed - Elems(es) && y in listed - Elems(es) ::
              (x.start, x.end) == (y.start, y.end) ==> x == y
  {
    PairsMeaning(ts, s, t);
    InducedMeaning(h, f, es, s, t);
  }

  /** Edges to and from a node that is hidden for another reason than a graph or a region (by its
      edge classes) are not drawn, nor is anything in their place. */
  lemma OtherReasonDropsEdge(h: Hiding, f: nat, e: Edge)
    requires Resolved(h, f, e) && e.start in h.vis && e.end in h.vis
    requires {h.vis[e.start], h.vis[e.end]} - {0, UNFOLDED_SGRAPH, FOLDED_SGNODE, FOLDED_RGNODE} != {}
    ensures !Drawable(h, e) && !Induces(h, f, e)
  {
    var k :| k in {h.vis[e.start], h.vis[e.end]} - {0, UNFOLDED_SGRAPH, FOLDED_SGNODE, FOLDED_RGNODE};
    assert h.vis[e.start] == k ==> Search(h, e.start, f) == Some(null);
    assert h.vis[e.end] == k ==> Search(h, e.end, f) == Some(null);
  }

  /** When only subgraphs are folded, an edge has representatives iff the ways of its ends
      are free. */
  lemma EdgeResolvesIff(h: Hiding, e: Edge)
    requires Nested(h) && e.start in h.vis && e.end in h.vis
    ensures (exists f: nat :: Resolved(h, f, e)) <==> WayFree(h, e.start) && WayFree(h, e.end)
  {
    hide Search, WayFree, Nested;
    SearchEndsIff(h, e.start);
    SearchEndsIff(h, e.end);
    if WayFree(h, e.start) && WayFree(h, e.end) {
      var m := e.start.depth + e.end.depth + 2;
      SearchMore(h, e.start, e.start.depth + 2, m);
      SearchMore(h, e.end, e.end.depth + 2, m);
      assert Resolved(h, m, e);
    } else {
      forall f: nat ensures !Resolved(h, f, e) {
        if !WayFree(h, e.start) { SearchDiverges(h, e.start, f); } else { SearchDiverges(h, e.end, f); }
      }
    }
  }

  /** The representative of a plain node or folded graph is the visible node on its root path. */
  lemma RepIsCover(h: Hiding, f: nat, v: Node)
    requires Nested(h) && v in h.vis && h.vis[v] != UNFOLDED_SGRAPH && Search(h, v, f).Some?
    ensures Rep(h, f, v) == Cover(h.vis, v) != null
  {
    hide Search, WayFree;
    SearchEndsIff(h, v);
    if f <= v.depth + 2 { SearchMore(h, v, f, v.depth + 2); } else { SearchMore(h, v, v.depth + 2, f); }
    CoverExists(h.vis, v);
  }
}
