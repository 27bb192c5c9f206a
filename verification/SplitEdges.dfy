/** The splitting of double edges (folding.c, split_double_edges). */
module SplitEdges {
  import opened Chains
  import opened GraphTypes
  import opened NodeVisibility
  import opened Adjacency

  const ASNONE := 0

  /** What replaces a split edge: an edge to a label node and an edge from it. */
  datatype Path = Path(first: Edge, middle: Node, second: Edge)

  /** The path shows what the edge d shows: there is no arrow at the label node, the first edge
      has the label and the arrow at the start, and the second the arrow at the end; everything
      else is as on d. */
  ghost predicate Shows(d: Edge, p: Path)
  {
    var a, b := p.first.attrs, p.second.attrs;
    && a.arrowsize == 0 && a.arrowstyle == ASNONE
    && b.arrowbsize == 0 && b.arrowbstyle == ASNONE && b.text == None
    && d.attrs == a.(arrowsize := b.arrowsize, arrowstyle := b.arrowstyle)
    && d.attrs == b.(arrowbsize := a.arrowbsize, arrowbstyle := a.arrowbstyle, text := a.text)
    && p.first.anchor == d.anchor && p.second.anchor == 0
  }

  ghost predicate Leads(d: Edge, p: Path, es: set<Edge>)
  {
    && p.first in es && p.second in es && Shows(d, p)
    && p.first.start == d.start && p.first.end == p.middle && p.second.start == p.middle && p.second.end == d.end
  }

  /** The edges es result from es0, which join nodes of act0, by replacing the edges in
      `paths`, each by a path through a label node of its own. */
  ghost predicate SplitFrom(es0: set<Edge>, act0: set<Node>, es: set<Edge>, paths: map<Edge, Path>)
  {
    && (forall e :: e in es0 ==> e.start in act0 && e.end in act0)
    && (forall d :: d in paths ==> d in es0 && d !in es && Leads(d, paths[d], es) && paths[d].middle !in act0)
    && (forall d, c :: d in paths && c in paths && d != c ==> paths[d].middle != paths[c].middle)
    && (forall e :: e in es0 && e !in paths ==> e in es)
    && (forall e :: e in es && e !in es0 ==> exists d :: d in paths && (e == paths[d].first || e == paths[d].second))
  }

  /** The only edges at a label node are those of its path. */
  lemma LabelIsPrivate(es0: set<Edge>, act0: set<Node>, es: set<Edge>, paths: map<Edge, Path>, d: Edge)
    requires SplitFrom(es0, act0, es, paths) && d in paths
    ensures Outs(es, paths[d].middle) == {paths[d].second} && Ins(es, paths[d].middle) == {paths[d].first}
  {
    var w := paths[d].middle;
    assert Leads(d, paths[d], es);
    forall e | e in es && (e.start == w || e.end == w) ensures e == paths[d].first || e == paths[d].second {
      var c: Edge :| c in paths && (e == paths[c].first || e == paths[c].second);
      assert Leads(c, paths[c], es);
    }
  }

  /** Another edge of es joins the same nodes in the same direction. */
  ghost predicate Doubled(es: set<Edge>, e: Edge)
  {
    exists f :: f in es && f != e && f.start == e.start && f.end == e.end
  }

  lemma SplitOne(es0: set<Edge>, act0: set<Node>, es: set<Edge>, paths: map<Edge, Path>, e: Edge, p: Path)
    requires SplitFrom(es0, act0, es, paths) && e in es && e in es0
    requires p.first !in es && p.second !in es && p.middle !in act0
    requires forall d :: d in paths ==> paths[d].middle != p.middle
    requires Leads(e, p, es + {p.first} + {p.second} - {e})
    ensures SplitFrom(es0, act0, es + {p.first} + {p.second} - {e}, paths[e := p])
  {
    hide Shows;
    var es', paths' := es + {p.first} + {p.second} - {e}, paths[e := p];
    forall d | d in paths' ensures d in es0 && d !in es' && Leads(d, paths'[d], es') && paths'[d].middle !in act0 {
      if d != e {
        assert Leads(d, paths[d], es);
        assert p.first.end == p.middle && p.second.start == p.middle;
      }
    }
    forall x: Edge | x in es' && x !in es0
      ensures exists d :: d in paths' && (x == paths'[d].first || x == paths'[d].second)
    {
      if x == p.first || x == p.second {
        assert e in paths' && (x == paths'[e].first || x == paths'[e].second);
      } else {
        var d: Edge :| d in paths && (x == paths[d].first || x == paths[d].second);
        assert d in paths' && (x == paths'[d].first || x == paths'[d].second);
      }
    }
  }

  /** The edges in cells before the cursor a are self loops or not doubled. */
  ghost predicate Separated(l: Chain<Edge>, a: int)
  {
    && a >= -1 && (a >= 0 ==> l.Live(a))
    && forall e :: e in l.at && l.at[e] > a ==> e.start == e.end || !Doubled(l.at.Keys, e)
  }

  /** The inner loop. */
  method FindDouble(l: Chain<Edge>, e: Edge) returns (found: bool)
    requires l.Valid() && e in l.at && forall f :: f in l.at ==> f.start == e.start
    ensures found <==> Doubled(l.at.Keys, e)
  {
    var c := l.head;
    while c >= 0
      invariant -1 <= c < |l.cells| && (c >= 0 ==> l.Live(c))
      invariant forall f :: f in l.at && l.at[f] > c ==> f == e || f.end != e.end
      decreases c
    {
      var f := l.cells[c].kante;
      if f != e && f.end == e.end { return true; }
      assert l.CellOk(c);
      c := l.cells[c].next;
    }
    found := false;
  }

  /** The cursor after its edge was kept, or replaced by an edge to a new node. */
  lemma NextSeparated(l: Chain<Edge>, l': Chain<Edge>, a: int, new1: Edge)
    requires l.Valid() && l'.Valid() && a >= 0 && Separated(l, a) && Evolves(l, l')
    requires var e := l.cells[a].kante;
      || (l' == l && (e.start == e.end || !Doubled(l.at.Keys, e)))
      || (l'.at.Keys == l.at.Keys + {new1} - {e} && new1 !in l.at && forall f :: f in l.at ==> f.end != new1.end)
    ensures Separated(l', l.cells[a].next) && l.cells[a].next < a
  {
    var b, e := l.cells[a].next, l.cells[a].kante;
    assert l.CellOk(a);
    if b >= 0 {
      assert LinkEvolves(l, l', b);
      assert l.Live(b) && l.cells[b].kante != e;
      assert l.cells[b].kante in l'.at;
    }
    forall x | x in l'.at && l'.at[x] > b && x.start != x.end ensures !Doubled(l'.at.Keys, x) {
      if x in l.at {
        assert l'.at[x] == l.at[x];
        assert l.at[x] >= a;
        assert l.at[x] == a ==> x == e;
        assert !Doubled(l.at.Keys, x);
      }
      forall f | f in l'.at.Keys && f != x ensures f.start != x.start || f.end != x.end {
        assert f in l.at || f == new1;
      }
    }
  }

  /** create_labelnode, as far as the lists are concerned: a temporary node, which is not on
      the node list. `like` are the attributes it is given. */
  method CreateLabelNode(g: Vcg, e: Edge, refnum: int, like: NodeAttrs) returns (w: Node)
    requires AdjOk(g) && EndsActive(g)
    modifies g`active, e`invisible
    ensures fresh(w) && AdjOk(g) && EndsActive(g) && g.active == old(g.active) + {w}
    ensures w.attrs == like.(text := Some(""), width := 0, height := 0) && !w.inlist
  {
    ListsAreValid(g);
    w := new Node(refnum, null, 0, like);
    w.inlist, w.invisible := false, 1;
    w.attrs := w.attrs.(text := Some(""), width := 0, height := 0);
    e.invisible := true;
    g.active := g.active + {w};
    assert Outs(g.listed, w) == {} && Ins(g.listed, w) == {};
  }

  /** The attributes of the first edge of the path, which keeps the label and the arrow at the
      start, and of the second one, which keeps the arrow at the end. */
  function FirstAttrs(a: EdgeAttrs): EdgeAttrs { a.(arrowsize := 0, arrowstyle := ASNONE) }
  function SecondAttrs(a: EdgeAttrs): EdgeAttrs { a.(arrowbsize := 0, arrowbstyle := ASNONE, text := None) }

  /** The list of v holds the edges of es that start at v. */
  ghost predicate Holds(l: Chain<Edge>, es: set<Edge>, v: Node)
  {
    l.Valid() && l.at.Keys == Outs(es, v)
  }

  lemma ListHolds(g: Vcg, v: Node)
    requires AdjOk(g) && v in g.active
    ensures Holds(v.succ, g.listed, v) && Evolves(v.succ, v.succ)
  {
    EvolvesSelf(v.succ);
  }

  lemma EvolvesOn(l0: Chain<Edge>, l1: Chain<Edge>, l2: Chain<Edge>, es0: set<Edge>, es1: set<Edge>, es2: set<Edge>,
                  v: Node)
    requires Holds(l0, es0, v) && Holds(l1, es1, v) && Holds(l2, es2, v)
    requires Evolves(l0, l1) && Evolves(l1, l2) && forall e :: e in es0 && e in es2 ==> e in es1
    ensures Evolves(l0, l2)
  {
    forall e | e in l0.at && e in l2.at ensures e in l1.at {
      assert e in Outs(es0, v) && e in Outs(es2, v);
      assert e in Outs(es1, v);
    }
    EvolvesTrans(l0, l1, l2);
  }

  /** create_adjedge of two edges. */
  method CreateBoth(g: Vcg, v: Node, e1: Edge, e2: Edge)
    requires AdjOk(g) && v in g.active
    requires e1.start in g.active && e1.end in g.active && e2.start in g.active && e2.end in g.active
    modifies g`listed, g.active`succ, g.active`pred, {e1, e2}`invisible
    ensures AdjOk(g) && g.listed == old(g.listed) + {e1} + {e2} && Evolves(old(v.succ), v.succ)
  {
    hide AdjOk, Evolves, Holds;
    ListHolds(g, v);
    ghost var l0, es0 := v.succ, g.listed;
    CreateAdjEdge(g, e1);
    ListHolds(g, v);
    ghost var l1, es1 := v.succ, g.listed;
    CreateAdjEdge(g, e2);
    ListHolds(g, v);
    EvolvesOn(l0, l1, v.succ, es0, es1, g.listed, v);
  }

  /** Then delete_adjedge of the edge e. */
  method ReplaceByPath(g: Vcg, v: Node, e: Edge, e1: Edge, e2: Edge)
    requires AdjOk(g) && EndsActive(g) && v in g.active && e in g.listed && e1 != e && e2 != e
    requires e1.start in g.active && e1.end in g.active && e2.start in g.active && e2.end in g.active
    modifies g`listed, g.active`succ, g.active`pred, {e, e1, e2}`invisible
    ensures AdjOk(g) && EndsActive(g) && g.listed == old(g.listed) + {e1} + {e2} - {e}
    ensures Evolves(old(v.succ), v.succ)
  {
    hide AdjOk, Evolves, Holds;
    ListHolds(g, v);
    ghost var l0, es0 := v.succ, g.listed;
    CreateBoth(g, v, e1, e2);
    ListHolds(g, v);
    ghost var l1, es1 := v.succ, g.listed;
    DeleteAdjEdge(g, e);
    ListHolds(g, v);
    EvolvesOn(l0, l1, v.succ, es0, es1, g.listed, v);
  }

  /** The replacement of the edge e of v by a path through a label node. */
  method SplitEdge(g: Vcg, v: Node, e: Edge, refnum: int, like: NodeAttrs)
    returns (p: Path, ghost newNodes: set<Node>, ghost newEdges: set<Edge>)
    requires AdjOk(g) && EndsActive(g) && v in g.active && e in g.listed && e.start == v && e.end != v
    modifies g`active, g`listed, g`tmpedgelist, g.active`succ, g.active`pred, e`invisible
    ensures fresh(newNodes) && newNodes == {p.middle} && fresh(newEdges) && newEdges == {p.first, p.second}
    ensures p.middle !in old(g.active) && p.first !in old(g.listed) && p.second !in old(g.listed)
    ensures AdjOk(g) && EndsActive(g) && g.active == old(g.active) + {p.middle}
    ensures g.listed == old(g.listed) + {p.first} + {p.second} - {e} && Leads(e, p, g.listed)
    ensures g.tmpedgelist == [p.second, p.first] + old(g.tmpedgelist)
    ensures Evolves(old(v.succ), v.succ)
  {
    hide AdjOk, Evolves;
    var w := CreateLabelNode(g, e, refnum, like);
    var e1 := new Edge(v, w, FirstAttrs(e.attrs), e.anchor);
    var e2 := new Edge(w, e.end, SecondAttrs(e.attrs), 0);
    g.tmpedgelist := [e2, e1] + g.tmpedgelist;
    ReplaceByPath(g, v, e, e1, e2);
    p, newNodes, newEdges := Path(e1, w, e2), {w}, {e1, e2};
  }

  /** The state of the loops of split_double_edges; `es0` and `act0` are from the beginning. */
  ghost predicate Splitting(g: Vcg, es0: set<Edge>, act0: set<Node>, paths: map<Edge, Path>)
    reads g`active, g`listed, g.active`succ, g.active`pred
  {
    && AdjOk(g) && EndsActive(g) && act0 <= g.active
    && SplitFrom(es0, act0, g.listed, paths)
    && forall d :: d in paths ==> paths[d].middle in g.active
  }

  lemma CursorKnown(g: Vcg, es0: set<Edge>, act0: set<Node>, paths: map<Edge, Path>, v: Node, a: nat)
    requires Splitting(g, es0, act0, paths) && v in act0 && Separated(v.succ, a)
    ensures a < |v.succ.cells| && v.succ.cells[a].kante in v.succ.at && Holds(v.succ, g.listed, v) && v in g.active
    ensures v.succ.cells[a].kante in g.listed && v.succ.cells[a].kante.start == v
    ensures (forall f :: f in v.succ.at ==> f.start == v) && v.succ.Valid() && v.succ.at.Keys == Outs(g.listed, v)
    ensures SplitFrom(es0, act0, g.listed, paths) && act0 <= g.active && forall f :: f in g.listed ==> f.end in g.active
  {
    ListsAreValid(g);
    assert v.succ.cells[a].kante in Outs(g.listed, v);
  }

  /** A new edge from an old node is not doubled. */
  lemma NewIsSingle(es0: set<Edge>, act0: set<Node>, es: set<Edge>, paths: map<Edge, Path>, e: Edge)
    requires SplitFrom(es0, act0, es, paths) && e in es && e !in es0 && e.start in act0
    ensures !Doubled(Outs(es, e.start), e)
  {
    var d: Edge :| d in paths && (e == paths[d].first || e == paths[d].second);
    LabelIsPrivate(es0, act0, es, paths, d);
    assert Leads(d, paths[d], es);
    var m := paths[d].middle;
    forall f | f in Outs(es, e.start) && f != e ensures f.end != e.end {
      assert f in Ins(es, m) <==> f.end == m;
    }
  }

  /** How the edges from the old nodes change when the edge e of v is split. */
  lemma OutsAfterSplit(es: set<Edge>, act0: set<Node>, v: Node, e: Edge, p: Path)
    requires e.start == v == p.first.start && p.second.start == p.middle && p.middle !in act0 && v in act0
    ensures var es' := es + {p.first} + {p.second} - {e};
      && Outs(es', v) == Outs(es, v) + {p.first} - {e}
      && forall x :: x in act0 && x != v ==> Outs(es', x) == Outs(es, x)
  {
  }

  /** The original edges are among the listed ones or split, and old nodes stay active. */
  lemma SplittingStays(g: Vcg, es0: set<Edge>, act0: set<Node>, es: set<Edge>, active: set<Node>,
                       paths: map<Edge, Path>, e: Edge, p: Path)
    requires AdjOk(g) && EndsActive(g) && SplitFrom(es0, act0, es, paths) && act0 <= active
        && g.active == active + {p.middle}
    requires forall d :: d in paths ==> paths[d].middle in active
    requires e in es && e in es0 && p.first !in es && p.second !in es && p.middle !in active
    requires g.listed == es + {p.first} + {p.second} - {e} && Leads(e, p, g.listed)
    ensures Splitting(g, es0, act0, paths[e := p])
  {
    hide AdjOk, EndsActive;
    SplitOne(es0, act0, es, paths, e, p);
  }

  /** A round of the loop over NSUCC(v) that splits the edge e. */
  method SplitDoubled(g: Vcg, v: Node, e: Edge, like: NodeAttrs, ghost es0: set<Edge>, ghost act0: set<Node>,
                      ghost paths: map<Edge, Path>)
    returns (p: Path, ghost newNodes: set<Node>, ghost newEdges: set<Edge>)
    requires Splitting(g, es0, act0, paths) && v in act0 && e in g.listed && e.start == v && e.end != v && e in es0
    modifies g`active, g`listed, g`tmpedgelist, g.active`succ, g.active`pred, e`invisible
    ensures Splitting(g, es0, act0, paths[e := p]) && Leads(e, p, g.listed)
    ensures g.listed == old(g.listed) + {p.first} + {p.second} - {e} && p.middle !in old(g.active)
        && p.first !in old(g.listed)
    ensures fresh(newNodes) && fresh(newEdges)
    ensures g.active == old(g.active) + newNodes && g.listed <= old(g.listed) + newEdges
    ensures Evolves(old(v.succ), v.succ)
  {
    ghost var es, active := g.listed, g.active;
    assert AdjOk(g) && EndsActive(g) && SplitFrom(es0, act0, es, paths) && act0 <= active;
    assert forall d :: d in paths ==> paths[d].middle in active;
    hide AdjOk, EndsActive, Evolves, FirstAttrs, SecondAttrs, SplitFrom, Splitting, Leads;
    p, newNodes, newEdges := SplitEdge(g, v, e, 0, like);
    SplittingStays(g, es0, act0, es, active, paths, e, p);
  }

  /** A round of the loop over NSUCC(v), whose edge e is doubled. */
  method SplitRound(g: Vcg, v: Node, a: nat, e: Edge, like: NodeAttrs, ghost es0: set<Edge>, ghost act0: set<Node>,
                    ghost paths: map<Edge, Path>, ghost l: Chain<Edge>)
    returns (ghost paths': map<Edge, Path>, ghost newNodes: set<Node>, ghost newEdges: set<Edge>)
    requires Splitting(g, es0, act0, paths) && v in act0 && v.succ == l && Separated(l, a) && a < |l.cells|
    requires e == l.cells[a].kante && e.start == v && e.end != v && e in g.listed && e in es0 && Holds(l, g.listed, v)
    requires Known(g.listed, g.active, act0)
    modifies g`active, g`listed, g`tmpedgelist, g.active`succ, g.active`pred, e`invisible
    ensures Splitting(g, es0, act0, paths')
    ensures Separated(v.succ, l.cells[a].next) && l.cells[a].next < a
    ensures Grown(old(g.active), old(g.listed), g.active, g.listed, act0, v)
    ensures fresh(newNodes) && fresh(newEdges)
    ensures g.active == old(g.active) + newNodes && g.listed <= old(g.listed) + newEdges
  {
    ghost var es, active := g.listed, g.active;
    hide *;
    var p;
    p, newNodes, newEdges := SplitDoubled(g, v, e, like, es0, act0, paths);
    paths' := paths[e := p];
    AfterSplit(g, es0, act0, es, paths', v, l, a, e, p, active);
  }

  /** The edge under the cursor, and whether it has to be split. */
  method EdgeAt(g: Vcg, v: Node, a: nat, ghost es0: set<Edge>, ghost act0: set<Node>, ghost paths: map<Edge, Path>)
    returns (e: Edge, found: bool)
    requires Splitting(g, es0, act0, paths) && v in act0 && Separated(v.succ, a)
    ensures a < |v.succ.cells| && e == v.succ.cells[a].kante && e.start == v && e in g.listed
        && Holds(v.succ, g.listed, v)
    ensures Known(g.listed, g.active, act0)
    ensures found ==> e.end != v && e in es0
    ensures !found ==> Separated(v.succ, v.succ.cells[a].next) && v.succ.cells[a].next < a
  {
    CursorKnown(g, es0, act0, paths, v, a);
    hide AdjOk, EndsActive, Evolves, Chain.Valid, Splitting, SplitFrom, Separated, Doubled, Outs;
    e := v.succ.cells[a].kante;
    found := false;
    if e.end != e.start { found := FindDouble(v.succ, e); }
    if found { DoubledIsOriginal(es0, act0, g.listed, paths, e); } else { KeptCell(v.succ, a, e); }
  }

  ghost predicate Known(es: set<Edge>, active: set<Node>, act0: set<Node>)
  {
    act0 <= active && forall f :: f in es ==> f.end in active
  }

  /** A round of the loop over NSUCC(v), when the nodes a1 are active and the edges s1 listed. */
  method SplitCell(g: Vcg, v: Node, a: nat, like: NodeAttrs, ghost es0: set<Edge>, ghost act0: set<Node>,
                   ghost paths: map<Edge, Path>, ghost a1: set<Node>, ghost s1: set<Edge>)
    returns (b: int, ghost paths': map<Edge, Path>)
    requires Splitting(g, es0, act0, paths) && v in act0 && Separated(v.succ, a) && a1 == g.active && s1 == g.listed
    modifies g`active, g`listed, g`tmpedgelist, a1`succ, a1`pred, s1`invisible
    ensures Splitting(g, es0, act0, paths') && Separated(v.succ, b) && b < a
    ensures Grown(a1, s1, g.active, g.listed, act0, v)
    ensures forall x :: x in g.active ==> x in a1 || fresh(x)
    ensures forall x :: x in g.listed ==> x in s1 || fresh(x)
  {
    hide *;
    NothingGrown(a1, s1, act0, v);
    var e, found := EdgeAt(g, v, a, es0, act0, paths);
    b, paths' := v.succ.cells[a].next, paths;
    if found {
      ghost var newNodes, newEdges;
      paths', newNodes, newEdges := SplitRound(g, v, a, e, like, es0, act0, paths, v.succ);
    }
  }

  /** The edges from the old nodes other than v are the same. */
  ghost predicate Grown(active0: set<Node>, es0: set<Edge>, active: set<Node>, es: set<Edge>, act0: set<Node>, v: Node)
  {
    active0 <= active && forall x :: x in act0 && x != v ==> Outs(es, x) == Outs(es0, x)
  }

  lemma NothingGrown(active: set<Node>, es: set<Edge>, act0: set<Node>, v: Node)
    ensures Grown(active, es, active, es, act0, v)
  {
  }

  lemma DoubledIsOriginal(es0: set<Edge>, act0: set<Node>, es: set<Edge>, paths: map<Edge, Path>, e: Edge)
    requires SplitFrom(es0, act0, es, paths) && e in es && e.start in act0 && Doubled(Outs(es, e.start), e)
    ensures e in es0
  {
    if e !in es0 { NewIsSingle(es0, act0, es, paths, e); }
  }

  lemma KeptCell(l: Chain<Edge>, a: nat, e: Edge)
    requires l.Valid() && Separated(l, a) && a < |l.cells| && e == l.cells[a].kante
        && (e.start == e.end || !Doubled(l.at.Keys, e))
    ensures Separated(l, l.cells[a].next) && l.cells[a].next < a
  {
    EvolvesSelf(l);
    NextSeparated(l, l, a, e);
  }

  lemma AfterSplit(g: Vcg, es0: set<Edge>, act0: set<Node>, es: set<Edge>, paths: map<Edge, Path>, v: Node,
                   l: Chain<Edge>, a: nat, e: Edge, p: Path, active: set<Node>)
    requires Splitting(g, es0, act0, paths) && v in act0 && active <= g.active && Holds(l, es, v) && Separated(l, a)
        && a < |l.cells|
    requires e == l.cells[a].kante && e.start == v && Evolves(l, v.succ)
    requires g.listed == es + {p.first} + {p.second} - {e} && Leads(e, p, g.listed)
    requires p.first !in es && p.middle !in active && Known(es, active, act0)
    ensures Separated(v.succ, l.cells[a].next) && l.cells[a].next < a
    ensures Grown(active, es, g.active, g.listed, act0, v)
  {
    hide Separated, Chain.Valid, Evolves, SplitFrom;
    ListHolds(g, v);
    OutsAfterSplit(es, act0, v, e, p);
    NextSeparated(l, v.succ, a, p.first);
  }

  /** No edge from v to another node is doubled. */
  ghost predicate Single(es: set<Edge>, v: Node)
  {
    forall e :: e in Outs(es, v) ==> e.start == e.end || !Doubled(Outs(es, v), e)
  }

  lemma GrownTwice(a0: set<Node>, s0: set<Edge>, a1: set<Node>, s1: set<Edge>, a2: set<Node>, s2: set<Edge>,
                   act0: set<Node>, v: Node)
    requires Grown(a0, s0, a1, s1, act0, v) && Grown(a1, s1, a2, s2, act0, v)
    ensures Grown(a0, s0, a2, s2, act0, v)
  {
  }

  /** The state of the loop over NSUCC(v) with the cursor a, seen from its beginning, when the
      nodes a0 were active and the edges s0 listed. */
  ghost predicate SplitLoop(g: Vcg, es0: set<Edge>, act0: set<Node>, paths: map<Edge, Path>, v: Node, a: int,
                            a0: set<Node>, s0: set<Edge>)
    reads g`active, g`listed, g.active`succ, g.active`pred, {v}`succ
  {
    && Splitting(g, es0, act0, paths) && v in act0 && Separated(v.succ, a)
    && Grown(a0, s0, g.active, g.listed, act0, v)
  }

  lemma LoopStarts(g: Vcg, es0: set<Edge>, act0: set<Node>, paths: map<Edge, Path>, v: Node)
    requires Splitting(g, es0, act0, paths) && v in act0
    ensures v in g.active && SplitLoop(g, es0, act0, paths, v, v.succ.head, g.active, g.listed)
  {
    ListsAreValid(g);
    NothingGrown(g.active, g.listed, act0, v);
  }

  lemma LoopEnds(g: Vcg, es0: set<Edge>, act0: set<Node>, paths: map<Edge, Path>, v: Node, a: int, a0: set<Node>,
                 s0: set<Edge>)
    requires SplitLoop(g, es0, act0, paths, v, a, a0, s0) && a < 0
    ensures Splitting(g, es0, act0, paths) && Single(g.listed, v) && Grown(a0, s0, g.active, g.listed, act0, v)
  {
    ListsAreValid(g);
  }

  /** A round with the step of the cursor. */
  method SplitStep(g: Vcg, v: Node, a: nat, like: NodeAttrs, ghost es0: set<Edge>, ghost act0: set<Node>,
                   ghost paths: map<Edge, Path>, ghost a0: set<Node>, ghost s0: set<Edge>)
    returns (b: int, ghost paths': map<Edge, Path>)
    requires SplitLoop(g, es0, act0, paths, v, a, a0, s0)
    modifies g`active, g`listed, g`tmpedgelist, g.active`succ, g.active`pred, g.listed`invisible
    ensures SplitLoop(g, es0, act0, paths', v, b, a0, s0) && b < a
    ensures forall x :: x in g.active ==> x in old(g.active) || fresh(x)
    ensures forall x :: x in g.listed ==> x in old(g.listed) || fresh(x)
  {
    hide Splitting, Separated, Grown;
    ghost var a1, s1 := g.active, g.listed;
    b, paths' := SplitCell(g, v, a, like, es0, act0, paths, a1, s1);
    GrownTwice(a0, s0, a1, s1, g.active, g.listed, act0, v);
  }

  /** The loop over NSUCC(v). */
  method SplitNode(g: Vcg, v: Node, like: NodeAttrs, ghost es0: set<Edge>, ghost act0: set<Node>,
                   ghost paths: map<Edge, Path>, ghost a0: set<Node>, ghost s0: set<Edge>)
    returns (ghost paths': map<Edge, Path>)
    requires Splitting(g, es0, act0, paths) && v in act0 && a0 == g.active && s0 == g.listed
    modifies g`active, g`listed, g`tmpedgelist, a0`succ, a0`pred, s0`invisible
    ensures Splitting(g, es0, act0, paths') && Single(g.listed, v) && Grown(a0, s0, g.active, g.listed, act0, v)
    ensures forall x :: x in g.active ==> x in a0 || fresh(x)
    ensures forall x :: x in g.listed ==> x in s0 || fresh(x)
  {
    LoopStarts(g, es0, act0, paths, v);
    var a := v.succ.head;
    paths' := paths;
    hide Splitting, Single, Grown, Separated, SplitLoop;
    while a >= 0
      invariant SplitLoop(g, es0, act0, paths', v, a, a0, s0)
      invariant forall x :: x in g.active ==> x in a0 || fresh(x)
      invariant forall x :: x in g.listed ==> x in s0 || fresh(x)
      decreases a
    {
      a, paths' := SplitStep(g, v, a, like, es0, act0, paths', a0, s0);
    }
    LoopEnds(g, es0, act0, paths', v, a, a0, s0);
  }

  /** No edge from the first i nodes to another node is doubled. */
  ghost predicate SingleUpTo(es: set<Edge>, elems: seq<Node>, i: int)
    requires i <= |elems|
  {
    forall k :: 0 <= k < i ==> Single(es, elems[k])
  }

  /** Work on the i-th node leaves those before it as they are. */
  lemma KeepsSingle(a0: set<Node>, es: set<Edge>, a1: set<Node>, es': set<Edge>, act0: set<Node>, elems: seq<Node>,
                    i: nat)
    requires i < |elems| && Distinct(elems) && (forall x :: x in elems ==> x in act0)
    requires Grown(a0, es, a1, es', act0, elems[i]) && Single(es', elems[i]) && SingleUpTo(es, elems, i)
    ensures SingleUpTo(es', elems, i + 1)
  {
    forall k | 0 <= k < i ensures Single(es', elems[k]) {
      assert elems[k] != elems[i] && elems[k] in act0;
      assert Outs(es', elems[k]) == Outs(es, elems[k]);
    }
  }

  /** The edges from the nodes act0 that are not among elems are the same. */
  ghost predicate OthersKept(es0: set<Edge>, act0: set<Node>, es: set<Edge>, elems: seq<Node>)
  {
    forall x :: x in act0 && x !in elems ==> Outs(es, x) == Outs(es0, x)
  }

  lemma OthersStay(es0: set<Edge>, act0: set<Node>, a1: set<Node>, s1: set<Edge>, active: set<Node>, es: set<Edge>,
                   elems: seq<Node>, i: nat)
    requires i < |elems| && OthersKept(es0, act0, s1, elems) && Grown(a1, s1, active, es, act0, elems[i])
    ensures OthersKept(es0, act0, es, elems)
  {
  }

  /** At most one edge leads from one of the nodes to one other node. */
  ghost predicate NoDoubles(es: set<Edge>, nodes: set<Node>)
  {
    forall e, f :: e in es && f in es && e.start in nodes && e.start != e.end && e.start == f.start && e.end == f.end
        ==> e == f
  }

  lemma AllSingle(es: set<Edge>, nodes: set<Node>, elems: seq<Node>)
    requires (forall x :: x in nodes ==> x in elems) && SingleUpTo(es, elems, |elems|)
    ensures NoDoubles(es, nodes)
  {
    forall e, f | e in es && f in es && e.start in nodes && e.start != e.end && e.start == f.start && e.end == f.end
      ensures e == f
    {
      assert e.start in elems && Single(es, e.start);
      assert e in Outs(es, e.start) && f in Outs(es, e.start);
    }
  }

  lemma SplittingMeans(g: Vcg, es0: set<Edge>, act0: set<Node>, paths: map<Edge, Path>)
    requires Splitting(g, es0, act0, paths)
    ensures AdjOk(g) && SplitFrom(es0, act0, g.listed, paths)
  {
  }

  lemma ListFacts(l: NodeList)
    requires l.Valid()
    ensures Distinct(l.elems) && l.first == (if l.elems == [] then null else l.elems[0])
    ensures (forall x :: x in l.elems ==> x in l.members) && (forall x :: x in l.members ==> x in l.elems)
  {
  }

  lemma NextOf(l: NodeList, i: nat)
    requires l.Valid() && i < |l.elems|
    ensures l.elems[i].next == if i + 1 < |l.elems| then l.elems[i + 1] else null
  {
    assert LinkedAt(l.elems, i);
  }

  /** The state of the loop over the node list, standing on v, its i-th node, or at its end. */
  ghost predicate NodesLoop(g: Vcg, es0: set<Edge>, act0: set<Node>, paths: map<Edge, Path>, elems: seq<Node>, i: nat,
                            v: Node?)
    reads g`active, g`listed, g.active`succ, g.active`pred
  {
    && i <= |elems| && v == (if i < |elems| then elems[i] else null)
    && Splitting(g, es0, act0, paths) && SingleUpTo(g.listed, elems, i) && OthersKept(es0, act0, g.listed, elems)
  }

  lemma NodesStart(g: Vcg)
    requires AdjOk(g) && EndsActive(g) && g.nodelist.Valid()
    ensures NodesLoop(g, g.listed, g.active, map[], g.nodelist.elems, 0, g.nodelist.first)
  {
    hide AdjOk;
  }

  lemma NodesEnd(g: Vcg, es0: set<Edge>, act0: set<Node>, paths: map<Edge, Path>, elems: seq<Node>, i: nat)
    requires NodesLoop(g, es0, act0, paths, elems, i, null) && forall x :: x in g.nodelist.members ==> x in elems
    ensures AdjOk(g) && SplitFrom(es0, act0, g.listed, paths) && NoDoubles(g.listed, g.nodelist.members)
    ensures OthersKept(es0, act0, g.listed, elems)
  {
    hide Splitting, AdjOk, SplitFrom, SingleUpTo, NoDoubles, OthersKept;
    SplittingMeans(g, es0, act0, paths);
    AllSingle(g.listed, g.nodelist.members, elems);
  }

  /** The work on the i-th node, when the nodes a1 are active and the edges s1 listed. */
  method SplitNext(g: Vcg, v: Node, like: NodeAttrs, ghost elems: seq<Node>, ghost i: nat, ghost es0: set<Edge>,
                   ghost act0: set<Node>, ghost paths: map<Edge, Path>, ghost a1: set<Node>, ghost s1: set<Edge>)
    returns (ghost paths': map<Edge, Path>)
    requires i < |elems| && v == elems[i] && a1 == g.active && s1 == g.listed
    requires Splitting(g, es0, act0, paths) && SingleUpTo(s1, elems, i) && OthersKept(es0, act0, s1, elems)
    requires Distinct(elems) && forall x :: x in elems ==> x in act0
    modifies g`active, g`listed, g`tmpedgelist, a1`succ, a1`pred, s1`invisible
    ensures Splitting(g, es0, act0, paths') && SingleUpTo(g.listed, elems, i + 1)
    ensures OthersKept(es0, act0, g.listed, elems)
    ensures forall x :: x in g.active ==> x in a1 || fresh(x)
    ensures forall x :: x in g.listed ==> x in s1 || fresh(x)
  {
    hide *;
    paths' := SplitNode(g, v, like, es0, act0, paths, a1, s1);
    KeepsSingle(a1, s1, g.active, g.listed, act0, elems, i);
    OthersStay(es0, act0, a1, s1, g.active, g.listed, elems, i);
  }

  /** A round with the step to the next node. */
  method SplitAndStep(g: Vcg, v: Node, like: NodeAttrs, ghost i: nat, ghost es0: set<Edge>, ghost act0: set<Node>,
                      ghost paths: map<Edge, Path>, ghost a1: set<Node>, ghost s1: set<Edge>)
    returns (w: Node?, ghost paths': map<Edge, Path>)
    requires g.nodelist.Valid() && NodesLoop(g, es0, act0, paths, g.nodelist.elems, i, v)
    requires a1 == g.active && s1 == g.listed && g.nodelist.members <= act0
    modifies g`active, g`listed, g`tmpedgelist, a1`succ, a1`pred, s1`invisible
    ensures i < |g.nodelist.elems| && NodesLoop(g, es0, act0, paths', g.nodelist.elems, i + 1, w)
    ensures forall x :: x in g.active ==> x in a1 || fresh(x)
    ensures forall x :: x in g.listed ==> x in s1 || fresh(x)
  {
    hide Splitting, SingleUpTo, OthersKept, Distinct, NodeList.Valid;
    ListFacts(g.nodelist);
    NextOf(g.nodelist, i);
    w := v.next;
    paths' := SplitNext(g, v, like, g.nodelist.elems, i, es0, act0, paths, a1, s1);
  }

  /** split_double_edges: afterwards at most one edge leads from a node of the node list to
      another node; each edge that was removed has its own path through a new label node
      instead, and the other edges are as they were, among them those from the label nodes
      that were there before. */
  method SplitDoubleEdges(g: Vcg, like: NodeAttrs) returns (ghost paths: map<Edge, Path>)
    requires g.nodelist.Valid() && AdjOk(g) && EndsActive(g) && g.nodelist.members <= g.active
    modifies g`active, g`listed, g`tmpedgelist, g.active`succ, g.active`pred, g.listed`invisible
    ensures AdjOk(g) && SplitFrom(old(g.listed), old(g.active), g.listed, paths)
    ensures NoDoubles(g.listed, g.nodelist.members)
    ensures OthersKept(old(g.listed), old(g.active), g.listed, g.nodelist.elems)
  {
    hide *;
    ghost var es0, act0 := g.listed, g.active;
    NodesStart(g);
    ListFacts(g.nodelist);
    var v := g.nodelist.first;
    ghost var i := 0;
    paths := map[];
    while v != null
      invariant 0 <= i <= |g.nodelist.elems| && NodesLoop(g, es0, act0, paths, g.nodelist.elems, i, v)
      invariant forall x :: x in g.active ==> x in act0 || fresh(x)
      invariant forall x :: x in g.listed ==> x in es0 || fresh(x)
      decreases |g.nodelist.elems| - i
    {
      v, paths := SplitAndStep(g, v, like, i, es0, act0, paths, g.active, g.listed);
      i := i + 1;
    }
    NodesEnd(g, es0, act0, paths, g.nodelist.elems, i);
  }
}
