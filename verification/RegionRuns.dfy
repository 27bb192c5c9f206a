/** The folding of any number of regions (folding.c, steps 5 to 8 of the driver), and that the
    edges which folding has moved are those that create_adjacencies builds from scratch. */
module RegionRuns {
  import opened Chains
  import opened GraphTypes
  import opened NodeVisibility
  import opened Subgraphs
  import opened SearchVisible
  import opened Adjacency
  import opened Quotient
  import opened RegionCore
  import opened FoldRegions
  import opened LeftOvers

  /** A folding: the situation when it started, and the nodes that have been folded into c.n. */
  datatype RegionFold = RegionFold(c: Start, region: set<Node>)

  /** What the search sees after one folding. */
  ghost function AfterFold(h: Hiding, r: RegionFold): Hiding
  {
    Into(h, r.c.n, r.region)
  }

  /** The summary node and the nodes of the region were visible. */
  ghost predicate Fits(h: Hiding, r: RegionFold)
  {
    && r.c.n in h.vis && h.vis[r.c.n] == 0 && r.c.n !in r.region
    && forall x :: x in r.region ==> x in h.vis && h.vis[x] == 0 && x in h.regroot
  }

  function Moved(r: RegionFold, x: Node?): Node?
  {
    if x in r.region then r.c.n else x
  }

  /** After the folding the search returns whenever it did before: the summary node where it
      returned a node of the region, and the same node otherwise. */
  lemma {:induction false} FoldMovesSearch(h: Hiding, r: RegionFold, v: Node?, f: nat)
    requires Fits(h, r) && Search(h, v, f).Some?
    ensures Search(AfterFold(h, r), v, f + 1) == Some(Moved(r, Search(h, v, f).value))
    decreases f
  {
    var h' := AfterFold(h, r);
    if v != null && v in h.vis {
      if h.vis[v] == 0 {
        assert Search(h', r.c.n, f) == Some(r.c.n);
      } else if h.vis[v] == UNFOLDED_SGRAPH {
        var w := if h.vis[h.first[v]] == FOLDED_SGNODE then v.root else h.first[v];
        FoldMovesSearch(h, r, w, f - 1);
        assert InnerLoop(h', v, v, f + 1) == Some(h.first[v]);
      } else if h.vis[v] == FOLDED_SGNODE {
        FoldMovesSearch(h, r, v.root, f - 1);
      } else if h.vis[v] == FOLDED_RGNODE {
        FoldMovesSearch(h, r, h.regroot[v], f - 1);
      }
    }
  }

  // ---------- any number of foldings ----------

  ghost function AfterFolds(h: Hiding, rs: seq<RegionFold>): Hiding
  {
    if rs == [] then h else AfterFold(AfterFolds(h, rs[..|rs| - 1]), rs[|rs| - 1])
  }

  ghost predicate FoldsFit(h: Hiding, rs: seq<RegionFold>)
  {
    rs == [] || (FoldsFit(h, rs[..|rs| - 1]) && Fits(AfterFolds(h, rs[..|rs| - 1]), rs[|rs| - 1]))
  }

  function MovedBy(rs: seq<RegionFold>, x: Node?): Node?
  {
    if rs == [] then x else Moved(rs[|rs| - 1], MovedBy(rs[..|rs| - 1], x))
  }

  /** Every search that returned before the foldings still returns, and what it returned has
      moved along. */
  lemma {:induction false} FoldsMoveSearch(h: Hiding, rs: seq<RegionFold>, v: Node?, f: nat)
    requires FoldsFit(h, rs) && Search(h, v, f).Some?
    ensures Search(AfterFolds(h, rs), v, f + |rs|) == Some(MovedBy(rs, Search(h, v, f).value))
  {
    if rs != [] {
      var before := rs[..|rs| - 1];
      FoldsMoveSearch(h, before, v, f);
      hide Search, Fits;
      FoldMovesSearch(AfterFolds(h, before), rs[|rs| - 1], v, f + |before|);
    }
  }

  /** The calls of fold_region, with node and class, that led to the foldings rs: there is one
      folding for each node that was visible when its turn came. */
  ghost predicate Performs(h: Hiding, calls: seq<(Node, int)>, rs: seq<RegionFold>)
  {
    if calls == [] then rs == []
    else
      var call, before := calls[|calls| - 1], calls[..|calls| - 1];
      || (Performs(h, before, rs) && call.0 !in VisibleNodes(AfterFolds(h, rs).vis))
      || (&& rs != [] && Performs(h, before, rs[..|rs| - 1])
          && call.0 in VisibleNodes(AfterFolds(h, rs[..|rs| - 1]).vis)
          && rs[|rs| - 1].c.n == call.0 && rs[|rs| - 1].c.k == call.1)
  }

  // ---------- the pairs of nodes that are joined ----------

  /** The specified edge e is drawn, or a substitute is drawn for it. */
  ghost predicate Joins(h: Hiding, f: nat, e: Edge)
    requires Resolved(h, f, e)
  {
    && Rep(h, f, e.start) != null && Rep(h, f, e.end) != null
    && (Drawable(h, e) || Rep(h, f, e.start) != Rep(h, f, e.end))
  }

  ghost function RepPair(h: Hiding, f: nat, e: Edge): (Node, Node)
    requires Resolved(h, f, e) && Joins(h, f, e)
  {
    (Rep(h, f, e.start), Rep(h, f, e.end))
  }

  /** The quotient graph, as pairs of nodes. */
  ghost function QuotientPairs(h: Hiding, f: nat, es: seq<Edge>): set<(Node, Node)>
    requires forall e :: e in es ==> Resolved(h, f, e)
  {
    set e | e in es && Joins(h, f, e) :: RepPair(h, f, e)
  }

  lemma DrawnRep(h: Hiding, f: nat, e: Edge)
    requires Resolved(h, f, e) && Drawable(h, e)
    ensures Rep(h, f, e.start) == e.start && Rep(h, f, e.end) == e.end && Joins(h, f, e) && !Induces(h, f, e)
  {
  }

  /** The listed edges join the pairs of the quotient. */
  lemma ListedPairs(h: Hiding, f: nat, es: seq<Edge>, listed: set<Edge>, ts: seq<Edge>)
    requires forall e :: e in es ==> Resolved(h, f, e)
    requires Quotiented(h, f, es, listed, ts)
    ensures Pairing(listed) == QuotientPairs(h, f, es)
  {
    forall p | p in Pairing(listed) ensures p in QuotientPairs(h, f, es) {
      var x :| x in listed && (x.start, x.end) == p;
      ListedIsQuotient(h, f, es, listed, ts, p.0, p.1);
      if x in es {
        DrawnRep(h, f, x);
        assert RepPair(h, f, x) == p;
      } else {
        var e :| e in es && Induces(h, f, e) && Rep(h, f, e.start) == p.0 && Rep(h, f, e.end) == p.1;
        assert Joins(h, f, e) && RepPair(h, f, e) == p;
      }
    }
    forall p | p in QuotientPairs(h, f, es) ensures p in Pairing(listed) {
      var e :| e in es && Joins(h, f, e) && RepPair(h, f, e) == p;
      ListedIsQuotient(h, f, es, listed, ts, p.0, p.1);
      if Drawable(h, e) {
        DrawnRep(h, f, e);
      } else {
        assert Induces(h, f, e);
        var x :| x in listed && x !in es && x.start == p.0 && x.end == p.1;
      }
    }
  }

  /** Where folding moves the pairs: a pair with an end in the region goes to the summary node,
      unless the ends become the same. */
  ghost predicate Stays(r: RegionFold, p: (Node, Node))
  {
    (p.0 !in r.region && p.1 !in r.region) || Moved(r, p.0) != Moved(r, p.1)
  }

  ghost function MovedPair(r: RegionFold, p: (Node, Node)): (Node, Node)
  {
    (Moved(r, p.0), Moved(r, p.1))
  }

  ghost function MovedPairs(r: RegionFold, ps: set<(Node, Node)>): set<(Node, Node)>
  {
    set p | p in ps && Stays(r, p) :: MovedPair(r, p)
  }

  lemma FoldMovesEdge(h: Hiding, r: RegionFold, f: nat, e: Edge)
    requires Fits(h, r) && Resolved(h, f, e)
    ensures Resolved(AfterFold(h, r), f + 1, e)
    ensures Joins(AfterFold(h, r), f + 1, e) <==> Joins(h, f, e) && Stays(r, RepPair(h, f, e))
    ensures Joins(AfterFold(h, r), f + 1, e) ==>
              RepPair(AfterFold(h, r), f + 1, e) == MovedPair(r, RepPair(h, f, e))
  {
    FoldMovesSearch(h, r, e.start, f);
    FoldMovesSearch(h, r, e.end, f);
    if Drawable(h, e) { DrawnRep(h, f, e); }
    hide Search;
  }

  /** The quotient after a folding is the quotient before it, moved. */
  lemma FoldMovesPairs(h: Hiding, r: RegionFold, f: nat, es: seq<Edge>)
    requires Fits(h, r) && forall e :: e in es ==> Resolved(h, f, e)
    ensures forall e :: e in es ==> Resolved(AfterFold(h, r), f + 1, e)
    ensures QuotientPairs(AfterFold(h, r), f + 1, es) == MovedPairs(r, QuotientPairs(h, f, es))
  {
    forall e | e in es
      ensures Resolved(AfterFold(h, r), f + 1, e)
      ensures Joins(AfterFold(h, r), f + 1, e) <==> Joins(h, f, e) && Stays(r, RepPair(h, f, e))
      ensures Joins(AfterFold(h, r), f + 1, e) ==>
                RepPair(AfterFold(h, r), f + 1, e) == MovedPair(r, RepPair(h, f, e))
    {
      FoldMovesEdge(h, r, f, e);
    }
    hide Joins, RepPair, Stays, MovedPair, Resolved, AfterFold, Fits;
    var ps, qs := QuotientPairs(h, f, es), QuotientPairs(AfterFold(h, r), f + 1, es);
    forall q | q in MovedPairs(r, ps) ensures q in qs {
      var p :| p in ps && Stays(r, p) && MovedPair(r, p) == q;
      var e :| e in es && Joins(h, f, e) && RepPair(h, f, e) == p;
    }
    forall q | q in qs ensures q in MovedPairs(r, ps) {
      var e :| e in es && Joins(AfterFold(h, r), f + 1, e) && RepPair(AfterFold(h, r), f + 1, e) == q;
      assert RepPair(h, f, e) in ps;
    }
  }

  /** So are the listed edges, which recursive_fold moves one by one. */
  lemma EdgesMovedPairs(c: Start, region: set<Node>, listed: set<Edge>)
    requires EdgesMoved(c, region, listed) && c.n !in region
    requires forall e :: e in c.edges0 ==> e.start in c.act && e.end in c.act
    requires forall e :: e in listed ==> e.start in c.act && e.end in c.act
    ensures Pairing(listed) == MovedPairs(RegionFold(c, region), Pairing(c.edges0))
  {
    var r := RegionFold(c, region);
    forall q | q in Pairing(listed) ensures q in MovedPairs(r, Pairing(c.edges0)) {
      var t :| t in listed && (t.start, t.end) == q;
      MovedFrom(c, region, listed, t);
    }
    forall q | q in MovedPairs(r, Pairing(c.edges0)) ensures q in Pairing(listed) {
      var p :| p in Pairing(c.edges0) && Stays(r, p) && MovedPair(r, p) == q;
      var e :| e in c.edges0 && (e.start, e.end) == p;
      MovedTo(c, region, listed, e);
    }
  }

  lemma MovedFrom(c: Start, region: set<Node>, listed: set<Edge>, t: Edge)
    requires EdgesMoved(c, region, listed) && c.n !in region && t in listed && t.start in c.act && t.end in c.act
    ensures (t.start, t.end) in MovedPairs(RegionFold(c, region), Pairing(c.edges0))
  {
    var r := RegionFold(c, region);
    var e := t;
    if t !in c.edges0 {
      if t.end == c.n {
        assert Joined(c, region, listed, t.start);
        e :| e in c.edges0 && e.start == t.start && Inner(c, region, e.end);
      } else {
        assert Joined(c, region, listed, t.end);
        e :| e in c.edges0 && e.end == t.end && Inner(c, region, e.start);
      }
    }
    var p := (e.start, e.end);
    assert p in Pairing(c.edges0) && Stays(r, p) && MovedPair(r, p) == (t.start, t.end);
  }

  lemma MovedTo(c: Start, region: set<Node>, listed: set<Edge>, e: Edge)
    requires EdgesMoved(c, region, listed) && c.n !in region && e in c.edges0 && e.start in c.act && e.end in c.act
    requires Stays(RegionFold(c, region), (e.start, e.end))
    ensures MovedPair(RegionFold(c, region), (e.start, e.end)) in Pairing(listed)
  {
    if e.start !in region && e.end !in region {
      assert e in listed;
    } else if e.end in region {
      assert Joined(c, region, listed, e.start);
      var t :| t in listed && t.start == e.start && t.end == c.n;
      assert (t.start, t.end) in Pairing(listed);
    } else {
      assert Joined(c, region, listed, e.end);
      var t :| t in listed && t.start == c.n && t.end == e.end;
      assert (t.start, t.end) in Pairing(listed);
    }
  }

  /** The folding r started on the visible nodes and the quotient of that time, and its region
      is what was reachable then. */
  ghost predicate Searched(h: Hiding, f: nat, es: seq<Edge>, r: RegionFold)
    requires forall e :: e in es ==> Resolved(h, f, e)
  {
    && IsRegion(r.c, r.region) && r.c.act == VisibleNodes(h.vis)
    && Pairing(r.c.edges0) == QuotientPairs(h, f, es)
  }

  ghost predicate AllSearched(h: Hiding, f: nat, es: seq<Edge>, rs: seq<RegionFold>)
  {
    rs == [] ||
    (var before := rs[..|rs| - 1];
     && AllSearched(h, f, es, before)
     && (forall e :: e in es ==> Resolved(AfterFolds(h, before), f + |before|, e))
     && Searched(AfterFolds(h, before), f + |before|, es, rs[|rs| - 1]))
  }

  /** The situation when step 7 begins: what the search sees, a bound on its calls, the
      specified edges, the fold stops, the attributes that are given for folded edges, the
      listed edges and the temporary ones. */
  datatype Origin = Origin(h: Hiding, f: nat, es: seq<Edge>, stops: seq<Node>, fe: EdgeAttrs, listed: set<Edge>,
                           temps: seq<Edge>)

  /** The foldings rs led from the listed and temporary edges of the origin to these: each
      started on the edges that the one before had left, and moved them. */
  ghost predicate Moves(o: Origin, rs: seq<RegionFold>, listed: set<Edge>, temps: set<Edge>)
  {
    if rs == [] then listed == o.listed && temps == Elems(o.temps)
    else
      var r := rs[|rs| - 1];
      && r.c.stops == o.stops && r.c.fe == o.fe && EdgesMoved(r.c, r.region, listed)
      && (forall t :: t in temps ==> Made(r.c, r.region, t))
      && Moves(o, rs[..|rs| - 1], r.c.edges0, r.c.temps)
  }

  /** The history of the foldings rs, to which the calls of fold_region led: now the search sees
      h1, and these edges are listed and temporary. */
  ghost predicate History(o: Origin, calls: seq<(Node, int)>, rs: seq<RegionFold>, h1: Hiding, listed: set<Edge>,
                          temps: set<Edge>)
  {
    && FoldsFit(o.h, rs) && h1 == AfterFolds(o.h, rs) && AllSearched(o.h, o.f, o.es, rs)
    && Performs(o.h, calls, rs) && Moves(o, rs, listed, temps)
  }

  /** Every search returns, and the listed edges join the pairs of the quotient. */
  ghost predicate InQuotient(h: Hiding, f: nat, es: seq<Edge>, listed: set<Edge>)
  {
    (forall e :: e in es ==> Resolved(h, f, e)) && Pairing(listed) == QuotientPairs(h, f, es)
  }

  lemma HistoryStarts(o: Origin)
    ensures History(o, [], [], o.h, o.listed, Elems(o.temps))
  {
  }

  /** A call for a visible node. */
  lemma HistoryGrows(o: Origin, calls: seq<(Node, int)>, rs: seq<RegionFold>, h1: Hiding, r: RegionFold,
                     listed: set<Edge>, temps: set<Edge>)
    requires History(o, calls, rs, h1, r.c.edges0, r.c.temps) && InQuotient(h1, o.f + |rs|, o.es, r.c.edges0)
    requires Fits(h1, r) && IsRegion(r.c, r.region) && r.c.act == VisibleNodes(h1.vis) && r.c.n in r.c.act
    requires r.c.stops == o.stops && r.c.fe == o.fe && EdgesMoved(r.c, r.region, listed)
    requires forall t :: t in temps ==> Made(r.c, r.region, t)
    ensures History(o, calls + [(r.c.n, r.c.k)], rs + [r], AfterFold(h1, r), listed, temps)
  {
    hide Fits, IsRegion, AfterFold, Resolved, VisibleNodes, EdgesMoved, Made;
    assert (rs + [r])[..|rs|] == rs;
    assert (calls + [(r.c.n, r.c.k)])[..|calls|] == calls;
  }

  /** A call for a hidden node. */
  lemma HistoryStays(o: Origin, calls: seq<(Node, int)>, rs: seq<RegionFold>, h1: Hiding, listed: set<Edge>,
                     temps: set<Edge>, n: Node, k: int)
    requires History(o, calls, rs, h1, listed, temps) && n !in VisibleNodes(h1.vis)
    ensures History(o, calls + [(n, k)], rs, h1, listed, temps)
  {
    hide FoldsFit, AfterFolds, AllSearched, VisibleNodes, Moves;
    assert (calls + [(n, k)])[..|calls|] == calls;
  }

  /** The quotient of before has moved as the listed edges have. */
  lemma QuotientMoves(c: Start, h: Hiding, f: nat, es: seq<Edge>, region: set<Node>, listed: set<Edge>)
    requires Fits(h, RegionFold(c, region)) && InQuotient(h, f, es, c.edges0)
    requires EdgesMoved(c, region, listed) && c.n !in region
    requires forall e :: e in c.edges0 ==> e.start in c.act && e.end in c.act
    requires forall e :: e in listed ==> e.start in c.act && e.end in c.act
    ensures InQuotient(AfterFold(h, RegionFold(c, region)), f + 1, es, listed)
  {
    hide AfterFold, Fits, Resolved, EdgesMoved, QuotientPairs, MovedPairs, Pairing;
    FoldMovesPairs(h, RegionFold(c, region), f, es);
    EdgesMovedPairs(c, region, listed);
  }

  // ---------- the loops of the driver ----------

  /** No visible node belongs to a region. */
  ghost predicate RootsClear(g: Vcg)
    reads g`active, g.active`regroot
  {
    forall x :: x in g.active ==> x.regroot == null
  }

  /** The state after these calls of fold_region since the origin. */
  ghost predicate FoldedSince(g: Vcg, o: Origin, calls: seq<(Node, int)>, rs: seq<RegionFold>)
    reads g, g.nodelist, g.graphlist, g.active`succ, g.active`pred, g.listed`invisible, g.active`regroot
    reads g.nodes`inlist, g.nodes`invisible, g.nodes`next, g.nodes`before, g.nodes`sgraph, g.nodes`regroot
  {
    && Ready(g) && RootsClear(g) && g.active <= g.nodes
    && g.edgelist == o.es && g.foldstops == o.stops && g.foldedge == o.fe
    && History(o, calls, rs, HidingOf(g), g.listed, Elems(g.tmpedgelist))
    && InQuotient(HidingOf(g), o.f + |rs|, o.es, g.listed)
  }

  lemma StartFacts(g: Vcg, n: Node, k: int, c: Start, h: Hiding)
    requires Ready(g) && RootsClear(g) && n in g.active && c == StartOf(g, n, k) && h == HidingOf(g)
    ensures Foldable(g, n) && c.n == n && c.k == k && c.act == g.active <= g.nodes && c.edges0 == g.listed
    ensures c.stops == g.foldstops && c.fe == g.foldedge && c.temps == Elems(g.tmpedgelist)
    ensures h.vis == g.Flags() && h.vis.Keys == h.regroot.Keys == g.nodes && c.act == VisibleNodes(h.vis)
    ensures forall x :: x in g.active ==> h.vis[x] == 0 && h.regroot[x] == null && x in c.roots && c.roots[x] == null
    ensures forall e :: e in c.edges0 ==> e.start in c.act && e.end in c.act
  {
    VisibleFlags(g);
  }

  /** What the search sees after fold_region. */
  lemma FoldIsSeen(g: Vcg, c: Start, h: Hiding)
    requires RegionFolded(g, c, h.vis) && h.first == Firsts(g.nodes) && h.regroot.Keys == g.nodes
    requires c.act <= g.nodes && c.n in c.act && g.active == c.act - Elems(c.n.region)
    requires forall x :: x in c.act ==> h.vis.Keys == g.nodes && h.vis[x] == 0 && h.regroot[x] == null
    requires forall x :: x in c.act ==> x in c.roots && c.roots[x] == null
    requires forall x :: x in g.nodes - c.act ==> x.regroot == h.regroot[x]
    ensures var r := RegionFold(c, Elems(c.n.region)); Fits(h, r) && HidingOf(g) == AfterFold(h, r)
    ensures RootsClear(g)
  {
    hide EdgesMoved, Distinct;
    var r := RegionFold(c, Elems(c.n.region));
    assert Roots(g.nodes) == AfterFold(h, r).regroot;
  }

  lemma SinceKnown(g: Vcg, o: Origin, calls: seq<(Node, int)>, rs: seq<RegionFold>)
    requires FoldedSince(g, o, calls, rs)
    ensures Ready(g) && RootsClear(g) && g.active <= g.nodes && g.ListsOk() && AdjOk(g)
    ensures g.active == g.nodelist.members && OnePerPair(g.tmpedgelist)
    ensures forall e :: e in g.listed ==> e.start in g.active && e.end in g.active && (e.invisible ==> e.start == e.end)
    ensures g.edgelist == o.es && g.foldstops == o.stops && g.foldedge == o.fe
    ensures History(o, calls, rs, HidingOf(g), g.listed, Elems(g.tmpedgelist))
    ensures InQuotient(HidingOf(g), o.f + |rs|, o.es, g.listed)
  {
    hide InQuotient, History, Vcg.ListsOk, AdjOk, OnePerPair, HidingOf;
  }

  lemma RegionKnown(g: Vcg, c: Start, vis0: map<Node, int>)
    requires RegionFolded(g, c, vis0)
    ensures var region := Elems(c.n.region);
      && IsRegion(c, region) && EdgesMoved(c, region, g.listed) && c.n !in region && region <= c.act
      && (forall x :: x in region ==> NothingLeft(x.succ)) && AllMade(c, region, g.tmpedgelist)
      && forall e :: e in g.listed ==> e in c.edges0 || e in g.tmpedgelist
  {
    hide EdgesMoved, Elems, Distinct, AllMade;
  }

  /** The state when fold_region of a visible node has ended. */
  lemma FoldFits(g: Vcg, o: Origin, h1: Hiding, calls: seq<(Node, int)>, rs: seq<RegionFold>, r: RegionFold)
    requires Ready(g) && RootsClear(g) && g.active <= r.c.act <= g.nodes && HidingOf(g) == AfterFold(h1, r)
    requires g.edgelist == o.es && g.foldstops == o.stops == r.c.stops && g.foldedge == o.fe == r.c.fe
    requires IsRegion(r.c, r.region) && EdgesMoved(r.c, r.region, g.listed) && r.c.act == VisibleNodes(h1.vis)
    requires r.c.n in r.c.act - r.region && forall e :: e in r.c.edges0 ==> e.start in r.c.act && e.end in r.c.act
    requires Fits(h1, r) && History(o, calls, rs, h1, r.c.edges0, r.c.temps)
    requires AllMade(r.c, r.region, g.tmpedgelist) && InQuotient(h1, o.f + |rs|, o.es, r.c.edges0)
    ensures FoldedSince(g, o, calls + [(r.c.n, r.c.k)], rs + [r])
  {
    hide History, InQuotient, Fits, IsRegion, EdgesMoved, AfterFold, HidingOf, VisibleNodes, RootsClear, Made;
    hide Vcg.ListsOk, AdjOk, OnePerPair;
    HistoryGrows(o, calls, rs, h1, r, g.listed, Elems(g.tmpedgelist));
    QuotientMoves(r.c, h1, o.f + |rs|, o.es, r.region, g.listed);
    assert |rs + [r]| == |rs| + 1;
  }

  lemma SameClass(fn: NodeAttrs, n: Node, was: Saved)
    requires IsSummary(fn, n, was)
    ensures n.attrs.folding == was.attrs.folding
  {
  }

  /** fold_region of a visible node. */
  method FoldVisible(g: Vcg, n: Node, k: int, refnum: int,
                     ghost o: Origin, ghost calls: seq<(Node, int)>, ghost rs: seq<RegionFold>)
    returns (ghost r: RegionFold)
    requires FoldedSince(g, o, calls, rs) && n in g.active
    modifies g`nodes, g`nodeanz, g`tmpedgelist, g`listed, g`active, g.nodelist, g.graphlist
    modifies n`attrs, n`regrepl, n`region
    modifies g.nodes`next, g.nodes`before, g.active`inlist, g.active`invisible, g.active`regroot
    modifies g.active`succ, g.active`pred, g.listed`invisible, Elems(g.tmpedgelist)`invisible
    ensures FoldedSince(g, o, calls + [(n, k)], rs + [r])
    ensures n.attrs.folding == old(n.attrs.folding)
    ensures g.nodes == old(g.nodes) && g.active == old(g.active) - r.region
    ensures r.region <= old(g.active) && forall x :: x in r.region ==> NothingLeft(x.succ)
    ensures forall e :: e in g.listed ==> e in old(g.listed) || e in g.tmpedgelist
    ensures forall t :: t in g.tmpedgelist ==> t in old(g.tmpedgelist) || fresh(t)
  {
    hide *;
    ghost var c, h1, was := StartOf(g, n, k), HidingOf(g), StateOf(n);
    SinceKnown(g, o, calls, rs);
    SeenNow(g, h1);
    StartFacts(g, n, k, c, h1);
    StateKnown(n, was);
    FoldRegion(g, n, k, refnum, c, h1.vis, was);
    SameClass(g.foldnode, n, was);
    r := RegionFold(c, Elems(n.region));
    RegionKnown(g, c, h1.vis);
    FoldIsSeen(g, c, h1);
    FoldFits(g, o, h1, calls, rs, r);
  }

  lemma SinceAgain(g: Vcg, o: Origin, calls: seq<(Node, int)>, rs: seq<RegionFold>)
    requires g.ListsOk() && AdjOk(g) && g.active == g.nodelist.members <= g.nodes && OnePerPair(g.tmpedgelist)
    requires forall e :: e in g.listed ==>
               e.start in g.active && e.end in g.active && (e.invisible ==> e.start == e.end)
    requires g.edgelist == o.es && g.foldstops == o.stops && g.foldedge == o.fe
    requires RootsClear(g) && History(o, calls, rs, HidingOf(g), g.listed, Elems(g.tmpedgelist))
    requires InQuotient(HidingOf(g), o.f + |rs|, o.es, g.listed)
    ensures FoldedSince(g, o, calls, rs)
  {
    hide InQuotient, History, Vcg.ListsOk, AdjOk, OnePerPair, HidingOf;
  }

  /** A node that is not visible is not seen by the search. */
  lemma NotSeen(g: Vcg, h: Hiding, n: Node)
    requires Ready(g) && h == HidingOf(g) && n in g.nodes && n !in g.active
    ensures n !in VisibleNodes(h.vis)
  {
    VisibleFlags(g);
  }

  /** A marked edge of a hidden node is not listed. */
  lemma LeftNotListed(g: Vcg, n: Node, l: Chain<Edge>)
    requires ListOk(n, l, g.nodes) && n !in g.active
    requires forall e :: e in g.listed ==> e.start in g.active && e.end in g.active
    ensures forall e :: e in l.at ==> e !in g.listed
  {
  }

  /** fold_region of a hidden node none of whose left-over edges leads to a visible node: it
      gets its own replacement, and the loop over its successors hides nothing. */
  method FoldHidden(g: Vcg, n: Node, k: int, refnum: int,
                    ghost o: Origin, ghost calls: seq<(Node, int)>, ghost rs: seq<RegionFold>)
    requires FoldedSince(g, o, calls, rs) && n in g.nodes && n !in g.active && LeftIdle(g, n, k, g.active)
    modifies g`nodes, g`nodeanz, g.nodelist, g.graphlist, g.nodes`next, g.nodes`before
    modifies n`attrs, n`regrepl, n`region, n.succ.at.Keys`invisible
    ensures FoldedSince(g, o, calls + [(n, k)], rs) && g.nodes == old(g.nodes)
    ensures n.attrs.folding == old(n.attrs.folding)
  {
    hide *;
    ghost var h1 := HidingOf(g);
    SinceKnown(g, o, calls, rs);
    NotSeen(g, h1, n);
    HistoryStays(o, calls, rs, h1, g.listed, Elems(g.tmpedgelist), n, k);
    SeenNow(g, h1);
    LeftKnown(g, n, k, g.active);
    LeftNotListed(g, n, n.succ);
    FoldIdle(g, n, k, refnum);
    SeenParts(g, h1);
    SinceAgain(g, o, calls + [(n, k)], rs);
  }

  /** None of the left-over edges of v leads to a visible node. */
  ghost predicate LeftIdle(g: Vcg, v: Node, k: int, visible: set<Node>)
    reads g`nodes, g`foldstops, v`succ
  {
    ListOk(v, v.succ, g.nodes) && Idle(v.succ, k, g.foldstops, visible)
  }

  lemma LeftKnown(g: Vcg, v: Node, k: int, visible: set<Node>)
    requires LeftIdle(g, v, k, visible)
    ensures ListOk(v, v.succ, g.nodes) && Idle(v.succ, k, g.foldstops, visible)
  {
  }

  /** Every node from which regions are folded is visible, or none of its left-over edges leads
      to a visible node; and its class is NFOLDING. */
  ghost predicate StartsOk(g: Vcg, starts: seq<Node?>, classes: map<Node, int>, visible: set<Node>)
    reads g`nodes, g`foldstops, Nodes(starts)`succ, Nodes(starts)`attrs
  {
    forall v :: v in Nodes(starts) ==>
      && v in g.nodes && v in classes && v.attrs.folding == classes[v]
      && (v in visible || LeftIdle(g, v, classes[v], visible))
  }

  /** The left-over edges of the hidden start nodes, which folding may mark. */
  ghost function LeftEdges(starts: seq<Node?>, visible: set<Node>): set<Edge>
    reads Nodes(starts)`succ
  {
    set v, e | v in Nodes(starts) - visible && e in v.succ.at :: e
  }

  function Nodes(starts: seq<Node?>): (r: set<Node>)
    ensures forall v :: v in starts && v != null ==> v in r
  {
    set v: Node | v in starts
  }

  /** The calls of fold_region in step 7 for the class k, and for all classes below k. */
  ghost function ClassCalls(classes: map<Node, int>, starts: seq<Node?>, k: int): seq<(Node, int)>
  {
    if starts == [] then []
    else
      var v, before := starts[|starts| - 1], ClassCalls(classes, starts[..|starts| - 1], k);
      if v != null && v in classes && classes[v] == k then before + [(v, k)] else before
  }

  ghost function DriverCalls(classes: map<Node, int>, starts: seq<Node?>, k: nat): seq<(Node, int)>
  {
    if k == 0 then [] else DriverCalls(classes, starts, k - 1) + ClassCalls(classes, starts, k - 1)
  }

  lemma {:induction false} ClassCallsAre(classes: map<Node, int>, starts: seq<Node?>, k: int, v: Node, j: int)
    ensures (v, j) in ClassCalls(classes, starts, k) <==> v in starts && v in classes && classes[v] == j == k
  {
    if starts != [] {
      var last, before := starts[|starts| - 1], starts[..|starts| - 1];
      ClassCallsAre(classes, before, k, v, j);
      assert v in starts <==> v in before || v == last;
    }
  }

  /** Step 7 calls fold_region for exactly the start nodes with a class below n, with their class. */
  lemma {:induction false} DriverCallsAre(classes: map<Node, int>, starts: seq<Node?>, n: nat, v: Node, k: int)
    ensures (v, k) in DriverCalls(classes, starts, n) <==> v in starts && v in classes && classes[v] == k && 0 <= k < n
  {
    if n > 0 {
      DriverCallsAre(classes, starts, n - 1, v, k);
      ClassCallsAre(classes, starts, n - 1, v, k);
    }
  }

  lemma {:induction false} ClassesOfCalls(classes: map<Node, int>, starts: seq<Node?>, k: int)
    ensures forall i :: 0 <= i < |ClassCalls(classes, starts, k)| ==> ClassCalls(classes, starts, k)[i].1 == k
  {
    if starts != [] { ClassesOfCalls(classes, starts[..|starts| - 1], k); }
  }

  /** The classes of the calls are below n and do not fall. */
  predicate Rising(calls: seq<(Node, int)>, n: int)
  {
    && (forall i :: 0 <= i < |calls| ==> calls[i].1 < n)
    && forall i, j :: 0 <= i <= j < |calls| ==> calls[i].1 <= calls[j].1
  }

  lemma RisesOn(before: seq<(Node, int)>, last: seq<(Node, int)>, n: int)
    requires Rising(before, n - 1) && forall i :: 0 <= i < |last| ==> last[i].1 == n - 1
    ensures Rising(before + last, n)
  {
    var calls := before + last;
    forall i | 0 <= i < |calls| ensures if i < |before| then calls[i].1 < n - 1 else calls[i].1 == n - 1 {
      if i < |before| { assert calls[i] == before[i]; } else { assert calls[i] == last[i - |before|]; }
    }
    forall i, j | 0 <= i <= j < |calls| ensures calls[i].1 <= calls[j].1 {
      if j < |before| { assert calls[i] == before[i] && calls[j] == before[j]; }
    }
  }

  /** The lower classes come first. */
  lemma {:induction false} LowerClassesFirst(classes: map<Node, int>, starts: seq<Node?>, n: nat)
    ensures Rising(DriverCalls(classes, starts, n), n)
  {
    if n > 0 {
      LowerClassesFirst(classes, starts, n - 1);
      ClassesOfCalls(classes, starts, n - 1);
      RisesOn(DriverCalls(classes, starts, n - 1), ClassCalls(classes, starts, n - 1), n);
    }
  }

  /** The predicate and what it says, for use where it is hidden. */
  lemma StartsKnown(g: Vcg, starts: seq<Node?>, classes: map<Node, int>, visible: set<Node>)
    requires StartsOk(g, starts, classes, visible)
    ensures forall v :: v in Nodes(starts) ==>
              && v in g.nodes && v in classes && v.attrs.folding == classes[v]
              && (v in visible || LeftIdle(g, v, classes[v], visible))
    ensures forall v :: v in Nodes(starts) - visible ==> v.succ.at.Keys <= LeftEdges(starts, visible)
  {
    hide LeftIdle;
  }

  /** Fewer nodes are visible, and those that have been hidden have nothing left. */
  lemma StartsStay(g: Vcg, starts: seq<Node?>, classes: map<Node, int>, visible: set<Node>, visible': set<Node>,
                   left: set<Edge>)
    requires visible' <= visible
    requires forall v :: v in Nodes(starts) ==> v in g.nodes && v in classes && v.attrs.folding == classes[v]
    requires forall v :: v in Nodes(starts) - visible' ==>
               NothingLeft(v.succ) || (LeftIdle(g, v, classes[v], visible) && v.succ.at.Keys <= left)
    ensures StartsOk(g, starts, classes, visible') && LeftEdges(starts, visible') <= left
  {
    hide Chain.CellOk;
  }

  lemma ListedIff(g: Vcg, v: Node)
    requires g.ListsOk() && g.active == g.nodelist.members && v in g.nodes
    ensures v.inlist <==> v in g.active
  {
    assert g.FlagsOk(v);
  }

  /** A call of fold_region from the driver. What it does is the same for a visible and a hidden
      node, but not what there is to show. */
  method FoldStart(g: Vcg, v: Node, k: int, refnum: int, starts: seq<Node?>, ghost classes: map<Node, int>,
                   ghost o: Origin, ghost calls: seq<(Node, int)>, ghost rs: seq<RegionFold>)
    returns (ghost rs': seq<RegionFold>)
    requires FoldedSince(g, o, calls, rs) && StartsOk(g, starts, classes, g.active)
    requires v in Nodes(starts) && v in classes && classes[v] == k
    modifies g`nodes, g`nodeanz, g`tmpedgelist, g`listed, g`active, g.nodelist, g.graphlist
    modifies Nodes(starts)`attrs, Nodes(starts)`regrepl, Nodes(starts)`region, LeftEdges(starts, g.active)`invisible
    modifies g.nodes`next, g.nodes`before, g.active`inlist, g.active`invisible, g.active`regroot
    modifies g.active`succ, g.active`pred, g.listed`invisible, Elems(g.tmpedgelist)`invisible
    ensures FoldedSince(g, o, calls + [(v, k)], rs') && StartsOk(g, starts, classes, g.active)
    ensures LeftEdges(starts, g.active) <= old(LeftEdges(starts, g.active))
    ensures g.nodes == old(g.nodes) && g.active <= old(g.active)
    ensures forall e :: e in g.listed ==> e in old(g.listed) || e in old(g.tmpedgelist) || fresh(e)
    ensures forall t :: t in g.tmpedgelist ==> t in old(g.tmpedgelist) || fresh(t)
  {
    hide *;
    StartsKnown(g, starts, classes, g.active);
    SinceKnown(g, o, calls, rs);
    ListedIff(g, v);
    ghost var visible, left := g.active, LeftEdges(starts, g.active);
    if v.inlist {
      ghost var r := FoldVisible(g, v, k, refnum, o, calls, rs);
      rs' := rs + [r];
    } else {
      FoldHidden(g, v, k, refnum, o, calls, rs);
      rs' := rs;
    }
    StartsStay(g, starts, classes, visible, g.active, left);
  }

  /** The inner loop of step 7: the regions of one class. */
  method FoldClass(g: Vcg, foldstart: seq<Node?>, rclass: int, refnum: int, ghost classes: map<Node, int>,
                   ghost o: Origin, ghost calls: seq<(Node, int)>, ghost rs: seq<RegionFold>)
    returns (next: int, ghost rs': seq<RegionFold>)
    requires FoldedSince(g, o, calls, rs) && StartsOk(g, foldstart, classes, g.active)
    modifies g`nodes, g`nodeanz, g`tmpedgelist, g`listed, g`active, g.nodelist, g.graphlist
    modifies Nodes(foldstart)`attrs, Nodes(foldstart)`regrepl, Nodes(foldstart)`region
    modifies LeftEdges(foldstart, g.active)`invisible
    modifies g.nodes`next, g.nodes`before, g.active`inlist, g.active`invisible, g.active`regroot
    modifies g.active`succ, g.active`pred, g.listed`invisible, Elems(g.tmpedgelist)`invisible
    ensures FoldedSince(g, o, calls + ClassCalls(classes, foldstart, rclass), rs')
    ensures StartsOk(g, foldstart, classes, g.active) && g.nodes == old(g.nodes) && g.active <= old(g.active)
    ensures LeftEdges(foldstart, g.active) <= old(LeftEdges(foldstart, g.active))
    ensures forall e :: e in g.listed ==> e in old(g.listed) || e in old(g.tmpedgelist) || fresh(e)
    ensures forall t :: t in g.tmpedgelist ==> t in old(g.tmpedgelist) || fresh(t)
  {
    hide FoldedSince, StartsOk, ClassCalls, LeftEdges;
    next, rs' := refnum, rs;
    NoCalls(classes, foldstart, rclass, calls);
    for i := 0 to |foldstart|
      invariant FoldedSince(g, o, calls + ClassCalls(classes, foldstart[..i], rclass), rs')
      invariant StartsOk(g, foldstart, classes, g.active) && g.nodes == old(g.nodes) && g.active <= old(g.active)
      invariant LeftEdges(foldstart, g.active) <= old(LeftEdges(foldstart, g.active))
      invariant forall e :: e in g.listed ==> e in old(g.listed) || e in old(g.tmpedgelist) || fresh(e)
      invariant forall t :: t in g.tmpedgelist ==> t in old(g.tmpedgelist) || fresh(t)
    {
      var l := foldstart[i];
      StartsKnown(g, foldstart, classes, g.active);
      OneMoreStart(classes, foldstart, i, rclass, calls);
      if l != null && l.attrs.folding == rclass {
        rs' := FoldStart(g, l, rclass, next, foldstart, classes, o,
                         calls + ClassCalls(classes, foldstart[..i], rclass), rs');
        next := next + 1;
      }
    }
  }

  lemma NoCalls(classes: map<Node, int>, starts: seq<Node?>, k: int, calls: seq<(Node, int)>)
    ensures calls + ClassCalls(classes, starts[..0], k) == calls && starts[..|starts|] == starts
  {
  }

  lemma OneMoreStart(classes: map<Node, int>, starts: seq<Node?>, i: nat, k: int, calls: seq<(Node, int)>)
    requires i < |starts|
    ensures calls + ClassCalls(classes, starts[..i + 1], k)
         == if starts[i] != null && starts[i] in classes && classes[starts[i]] == k
            then calls + ClassCalls(classes, starts[..i], k) + [(starts[i], k)]
            else calls + ClassCalls(classes, starts[..i], k)
  {
    assert starts[..i + 1][..i] == starts[..i];
  }

  /** Step 7 of the driver: the regions are folded, the lower classes first. */
  method FoldAllRegions(g: Vcg, foldstart: seq<Node?>, refnum: int, ghost classes: map<Node, int>, ghost o: Origin)
    returns (ghost rs: seq<RegionFold>)
    requires FoldedSince(g, o, [], []) && StartsOk(g, foldstart, classes, g.active)
    modifies g`nodes, g`nodeanz, g`tmpedgelist, g`listed, g`active, g.nodelist, g.graphlist
    modifies Nodes(foldstart)`attrs, Nodes(foldstart)`regrepl, Nodes(foldstart)`region
    modifies LeftEdges(foldstart, g.active)`invisible
    modifies g.nodes`next, g.nodes`before, g.active`inlist, g.active`invisible, g.active`regroot
    modifies g.active`succ, g.active`pred, g.listed`invisible, Elems(g.tmpedgelist)`invisible
    ensures FoldedSince(g, o, DriverCalls(classes, foldstart, 17), rs) && g.nodes == old(g.nodes)
    ensures forall t :: t in g.tmpedgelist ==> t in old(g.tmpedgelist) || fresh(t)
  {
    hide FoldedSince, StartsOk, ClassCalls, LeftEdges;
    var next := refnum;
    rs := [];
    for rclass := 0 to 17
      invariant FoldedSince(g, o, DriverCalls(classes, foldstart, rclass), rs)
      invariant StartsOk(g, foldstart, classes, g.active)
      invariant LeftEdges(foldstart, g.active) <= old(LeftEdges(foldstart, g.active))
      invariant g.nodes == old(g.nodes) && g.active <= old(g.active)
      invariant forall e :: e in g.listed ==> e in old(g.listed) || e in old(g.tmpedgelist) || fresh(e)
      invariant forall t :: t in g.tmpedgelist ==> t in old(g.tmpedgelist) || fresh(t)
    {
      next, rs := FoldClass(g, foldstart, rclass, next, classes, o, DriverCalls(classes, foldstart, rclass), rs);
    }
  }

  // ---------- steps 5 to 8 ----------

  /** What create_adjacencies needs: every search for a representative returns. */
  ghost predicate Buildable(g: Vcg, h: Hiding, f: nat)
    reads g, g.nodelist, g.graphlist, g.nodes`inlist, g.nodes`invisible, g.nodes`next, g.nodes`before
    reads g.nodes`sgraph, g.nodes`regroot
  {
    && g.ListsOk() && OnePerPair(g.tmpedgelist) && Distinct(g.edgelist) && h == HidingOf(g)
    && (forall t :: t in g.tmpedgelist ==> t !in g.edgelist)
    && forall e :: e in g.edgelist ==> e.start in g.nodes && e.end in g.nodes && Resolved(h, f, e)
  }

  /** The lists that create_adjacencies has built: the quotient of the specified edges. */
  ghost predicate Built(g: Vcg, h: Hiding, f: nat)
    reads g, g.nodelist, g.graphlist, g.nodes`inlist, g.nodes`invisible, g.nodes`next, g.nodes`before
    reads g.nodes`sgraph, g.nodes`regroot, g.active`succ, g.active`pred, g.edgelist`invisible, g.tmpedgelist`invisible
  {
    && Buildable(g, h, f) && AdjOk(g) && g.active == g.nodelist.members
    && Quotiented(h, f, g.edgelist, g.listed, g.tmpedgelist) && FlagsAgree(h, g.edgelist, g.listed, g.tmpedgelist)
  }

  lemma BuiltPairs(h: Hiding, f: nat, es: seq<Edge>, listed: set<Edge>, ts: seq<Edge>)
    requires forall e :: e in es ==> Resolved(h, f, e)
    requires Quotiented(h, f, es, listed, ts)
    ensures OnePerPair(ts) && forall e :: e in listed ==> e in es || e in ts
  {
  }

  /** Steps 5 and 6, and again step 8. */
  method Build(g: Vcg, ghost h: Hiding, ghost f: nat)
    requires Buildable(g, h, f)
    modifies g`tmpedgelist, g`listed, g`active, g.nodes`succ, g.nodes`pred
    modifies Elems(g.edgelist)`invisible, Elems(g.edgelist)`ends, Elems(g.tmpedgelist)`invisible
    ensures Built(g, h, f) && Substituted(h, f, g.foldedge, g.edgelist, old(Elems(g.tmpedgelist)), g.tmpedgelist)
    ensures forall x :: x in g.nodes - g.active ==>
              x.succ == if x in g.graphlist.members then Empty() else old(x.succ)
    ensures forall t :: t in g.tmpedgelist ==> t in old(g.tmpedgelist) || fresh(t)
  {
    hide Search, HidingOf, Vcg.FlagsOk, NodeList.Valid, AdjOk, Quotiented, FlagsAgree, OnePerPair, Resolved, Distinct;
    hide Substituted;
    ghost var es := g.edgelist;
    BuildAdjacencies(g, h, f);
    BuiltPairs(h, f, es, g.listed, g.tmpedgelist);
  }

  /** Built lists are the quotient. */
  lemma BuiltJoins(g: Vcg, h: Hiding, f: nat)
    requires Built(g, h, f)
    ensures InQuotient(h, f, g.edgelist, g.listed) && g.active == g.nodelist.members <= g.nodes
    ensures forall e :: e in g.listed ==> e in g.edgelist || e in g.tmpedgelist
  {
    hide Search, HidingOf, AdjOk, Quotiented, FlagsAgree, OnePerPair, Resolved, Distinct, QuotientPairs, Pairing;
    ListedPairs(h, f, g.edgelist, g.listed, g.tmpedgelist);
    BuiltPairs(h, f, g.edgelist, g.listed, g.tmpedgelist);
  }

  /** The situation as it is now. */
  ghost function OriginOf(g: Vcg, h: Hiding, f: nat): Origin
    reads g`edgelist, g`foldstops, g`foldedge, g`listed, g`tmpedgelist
  {
    Origin(h, f, g.edgelist, g.foldstops, g.foldedge, g.listed, g.tmpedgelist)
  }

  /** The origin is what create_adjacencies has built: the quotient, with substitutes that are
      from before (ts0) or were made for specified edges. */
  ghost predicate Begun(o: Origin, ts0: set<Edge>)
  {
    && (forall e :: e in o.es ==> Resolved(o.h, o.f, e))
    && Quotiented(o.h, o.f, o.es, o.listed, o.temps) && Substituted(o.h, o.f, o.fe, o.es, ts0, o.temps)
  }

  /** The lists of step 6 are where the folding starts. */
  lemma BuiltIsStart(g: Vcg, o: Origin, ts0: set<Edge>)
    requires o == OriginOf(g, o.h, o.f) && Built(g, o.h, o.f) && forall x :: x in g.active ==> x.regroot == null
    requires Substituted(o.h, o.f, o.fe, o.es, ts0, o.temps)
    ensures FoldedSince(g, o, [], []) && Begun(o, ts0)
  {
    hide Search, HidingOf, Vcg.ListsOk, AdjOk, Quotiented, FlagsAgree, OnePerPair, Resolved, Distinct, Substituted;
    hide InQuotient, History;
    BuiltJoins(g, o.h, o.f);
    QuotientIsReady(g, o.f);
    HistoryStarts(o);
    hide Built;
  }

  /** After the folding every search still returns, so that the lists can be built again. */
  lemma FoldedIsBuildable(g: Vcg, o: Origin, calls: seq<(Node, int)>, rs: seq<RegionFold>, h1: Hiding)
    requires FoldedSince(g, o, calls, rs) && Distinct(g.edgelist) && h1 == HidingOf(g)
    requires forall t :: t in g.tmpedgelist ==> t !in g.edgelist
    requires forall e :: e in g.edgelist ==> e.start in g.nodes && e.end in g.nodes
    ensures History(o, calls, rs, h1, g.listed, Elems(g.tmpedgelist)) && Buildable(g, h1, o.f + |rs|)
    ensures InQuotient(h1, o.f + |rs|, g.edgelist, g.listed)
  {
    hide Search, HidingOf, QuotientPairs, Pairing, Resolved, OnePerPair, Distinct, History;
    SinceKnown(g, o, calls, rs);
    hide FoldedSince;
  }

  lemma BuildableKnown(g: Vcg, h: Hiding, f: nat)
    requires Buildable(g, h, f)
    ensures g.ListsOk() && Distinct(g.edgelist) && forall t :: t in g.tmpedgelist ==> t !in g.edgelist
    ensures forall e :: e in g.edgelist ==> e.start in g.nodes && e.end in g.nodes
  {
  }

  /** Two lists that are the same quotient join the same nodes. */
  lemma SamePairs(h: Hiding, f: nat, es: seq<Edge>, listed: set<Edge>, moved: set<Edge>)
    requires InQuotient(h, f, es, listed) && InQuotient(h, f, es, moved)
    ensures Pairing(listed) == Pairing(moved)
  {
  }

  /** Steps 5 and 6 with what step 7 needs. */
  method StartLists(g: Vcg, starts: seq<Node?>, ghost h: Hiding, ghost f: nat, ghost classes: map<Node, int>)
    returns (ghost o: Origin)
    requires Buildable(g, h, f) && forall x :: x in g.nodelist.members ==> x.regroot == null
    requires StartsOk(g, starts, classes, g.nodelist.members)
    modifies g`tmpedgelist, g`listed, g`active, g.nodes`succ, g.nodes`pred
    modifies Elems(g.edgelist)`invisible, Elems(g.edgelist)`ends, Elems(g.tmpedgelist)`invisible
    ensures o == OriginOf(g, h, f) && Begun(o, old(Elems(g.tmpedgelist)))
    ensures FoldedSince(g, o, [], []) && StartsOk(g, starts, classes, g.active)
    ensures LeftEdges(starts, g.active) <= old(LeftEdges(starts, g.nodelist.members))
    ensures forall e :: e in g.listed ==> e in g.edgelist || e in g.tmpedgelist
    ensures forall t :: t in g.tmpedgelist ==> t in old(g.tmpedgelist) || fresh(t)
  {
    hide *;
    ghost var ts0, left := Elems(g.tmpedgelist), LeftEdges(starts, g.nodelist.members);
    BuildableKnown(g, h, f);
    StartsKnown(g, starts, classes, g.nodelist.members);
    Build(g, h, f);
    BuiltJoins(g, h, f);
    o := OriginOf(g, h, f);
    OriginKnown(g, h, f);
    BuiltIsStart(g, o, ts0);
    NothingIsLeft();
    StartsStay(g, starts, classes, g.active, g.active, left);
  }

  lemma NothingIsLeft()
    ensures NothingLeft(Empty())
  {
  }

  lemma OriginKnown(g: Vcg, h: Hiding, f: nat)
    ensures var o := OriginOf(g, h, f);
      && o.h == h && o.f == f && o.es == g.edgelist && o.fe == g.foldedge && o.temps == g.tmpedgelist
      && o.stops == g.foldstops && o.listed == g.listed
  {
  }

  /** Step 8. */
  method BuildAgain(g: Vcg, ghost o: Origin, ghost calls: seq<(Node, int)>, ghost rs: seq<RegionFold>)
    requires FoldedSince(g, o, calls, rs) && Distinct(g.edgelist)
    requires forall t :: t in g.tmpedgelist ==> t !in g.edgelist
    requires forall e :: e in g.edgelist ==> e.start in g.nodes && e.end in g.nodes
    modifies g`tmpedgelist, g`listed, g`active, g.nodes`succ, g.nodes`pred
    modifies Elems(g.edgelist)`invisible, Elems(g.edgelist)`ends, Elems(g.tmpedgelist)`invisible
    ensures History(o, calls, rs, HidingOf(g), old(g.listed), old(Elems(g.tmpedgelist)))
    ensures Built(g, HidingOf(g), o.f + |rs|) && Pairing(g.listed) == Pairing(old(g.listed))
  {
    hide *;
    ghost var h1, es, moved := HidingOf(g), g.edgelist, g.listed;
    FoldedIsBuildable(g, o, calls, rs, h1);
    Build(g, h1, o.f + |rs|);
    BuiltJoins(g, h1, o.f + |rs|);
    SamePairs(h1, o.f + |rs|, es, g.listed, moved);
    BuiltSees(g, h1, o.f + |rs|);
  }

  lemma NewEdges(es: seq<Edge>, ts: seq<Edge>, ts': seq<Edge>)
    requires (forall t :: t in ts ==> t !in es) && forall t :: t in ts' ==> t in ts || t !in es
    ensures forall t :: t in ts' ==> t !in es
  {
  }

  /** What steps 5 to 8 of the driver have done: step 6 built the lists of the origin o; the
      calls of step 7 led to the foldings rs, which left the edges `moved` in the lists; and the
      lists of step 8 join exactly the pairs of nodes that `moved` do. */
  ghost predicate Rebuilt(g: Vcg, o: Origin, calls: seq<(Node, int)>, rs: seq<RegionFold>, moved: set<Edge>,
                          temps: set<Edge>)
    reads g, g.nodelist, g.graphlist, g.nodes`inlist, g.nodes`invisible, g.nodes`next, g.nodes`before
    reads g.nodes`sgraph, g.nodes`regroot, g.active`succ, g.active`pred, g.edgelist`invisible, g.tmpedgelist`invisible
  {
    && o.es == g.edgelist && o.stops == g.foldstops && o.fe == g.foldedge
    && History(o, calls, rs, HidingOf(g), moved, temps)
    && Built(g, HidingOf(g), o.f + |rs|) && Pairing(g.listed) == Pairing(moved)
  }

  lemma RebuiltNow(g: Vcg, o: Origin, calls: seq<(Node, int)>, rs: seq<RegionFold>, moved: set<Edge>, temps: set<Edge>)
    requires o.es == g.edgelist && o.stops == g.foldstops && o.fe == g.foldedge
    requires History(o, calls, rs, HidingOf(g), moved, temps)
    requires Built(g, HidingOf(g), o.f + |rs|) && Pairing(g.listed) == Pairing(moved)
    ensures Rebuilt(g, o, calls, rs, moved, temps)
  {
    hide History, HidingOf, Built, Pairing;
  }

  /** Steps 5 to 8 of the driver, without labels and edge classes: lists are built, regions are
      folded, and the lists are built again. The second time every search returns again, and
      the lists join exactly the pairs of nodes that the folding has left joined. */
  method FoldAndRebuild(g: Vcg, foldstart: seq<Node?>, refnum: int, ghost h: Hiding, ghost f: nat,
                        ghost classes: map<Node, int>)
    returns (ghost o: Origin, ghost rs: seq<RegionFold>, ghost moved: set<Edge>, ghost temps: set<Edge>)
    requires Buildable(g, h, f) && forall x :: x in g.nodelist.members ==> x.regroot == null
    requires StartsOk(g, foldstart, classes, g.nodelist.members)
    modifies g`nodes, g`nodeanz, g`tmpedgelist, g`listed, g`active, g.nodelist, g.graphlist
    modifies Nodes(foldstart)`attrs, Nodes(foldstart)`regrepl, Nodes(foldstart)`region
    modifies LeftEdges(foldstart, g.nodelist.members)`invisible
    modifies g.nodes`next, g.nodes`before, g.nodes`inlist, g.nodes`invisible, g.nodes`regroot
    modifies g.nodes`succ, g.nodes`pred
    modifies Elems(g.edgelist)`invisible, Elems(g.edgelist)`ends, Elems(g.tmpedgelist)`invisible
    ensures o.h == h && o.f == f && Begun(o, old(Elems(g.tmpedgelist))) && g.nodes == old(g.nodes)
    ensures Rebuilt(g, o, DriverCalls(classes, foldstart, 17), rs, moved, temps)
  {
    hide Buildable, Built, FoldedSince, History, Pairing, StartsOk, HidingOf, Vcg.ListsOk, AdjOk, InQuotient;
    hide DriverCalls, Ready, RootsClear, OnePerPair, Distinct, Begun, Rebuilt;
    ghost var ts := g.tmpedgelist;
    BuildableKnown(g, h, f);
    o := StartLists(g, foldstart, h, f, classes);
    SinceKnown(g, o, [], []);
    rs := FoldAllRegions(g, foldstart, refnum, classes, o);
    NewEdges(g.edgelist, ts, g.tmpedgelist);
    moved, temps := g.listed, Elems(g.tmpedgelist);
    BuildAgain(g, o, DriverCalls(classes, foldstart, 17), rs);
    RebuiltNow(g, o, DriverCalls(classes, foldstart, 17), rs, moved, temps);
  }

  lemma BuiltSees(g: Vcg, h: Hiding, f: nat)
    requires Built(g, h, f)
    ensures h == HidingOf(g)
  {
  }
}
