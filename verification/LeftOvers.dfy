/** fold_region of a hidden node (folding.c). refresh does not reach a node that is neither
    visible nor an unfolded graph, so that such a node still has the successors of the last
    layout. If one of them is visible, it is folded into a node that nobody sees. */
module LeftOvers {
  import opened Chains
  import opened GraphTypes
  import opened NodeVisibility
  import opened Subgraphs
  import opened SearchVisible
  import opened Adjacency
  import opened Quotient
  import opened Regions
  import opened FoldRegions

  /** What the search sees when the nodes of the region are hidden and have n as NREGROOT. */
  ghost function Into(h: Hiding, n: Node, region: set<Node>): Hiding
  {
    Hiding(HideRegion(h.vis, region), h.first,
           map x | x in h.regroot :: if x in region then n else h.regroot[x])
  }

  /** A member of the region finds n iff n is visible; otherwise it finds what n finds. */
  lemma MemberFindsStartIff(h: Hiding, n: Node, region: set<Node>, w: Node)
    requires n in h.vis && n !in region && w in region && w in h.vis && w in h.regroot
    ensures (exists f: nat :: Search(Into(h, n, region), w, f) == Some(n)) <==> h.vis[n] == 0
    ensures forall f: nat :: Search(Into(h, n, region), w, f + 1) == Search(Into(h, n, region), n, f)
  {
    var h' := Into(h, n, region);
    forall f: nat ensures Search(h', w, f + 1) == Search(h', n, f) {}
    if h.vis[n] == 0 {
      assert Search(h', n, 1) == Some(n);
      assert Search(h', w, 2) == Some(n);
    } else {
      forall f: nat ensures Search(h', w, f) != Some(n) {
        if f > 0 && Search(h', n, f - 1).Some? {
          assert Search(h', w, f - 1 + 1) == Search(h', n, f - 1);
          FoundIsVisible(h', n, f - 1);
        }
      }
    }
  }

  /** The assertions of recursive_fold: when an edge into (out of) the region gets a substitute,
      this ends (starts) at n. They hold iff n is visible. */
  lemma AssertionsHoldIff(h: Hiding, n: Node, region: set<Node>, d: Edge, f: nat)
    requires n in h.vis && n !in region && region <= h.vis.Keys && region <= h.regroot.Keys
    requires var h' := Into(h, n, region); Resolved(h', f, d) && Induces(h', f, d)
    ensures d.end in region ==> (Rep(Into(h, n, region), f, d.end) == n <==> h.vis[n] == 0)
    ensures d.start in region ==> (Rep(Into(h, n, region), f, d.start) == n <==> h.vis[n] == 0)
  {
    forall w | w in region && Search(Into(h, n, region), w, f).Some?
      ensures Rep(Into(h, n, region), f, w) == n <==> h.vis[n] == 0
    {
      RepIsStartIff(h, n, region, w, f);
    }
  }

  lemma RepIsStartIff(h: Hiding, n: Node, region: set<Node>, w: Node, f: nat)
    requires n in h.vis && n !in region && w in region && w in h.vis && w in h.regroot
    requires Search(Into(h, n, region), w, f).Some?
    ensures Rep(Into(h, n, region), f, w) == n <==> h.vis[n] == 0
  {
    var h' := Into(h, n, region);
    MemberFindsStartIff(h, n, region, w);
    if h.vis[n] == 0 {
      assert Search(h', w, f - 1 + 1) == Search(h', n, f - 1);
    }
  }

  // ---------- the loop over a left-over list ----------

  /** The list that the last layout has left n: its edges touch n and join nodes of the graph. */
  ghost predicate ListOk(n: Node, l: Chain<Edge>, nodes: set<Node>)
  {
    && l.Valid()
    && forall e :: e in l.at ==> (e.start == n || e.end == n) && e.start in nodes && e.end in nodes
  }

  /** Along e a region of class k is folded into something visible. */
  predicate Leads(k: int, stops: seq<Node>, visible: set<Node>, e: Edge)
  {
    e.attrs.eclass <= k && e.end !in stops && e.end in visible
  }

  /** No edge of the list leads to a visible node. */
  predicate Idle(l: Chain<Edge>, k: int, stops: seq<Node>, visible: set<Node>)
  {
    forall e :: e in l.at ==> !Leads(k, stops, visible, e)
  }

  ghost predicate LedTo(l: Chain<Edge>, k: int, stops: seq<Node>, visible: set<Node>, w: Node)
  {
    exists e :: e in l.at && Leads(k, stops, visible, e) && e.end == w
  }

  /** The edges linked in cell i or later lead to no visible node. */
  predicate IdleFrom(l: Chain<Edge>, k: int, stops: seq<Node>, visible: set<Node>, i: int)
  {
    forall e :: e in l.at && l.at[e] > i ==> !Leads(k, stops, visible, e)
  }

  ghost predicate At(l: Chain<Edge>, a: int)
  {
    l.Valid() && a >= -1 && (a >= 0 ==> l.Live(a))
  }

  lemma AtHead(l: Chain<Edge>, k: int, stops: seq<Node>, visible: set<Node>)
    requires l.Valid()
    ensures At(l, l.head) && IdleFrom(l, k, stops, visible, l.head)
  {
  }

  lemma AtCell(l: Chain<Edge>, a: nat)
    requires At(l, a)
    ensures a < |l.cells| && l.cells[a].kante in l.at && -1 <= l.cells[a].next < a && At(l, l.cells[a].next)
  {
    assert l.CellOk(a);
  }

  lemma IdleNext(l: Chain<Edge>, k: int, stops: seq<Node>, visible: set<Node>, a: nat)
    requires At(l, a) && IdleFrom(l, k, stops, visible, a) && !Leads(k, stops, visible, l.cells[a].kante)
    ensures IdleFrom(l, k, stops, visible, l.cells[a].next)
  {
    assert l.CellOk(a);
  }

  lemma IdleAll(l: Chain<Edge>, k: int, stops: seq<Node>, visible: set<Node>)
    requires l.Valid() && IdleFrom(l, k, stops, visible, -1)
    ensures Idle(l, k, stops, visible)
  {
  }

  lemma InListIff(g: Vcg, v: Node)
    requires g.ListsOk() && v in g.nodes
    ensures v.inlist <==> v in g.nodelist.members
    ensures v.inlist <==> v.invisible == 0
  {
    assert g.FlagsOk(v);
  }

  /** The loop of fold_region over the list of the hidden node n, up to the first edge that
      leads to a visible node: from the other ends recursive_fold returns at once, because they
      are not on the node list. */
  method FollowHidden(g: Vcg, n: Node, k: int) returns (w: Node?)
    requires g.ListsOk() && ListOk(n, n.succ, g.nodes)
    modifies n.succ.at.Keys`invisible
    ensures w == null <==> Idle(n.succ, k, g.foldstops, g.nodelist.members)
    ensures w != null ==> w in g.nodelist.members && LedTo(n.succ, k, g.foldstops, g.nodelist.members, w)
  {
    hide Vcg.ListsOk, Chain.Valid, Chain.Live, IdleFrom, At;
    AtHead(n.succ, k, g.foldstops, g.nodelist.members);
    var a := n.succ.head;
    while a >= 0
      invariant At(n.succ, a) && IdleFrom(n.succ, k, g.foldstops, g.nodelist.members, a)
      decreases a
    {
      AtCell(n.succ, a);
      var e := n.succ.cells[a].kante;
      if e.attrs.eclass <= k {
        var stop := FoldstopReached(g, e.end);
        if !stop {
          e.invisible := true;
          InListIff(g, e.end);
          if e.end.inlist { return e.end; }
        }
      }
      InListIff(g, e.end);
      IdleNext(n.succ, k, g.foldstops, g.nodelist.members, a);
      a := n.succ.cells[a].next;
    }
    AtEnd(n.succ, a);
    IdleAll(n.succ, k, g.foldstops, g.nodelist.members);
    w := null;
  }

  lemma AtEnd(l: Chain<Edge>, a: int)
    requires At(l, a) && a < 0
    ensures a == -1
  {
  }

  // ---------- fold_region of a hidden node ----------

  /** What the search sees of the graph. */
  lemma SeenNow(g: Vcg, h: Hiding)
    requires h == HidingOf(g)
    ensures h.vis == g.Flags() && h.first == Firsts(g.nodes) && h.regroot == Roots(g.nodes)
    ensures h.vis.Keys == g.nodes && forall x :: x in g.nodes ==> h.vis[x] == x.invisible
    ensures h.regroot.Keys == g.nodes && forall x :: x in g.nodes ==> h.regroot[x] == x.regroot
  {
  }

  lemma SeenParts(g: Vcg, h: Hiding)
    requires h.vis == g.Flags() && h.first == Firsts(g.nodes) && h.regroot == Roots(g.nodes)
    ensures HidingOf(g) == h
  {
  }

  lemma StateKnown(n: Node, was: Saved)
    requires was == StateOf(n)
    ensures was.attrs == n.attrs
  {
  }

  lemma SummaryClass(fn: NodeAttrs, a: NodeAttrs, r: NodeAttrs)
    requires SummarizesNode(fn, a, r)
    ensures r.folding == a.folding
  {
  }

  /** A hidden node becomes a summary node. */
  method HiddenSummary(g: Vcg, n: Node, refnum: int)
    requires g.ListsOk() && n in g.nodes
    modifies g`nodes, g`nodeanz, g.nodelist, g.graphlist, g.nodes`next, g.nodes`before
    modifies n`attrs, n`regrepl, n`region
    ensures g.ListsOk() && g.nodes == old(g.nodes) && g.Flags() == old(g.Flags())
    ensures g.nodelist.members == old(g.nodelist.members) && n.region == []
    ensures n.attrs.folding == old(n.attrs.folding)
  {
    hide *;
    ghost var was := StateOf(n);
    StateKnown(n, was);
    var m := Replacement(g, n, refnum, was);
    SetSummary(g, n, m, was);
    SummaryClass(g.foldnode, was.attrs, n.attrs);
  }

  /** fold_region of a hidden node none of whose left-over edges leads to a visible node. */
  method FoldIdle(g: Vcg, n: Node, k: int, refnum: int)
    requires g.ListsOk() && n in g.nodes
    requires ListOk(n, n.succ, g.nodes) && Idle(n.succ, k, g.foldstops, g.nodelist.members)
    modifies g`nodes, g`nodeanz, g.nodelist, g.graphlist, g.nodes`next, g.nodes`before
    modifies n`attrs, n`regrepl, n`region, n.succ.at.Keys`invisible
    ensures g.ListsOk() && g.nodes == old(g.nodes) && g.Flags() == old(g.Flags())
    ensures g.nodelist.members == old(g.nodelist.members) && n.region == []
    ensures n.attrs.folding == old(n.attrs.folding)
  {
    hide *;
    HiddenSummary(g, n, refnum);
    var w := FollowHidden(g, n, k);
    assert w == null;
  }

  lemma OneHidden(g: Vcg, h: Hiding, n: Node, w: Node)
    requires w in h.vis && h.vis[w] == 0 && g.Flags() == h.vis[w := FOLDED_RGNODE] && h.first == Firsts(g.nodes)
    requires h.regroot.Keys == g.nodes && forall x :: x in g.nodes ==> x.regroot == if x == w then n else h.regroot[x]
    ensures HidingOf(g) == Into(h, n, {w})
  {
    assert Roots(g.nodes) == Into(h, n, {w}).regroot;
  }

  /** The assignments of recursive_fold for the first member of the region of n. */
  method HideFirst(g: Vcg, n: Node, w: Node, ghost h: Hiding)
    requires g.ListsOk() && w in g.nodelist.members && w in g.nodes && n.region == [] && h == HidingOf(g)
    modifies g`nodeanz, g.nodelist, g.graphlist, g.nodes`next, g.nodes`before
    modifies w`inlist, w`invisible, w`regroot, n`region
    ensures g.ListsOk() && n.region == [w] && HidingOf(g) == Into(h, n, {w})
  {
    hide Vcg.ListsOk, Vcg.Flags, HidingOf, Firsts, Roots, Into, Minus;
    InListIff(g, w);
    SeenNow(g, h);
    w.regroot := n;
    n.region := [w] + n.region;
    g.DeleteNode(w, FOLDED_RGNODE);
    OneHidden(g, h, n, w);
  }

  lemma SeenHidden(g: Vcg, h: Hiding, n: Node)
    requires h == HidingOf(g) && n in g.nodes && g.ListsOk() && !n.inlist
    ensures n in h.vis && h.vis[n] != 0 && h.regroot.Keys == h.vis.Keys == g.nodes
    ensures g.nodelist.members <= g.nodes && n !in g.nodelist.members
  {
    InListIff(g, n);
  }

  lemma NotFound(h: Hiding, n: Node, w: Node)
    requires n in h.vis && h.vis[n] != 0 && n != w && w in h.vis && w in h.regroot
    ensures forall f: nat :: Search(Into(h, n, {w}), w, f) != Some(n)
  {
    MemberFindsStartIff(h, n, {w}, w);
  }

  /** The loop of fold_region, up to the moment when the first node is hidden. */
  method FoldFirst(g: Vcg, n: Node, k: int, ghost h: Hiding) returns (w: Node)
    requires g.ListsOk() && n in g.nodes && !n.inlist && n.region == [] && h == HidingOf(g)
    requires ListOk(n, n.succ, g.nodes) && !Idle(n.succ, k, g.foldstops, g.nodelist.members)
    modifies g`nodeanz, g.nodelist, g.graphlist, g.nodes`next, g.nodes`before, n`region, n.succ.at.Keys`invisible
    modifies g.nodelist.members`inlist, g.nodelist.members`invisible, g.nodelist.members`regroot
    ensures g.ListsOk() && w in old(g.nodelist.members) && n.region == [w]
    ensures LedTo(n.succ, k, g.foldstops, old(g.nodelist.members), w)
    ensures HidingOf(g) == Into(h, n, {w}) && forall f: nat :: Search(HidingOf(g), w, f) != Some(n)
  {
    hide *;
    SeenHidden(g, h, n);
    w := FollowHidden(g, n, k);
    HideFirst(g, n, w, h);
    NotFound(h, n, w);
  }

  /** fold_region of a hidden node whose list leads to a visible one, up to that moment: the
      first member of the region is not represented by n. No visible node has n as NREGROOT,
      for which recursive_fold would return. */
  method FoldLeftOver(g: Vcg, n: Node, k: int, refnum: int, ghost h: Hiding) returns (w: Node)
    requires g.ListsOk() && n in g.nodes && !n.inlist && h == HidingOf(g)
    requires forall x :: x in g.nodelist.members ==> x.regroot != n
    requires ListOk(n, n.succ, g.nodes) && !Idle(n.succ, k, g.foldstops, g.nodelist.members)
    modifies g`nodes, g`nodeanz, g.nodelist, g.graphlist, g.nodes`next, g.nodes`before
    modifies n`attrs, n`regrepl, n`region, n.succ.at.Keys`invisible
    modifies g.nodelist.members`inlist, g.nodelist.members`invisible, g.nodelist.members`regroot
    ensures g.ListsOk() && g.nodes == old(g.nodes) && w in old(g.nodelist.members) && n.region == [w]
    ensures LedTo(n.succ, k, g.foldstops, old(g.nodelist.members), w)
    ensures HidingOf(g) == Into(h, n, {w}) && forall f: nat :: Search(HidingOf(g), w, f) != Some(n)
  {
    hide *;
    SeenNow(g, h);
    HiddenSummary(g, n, refnum);
    SeenParts(g, h);
    w := FoldFirst(g, n, k, h);
  }

  // ---------- a run in which the assertion fails ----------

  /** A graph u with the node n in it, and nodes w and x outside; edges from n and from x to w. */
  datatype Case = Case(u: Node, n: Node, x: Node, w: Node, e: Edge, d: Edge)
  {
    ghost predicate Ok()
    {
      && u.root == x.root == w.root == null && n.root == u && u.depth < n.depth
      && u != x && x != w && u != w && n != x && n != w
      && e.start == n && e.end == w && d.start == x && d.end == w
    }

    /** What the search sees, when these are the reasons for u and n. */
    ghost function Seen(atU: int, atN: int): Hiding
    {
      Hiding(map[u := atU, n := atN, x := 0, w := 0], map[u := n], map[u := null, n := null, x := null, w := null])
    }
  }

  /** The last layout was made with u unfolded. */
  ghost predicate LaidOut(g: Vcg, c: Case)
    reads g, g.nodelist, g.graphlist, g.nodes`inlist, g.nodes`invisible, g.nodes`next, g.nodes`before
    reads g.nodes`sgraph, g.nodes`regroot, c.n`succ
  {
    && c.Ok() && g.ListsOk() && g.Forest() && g.nodes == {c.u, c.n, c.x, c.w}
    && HidingOf(g) == c.Seen(UNFOLDED_SGRAPH, 0)
    && g.edgelist == [c.e, c.d] && g.tmpedgelist == [] && g.foldstops == []
    && c.n.succ.Valid() && c.n.succ.at.Keys == {c.e}
  }

  lemma CaseFolds(c: Case)
    requires c.Ok()
    ensures FoldFlags(c.Seen(UNFOLDED_SGRAPH, 0).vis, c.u) == c.Seen(0, FOLDED_SGNODE).vis
  {
    assert Below(c.n, c.u);
  }

  lemma CaseResolves(c: Case)
    requires c.Ok()
    ensures var h := c.Seen(0, FOLDED_SGNODE); Resolved(h, 2, c.e) && Resolved(h, 2, c.d) && Drawable(h, c.d)
    ensures Induces(c.Seen(0, FOLDED_SGNODE), 2, c.e) && Rep(c.Seen(0, FOLDED_SGNODE), 2, c.e.start) == c.u
  {
    var h := c.Seen(0, FOLDED_SGNODE);
    assert Search(h, c.u, 1) == Some(c.u);
  }

  lemma CaseMoves(c: Case)
    requires c.Ok()
    ensures var h := Into(c.Seen(0, FOLDED_SGNODE), c.n, {c.w});
      && Resolved(h, 3, c.d) && !Drawable(h, c.d) && Induces(h, 3, c.d)
      && Rep(h, 3, c.d.start) == c.x && Rep(h, 3, c.d.end) == c.u
  {
    var h := Into(c.Seen(0, FOLDED_SGNODE), c.n, {c.w});
    assert Search(h, c.u, 1) == Some(c.u);
    assert Search(h, c.n, 2) == Some(c.u);
  }

  /** The lists of w once u is folded. */
  lemma CaseLists(c: Case, listed: set<Edge>, ts: seq<Edge>)
    requires c.Ok()
    requires var h := c.Seen(0, FOLDED_SGNODE); forall e :: e in [c.e, c.d] ==> Resolved(h, 2, e)
    requires Quotiented(c.Seen(0, FOLDED_SGNODE), 2, [c.e, c.d], listed, ts)
    ensures c.d in Ins(listed, c.w) && Outs(listed, c.w) == {}
  {
    var h := c.Seen(0, FOLDED_SGNODE);
    CaseResolves(c);
    assert c.d in [c.e, c.d] && !Induces(h, 2, c.d);
    assert [c.e, c.d][..1] == [c.e] && [c.e][..0] == [];
    assert Induced(h, 2, [c.e]) == {(c.u, c.w)};
    assert Induced(h, 2, [c.e, c.d]) == {(c.u, c.w)};
  }

  /** The state before step 7 of the driver, when u has been folded and the lists are built. */
  ghost predicate LaidOutAgain(g: Vcg, c: Case)
    reads g, g.nodelist, g.graphlist, g.nodes`inlist, g.nodes`invisible, g.nodes`next, g.nodes`before
    reads g.nodes`sgraph, g.nodes`regroot, c.n`succ, c.w`succ, c.w`pred, c.d`invisible
  {
    && c.Ok() && g.ListsOk() && g.nodes == {c.u, c.n, c.x, c.w} && HidingOf(g) == c.Seen(0, FOLDED_SGNODE)
    && g.foldstops == [] && c.n.succ.Valid() && c.n.succ.at.Keys == {c.e}
    && NothingLeft(c.w.succ) && c.d in c.w.pred.at && !c.d.invisible
  }

  lemma CaseHides(g: Vcg, c: Case)
    requires g.ListsOk() && c.Ok() && g.nodes == {c.u, c.n, c.x, c.w} && HidingOf(g) == c.Seen(0, FOLDED_SGNODE)
    ensures g.nodelist.members == {c.u, c.x, c.w} && g.graphlist.members == {}
  {
    var h := c.Seen(0, FOLDED_SGNODE);
    SeenNow(g, h);
    forall x | x in g.nodes ensures g.FlagsOk(x) {}
  }

  /** Step 2 of the driver. */
  method FoldGraph(g: Vcg, c: Case)
    requires LaidOut(g, c)
    modifies g`nodeanz, g.nodelist, g.graphlist, g.nodes`next, g.nodes`before, g.nodes`inlist, g.nodes`invisible
    ensures g.ListsOk() && HidingOf(g) == c.Seen(0, FOLDED_SGNODE)
  {
    hide Vcg.ListsOk, HidingOf, FoldFlags, Firsts, Roots;
    CaseFolds(c);
    SeenNow(g, c.Seen(UNFOLDED_SGRAPH, 0));
    FoldSg(g, c.u);
    SeenParts(g, c.Seen(0, FOLDED_SGNODE));
  }

  lemma CaseBuilt(g: Vcg, c: Case)
    requires c.Ok() && AdjOk(g) && c.w in g.active
    requires var h := c.Seen(0, FOLDED_SGNODE); forall e :: e in [c.e, c.d] ==> Resolved(h, 2, e)
    requires Quotiented(c.Seen(0, FOLDED_SGNODE), 2, [c.e, c.d], g.listed, g.tmpedgelist)
    requires FlagsAgree(c.Seen(0, FOLDED_SGNODE), [c.e, c.d], g.listed, g.tmpedgelist)
    ensures NothingLeft(c.w.succ) && c.d in c.w.pred.at && !c.d.invisible
  {
    CaseResolves(c);
    CaseLists(c, g.listed, g.tmpedgelist);
    ListsAreValid(g);
    assert c.d in [c.e, c.d];
    hide *;
    NothingLeftIf(c.w.succ);
  }

  lemma NothingLeftIf(l: Chain<Edge>)
    requires l.Valid()
    ensures l.at.Keys == {} ==> NothingLeft(l)
  {
  }

  /** Steps 5 and 6 of the driver. */
  method BuildCase(g: Vcg, c: Case)
    requires g.ListsOk() && c.Ok() && g.nodes == {c.u, c.n, c.x, c.w}
    requires HidingOf(g) == c.Seen(0, FOLDED_SGNODE) && g.edgelist == [c.e, c.d] && g.tmpedgelist == []
    modifies g`tmpedgelist, g`listed, g`active, g.nodes`succ, g.nodes`pred
    modifies Elems(g.edgelist)`invisible, Elems(g.edgelist)`ends
    ensures NothingLeft(c.w.succ) && c.d in c.w.pred.at && !c.d.invisible && c.n.succ == old(c.n.succ)
  {
    hide Vcg.ListsOk, HidingOf, Search, Resolved, AdjOk, Quotiented, Case.Seen, Induces, Rep, Drawable, Chain.Valid;
    hide NothingLeft, FlagsAgree;
    CaseResolves(c);
    CaseHides(g, c);
    BuildAdjacencies(g, c.Seen(0, FOLDED_SGNODE), 2);
    CaseBuilt(g, c);
  }

  /** Steps 2, 5 and 6 of the driver. */
  method LayOutAgain(g: Vcg, c: Case)
    requires LaidOut(g, c)
    modifies g`nodeanz, g.nodelist, g.graphlist, g`tmpedgelist, g`listed, g`active
    modifies g.nodes`next, g.nodes`before, g.nodes`inlist, g.nodes`invisible, g.nodes`succ, g.nodes`pred
    modifies Elems(g.edgelist)`invisible, Elems(g.edgelist)`ends
    ensures LaidOutAgain(g, c)
  {
    hide Vcg.ListsOk, HidingOf, Case.Seen, Chain.Valid, Vcg.Forest, NothingLeft;
    FoldGraph(g, c);
    BuildCase(g, c);
  }

  lemma CaseLeads(g: Vcg, c: Case, k: int)
    requires LaidOutAgain(g, c) && c.e.attrs.eclass <= k
    ensures !c.n.inlist && c.n in g.nodes && g.nodelist.members == {c.u, c.x, c.w}
    ensures forall x :: x in g.nodelist.members ==> x.regroot == null
    ensures ListOk(c.n, c.n.succ, g.nodes) && !Idle(c.n.succ, k, g.foldstops, g.nodelist.members)
    ensures forall w :: LedTo(c.n.succ, k, g.foldstops, g.nodelist.members, w) ==> w == c.w
  {
    CaseHides(g, c);
    SeenNow(g, c.Seen(0, FOLDED_SGNODE));
    InListIff(g, c.n);
    assert c.e in c.n.succ.at && Leads(k, g.foldstops, g.nodelist.members, c.e);
  }

  /** Step 7 of the driver, up to the substitution of d. */
  method FoldInCase(g: Vcg, c: Case, k: int, refnum: int) returns (w: Node, ee: Edge?)
    requires LaidOutAgain(g, c) && c.e.attrs.eclass <= k
    modifies g, g.nodelist, g.graphlist, g.nodes, c.e, c.d
    ensures w == c.w && c.n.region == [w] && NothingLeft(w.succ) && c.d in w.pred.at
    ensures ee != null && ee.start == c.x && ee.end == c.u != c.n
  {
    hide Vcg.ListsOk, HidingOf, Case.Seen, Chain.Valid, NothingLeft, ListOk, Idle, LedTo, Into, Search;
    hide Resolved, Induces, Rep, Drawable, Vcg.Flags, Pairs;
    CaseLeads(g, c, k);
    w := FoldLeftOver(g, c.n, k, refnum, c.Seen(0, FOLDED_SGNODE));
    CaseMoves(c);
    ee := SubstedEdge(g, c.d, 3);
  }

  /** The user folds u when n is a fold start of class k. Folding follows the left-over edge e of
      n and hides w, which has no successors; in the loop over the predecessors of w then comes
      d, and its substitute ee does not end at n, as recursive_fold asserts, but at u. */
  method LeftOverRun(g: Vcg, c: Case, k: int, refnum: int) returns (w: Node, ee: Edge?)
    requires LaidOut(g, c) && c.e.attrs.eclass <= k
    modifies g, g.nodelist, g.graphlist, g.nodes, c.e, c.d
    ensures w == c.w && c.n.region == [w] && NothingLeft(w.succ) && c.d in w.pred.at
    ensures ee != null && ee.start == c.x && ee.end == c.u != c.n
  {
    hide LaidOutAgain, Vcg.ListsOk, HidingOf, Case.Seen, Chain.Valid, Vcg.Forest, NothingLeft;
    LayOutAgain(g, c);
    w, ee := FoldInCase(g, c, k, refnum);
  }
}
