/** fold_region and unfold_region (folding.c) as a whole. */
module FoldRegions {
  import opened Chains
  import opened GraphTypes
  import opened NodeVisibility
  import opened SearchVisible
  import opened Adjacency
  import opened Quotient
  import opened RegionCore
  import opened Regions
  import opened RegionSearch

  /** A new record counts among the nodes, but is on no list yet. */
  ghost method AddNode(g: Vcg, h: Node)
    requires g.ListsOk() && h !in g.nodes
    modifies g`nodes
    ensures g.AgreeWithout(h) && g.nodes == old(g.nodes) + {h}
  {
    hide NodeList.Valid;
    forall x | x in g.nodes ensures g.FlagsOk(x) {}
    g.nodes := g.nodes + {h};
  }

  /** nodealloc(refnode): a new node with the attributes of refnode at the end of the list. */
  method NodeAlloc(g: Vcg, refnode: Node, refnum: int) returns (h: Node)
    requires g.ListsOk() && refnode in g.nodes
    modifies g`nodes, g`nodeanz, g.nodelist, g.nodes`next
    ensures fresh(h) && g.ListsOk() && g.nodes == old(g.nodes) + {h}
    ensures h.refnum == refnum && h.root == refnode.root && h.attrs == refnode.attrs && h.sgraph == []
    ensures h.inlist && h.invisible == 0
    ensures g.nodelist.elems == old(g.nodelist.elems) + [h]
  {
    hide *;
    h := new Node(refnum, refnode.root, refnode.depth, refnode.attrs);
    AddNode(g, h);
    g.JoinNodes(h);
  }

  lemma {:induction false} MinusLast<T>(s: seq<T>, v: T)
    requires v !in s
    ensures Minus(s + [v], v) == s
  {
    if s == [] {
      assert s + [v] == [v] && [v][1..] == [];
    } else {
      assert (s + [v])[1..] == s[1..] + [v];
      MinusLast(s[1..], v);
    }
  }

  /** The nodes on a list are those of its sequence. */
  lemma SameMembers(g: Vcg, elems: seq<Node>, members: set<Node>)
    requires g.ListsOk() && g.nodelist.elems == elems
    requires (forall x :: x in elems ==> x in members) && (forall x :: x in members ==> x in elems)
    ensures g.nodelist.members == members
  {
  }

  /** What fold_region saves of a node. */
  datatype Saved = Saved(attrs: NodeAttrs, regrepl: Node?, region: seq<Node>, regroot: Node?)

  ghost function StateOf(n: Node): Saved
    reads n`attrs, n`regrepl, n`region, n`regroot
  {
    Saved(n.attrs, n.regrepl, n.region, n.regroot)
  }

  /** The hidden record h that keeps everything of n while n is a summary node. */
  method Replacement(g: Vcg, n: Node, refnum: int, ghost was: Saved) returns (h: Node)
    requires g.ListsOk() && n in g.nodes && was == StateOf(n)
    modifies g`nodes, g`nodeanz, g.nodelist, g.graphlist, g.nodes`next, g.nodes`before
    ensures fresh(h) && g.ListsOk() && g.nodes == old(g.nodes) && g.Flags() == old(g.Flags())
    ensures g.nodelist.elems == old(g.nodelist.elems) && g.nodelist.members == old(g.nodelist.members)
    ensures h.invisible == FOLDED_RGNODE && h.refnum == refnum && h.root == n.root && StateOf(h) == was
  {
    hide Vcg.ListsOk, Minus;
    ghost var elems, members, nodes := g.nodelist.elems, g.nodelist.members, g.nodes;
    ElemsAreNodes(g);
    h := HiddenCopy(g, n, refnum, elems);
    h.regrepl, h.region, h.regroot := n.regrepl, n.region, n.regroot;
    SetAside(g, h, nodes);
    SameMembers(g, elems, members);
  }

  /** nodealloc and delete_node. */
  method HiddenCopy(g: Vcg, n: Node, refnum: int, ghost elems: seq<Node>) returns (h: Node)
    requires g.ListsOk() && n in g.nodes && elems == g.nodelist.elems && forall x :: x in elems ==> x in g.nodes
    modifies g`nodes, g`nodeanz, g.nodelist, g.graphlist, g.nodes`next, g.nodes`before
    ensures fresh(h) && g.ListsOk() && g.nodes == old(g.nodes) + {h} && g.nodelist.elems == elems
    ensures h.invisible == FOLDED_RGNODE && h.refnum == refnum && h.root == n.root && h.attrs == n.attrs
  {
    hide Vcg.ListsOk, Minus;
    h := NodeAlloc(g, n, refnum);
    MinusLast(elems, h);
    g.DeleteNode(h, FOLDED_RGNODE);
  }

  /** The hidden record h does not count among the nodes of the graph. */
  ghost method SetAside(g: Vcg, h: Node, nodes: set<Node>)
    requires g.ListsOk() && h.invisible == FOLDED_RGNODE && h !in nodes && g.nodes == nodes + {h}
    modifies g`nodes
    ensures g.ListsOk() && g.nodes == nodes
  {
    hide NodeList.Valid;
    assert g.FlagsOk(h);
    g.nodes := nodes;
  }

  lemma ElemsAreNodes(g: Vcg)
    requires g.ListsOk()
    ensures forall x :: x in g.nodelist.elems ==> x in g.nodes
    ensures forall x :: x in g.nodelist.elems <==> x in g.nodelist.members
  {
  }

  function GivenText(d: Option<string>, x: Option<string>): Option<string> {
    if d.Some? then d else x
  }

  /** inherit_foldnode_attributes: the given attributes of the fold node override those of y;
      title and fold class are left alone. */
  function Inherited(fn: NodeAttrs, y: NodeAttrs): (r: NodeAttrs)
  {
    y.(text := GivenText(fn.text, y.text), level := Given(fn.level, y.level), shape := Given(fn.shape, y.shape),
       horder := Given(fn.horder, y.horder), info1 := GivenText(fn.info1, y.info1),
       info2 := GivenText(fn.info2, y.info2), info3 := GivenText(fn.info3, y.info3),
       sx := Given(fn.sx, y.sx), sy := Given(fn.sy, y.sy), textmode := Given(fn.textmode, y.textmode),
       status := Given(fn.status, y.status), width := Given(fn.width, y.width), height := Given(fn.height, y.height),
       borderw := Given(fn.borderw, y.borderw), color := Given(fn.color, y.color),
       tcolor := Given(fn.tcolor, y.tcolor), bcolor := Given(fn.bcolor, y.bcolor),
       shrink := Given(fn.shrink, y.shrink), stretch := Given(fn.stretch, y.stretch))
  }

  /** A text y is d where that is given, and x otherwise. */
  predicate TakesText(d: Option<string>, x: Option<string>, y: Option<string>)
  {
    (d != None ==> y == d) && (d == None ==> y == x)
  }

  /** The attributes r of the summary node, when the node had a: title and fold class stay;
      location and size are the given ones, otherwise 0 and -1; every other attribute is that of
      the fold node where given, and otherwise what the node had. */
  predicate SummarizesNode(fn: NodeAttrs, a: NodeAttrs, r: NodeAttrs)
  {
    && r.title == a.title && r.folding == a.folding
    && TakesGiven(fn.sx, 0, r.sx) && TakesGiven(fn.sy, 0, r.sy)
    && TakesGiven(fn.width, -1, r.width) && TakesGiven(fn.height, -1, r.height)
    && TakesText(fn.text, a.text, r.text) && TakesText(fn.info1, a.info1, r.info1)
    && TakesText(fn.info2, a.info2, r.info2) && TakesText(fn.info3, a.info3, r.info3)
    && TakesGiven(fn.textmode, a.textmode, r.textmode) && TakesGiven(fn.borderw, a.borderw, r.borderw)
    && TakesGiven(fn.color, a.color, r.color) && TakesGiven(fn.tcolor, a.tcolor, r.tcolor)
    && TakesGiven(fn.bcolor, a.bcolor, r.bcolor) && TakesGiven(fn.status, a.status, r.status)
    && TakesGiven(fn.shape, a.shape, r.shape) && TakesGiven(fn.shrink, a.shrink, r.shrink)
    && TakesGiven(fn.stretch, a.stretch, r.stretch) && TakesGiven(fn.level, a.level, r.level)
    && TakesGiven(fn.horder, a.horder, r.horder)
  }

  /** The attributes of the summary node: location and size are not inherited. */
  function Summary(fn: NodeAttrs, a: NodeAttrs): (r: NodeAttrs)
    ensures SummarizesNode(fn, a, r)
  {
    Inherited(fn, a.(sx := 0, sy := 0, width := -1, height := -1))
  }

  /** The fold node gives nothing. */
  predicate GivesNone(fn: NodeAttrs)
  {
    fn == NodeAttrs(fn.title, None, None, None, None, -1, -1, -1, -1, -1, -1, fn.folding, -1, -1, -1, -1, -1, -1, -1,
                    -1, -1)
  }

  /** A fold node that gives nothing changes only location and size. */
  lemma NothingGiven(fn: NodeAttrs, a: NodeAttrs, r: NodeAttrs)
    requires SummarizesNode(fn, a, r) && GivesNone(fn)
    ensures r == a.(sx := 0, sy := 0, width := -1, height := -1)
  {
  }

  lemma OneSummary(fn: NodeAttrs, a: NodeAttrs, r: NodeAttrs)
    requires SummarizesNode(fn, a, r)
    ensures r == Summary(fn, a)
  {
  }

  /** What unfold_region restores from the replacement: all but NTITLE and NSTATE. */
  function Restored(a: NodeAttrs, saved: NodeAttrs): (r: NodeAttrs)
  {
    saved.(title := a.title, status := a.status)
  }

  /** Folding and unfolding gives the attributes back, except that a status given for fold
      nodes stays. */
  lemma AttributesComeBack(fn: NodeAttrs, a: NodeAttrs)
    ensures Restored(Summary(fn, a), a) == a.(status := Given(fn.status, a.status))
    ensures Restored(Summary(fn, a), a) == a <==> fn.status == -1 || fn.status == a.status
  {
  }

  /** The adjacency lists are in force, for exactly the visible nodes, and no listed edge but
      a self loop is marked invisible. */
  ghost predicate Ready(g: Vcg)
    reads g, g.nodelist, g.graphlist, g.active`succ, g.active`pred, g.listed`invisible
    reads g.nodes`inlist, g.nodes`invisible, g.nodes`next, g.nodes`before, g.nodes`sgraph
  {
    && g.ListsOk() && AdjOk(g) && g.active == g.nodelist.members && OnePerPair(g.tmpedgelist)
    && forall e :: e in g.listed ==>
         e.start in g.active && e.end in g.active && (e.invisible ==> e.start == e.end)
  }

  /** n is visible and no visible node belongs to its region. */
  ghost predicate Foldable(g: Vcg, n: Node)
    reads g`active, g.active`regroot
  {
    n in g.active && forall x :: x in g.active ==> x.regroot != n
  }

  /** The lists that create_adjacencies has built are in force. */
  lemma QuotientIsReady(g: Vcg, f: nat)
    requires g.ListsOk() && AdjOk(g) && g.active == g.nodelist.members
    requires forall e :: e in g.edgelist ==> Resolved(HidingOf(g), f, e)
    requires Quotiented(HidingOf(g), f, g.edgelist, g.listed, g.tmpedgelist)
    requires FlagsAgree(HidingOf(g), g.edgelist, g.listed, g.tmpedgelist)
    ensures Ready(g)
  {
    hide AdjOk;
    forall x | x in g.nodes ensures g.FlagsOk(x) {}
  }

  ghost function StartOf(g: Vcg, n: Node, k: int): Start
    reads g`foldstops, g`foldedge, g`tmpedgelist, g`active, g`listed, g.active`regroot
  {
    Start(n, k, g.foldstops, g.active, g.listed, map x | x in g.active :: x.regroot, g.foldedge, Elems(g.tmpedgelist))
  }

  lemma FoldingStarts(g: Vcg, n: Node, k: int, c: Start, vis0: map<Node, int>)
    requires Ready(g) && Foldable(g, n) && n.region == [] && c == StartOf(g, n, k) && vis0 == g.Flags()
    ensures c.n == n && c.k == k && Folding(g, c, {}, {}, n) && Searching(g, c, {}, n) && Elems(n.region) == {}
    ensures c.act == g.active <= g.nodes && c.edges0 == g.listed && vis0.Keys == g.nodes
    ensures forall x :: x in c.act ==> x in vis0 && vis0[x] == 0
    ensures forall x :: x in g.nodes - c.act ==> x.invisible == vis0[x] != 0
  {
    hide *;
    FlagsAtStart(g, n, k, c, vis0);
    FoldingAtStart(g, n, k, c);
  }

  lemma FoldingAtStart(g: Vcg, n: Node, k: int, c: Start)
    requires Ready(g) && Foldable(g, n) && n.region == [] && c == StartOf(g, n, k)
    ensures Folding(g, c, {}, {}, n) && Searching(g, c, {}, n) && Elems(n.region) == {}
  {
    hide NodeList.Valid, AdjOk;
    forall x | x in g.nodes ensures g.FlagsOk(x) {}
    CoreStarts(c, g.tmpedgelist);
    ReachableFirst(c);
  }

  lemma FlagsAtStart(g: Vcg, n: Node, k: int, c: Start, vis0: map<Node, int>)
    requires Ready(g) && Foldable(g, n) && c == StartOf(g, n, k) && vis0 == g.Flags()
    ensures c.n == n && c.k == k && c.act == g.active <= g.nodes && c.edges0 == g.listed && vis0.Keys == g.nodes
    ensures forall x :: x in c.act ==> x in vis0 && vis0[x] == 0
    ensures forall x :: x in g.nodes - c.act ==> x.invisible == vis0[x] != 0
  {
    hide NodeList.Valid, AdjOk, OnePerPair;
    forall x | x in g.nodes ensures g.FlagsOk(x) {}
  }

  ghost function HideRegion(vis: map<Node, int>, region: set<Node>): map<Node, int>
  {
    map x | x in vis :: if x in region then FOLDED_RGNODE else vis[x]
  }

  ghost function ShowRegion(vis: map<Node, int>, region: set<Node>): map<Node, int>
  {
    map x | x in vis :: if x in region && vis[x] == FOLDED_RGNODE then 0 else vis[x]
  }

  /** The region is the set of the other nodes that are reachable from n. */
  ghost predicate IsRegion(c: Start, region: set<Node>)
  {
    && c.n !in region && region <= c.act
    && (forall x :: x in region ==> c.Reachable(x))
    && (forall x :: x in c.act && c.Reachable(x) && x != c.n ==> x in region)
  }

  /** What folding the region does to the listed edges. */
  ghost predicate EdgesMoved(c: Start, region: set<Node>, listed: set<Edge>)
  {
    && (forall e :: e in listed ==> e.start !in region && e.end !in region)
    && (forall e :: e in c.edges0 && e.start !in region && e.end !in region ==> e in listed)
    && (forall e :: e in listed && e.start != c.n && e.end != c.n ==> e in c.edges0)
    && (forall x :: x in c.act && !Inner(c, region, x) ==> Joined(c, region, listed, x))
    && (forall t, u ::
          t in listed - c.edges0 && u in listed - c.edges0 && t.start == u.start && t.end == u.end ==> t == u)
    && (forall t :: t in listed - c.edges0 ==> t.start != t.end && Made(c, region, t))
  }

  /** An edge runs from (to) x to (from) n iff one ran to (from) n or the region before. */
  ghost predicate Joined(c: Start, region: set<Node>, listed: set<Edge>, x: Node)
  {
    && ((exists e :: e in listed && e.start == x && e.end == c.n) <==>
        exists e :: e in c.edges0 && e.start == x && Inner(c, region, e.end))
    && ((exists e :: e in listed && e.start == c.n && e.end == x) <==>
        exists e :: e in c.edges0 && e.end == x && Inner(c, region, e.start))
  }

  lemma CoreEdges(c: Start, region: set<Node>, listed: set<Edge>, ts: seq<Edge>)
    requires Core(c, region, {}, {}, listed, ts)
    ensures EdgesMoved(c, region, listed)
  {
    hide Core;
    forall x | x in c.act && !Inner(c, region, x) ensures Joined(c, region, listed, x) {
      CoreFinished(c, region, listed, ts, x);
    }
    CoreFinishedEdges(c, region, listed, ts);
  }

  /** No listed edge touches the region any more, the edges among the other nodes are the same,
      and there is at most one new edge for each pair of nodes. */
  lemma CoreFinishedEdges(c: Start, region: set<Node>, listed: set<Edge>, ts: seq<Edge>)
    requires Core(c, region, {}, {}, listed, ts)
    ensures forall e :: e in listed ==> e.start !in region && e.end !in region
    ensures forall e :: e in c.edges0 && e.start !in region && e.end !in region ==> e in listed
    ensures forall e :: e in listed && e.start != c.n && e.end != c.n ==> e in c.edges0
    ensures forall t, u ::
        t in listed - c.edges0 && u in listed - c.edges0 && t.start == u.start && t.end == u.end ==> t == u
    ensures forall t :: t in listed - c.edges0 ==> t.start != t.end && Made(c, region, t)
  {
    hide Made;
  }

  lemma RegionFound(c: Start, region: set<Node>)
    requires Grown(c, {}, region) && c.Closed(region, c.n) && c.n !in region && region <= c.act
    ensures IsRegion(c, region)
  {
    hide Start.Reachable, Start.Closed;
    assert region - {} == region;
    forall u | u in region ensures c.Closed(region, u) && c.Reachable(u) {}
    RegionIsReachable(c, region);
  }

  ghost predicate NothingLeft(l: Chain<Edge>)
  {
    l.Valid() && l.head < 0
  }

  /** The situation after fold_region: exactly the region of n has been hidden, each of its
      nodes is once in NREGION(n) and has n as NREGROOT and no successors left, and the edges
      have moved to n. The NREGROOT of the other nodes has not changed. */
  ghost predicate RegionFolded(g: Vcg, c: Start, vis0: map<Node, int>)
    reads g`listed, g`tmpedgelist, g`nodes, g.nodes`invisible, c.n`region, c.act`regroot, c.act`succ
  {
    var region := Elems(c.n.region);
    && IsRegion(c, region) && EdgesMoved(c, region, g.listed)
    && g.Flags() == HideRegion(vis0, region)
    && Distinct(c.n.region)
    && (forall e :: e in g.listed ==> e in c.edges0 || e in g.tmpedgelist) && AllMade(c, region, g.tmpedgelist)
    && (forall x :: x in region ==> NothingLeft(x.succ))
    && forall x :: x in c.act ==> if x in region then x.regroot == c.n else x in c.roots && x.regroot == c.roots[x]
  }

  /** The nodes of the region have no successors left, and new edges are temporary. */
  lemma ListsEmptied(g: Vcg, c: Start)
    requires Folding(g, c, {}, {}, c.n)
    ensures forall x :: x in Elems(c.n.region) ==> NothingLeft(x.succ)
    ensures (forall e :: e in g.listed ==> e in c.edges0 || e in g.tmpedgelist)
    ensures AllMade(c, Elems(c.n.region), g.tmpedgelist)
  {
    hide Vcg.ListsOk, AdjOk, NodesAgree, MarksAgree, Distinct, Settled, AllMade;
    ListsAreValid(g);
    forall x | x in Elems(c.n.region) ensures NothingLeft(x.succ) {
      assert Outs(g.listed, x) == {};
    }
  }

  /** What is known when the search of n has ended. */
  lemma FoldingEnds(g: Vcg, c: Start, vis0: map<Node, int>)
    requires Folding(g, c, {}, {}, c.n) && Grown(c, {}, Elems(c.n.region)) && c.Closed(Elems(c.n.region), c.n)
    requires vis0.Keys == g.nodes && (forall x :: x in c.act ==> vis0[x] == 0)
    requires forall x :: x in g.nodes - c.act ==> x.invisible == vis0[x]
    ensures RegionFolded(g, c, vis0)
  {
    var region := Elems(c.n.region);
    RegionBounds(g, c, {}, {}, c.n);
    ListsEmptied(g, c);
    hide AdjOk, Vcg.ListsOk, Core, Start.Closed, Grown, IsRegion, EdgesMoved, Distinct;
    RegionFound(c, region);
    CoreEdges(c, region, g.listed, g.tmpedgelist);
  }

  /** The hidden nodes no longer have adjacency lists. */
  lemma ReadyAgain(g: Vcg, c: Start, active: set<Node>)
    requires Folding(g, c, {}, {}, c.n) && active == c.act - Elems(c.n.region)
    requires forall x :: x in g.nodes - c.act ==> x.invisible != 0
    ensures active == g.nodelist.members && OnePerPair(g.tmpedgelist)
    ensures forall x :: x in active ==> NodeAdj(g.listed, x, x.succ, x.pred)
    ensures forall e :: e in g.listed ==>
      e.start in active && e.end in active && (e.invisible ==> e.start == e.end)
  {
    hide NodeList.Valid, NodeAdj, Justified, Settled;
    forall x | x in g.nodes ensures g.FlagsOk(x) {}
    assert forall x :: x in active ==> x in g.nodelist.members;
    assert forall x :: x in g.nodelist.members ==> x in active;
  }

  /** The loop of fold_region. */
  method SearchFrom(g: Vcg, n: Node, k: int, ghost c: Start, ghost vis0: map<Node, int>)
    requires Ready(g) && Foldable(g, n) && n.region == [] && c == StartOf(g, n, k) && vis0 == g.Flags()
    modifies g`nodeanz, g`tmpedgelist, g`listed, g.nodelist, g.graphlist, n`region
    modifies g.nodes`next, g.nodes`before, g.active`inlist, g.active`invisible, g.active`regroot
    modifies g.active`succ, g.active`pred, g.listed`invisible, Elems(g.tmpedgelist)`invisible
    ensures c.n == n && Folding(g, c, {}, {}, n) && RegionFolded(g, c, vis0)
    ensures forall x :: x in g.nodes - c.act ==> x.invisible != 0
    ensures forall t :: t in g.tmpedgelist ==> t in old(g.tmpedgelist) || fresh(t)
  {
    hide *;
    FoldingStarts(g, n, k, c, vis0);
    FoldSuccessors(g, c, n, n, k, {});
    FoldingEnds(g, c, vis0);
  }

  /** The last part of fold_region, for n that already is a summary node. */
  method FoldFrom(g: Vcg, n: Node, k: int, ghost c: Start, ghost vis0: map<Node, int>)
    requires Ready(g) && Foldable(g, n) && n.region == [] && c == StartOf(g, n, k) && vis0 == g.Flags()
    modifies g`nodeanz, g`tmpedgelist, g`listed, g`active, g.nodelist, g.graphlist, n`region
    modifies g.nodes`next, g.nodes`before, g.active`inlist, g.active`invisible, g.active`regroot
    modifies g.active`succ, g.active`pred, g.listed`invisible, Elems(g.tmpedgelist)`invisible
    ensures Ready(g) && RegionFolded(g, c, vis0) && g.active == old(g.active) - Elems(n.region)
    ensures forall t :: t in g.tmpedgelist ==> t in old(g.tmpedgelist) || fresh(t)
  {
    hide *;
    VisibleFlags(g);
    StartKnown(g, n, k, c);
    SearchFrom(g, n, k, c, vis0);
    FinishFolding(g, c);
  }

  lemma StartKnown(g: Vcg, n: Node, k: int, c: Start)
    requires c == StartOf(g, n, k)
    ensures c.n == n && c.act == g.active && c.edges0 == g.listed
    ensures c.roots.Keys == c.act && forall x :: x in c.act ==> c.roots[x] == x.regroot
  {
  }

  lemma FoldableIsVisible(g: Vcg, n: Node)
    requires Foldable(g, n)
    ensures n in g.active
  {
  }

  lemma VisibleFlags(g: Vcg)
    requires Ready(g)
    ensures g.active <= g.nodes && forall x :: x in g.nodes ==> (x.invisible == 0 <==> x in g.active)
  {
    forall x | x in g.nodes ensures g.FlagsOk(x) {}
  }

  ghost method FinishFolding(g: Vcg, c: Start)
    requires Folding(g, c, {}, {}, c.n) && forall x :: x in g.nodes - c.act ==> x.invisible != 0
    modifies g`active
    ensures Ready(g) && g.active == c.act - Elems(c.n.region)
  {
    hide NodeAdj, Core, NodesAgree, MarksAgree;
    ReadyAgain(g, c, c.act - Elems(c.n.region));
    g.active := c.act - Elems(c.n.region);
  }

  /** n is a summary node with the fold attributes, and its replacement keeps what it was. */
  ghost predicate IsSummary(fn: NodeAttrs, n: Node, was: Saved)
    reads n`attrs, n`regrepl
    reads if n.regrepl == null then {} else {n.regrepl}
  {
    && n.regrepl != null && StateOf(n.regrepl) == was
    && SummarizesNode(fn, was.attrs, n.attrs)
  }

  /** Making the replacement changes nothing that the folding needs. */
  method SaveNode(g: Vcg, n: Node, k: int, refnum: int, ghost c: Start, ghost vis0: map<Node, int>, ghost was: Saved)
    returns (h: Node)
    requires Ready(g) && Foldable(g, n) && c == StartOf(g, n, k) && vis0 == g.Flags() && was == StateOf(n)
    modifies g`nodes, g`nodeanz, g.nodelist, g.graphlist, g.nodes`next, g.nodes`before
    ensures Ready(g) && Foldable(g, n) && c == StartOf(g, n, k) && vis0 == g.Flags()
    ensures fresh(h) && g.nodes == old(g.nodes) && StateOf(h) == was
  {
    hide Vcg.ListsOk, AdjOk, OnePerPair, Vcg.Flags, StateOf, StartOf, Foldable;
    VisibleFlags(g);
    FoldableIsVisible(g, n);
    h := Replacement(g, n, refnum, was);
  }

  /** The first part of fold_region: n becomes a summary node with an empty region. */
  method MakeSummary(g: Vcg, n: Node, k: int, refnum: int, ghost c: Start, ghost vis0: map<Node, int>, ghost was: Saved)
    requires Ready(g) && Foldable(g, n) && c == StartOf(g, n, k) && vis0 == g.Flags() && was == StateOf(n)
    modifies g`nodes, g`nodeanz, g.nodelist, g.graphlist, g.nodes`next, g.nodes`before
    modifies n`attrs, n`regrepl, n`region
    ensures Ready(g) && Foldable(g, n) && c == StartOf(g, n, k) && vis0 == g.Flags() && n.region == []
    ensures n.regrepl != null && fresh(n.regrepl) && g.nodes == old(g.nodes)
    ensures StateOf(n.regrepl) == was && SummarizesNode(g.foldnode, was.attrs, n.attrs)
  {
    hide *;
    var h := SaveNode(g, n, k, refnum, c, vis0, was);
    SetSummary(g, n, h, was);
  }

  lemma SummaryMade(fn: NodeAttrs, n: Node, h: Node, was: Saved)
    requires n.regrepl == h && StateOf(h) == was && SummarizesNode(fn, was.attrs, n.attrs)
    ensures IsSummary(fn, n, was)
  {
  }

  /** The assignments to n in fold_region. */
  method SetSummary(g: Vcg, n: Node, h: Node, ghost was: Saved)
    requires n != h && was == StateOf(n)
    modifies n`attrs, n`regrepl, n`region
    ensures SummarizesNode(g.foldnode, was.attrs, n.attrs) && n.regrepl == h && n.region == []
  {
    n.attrs := n.attrs.(sx := 0, sy := 0, width := -1, height := -1);
    n.attrs := Inherited(g.foldnode, n.attrs);
    n.regrepl, n.region := h, [];
    assert n.attrs == Summary(g.foldnode, was.attrs);
    hide *;
  }

  /** FoldFrom does not touch the replacement h of n. */
  method FoldSummary(g: Vcg, n: Node, k: int, ghost c: Start, ghost vis0: map<Node, int>, ghost h: Node,
                     ghost was: Saved)
    requires Ready(g) && Foldable(g, n) && n.region == [] && c == StartOf(g, n, k) && vis0 == g.Flags()
    requires n.regrepl == h && h !in g.nodes && StateOf(h) == was && SummarizesNode(g.foldnode, was.attrs, n.attrs)
    modifies g`nodeanz, g`tmpedgelist, g`listed, g`active, g.nodelist, g.graphlist, n`region
    modifies g.nodes`next, g.nodes`before, g.active`inlist, g.active`invisible, g.active`regroot
    modifies g.active`succ, g.active`pred, g.listed`invisible, Elems(g.tmpedgelist)`invisible
    ensures Ready(g) && RegionFolded(g, c, vis0) && IsSummary(g.foldnode, n, was) && n.regrepl == h
    ensures g.active == old(g.active) - Elems(n.region)
    ensures forall t :: t in g.tmpedgelist ==> t in old(g.tmpedgelist) || fresh(t)
  {
    hide *;
    VisibleFlags(g);
    FoldableIsVisible(g, n);
    assert h !in g.active;
    FoldFrom(g, n, k, c, vis0);
    assert StateOf(h) == was;
    SummaryMade(g.foldnode, n, h, was);
  }

  /** fold_region. The ghost arguments are the situation before. */
  method FoldRegion(g: Vcg, n: Node, k: int, refnum: int, ghost c: Start, ghost vis0: map<Node, int>, ghost was: Saved)
    requires Ready(g) && Foldable(g, n) && c == StartOf(g, n, k) && vis0 == g.Flags() && was == StateOf(n)
    modifies g`nodes, g`nodeanz, g`tmpedgelist, g`listed, g`active, g.nodelist, g.graphlist
    modifies n`attrs, n`regrepl, n`region
    modifies g.nodes`next, g.nodes`before, g.active`inlist, g.active`invisible, g.active`regroot
    modifies g.active`succ, g.active`pred, g.listed`invisible, Elems(g.tmpedgelist)`invisible
    ensures Ready(g) && RegionFolded(g, c, vis0) && g.nodes == old(g.nodes)
    ensures IsSummary(g.foldnode, n, was) && fresh(n.regrepl) && g.active == old(g.active) - Elems(n.region)
    ensures forall t :: t in g.tmpedgelist ==> t in old(g.tmpedgelist) || fresh(t)
  {
    hide *;
    VisibleFlags(g);
    MakeSummary(g, n, k, refnum, c, vis0, was);
    FoldSummary(g, n, k, c, vis0, n.regrepl, was);
  }

  /** A round of the loop of unfold_region over the former members. */
  method ShowMember(g: Vcg, h: Node, ghost vis: map<Node, int>, ghost shown: set<Node>)
    requires g.ListsOk() && h in g.nodes && g.Flags() == ShowRegion(vis, shown)
    modifies g`nodeanz, g.nodelist, g.graphlist, g.nodes`next, g.nodes`before
    modifies h`inlist, h`invisible, h`regroot
    ensures g.ListsOk() && g.Flags() == ShowRegion(vis, shown + {h}) && h.regroot == null
  {
    hide Vcg.ListsOk;
    h.regroot := null;
    g.InsertNode(h, FOLDED_RGNODE);
  }

  /** The loop of unfold_region over the former members. */
  method ShowMembers(g: Vcg, l: seq<Node>)
    requires g.ListsOk() && forall x :: x in l ==> x in g.nodes
    modifies g`nodeanz, g.nodelist, g.graphlist, g.nodes`next, g.nodes`before
    modifies Elems(l)`inlist, Elems(l)`invisible, Elems(l)`regroot
    ensures g.ListsOk() && g.Flags() == ShowRegion(old(g.Flags()), Elems(l))
    ensures forall x :: x in l ==> x.regroot == null
  {
    ghost var vis := g.Flags();
    assert vis == ShowRegion(vis, Elems(l[..0]));
    hide Vcg.ListsOk, Vcg.Flags, ShowRegion, Elems;
    for i := 0 to |l|
      invariant g.ListsOk() && g.Flags() == ShowRegion(vis, Elems(l[..i]))
      invariant forall x :: x in l[..i] ==> x.regroot == null
    {
      var h := l[i];
      OneMoreElem(l, i);
      ShowMember(g, h, vis, Elems(l[..i]));
    }
    assert l[..|l|] == l;
  }

  lemma OneMoreElem(l: seq<Node>, i: nat)
    requires i < |l|
    ensures l[..i + 1] == l[..i] + [l[i]] && Elems(l[..i + 1]) == Elems(l[..i]) + {l[i]}
  {
    assert l[..i + 1] == l[..i] + [l[i]];
  }

  ghost function Unsaved(a: NodeAttrs, was: Saved): Saved
  {
    was.(attrs := Restored(a, was.attrs))
  }

  /** unfold_region. */
  method UnfoldRegion(g: Vcg, n: Node)
    requires g.ListsOk() && n !in n.region && forall x :: x in n.region ==> x in g.nodes
    modifies n`attrs, n`regrepl, n`region, n`regroot
    modifies g`nodeanz, g.nodelist, g.graphlist, g.nodes`next, g.nodes`before
    modifies Elems(n.region)`inlist, Elems(n.region)`invisible, Elems(n.region)`regroot
    ensures g.ListsOk()
    ensures old(n.regrepl) == null ==> g.Flags() == old(g.Flags()) && StateOf(n) == old(StateOf(n))
    ensures old(n.regrepl) == null ==> forall x :: x in old(n.region) ==> x.regroot == old(x.regroot)
    ensures old(n.regrepl) != null ==> g.Flags() == ShowRegion(old(g.Flags()), old(Elems(n.region)))
    ensures old(n.regrepl) != null ==> StateOf(n) == Unsaved(old(n.attrs), old(StateOf(n.regrepl)))
    ensures old(n.regrepl) != null ==> forall x :: x in old(n.region) ==> x.regroot == null
  {
    hide Vcg.ListsOk, ShowRegion;
    var h := n.regrepl;
    if h == null { return; }
    var l := n.region;
    n.attrs := Restored(n.attrs, h.attrs);
    n.regrepl, n.region, n.regroot := h.regrepl, h.region, h.regroot;
    ShowMembers(g, l);
  }

  lemma ShownAgain(vis: map<Node, int>, region: set<Node>)
    requires forall x :: x in region && x in vis ==> vis[x] == 0
    ensures ShowRegion(HideRegion(vis, region), region) == vis
  {
  }

  /** What the round trip starts from: the reasons and NREGROOT of all nodes, and the state of n. */
  datatype Before = Before(vis: map<Node, int>, roots: map<Node, Node?>, n: Saved)

  ghost function BeforeOf(g: Vcg, n: Node): Before
    reads g`nodes, g.nodes`invisible, g.nodes`regroot, n`attrs, n`regrepl, n`region, n`regroot
  {
    Before(g.Flags(), Roots(g.nodes), StateOf(n))
  }

  /** n is a summary node, and the members of its region were visible and in no region. */
  ghost predicate Folded(g: Vcg, n: Node, b: Before)
    reads g`nodes, g`foldnode, g.nodes`invisible, g.nodes`regroot, n`attrs, n`regrepl, n`region
    reads if n.regrepl == null then {} else {n.regrepl}
  {
    && IsSummary(g.foldnode, n, b.n) && n !in n.region && b.vis.Keys == b.roots.Keys == g.nodes
    && (forall x :: x in n.region ==> x in g.nodes && b.vis[x] == 0 && b.roots[x] == null)
    && (forall x :: x in g.nodes && x !in n.region && x != n ==> x.regroot == b.roots[x])
    && (n in g.nodes ==> b.n.regroot == b.roots[n])
    && g.Flags() == HideRegion(b.vis, Elems(n.region))
  }

  lemma FoldedNow(g: Vcg, c: Start, n: Node, b: Before)
    requires Ready(g) && RegionFolded(g, c, b.vis) && IsSummary(g.foldnode, n, b.n) && c.n == n
    requires c.act <= g.nodes && b.vis.Keys == b.roots.Keys == g.nodes
    requires forall x :: x in c.act ==> b.vis[x] == 0 && b.roots[x] == null && x in c.roots && c.roots[x] == null
    requires forall x :: x in g.nodes - c.act ==> x.regroot == b.roots[x]
    requires n in c.act && b.n.regroot == null
    ensures Folded(g, n, b) && g.ListsOk() && Elems(n.region) <= c.act
  {
    hide EdgesMoved, Vcg.ListsOk, IsSummary, Vcg.Flags, HideRegion;
  }

  /** n is again what it was, but for a status that the fold node has given. */
  ghost predicate GivenBack(fn: NodeAttrs, was: Saved, now: Saved)
  {
    && now == was.(attrs := was.attrs.(status := now.attrs.status))
    && TakesGiven(fn.status, was.attrs.status, now.attrs.status)
  }

  lemma AllGivenBack(fn: NodeAttrs, was: Saved)
    ensures GivenBack(fn, was, Unsaved(Summary(fn, was.attrs), was))
  {
    AttributesComeBack(fn, was.attrs);
  }

  /** unfold_region restores what the search for representatives sees, and n, but for a
      status that fold nodes are given. */
  method UnfoldFolded(g: Vcg, n: Node, ghost b: Before)
    requires g.ListsOk() && Folded(g, n, b)
    modifies n`attrs, n`regrepl, n`region, n`regroot
    modifies g`nodeanz, g.nodelist, g.graphlist, g.nodes`next, g.nodes`before
    modifies Elems(n.region)`inlist, Elems(n.region)`invisible, Elems(n.region)`regroot
    ensures g.ListsOk() && g.Flags() == b.vis && Roots(g.nodes) == b.roots
    ensures GivenBack(g.foldnode, b.n, StateOf(n))
  {
    hide Vcg.ListsOk, Summary, ShowRegion, HideRegion, Vcg.Flags, Roots, SummarizesNode;
    ghost var region := Elems(n.region);
    OneSummary(g.foldnode, b.n.attrs, n.attrs);
    UnfoldRegion(g, n);
    AllGivenBack(g.foldnode, b.n);
    ShownAgain(b.vis, region);
    RootsAgain(g.nodes, b.roots);
  }

  lemma RootsAgain(nodes: set<Node>, roots0: map<Node, Node?>)
    requires nodes == roots0.Keys && forall x :: x in nodes ==> x.regroot == roots0[x]
    ensures Roots(nodes) == roots0
  {
  }

  lemma RoundTripStarts(g: Vcg, n: Node, k: int, c: Start, b: Before)
    requires Ready(g) && n in g.active && b == BeforeOf(g, n) && c == StartOf(g, n, k)
    requires forall x :: x in g.active ==> x.regroot == null
    ensures Foldable(g, n) && c.n == n && b.vis == g.Flags() && b.n == StateOf(n) && b.n.regroot == null
    ensures g.active == c.act <= g.nodes && n in c.act && b.vis.Keys == b.roots.Keys == g.nodes
    ensures forall x :: x in c.act ==> b.vis[x] == 0 && b.roots[x] == null && x in c.roots && c.roots[x] == null
    ensures forall x :: x in g.nodes - c.act ==> x.regroot == b.roots[x]
  {
    VisibleFlags(g);
  }

  /** fold_region, with what unfold_region needs afterwards. */
  method FoldForUnfold(g: Vcg, n: Node, k: int, refnum: int, ghost b: Before)
    requires Ready(g) && n in g.active && b == BeforeOf(g, n) && forall x :: x in g.active ==> x.regroot == null
    modifies g`nodes, g`nodeanz, g`tmpedgelist, g`listed, g`active, g.nodelist, g.graphlist
    modifies n`attrs, n`regrepl, n`region
    modifies g.nodes`next, g.nodes`before, g.active`inlist, g.active`invisible, g.active`regroot
    modifies g.active`succ, g.active`pred, g.listed`invisible, Elems(g.tmpedgelist)`invisible
    ensures g.ListsOk() && Folded(g, n, b) && g.nodes == old(g.nodes) && Elems(n.region) <= old(g.active)
  {
    hide *;
    ghost var c := StartOf(g, n, k);
    RoundTripStarts(g, n, k, c, b);
    FoldRegion(g, n, k, refnum, c, b.vis, b.n);
    FoldedNow(g, c, n, b);
  }

  /** fold_region and then unfold_region. The lists that create_adjacencies builds afterwards
      describe the same quotient as before, because that is decided by the reasons, the first
      members (which do not change) and NREGROOT. */
  method FoldThenUnfold(g: Vcg, n: Node, k: int, refnum: int, ghost b: Before)
    requires Ready(g) && n in g.active && b == BeforeOf(g, n) && forall x :: x in g.active ==> x.regroot == null
    modifies g`nodes, g`nodeanz, g`tmpedgelist, g`listed, g`active, g.nodelist, g.graphlist
    modifies n`attrs, n`regrepl, n`region, n`regroot
    modifies g.nodes`next, g.nodes`before, g.active`inlist, g.active`invisible, g.active`regroot
    modifies g.active`succ, g.active`pred, g.listed`invisible, Elems(g.tmpedgelist)`invisible
    ensures g.ListsOk() && g.nodes == old(g.nodes) && g.Flags() == b.vis && Roots(g.nodes) == b.roots
    ensures GivenBack(g.foldnode, b.n, StateOf(n))
  {
    hide *;
    VisibleFlags(g);
    FoldForUnfold(g, n, k, refnum, b);
    UnfoldFolded(g, n, b);
  }
}
