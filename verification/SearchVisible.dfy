/** search_visible (folding.c): which visible node stands for a hidden one. */
module SearchVisible {
  import opened GraphTypes
  import opened NodeVisibility
  import opened Subgraphs
  import opened SubgraphRuns

  /** What the search reads: the reason of every node, the first member of every graph and
      the summary node of every region member. */
  datatype Hiding = Hiding(vis: map<Node, int>, first: map<Node, Node>, regroot: map<Node, Node?>)

  ghost function HidingOf(g: Vcg): (h: Hiding)
    reads g`nodes, g.nodes`invisible, g.nodes`sgraph, g.nodes`regroot
    ensures h.vis == g.Flags()
  {
    Hiding(g.Flags(), Firsts(g.nodes), Roots(g.nodes))
  }

  ghost function Firsts(nodes: set<Node>): (r: map<Node, Node>)
    reads nodes`sgraph
  {
    map x | x in nodes && x.sgraph != [] :: x.sgraph[0]
  }

  ghost function Roots(nodes: set<Node>): (r: map<Node, Node?>)
    reads nodes`regroot
  {
    map x | x in nodes :: x.regroot
  }

  /** The variable w of the inner loop of the search when the loop ends, or None if it does
      not end within f rounds. Each round reads the first member of v again. */
  ghost function InnerLoop(h: Hiding, v: Node, w: Node, f: nat): (r: Option<Node>)
    requires v in h.first && h.first[v] in h.vis && w in h.vis
    ensures h.vis[w] == UNFOLDED_SGRAPH && f > 0 ==>
              r == if h.vis[h.first[v]] != UNFOLDED_SGRAPH then Some(h.first[v]) else None
  {
    if h.vis[w] != UNFOLDED_SGRAPH then Some(w)
    else if f == 0 then None
    else InnerLoop(h, v, h.first[v], f - 1)
  }

  /** The result of the search within f calls and f rounds of each inner loop, or None if it
      does not return. */
  ghost function Search(h: Hiding, v: Node?, f: nat): Option<Node?>
  {
    if f == 0 then None
    else if v == null then Some(null)
    else if v !in h.vis then None
    else if h.vis[v] == 0 then Some(v)
    else if h.vis[v] == UNFOLDED_SGRAPH then
      if v !in h.first || h.first[v] !in h.vis then None
      else
        var w := InnerLoop(h, v, v, f);
        if w == None then None
        else if h.vis[h.first[v]] == FOLDED_SGNODE then Search(h, v.root, f - 1)
        else Search(h, h.first[v], f - 1)
    else if h.vis[v] == FOLDED_SGNODE then Search(h, v.root, f - 1)
    else if h.vis[v] == FOLDED_RGNODE then
      if v !in h.regroot then None else Search(h, h.regroot[v], f - 1)
    else Some(null)
  }

  lemma {:induction false} SearchMore(h: Hiding, v: Node?, f: nat, f': nat)
    requires f <= f' && Search(h, v, f).Some?
    ensures Search(h, v, f') == Search(h, v, f)
  {
    if v != null && v in h.vis && h.vis[v] != 0 {
      if h.vis[v] == UNFOLDED_SGRAPH {
        SearchMore(h, if h.vis[h.first[v]] == FOLDED_SGNODE then v.root else h.first[v], f - 1, f' - 1);
      } else if h.vis[v] == FOLDED_SGNODE {
        SearchMore(h, v.root, f - 1, f' - 1);
      } else if h.vis[v] == FOLDED_RGNODE {
        SearchMore(h, h.regroot[v], f - 1, f' - 1);
      }
    }
  }

  /** search_visible. The ghost argument bounds the depth of the recursion. */
  method Find(g: Vcg, v: Node?, ghost f: nat) returns (r: Node?)
    requires g.ListsOk() && Search(HidingOf(g), v, f).Some?
    ensures Search(HidingOf(g), v, f) == Some(r)
    decreases f
  {
    if v == null { return null; }
    assert g.FlagsOk(v);
    if v.inlist { return v; }
    if v.invisible == UNFOLDED_SGRAPH {
      var w := v;
      while w.invisible == UNFOLDED_SGRAPH
        invariant w == v || w == v.sgraph[0]
        decreases if w.invisible == UNFOLDED_SGRAPH then 1 else 0
      {
        w := v.sgraph[0];
      }
      if w.invisible == FOLDED_SGNODE {
        r := Find(g, v.root, f - 1);
      } else {
        r := Find(g, v.sgraph[0], f - 1);
      }
    } else if v.invisible == FOLDED_SGNODE {
      r := Find(g, v.root, f - 1);
    } else if v.invisible == FOLDED_RGNODE {
      r := Find(g, v.regroot, f - 1);
    } else {
      r := null;
    }
  }

  /** The inner loop ends iff the first member of the unfolded graph v is not an unfolded graph. */
  lemma LoopEndsIff(h: Hiding, v: Node)
    requires v in h.first && v in h.vis && h.first[v] in h.vis && h.vis[v] == UNFOLDED_SGRAPH
    ensures (exists f: nat :: InnerLoop(h, v, v, f).Some?) <==> h.vis[h.first[v]] != UNFOLDED_SGRAPH
  {
    assert InnerLoop(h, v, v, 1).Some? <==> h.vis[h.first[v]] != UNFOLDED_SGRAPH;
  }

  // ---------- subgraph folding only ----------

  /** The node itself if visible, otherwise the nearest visible summary node around it. */
  ghost function Cover(vis: Flagging, v: Node): Node?
    decreases v.depth
  {
    if v in vis && vis[v] == 0 then v
    else if v.root == null || v.root.depth >= v.depth then null
    else Cover(vis, v.root)
  }

  /** A hidden plain node or folded graph, and any node inside a folded graph, has exactly
      one visible node on its root path. */
  lemma {:induction false} CoverExists(vis: Flagging, v: Node)
    requires Rooted(vis) && Coherent(vis) && SubgraphOnly(vis) && v in vis
    requires vis[v] != UNFOLDED_SGRAPH || !Open(vis, v)
    ensures Cover(vis, v) != null
    ensures Cover(vis, v) in vis && vis[Cover(vis, v)] == 0 && (Cover(vis, v) == v || Below(v, Cover(vis, v)))
    ensures forall u :: u in vis && vis[u] == 0 && (u == v || Below(v, u)) ==> u == Cover(vis, v)
    decreases v.depth
  {
    if vis[v] == 0 {
      forall u | u in vis && Below(v, u) ensures vis[u] != 0 { OpenAbove(vis, v, u); }
    } else {
      CoverExists(vis, v.root);
    }
  }

  /** The first member of each unfolded graph is known. */
  ghost predicate FirstsKnown(h: Hiding)
  {
    forall v :: v in h.vis && h.vis[v] == UNFOLDED_SGRAPH ==>
      v in h.first && h.first[v] in h.vis && h.first[v].root == v
  }

  /** u is an unfolded graph that starts with an unfolded graph. */
  ghost predicate StartsUnfolded(h: Hiding, u: Node)
  {
    u in h.vis && h.vis[u] == UNFOLDED_SGRAPH && u in h.first && h.first[u] in h.vis
    && h.vis[h.first[u]] == UNFOLDED_SGRAPH
  }

  /** u is v, or lies on the root path of v before the visible node. */
  ghost predicate OnWay(vis: Flagging, v: Node, u: Node)
  {
    u == v || (Below(v, u) && Cover(vis, v) != null && Below(u, Cover(vis, v)))
  }

  /** No graph on the way from v to its visible node is unfolded and starts with an unfolded graph. */
  ghost predicate WayFree(h: Hiding, v: Node)
  {
    forall u :: u in h.vis && OnWay(h.vis, v, u) ==> !StartsUnfolded(h, u)
  }

  /** The states in which only subgraphs have been folded. */
  ghost predicate Nested(h: Hiding)
  {
    Rooted(h.vis) && Coherent(h.vis) && SubgraphOnly(h.vis) && FirstsKnown(h)
  }

  /** The way of a hidden node is the node and the way of its root. */
  lemma WayStep(h: Hiding, v: Node)
    requires Nested(h) && v in h.vis && h.vis[v] != 0 && (h.vis[v] != UNFOLDED_SGRAPH || !Open(h.vis, v))
    ensures v.root != null && v.root in h.vis && v.root.depth < v.depth
        && Cover(h.vis, v) == Cover(h.vis, v.root) != null
    ensures h.vis[v.root] != UNFOLDED_SGRAPH || !Open(h.vis, v.root)
    ensures WayFree(h, v) <==> !StartsUnfolded(h, v) && WayFree(h, v.root)
  {
    CoverExists(h.vis, v);
    CoverExists(h.vis, v.root);
    var r, c := v.root, Cover(h.vis, v);
    forall u | u in h.vis && StartsUnfolded(h, u) ensures OnWay(h.vis, v, u) <==> u == v || OnWay(h.vis, r, u) {
      BelowIsDeeper(h.vis, r, u);
      BelowIsDeeper(h.vis, u, c);
    }
  }

  /** Around an unfolded graph that is not hidden there is no visible node. */
  lemma {:induction false} OpenHasNoCover(vis: Flagging, v: Node)
    requires Rooted(vis) && v in vis && vis[v] == UNFOLDED_SGRAPH && Open(vis, v)
    ensures Cover(vis, v) == null
    decreases v.depth
  {
    if v.root != null { OpenHasNoCover(vis, v.root); }
  }

  /** From a node inside a folded graph the search returns the one visible node on the root
      path, if the way is free. */
  lemma {:induction false} SearchFindsCover(h: Hiding, v: Node)
    requires Nested(h) && WayFree(h, v) && v in h.vis
    requires h.vis[v] != UNFOLDED_SGRAPH || !Open(h.vis, v)
    ensures Search(h, v, v.depth + 1) == Some(Cover(h.vis, v))
    decreases v.depth
  {
    if h.vis[v] != 0 {
      WayStep(h, v);
      SearchFindsCover(h, v.root);
      SearchMore(h, v.root, v.root.depth + 1, v.depth);
      if h.vis[v] == UNFOLDED_SGRAPH { FirstIsHidden(h, v); }
    }
  }

  /** The first member of a graph inside a folded one is an unfolded graph or hidden. */
  lemma FirstIsHidden(h: Hiding, v: Node)
    requires Nested(h) && v in h.vis && h.vis[v] == UNFOLDED_SGRAPH && !Open(h.vis, v)
    ensures h.vis[h.first[v]] == FOLDED_SGNODE || h.vis[h.first[v]] == UNFOLDED_SGRAPH
  {
    assert !Open(h.vis, h.first[v]);
  }

  /** If the way is not free, the search never returns. */
  lemma {:induction false} SearchDiverges(h: Hiding, v: Node, f: nat)
    requires Nested(h) && !WayFree(h, v) && v in h.vis
    ensures Search(h, v, f) == None
    decreases f
  {
    if f > 0 && !StartsUnfolded(h, v) {
      if h.vis[v] == UNFOLDED_SGRAPH && Open(h.vis, v) {
        OpenHasNoCover(h.vis, v);
      } else if h.vis[v] == 0 {
        forall u | u in h.vis && OnWay(h.vis, v, u) ensures u == v {
          BelowIsDeeper(h.vis, v, u);
          BelowIsDeeper(h.vis, u, v);
        }
      } else {
        WayStep(h, v);
        SearchDiverges(h, v.root, f - 1);
        if h.vis[v] == UNFOLDED_SGRAPH { FirstIsHidden(h, v); }
      }
    }
  }

  /** The search from a graph that is unfolded and not hidden returns its first member, if
      that is not an unfolded graph. */
  lemma SearchFindsFirst(h: Hiding, v: Node)
    requires Nested(h) && v in h.vis && h.vis[v] == UNFOLDED_SGRAPH && Open(h.vis, v) && !StartsUnfolded(h, v)
    ensures Search(h, v, 2) == Some(h.first[v]) && h.vis[h.first[v]] == 0
  {
    assert Open(h.vis, h.first[v]);
    assert Search(h, h.first[v], 1) == Some(h.first[v]);
  }

  /** The search returns iff the way is free, and then within depth + 2 calls. */
  lemma SearchEndsIff(h: Hiding, v: Node)
    requires Nested(h) && v in h.vis
    ensures (exists f: nat :: Search(h, v, f).Some?) <==> WayFree(h, v)
    ensures WayFree(h, v) ==> Search(h, v, v.depth + 2).Some?
    ensures WayFree(h, v) && (h.vis[v] != UNFOLDED_SGRAPH || !Open(h.vis, v)) ==>
              Search(h, v, v.depth + 2) == Some(Cover(h.vis, v))
  {
    hide Nested, Search;
    if WayFree(h, v) {
      if h.vis[v] == UNFOLDED_SGRAPH && Open(h.vis, v) {
        assert OnWay(h.vis, v, v);
        SearchFindsFirst(h, v);
        SearchMore(h, v, 2, v.depth + 2);
      } else {
        SearchFindsCover(h, v);
        SearchMore(h, v, v.depth + 1, v.depth + 2);
      }
    } else {
      forall f: nat ensures Search(h, v, f) == None { SearchDiverges(h, v, f); }
    }
  }

  // ---------- a search that does not return ----------

  /** The reasons when the graphs u, a and b are unfolded and x is visible. */
  ghost function Unfolded(u: Node, a: Node, b: Node, x: Node): Flagging
  {
    map[u := UNFOLDED_SGRAPH, a := UNFOLDED_SGRAPH, b := UNFOLDED_SGRAPH, x := 0]
  }

  /** x lies in the graph b, with which a starts, with which u starts. */
  ghost predicate Chained(u: Node, a: Node, b: Node, x: Node)
  {
    && u.root == null && a.root == u && b.root == a && x.root == b
    && u.depth < a.depth < b.depth < x.depth
  }

  lemma ChainFolded(u: Node, a: Node, b: Node, x: Node)
    requires Chained(u, a, b, x)
    ensures Rooted(Unfolded(u, a, b, x)) && Coherent(Unfolded(u, a, b, x)) && SubgraphOnly(Unfolded(u, a, b, x))
    ensures Admissible(Unfolded(u, a, b, x), [Fold(u)])
    ensures Run(Unfolded(u, a, b, x), [Fold(u)])
         == map[u := 0, a := UNFOLDED_SGRAPH, b := UNFOLDED_SGRAPH, x := FOLDED_SGNODE]
  {
    var vis := Unfolded(u, a, b, x);
    InitialCoherent(vis);
    assert !Below(u, u) && Below(a, u) && Below(b, u) && Below(x, u);
    assert Open(vis, u);
    var w := FoldFlags(vis, u);
    assert w == map[u := 0, a := UNFOLDED_SGRAPH, b := UNFOLDED_SGRAPH, x := FOLDED_SGNODE];
    assert [Fold(u)][1..] == [];
    assert Act(vis, Fold(u)) == w && Run(w, []) == w && Admissible(w, []);
  }

  lemma ChainCovers(u: Node, a: Node, b: Node, x: Node, h: Hiding)
    requires Chained(u, a, b, x) && h.first == map[u := a, a := b, b := x]
    requires h.vis == map[u := 0, a := UNFOLDED_SGRAPH, b := UNFOLDED_SGRAPH, x := FOLDED_SGNODE]
    ensures FirstsKnown(h) && !WayFree(h, x)
  {
    var w := h.vis;
    assert Cover(w, a) == u;
    assert Cover(w, b) == u;
    assert Cover(w, x) == u;
    assert Below(x, a) && Below(a, u);
    assert OnWay(w, x, a) && StartsUnfolded(h, a);
  }

  /** A graph u, in it a graph a that starts with a graph b, in which x lies. When u is
      folded, with a and b left unfolded, the search from x does not return. */
  lemma NestedGraphDiverges(u: Node, a: Node, b: Node, x: Node)
    requires Chained(u, a, b, x)
    ensures var h := Hiding(Run(Unfolded(u, a, b, x), [Fold(u)]), map[u := a, a := b, b := x], map[]);
      Nested(h) && !WayFree(h, x) && forall f: nat :: Search(h, x, f) == None
  {
    var vis := Unfolded(u, a, b, x);
    assert u in vis && vis[u] == UNFOLDED_SGRAPH;
    ChainFolded(u, a, b, x);
    assert Open(vis, u);
    FoldKeepsCoherence(vis, u);
    ActKeepsSubgraphOnly(vis, Fold(u));
    assert [Fold(u)][1..] == [] && Run(vis, [Fold(u)]) == FoldFlags(vis, u);
    hide FoldFlags, Coherent, SubgraphOnly, Rooted, Unfolded, FirstsKnown, WayFree, Search, Run;
    var h := Hiding(FoldFlags(vis, u), map[u := a, a := b, b := x], map[]);
    ChainCovers(u, a, b, x, h);
    forall f: nat ensures Search(h, x, f) == None { SearchDiverges(h, x, f); }
  }
}
