/** What every run of subgraph folding and unfolding keeps, and that the two are inverse. */
module SubgraphRuns {
  import opened GraphTypes
  import opened NodeVisibility
  import opened Subgraphs

  /** The nodes are closed under NROOT. */
  ghost predicate Rooted(vis: Flagging)
  {
    forall n :: n in vis && n.root != null ==> n.root in vis && n.root.depth < n.depth
  }

  /** A node that subgraph folding controls is visible iff no subgraph around it is folded. */
  ghost predicate Coherent(vis: Flagging)
  {
    forall n :: n in vis && (vis[n] == 0 || vis[n] == FOLDED_SGNODE) ==> (vis[n] == 0 <==> Open(vis, n))
  }

  /** No region is folded and no edge class hidden. */
  ghost predicate SubgraphOnly(vis: Flagging)
  {
    forall n :: n in vis ==> vis[n] == 0 || vis[n] == UNFOLDED_SGRAPH || vis[n] == FOLDED_SGNODE
  }

  lemma {:induction false} OpenAbove(vis: Flagging, n: Node, u: Node)
    requires Rooted(vis) && n in vis && Below(n, u)
    ensures u in vis
    ensures Open(vis, n) <==> vis[u] == UNFOLDED_SGRAPH && Open(vis, u) && Shown(vis, n, u)
    decreases n.depth
  {
    if n.root != u { OpenAbove(vis, n.root, u); }
  }

  /** Changing u and hiding or showing nodes elsewhere keeps Open away from u. */
  lemma {:induction false} OpenElsewhere(vis: Flagging, w: Flagging, n: Node, u: Node)
    requires Rooted(vis) && w.Keys == vis.Keys && n in vis && !Below(n, u)
    requires forall x :: x in vis && x != u ==> (vis[x] == UNFOLDED_SGRAPH <==> w[x] == UNFOLDED_SGRAPH)
    ensures Open(vis, n) <==> Open(w, n)
    decreases n.depth
  {
    if n.root != null { OpenElsewhere(vis, w, n.root, u); }
  }

  /** Between u and n nothing but nodes other than u decides. */
  lemma {:induction false} ShownElsewhere(vis: Flagging, w: Flagging, n: Node, u: Node)
    requires w.Keys == vis.Keys
    requires forall x :: x in vis && x != u ==> (vis[x] == UNFOLDED_SGRAPH <==> w[x] == UNFOLDED_SGRAPH)
    ensures Shown(vis, n, u) <==> Shown(w, n, u)
    decreases n.depth
  {
    if n.root != null && n.root.depth < n.depth && n.root != u { ShownElsewhere(vis, w, n.root, u); }
  }

  /** How Open changes everywhere when only u changes its unfolded state. */
  lemma OpenChanged(vis: Flagging, w: Flagging, n: Node, u: Node)
    requires Rooted(vis) && w.Keys == vis.Keys && n in vis && u in vis
    requires forall x :: x in vis && x != u ==> (vis[x] == UNFOLDED_SGRAPH <==> w[x] == UNFOLDED_SGRAPH)
    ensures !Below(n, u) ==> (Open(w, n) <==> Open(vis, n))
    ensures Below(n, u) ==> (Open(w, n) <==> w[u] == UNFOLDED_SGRAPH && Open(vis, u) && Shown(vis, n, u))
    ensures Below(n, u) ==> (Open(vis, n) <==> vis[u] == UNFOLDED_SGRAPH && Open(vis, u) && Shown(vis, n, u))
  {
    assert Rooted(w);
    if Below(n, u) {
      OpenAbove(vis, n, u);
      OpenAbove(w, n, u);
      ShownElsewhere(vis, w, n, u);
      BelowIsDeeper(vis, u, u);
      OpenElsewhere(vis, w, u, u);
    } else {
      OpenElsewhere(vis, w, n, u);
    }
  }

  /** fold_sg keeps the node list coherent exactly when the graph is already folded or all
      graphs around it are unfolded. */
  lemma FoldKeepsCoherence(vis: Flagging, u: Node)
    requires Rooted(vis) && Coherent(vis) && u in vis
    ensures Coherent(FoldFlags(vis, u)) <==> vis[u] != UNFOLDED_SGRAPH || Open(vis, u)
  {
    var w := FoldFlags(vis, u);
    forall n | n in vis
      ensures !Below(n, u) ==> (Open(w, n) <==> Open(vis, n))
      ensures Below(n, u) ==> (Open(w, n) <==> w[u] == UNFOLDED_SGRAPH && Open(vis, u) && Shown(vis, n, u))
      ensures Below(n, u) ==> (Open(vis, n) <==> vis[u] == UNFOLDED_SGRAPH && Open(vis, u) && Shown(vis, n, u))
    {
      OpenChanged(vis, w, n, u);
    }
    BelowIsDeeper(vis, u, u);
  }

  /** In a coherent state unfold_sg may be applied to any graph around which all graphs are
      unfolded, unless a region or an edge class hides its summary node. */
  lemma UnfoldKeepsCoherence(vis: Flagging, u: Node)
    requires Rooted(vis) && Coherent(vis) && u in vis
    requires Open(vis, u) && (vis[u] == 0 || vis[u] == UNFOLDED_SGRAPH)
    ensures Coherent(UnfoldFlags(vis, u))
  {
    var w := UnfoldFlags(vis, u);
    forall n | n in vis
      ensures !Below(n, u) ==> (Open(w, n) <==> Open(vis, n))
      ensures Below(n, u) ==> (Open(w, n) <==> Shown(vis, n, u))
      ensures Below(n, u) ==> (Open(vis, n) <==> vis[u] == UNFOLDED_SGRAPH && Shown(vis, n, u))
      ensures Shown(vis, n, u) ==> Below(n, u)
    {
      OpenChanged(vis, w, n, u);
      BelowIsDeeper(vis, n, u);
    }
    BelowIsDeeper(vis, u, u);
  }

  lemma {:induction false} ShownThrough(vis: Flagging, n: Node, c: Node, u: Node)
    requires Shown(vis, n, c) && c.root == u && c.root.depth < c.depth && c in vis && vis[c] == UNFOLDED_SGRAPH
    ensures Shown(vis, n, u)
    decreases n.depth
  {
    if n.root != c { ShownThrough(vis, n.root, c, u); }
  }

  /** Unfolding a graph shows some node, because graphs are not empty. */
  lemma {:induction false} SomeShown(g: Vcg, vis: Flagging, u: Node) returns (n: Node)
    requires g.Forest() && vis.Keys == g.nodes && u in g.nodes && u.sgraph != []
    requires forall x :: x in vis && vis[x] == UNFOLDED_SGRAPH ==> x.sgraph != []
    ensures n in vis && Shown(vis, n, u) && vis[n] != UNFOLDED_SGRAPH
    decreases g.maxdepth - u.depth
  {
    n := u.sgraph[0];
    if vis[n] == UNFOLDED_SGRAPH {
      var c := n;
      n := SomeShown(g, vis, c);
      ShownThrough(vis, n, c, u);
    }
  }

  /** As long as only subgraphs are folded, the condition is exact: unfolding a graph inside
      a folded one shows nodes that must stay hidden. */
  lemma UnfoldCoherenceExact(g: Vcg, vis: Flagging, u: Node)
    requires g.Forest() && vis.Keys == g.nodes && u in g.nodes && u.sgraph != []
    requires forall x :: x in vis && vis[x] == UNFOLDED_SGRAPH ==> x.sgraph != []
    requires Coherent(vis) && SubgraphOnly(vis)
    ensures Coherent(UnfoldFlags(vis, u)) <==> Open(vis, u)
  {
    if Open(vis, u) {
      UnfoldKeepsCoherence(vis, u);
    } else {
      var n := SomeShown(g, vis, u);
      BelowIsDeeper(vis, n, u);
      OpenChanged(vis, vis, n, u);
      OpenChanged(vis, UnfoldFlags(vis, u), n, u);
      assert vis[n] == FOLDED_SGNODE && UnfoldFlags(vis, u)[n] == 0;
    }
  }

  // ---------- runs ----------

  datatype Action = Fold(graph: Node) | Unfold(graph: Node)

  ghost function Act(vis: Flagging, a: Action): Flagging
    requires a.graph in vis
  {
    match a
    case Fold(u) => FoldFlags(vis, u)
    case Unfold(u) => UnfoldFlags(vis, u)
  }

  ghost function Run(vis: Flagging, actions: seq<Action>): (r: Flagging)
    requires forall a :: a in actions ==> a.graph in vis
    ensures r.Keys == vis.Keys
  {
    if actions == [] then vis else Run(Act(vis, actions[0]), actions[1..])
  }

  /** Every action of the run meets the condition of its kind when its turn comes. */
  ghost predicate Admissible(vis: Flagging, actions: seq<Action>)
    requires forall a :: a in actions ==> a.graph in vis
    decreases |actions|
  {
    actions == [] ||
    (var u := actions[0].graph;
     && (actions[0].Fold? ==> vis[u] != UNFOLDED_SGRAPH || Open(vis, u))
     && (actions[0].Unfold? ==> Open(vis, u))
     && Admissible(Act(vis, actions[0]), actions[1..]))
  }

  lemma ActKeepsSubgraphOnly(vis: Flagging, a: Action)
    requires Rooted(vis) && SubgraphOnly(vis) && a.graph in vis
    ensures Rooted(Act(vis, a)) && SubgraphOnly(Act(vis, a))
  {
  }

  /** After any admissible run a node is on the node list iff it is a plain node or a folded
      graph and no graph around it is folded. */
  lemma {:induction false} RunKeepsCoherence(vis: Flagging, actions: seq<Action>)
    requires Rooted(vis) && Coherent(vis) && SubgraphOnly(vis)
    requires forall a :: a in actions ==> a.graph in vis
    requires Admissible(vis, actions)
    ensures var w := Run(vis, actions);
            && Coherent(w) && SubgraphOnly(w)
            && forall n :: n in w ==> (w[n] == 0 <==> w[n] != UNFOLDED_SGRAPH && Open(w, n))
    decreases |actions|
  {
    if actions != [] {
      var a := actions[0];
      if a.Fold? { FoldKeepsCoherence(vis, a.graph); } else { UnfoldKeepsCoherence(vis, a.graph); }
      ActKeepsSubgraphOnly(vis, a);
      RunKeepsCoherence(Act(vis, a), actions[1..]);
    }
  }

  /** The specified state: all graphs unfolded, all other nodes visible. */
  lemma {:induction false} InitialOpen(vis: Flagging, n: Node)
    requires Rooted(vis) && n in vis
    requires forall x :: x in vis && x.root != null ==> vis[x.root] == UNFOLDED_SGRAPH
    ensures Open(vis, n)
    decreases n.depth
  {
    if n.root != null { InitialOpen(vis, n.root); }
  }

  lemma InitialCoherent(vis: Flagging)
    requires Rooted(vis)
    requires forall x :: x in vis ==> vis[x] == 0 || vis[x] == UNFOLDED_SGRAPH
    requires forall x :: x in vis && x.root != null ==> vis[x.root] == UNFOLDED_SGRAPH
    ensures Coherent(vis) && SubgraphOnly(vis)
  {
    forall n | n in vis ensures Open(vis, n) { InitialOpen(vis, n); }
  }

  /** unfold_sg undoes fold_sg, whatever is folded inside the graph, and whatever regions
      and edge classes hide. */
  lemma FoldUnfold(vis: Flagging, u: Node)
    requires Rooted(vis) && Coherent(vis) && u in vis
    requires vis[u] == UNFOLDED_SGRAPH && Open(vis, u)
    ensures UnfoldFlags(FoldFlags(vis, u), u) == vis
  {
    hide *;
    SameNodes(vis, u);
    forall n | n in vis ensures UnfoldFlags(FoldFlags(vis, u), u)[n] == vis[n] {
      FoldUnfoldAt(vis, u, n);
    }
  }

  lemma SameNodes(vis: Flagging, u: Node)
    requires u in vis
    ensures FoldFlags(vis, u).Keys == vis.Keys == UnfoldFlags(FoldFlags(vis, u), u).Keys
  {
    hide Shown, Below, Open;
  }

  lemma FoldUnfoldAt(vis: Flagging, u: Node, n: Node)
    requires Rooted(vis) && Coherent(vis) && u in vis && n in vis
    requires vis[u] == UNFOLDED_SGRAPH && Open(vis, u)
    ensures UnfoldFlags(FoldFlags(vis, u), u)[n] == vis[n]
  {
    ShownElsewhere(vis, FoldFlags(vis, u), n, u);
    BelowIsDeeper(vis, n, u);
    BelowIsDeeper(vis, u, u);
    if Below(n, u) { OpenAbove(vis, n, u); }
    hide Shown, Below, Open, Rooted;
  }

  /** Steps 2 and 3 of the driver `folding`: the requested foldings, then the unfoldings. */
  method FoldAndUnfold(g: Vcg, fSubgraphs: seq<Node>, ufSubgraphs: seq<Node>)
    requires g.ListsOk() && g.Forest()
    requires forall u :: u in fSubgraphs ==> u in g.nodes
    requires forall u :: u in ufSubgraphs ==> u in g.nodes && u.sgraph != []
    modifies g`nodeanz, g.nodelist, g.graphlist
    modifies g.nodes`next, g.nodes`before, g.nodes`inlist, g.nodes`invisible
    ensures g.ListsOk()
    ensures g.Flags() == Run(old(g.Flags()), Folds(fSubgraphs) + Unfolds(ufSubgraphs))
  {
    hide Vcg.ListsOk, FoldFlags, UnfoldFlags, Run;
    ghost var vis := g.Flags();
    FoldAll(g, fSubgraphs, vis);
    UnfoldAll(g, ufSubgraphs, vis, Folds(fSubgraphs));
  }

  method FoldAll(g: Vcg, fSubgraphs: seq<Node>, ghost vis: Flagging)
    requires g.ListsOk() && g.Forest() && vis == g.Flags()
    requires forall u :: u in fSubgraphs ==> u in g.nodes
    modifies g`nodeanz, g.nodelist, g.graphlist
    modifies g.nodes`next, g.nodes`before, g.nodes`inlist, g.nodes`invisible
    ensures g.ListsOk() && g.Flags() == Run(vis, Folds(fSubgraphs))
  {
    hide Vcg.ListsOk, FoldFlags, UnfoldFlags, Run;
    RunNothing(vis, []);
    for i := 0 to |fSubgraphs|
      invariant g.ListsOk() && g.Flags() == Run(vis, Folds(fSubgraphs[..i]))
    {
      FoldSg(g, fSubgraphs[i]);
      OneMoreFold(vis, fSubgraphs, i);
    }
    assert fSubgraphs[..|fSubgraphs|] == fSubgraphs;
  }

  method UnfoldAll(g: Vcg, ufSubgraphs: seq<Node>, ghost vis: Flagging, ghost folds: seq<Action>)
    requires g.ListsOk() && g.Forest() && vis.Keys == g.nodes
    requires forall a :: a in folds ==> a.graph in vis
    requires forall u :: u in ufSubgraphs ==> u in g.nodes && u.sgraph != []
    requires g.Flags() == Run(vis, folds)
    modifies g`nodeanz, g.nodelist, g.graphlist
    modifies g.nodes`next, g.nodes`before, g.nodes`inlist, g.nodes`invisible
    ensures g.ListsOk() && g.Flags() == Run(vis, folds + Unfolds(ufSubgraphs))
  {
    hide Vcg.ListsOk, FoldFlags, UnfoldFlags, Run;
    RunNothing(vis, folds);
    for i := 0 to |ufSubgraphs|
      invariant g.ListsOk() && g.Flags() == Run(vis, folds + Unfolds(ufSubgraphs[..i]))
    {
      UnfoldSg(g, ufSubgraphs[i]);
      OneMoreUnfold(vis, folds, ufSubgraphs, i);
    }
    assert ufSubgraphs[..|ufSubgraphs|] == ufSubgraphs;
  }

  ghost function Folds(us: seq<Node>): (r: seq<Action>)
    ensures |r| == |us| && forall i :: 0 <= i < |us| ==> r[i] == Fold(us[i])
  {
    seq(|us|, i requires 0 <= i < |us| => Fold(us[i]))
  }

  ghost function Unfolds(us: seq<Node>): (r: seq<Action>)
    ensures |r| == |us| && forall i :: 0 <= i < |us| ==> r[i] == Unfold(us[i])
  {
    seq(|us|, i requires 0 <= i < |us| => Unfold(us[i]))
  }

  lemma RunNothing(vis: Flagging, folds: seq<Action>)
    ensures Run(vis, Folds([])) == vis && folds + Unfolds([]) == folds
  {
  }

  lemma OneMoreFold(vis: Flagging, us: seq<Node>, i: nat)
    requires i < |us| && forall u :: u in us ==> u in vis
    ensures Run(vis, Folds(us[..i + 1])) == Act(Run(vis, Folds(us[..i])), Fold(us[i]))
  {
    hide Run, Act;
    RunOneMore(vis, Folds(us[..i]), Fold(us[i]));
    assert Folds(us[..i + 1]) == Folds(us[..i]) + [Fold(us[i])];
  }

  lemma OneMoreUnfold(vis: Flagging, folds: seq<Action>, us: seq<Node>, i: nat)
    requires i < |us| && (forall u :: u in us ==> u in vis) && forall a :: a in folds ==> a.graph in vis
    ensures Run(vis, folds + Unfolds(us[..i + 1])) == Act(Run(vis, folds + Unfolds(us[..i])), Unfold(us[i]))
  {
    hide Run, Act;
    RunOneMore(vis, folds + Unfolds(us[..i]), Unfold(us[i]));
    assert folds + Unfolds(us[..i + 1]) == folds + Unfolds(us[..i]) + [Unfold(us[i])];
  }

  lemma {:induction false} RunOneMore(vis: Flagging, actions: seq<Action>, a: Action)
    requires a.graph in vis && forall b :: b in actions ==> b.graph in vis
    ensures Run(vis, actions + [a]) == Act(Run(vis, actions), a)
    decreases |actions|
  {
    if actions == [] {
      assert [a][1..] == [];
      assert Run(vis, [a]) == Run(Act(vis, a), []);
      assert actions + [a] == [a];
    } else {
      assert (actions + [a])[1..] == actions[1..] + [a];
      RunOneMore(Act(vis, actions[0]), actions[1..], a);
    }
  }
}
