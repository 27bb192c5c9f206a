/** Folding and unfolding of nested subgraphs (folding.c, delete_sgnodes to unfold_sg). */
module Subgraphs {
  import opened GraphTypes
  import opened NodeVisibility

  /** NINVISIBLE of every node. */
  type Flagging = map<Node, int>

  ghost function VisibleNodes(vis: Flagging): set<Node>
  {
    set x | x in vis && vis[x] == 0
  }

  /** n lies in subgraph u or in one nested in it. */
  ghost predicate Below(n: Node, u: Node)
    decreases n.depth
  {
    n.root != null && n.root.depth < n.depth && (n.root == u || Below(n.root, u))
  }

  /** Every subgraph n lies in is unfolded. */
  ghost predicate Open(vis: Flagging, n: Node)
    decreases n.depth
  {
    n.root == null ||
    (n.root.depth < n.depth && n.root in vis && vis[n.root] == UNFOLDED_SGRAPH && Open(vis, n.root))
  }

  /** Every subgraph between n and the subgraph u around it is unfolded. */
  ghost predicate Shown(vis: Flagging, n: Node, u: Node)
    decreases n.depth
  {
    n.root != null && n.root.depth < n.depth &&
    (n.root == u || (n.root in vis && vis[n.root] == UNFOLDED_SGRAPH && Shown(vis, n.root, u)))
  }

  ghost function HideBelow(vis: Flagging, u: Node): Flagging
  {
    map n | n in vis :: if vis[n] == 0 && Below(n, u) then FOLDED_SGNODE else vis[n]
  }

  ghost function ShowBelow(vis: Flagging, u: Node): Flagging
  {
    map n | n in vis :: if vis[n] == FOLDED_SGNODE && Shown(vis, n, u) then 0 else vis[n]
  }

  ghost function FoldFlags(vis: Flagging, u: Node): Flagging
    requires u in vis
  {
    HideBelow(vis, u)[u := if vis[u] == UNFOLDED_SGRAPH then 0 else vis[u]]
  }

  ghost function UnfoldFlags(vis: Flagging, u: Node): Flagging
    requires u in vis
  {
    ShowBelow(vis, u)[u := if vis[u] == 0 then UNFOLDED_SGRAPH else vis[u]]
  }

  lemma {:induction false} BelowIsDeeper(vis: Flagging, n: Node, u: Node)
    ensures Below(n, u) ==> u.depth < n.depth
    ensures Shown(vis, n, u) ==> Below(n, u)
    decreases n.depth
  {
    if n.root != null && n.root.depth < n.depth { BelowIsDeeper(vis, n.root, u); }
  }

  // ---------- the methods of folding.c ----------

  /** n is one of the subgraphs cs or lies in one of them. */
  ghost predicate Within(n: Node, cs: seq<Node>)
  {
    exists c :: c in cs && (n == c || Below(n, c))
  }

  /** n is one of cs, or is shown when the unfolded ones among cs are. */
  ghost predicate ShownWithin(vis: Flagging, n: Node, cs: seq<Node>)
  {
    exists c :: c in cs && (n == c || (c in vis && vis[c] == UNFOLDED_SGRAPH && Shown(vis, n, c)))
  }

  ghost function HideWithin(vis: Flagging, cs: seq<Node>): Flagging
  {
    map n | n in vis :: if vis[n] == 0 && Within(n, cs) then FOLDED_SGNODE else vis[n]
  }

  ghost function ShowWithin(vis: Flagging, cs: seq<Node>): Flagging
  {
    map n | n in vis :: if vis[n] == FOLDED_SGNODE && ShownWithin(vis, n, cs) then 0 else vis[n]
  }

  lemma {:induction false} WithinMembers(g: Vcg, u: Node, n: Node)
    requires g.Forest() && u in g.nodes && n in g.nodes
    ensures Within(n, u.sgraph) <==> Below(n, u)
    ensures forall vis: Flagging | vis.Keys == g.nodes :: ShownWithin(vis, n, u.sgraph) <==> Shown(vis, n, u)
    decreases n.depth
  {
    if n.root == u {
      assert n in u.sgraph;
    } else if n.root != null {
      WithinMembers(g, u, n.root);
    }
  }

  lemma HideStep(vis: Flagging, cs: seq<Node>, c: Node)
    requires c in vis
    ensures var w := HideWithin(vis, cs);
            HideBelow(w[c := if w[c] == 0 then FOLDED_SGNODE else w[c]], c) == HideWithin(vis, cs + [c])
  {
    forall n | n in vis ensures Within(n, cs + [c]) <==> Within(n, cs) || n == c || Below(n, c) {
      if Within(n, cs) {
        var d :| d in cs && (n == d || Below(n, d));
        assert d in cs + [c];
      }
      assert c in cs + [c];
    }
  }

  /** Which graphs are unfolded decides what is shown. */
  lemma {:induction false} ShownSame(vis: Flagging, w: Flagging, n: Node, u: Node)
    requires vis.Keys == w.Keys
    requires forall x :: x in vis ==> (vis[x] == UNFOLDED_SGRAPH <==> w[x] == UNFOLDED_SGRAPH)
    ensures Shown(vis, n, u) <==> Shown(w, n, u)
    ensures Open(vis, n) <==> Open(w, n)
    decreases n.depth
  {
    if n.root != null && n.root.depth < n.depth { ShownSame(vis, w, n.root, u); }
  }

  lemma ShownWithinNext(vis: Flagging, n: Node, cs: seq<Node>, c: Node)
    requires c in vis
    ensures ShownWithin(vis, n, cs + [c]) <==>
            ShownWithin(vis, n, cs) || n == c || (vis[c] == UNFOLDED_SGRAPH && Shown(vis, n, c))
  {
    hide Shown;
    if ShownWithin(vis, n, cs) {
      var d :| d in cs && (n == d || (d in vis && vis[d] == UNFOLDED_SGRAPH && Shown(vis, n, d)));
      assert d in cs + [c];
    }
    assert c in cs + [c];
  }

  lemma ShowStep(vis: Flagging, cs: seq<Node>, c: Node)
    requires c in vis
    ensures var w := ShowWithin(vis, cs);
            var w1 := w[c := if w[c] == FOLDED_SGNODE then 0 else w[c]];
            (if w1[c] == UNFOLDED_SGRAPH then UnfoldFlags(w1, c) else w1) == ShowWithin(vis, cs + [c])
  {
    var w := ShowWithin(vis, cs);
    var w1 := w[c := if w[c] == FOLDED_SGNODE then 0 else w[c]];
    var r := if w1[c] == UNFOLDED_SGRAPH then UnfoldFlags(w1, c) else w1;
    forall n | n in vis ensures r[n] == ShowWithin(vis, cs + [c])[n] {
      ShowStepAt(vis, cs, c, n);
    }
  }

  lemma ShowStepAt(vis: Flagging, cs: seq<Node>, c: Node, n: Node)
    requires c in vis && n in vis
    ensures var w := ShowWithin(vis, cs);
            var w1 := w[c := if w[c] == FOLDED_SGNODE then 0 else w[c]];
            (if w1[c] == UNFOLDED_SGRAPH then UnfoldFlags(w1, c)[n] else w1[n]) == ShowWithin(vis, cs + [c])[n]
  {
    var w := ShowWithin(vis, cs);
    var w1 := w[c := if w[c] == FOLDED_SGNODE then 0 else w[c]];
    hide Shown, ShownWithin;
    ShownSame(vis, w1, n, c);
    ShownWithinNext(vis, n, cs, c);
    ShownWithinNext(vis, c, cs, c);
  }

  /** A node without NSGRAPH has nothing below it. */
  lemma {:induction false} LeafHidesNothing(g: Vcg, vis: Flagging, c: Node)
    requires g.Forest() && vis.Keys == g.nodes && c in g.nodes && c.sgraph == []
    ensures HideBelow(vis, c) == vis
  {
    forall n | n in vis ensures !Below(n, c) {
      WithinMembers(g, c, n);
    }
  }

  lemma HideEnds(g: Vcg, vis: Flagging, u: Node)
    requires g.Forest() && vis.Keys == g.nodes && u in g.nodes
    ensures HideWithin(vis, []) == vis
    ensures HideWithin(vis, u.sgraph) == HideBelow(vis, u)
    ensures HideBelow(vis, u)[u] == vis[u]
  {
    BelowIsDeeper(vis, u, u);
    forall n | n in vis ensures Within(n, u.sgraph) <==> Below(n, u) { WithinMembers(g, u, n); }
  }

  lemma ShowEnds(g: Vcg, vis: Flagging, u: Node)
    requires g.Forest() && vis.Keys == g.nodes && u in g.nodes
    ensures ShowWithin(vis, []) == vis
    ensures ShowWithin(vis, u.sgraph) == ShowBelow(vis, u)
    ensures ShowBelow(vis, u)[u] == vis[u]
  {
    BelowIsDeeper(vis, u, u);
    forall n | n in vis ensures ShownWithin(vis, n, u.sgraph) <==> Shown(vis, n, u) { WithinMembers(g, u, n); }
  }

  /** delete_sgnodes. */
  method DeleteSgNodes(g: Vcg, u: Node)
    requires g.ListsOk() && g.Forest() && u in g.nodes
    modifies g`nodeanz, g.nodelist, g.graphlist
    modifies g.nodes`next, g.nodes`before, g.nodes`inlist, g.nodes`invisible
    ensures g.ListsOk() && g.Flags() == HideBelow(old(g.Flags()), u)
    decreases g.maxdepth - u.depth
  {
    hide HideBelow, HideWithin, Vcg.ListsOk;
    ghost var vis := g.Flags();
    HideEnds(g, vis, u);
    for i := 0 to |u.sgraph|
      invariant g.ListsOk() && g.Flags() == HideWithin(vis, u.sgraph[..i])
    {
      var v := u.sgraph[i];
      ghost var cs := u.sgraph[..i];
      assert u.sgraph[..i + 1] == cs + [v];
      HideStep(vis, cs, v);
      g.DeleteNode(v, FOLDED_SGNODE);
      if v.sgraph != [] {
        DeleteSgNodes(g, v);
      } else {
        LeafHidesNothing(g, g.Flags(), v);
      }
    }
    assert u.sgraph[..|u.sgraph|] == u.sgraph;
  }

  /** fold_sg. */
  method FoldSg(g: Vcg, u: Node)
    requires g.ListsOk() && g.Forest() && u in g.nodes
    modifies g`nodeanz, g.nodelist, g.graphlist
    modifies g.nodes`next, g.nodes`before, g.nodes`inlist, g.nodes`invisible
    ensures g.ListsOk() && g.Flags() == FoldFlags(old(g.Flags()), u)
  {
    hide Vcg.ListsOk;
    BelowIsDeeper(g.Flags(), u, u);
    DeleteSgNodes(g, u);
    g.InsertNode(u, UNFOLDED_SGRAPH);
  }

  /** unfold_sg. */
  method UnfoldSg(g: Vcg, u: Node)
    requires g.ListsOk() && g.Forest() && u in g.nodes && u.sgraph != []
    modifies g`nodeanz, g.nodelist, g.graphlist
    modifies g.nodes`next, g.nodes`before, g.nodes`inlist, g.nodes`invisible
    ensures g.ListsOk() && g.Flags() == UnfoldFlags(old(g.Flags()), u)
    decreases g.maxdepth - u.depth
  {
    hide ShowBelow, ShowWithin, Vcg.ListsOk;
    ghost var vis := g.Flags();
    ShowEnds(g, vis, u);
    for i := 0 to |u.sgraph|
      invariant g.ListsOk() && g.Flags() == ShowWithin(vis, u.sgraph[..i])
    {
      var v := u.sgraph[i];
      ghost var cs := u.sgraph[..i];
      assert u.sgraph[..i + 1] == cs + [v];
      ShowStep(vis, cs, v);
      g.InsertNode(v, FOLDED_SGNODE);
      g.UnfoldedHasNodes(v);
      if v.sgraph != [] && v.invisible == UNFOLDED_SGRAPH {
        UnfoldSg(g, v);
      }
    }
    assert u.sgraph[..|u.sgraph|] == u.sgraph;
    g.DeleteNode(u, UNFOLDED_SGRAPH);
  }
}
