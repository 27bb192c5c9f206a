/** Runs that fold and unfold subgraphs and regions (folding.c, steps 2, 3, 4 and 7). */
module MixedRuns {
  import opened GraphTypes
  import opened NodeVisibility
  import opened Subgraphs
  import opened SubgraphRuns
  import opened FoldRegions

  /** fold_sg and unfold_sg, and what fold_region and unfold_region do to the reasons. */
  datatype Change = Graph(action: Action) | Hide(region: set<Node>) | Show(region: set<Node>)

  /** The graph is specified; fold_region hides visible nodes. */
  ghost predicate Can(vis: Flagging, c: Change)
  {
    match c
    case Graph(a) => a.graph in vis
    case Hide(region) => region <= VisibleNodes(vis)
    case Show(_) => true
  }

  ghost function Changed(vis: Flagging, c: Change): Flagging
    requires Can(vis, c)
  {
    match c
    case Graph(a) => Act(vis, a)
    case Hide(region) => HideRegion(vis, region)
    case Show(region) => ShowRegion(vis, region)
  }

  /** Some node between which and u no folded graph lies is hidden by subgraph folding. */
  ghost predicate HasHidden(vis: Flagging, u: Node)
  {
    exists n :: n in vis && vis[n] == FOLDED_SGNODE && Shown(vis, n, u)
  }

  /** What can be checked before the change. */
  ghost predicate Allowed(vis: Flagging, c: Change)
    requires Can(vis, c)
  {
    match c
    case Graph(Fold(u)) => vis[u] != UNFOLDED_SGRAPH || Open(vis, u)
    case Graph(Unfold(u)) => ((vis[u] == 0 || vis[u] == UNFOLDED_SGRAPH) && Open(vis, u)) || !HasHidden(vis, u)
    case Hide(_) => true
    case Show(region) => forall x :: x in region && x in vis && vis[x] == FOLDED_RGNODE ==> Open(vis, x)
  }

  /** fold_region keeps the node list coherent. */
  lemma HideKeepsCoherence(vis: Flagging, region: set<Node>)
    requires Coherent(vis) && region <= VisibleNodes(vis)
    ensures Coherent(HideRegion(vis, region))
  {
    forall n | n in vis ensures Open(vis, n) <==> Open(HideRegion(vis, region), n) {
      ShownSame(vis, HideRegion(vis, region), n, n);
    }
  }

  /** unfold_region keeps it exactly if no graph around a node that is shown is folded. */
  lemma ShowKeepsCoherence(vis: Flagging, region: set<Node>)
    requires Coherent(vis)
    ensures Coherent(ShowRegion(vis, region)) <==>
            forall x :: x in region && x in vis && vis[x] == FOLDED_RGNODE ==> Open(vis, x)
  {
    var w := ShowRegion(vis, region);
    forall n | n in vis ensures Open(vis, n) <==> Open(w, n) { ShownSame(vis, w, n, n); }
    forall x | x in region && x in vis && vis[x] == FOLDED_RGNODE ensures w[x] == 0 {}
  }

  /** unfold_sg keeps it exactly if no graph around is folded and nothing else hides the summary
      node, or if there is nothing to show. */
  lemma UnfoldKeepsCoherenceIff(vis: Flagging, u: Node)
    requires Rooted(vis) && Coherent(vis) && u in vis
    ensures Coherent(UnfoldFlags(vis, u)) <==>
            ((vis[u] == 0 || vis[u] == UNFOLDED_SGRAPH) && Open(vis, u)) || !HasHidden(vis, u)
  {
    var w := UnfoldFlags(vis, u);
    BelowIsDeeper(vis, u, u);
    forall n | n in vis
      ensures !Below(n, u) ==> (Open(w, n) <==> Open(vis, n))
      ensures Below(n, u) ==> (Open(w, n) <==> w[u] == UNFOLDED_SGRAPH && Open(vis, u) && Shown(vis, n, u))
      ensures Below(n, u) ==> (Open(vis, n) <==> vis[u] == UNFOLDED_SGRAPH && Open(vis, u) && Shown(vis, n, u))
      ensures Shown(vis, n, u) ==> Below(n, u)
    {
      OpenChanged(vis, w, n, u);
      BelowIsDeeper(vis, n, u);
    }
    hide Open, Shown, Below;
    if n :| n in vis && vis[n] == FOLDED_SGNODE && Shown(vis, n, u) { assert w[n] == 0; }
  }

  /** For each kind of change the condition is exact. */
  lemma AllowedIsExact(vis: Flagging, c: Change)
    requires Rooted(vis) && Coherent(vis) && Can(vis, c)
    ensures Coherent(Changed(vis, c)) <==> Allowed(vis, c)
  {
    match c
    case Graph(Fold(u)) => FoldKeepsCoherence(vis, u);
    case Graph(Unfold(u)) => UnfoldKeepsCoherenceIff(vis, u);
    case Hide(region) => HideKeepsCoherence(vis, region);
    case Show(region) => ShowKeepsCoherence(vis, region);
  }

  // ---------- runs ----------

  ghost predicate CanRun(vis: Flagging, cs: seq<Change>)
    decreases |cs|
  {
    cs == [] || (Can(vis, cs[0]) && CanRun(Changed(vis, cs[0]), cs[1..]))
  }

  ghost function AfterRun(vis: Flagging, cs: seq<Change>): Flagging
    requires CanRun(vis, cs)
    decreases |cs|
  {
    if cs == [] then vis else AfterRun(Changed(vis, cs[0]), cs[1..])
  }

  /** Every change of the run is allowed when its turn comes. */
  ghost predicate AllAllowed(vis: Flagging, cs: seq<Change>)
    requires CanRun(vis, cs)
    decreases |cs|
  {
    cs == [] || (Allowed(vis, cs[0]) && AllAllowed(Changed(vis, cs[0]), cs[1..]))
  }

  /** The node list is coherent all along the run. */
  ghost predicate CoherentThroughout(vis: Flagging, cs: seq<Change>)
    requires CanRun(vis, cs)
    decreases |cs|
  {
    Coherent(vis) && (cs == [] || CoherentThroughout(Changed(vis, cs[0]), cs[1..]))
  }

  lemma StaysRooted(vis: Flagging, c: Change)
    requires Rooted(vis) && Can(vis, c)
    ensures Rooted(Changed(vis, c)) && Changed(vis, c).Keys == vis.Keys
  {
  }

  /** In a run of foldings and unfoldings of subgraphs and regions the node list is coherent all
      along exactly if every change is allowed when its turn comes. */
  lemma {:induction false} CoherentIffAllowed(vis: Flagging, cs: seq<Change>)
    requires Rooted(vis) && Coherent(vis) && CanRun(vis, cs)
    ensures CoherentThroughout(vis, cs) <==> AllAllowed(vis, cs)
    decreases |cs|
  {
    hide Coherent, Allowed, Can, Changed, Rooted;
    if cs != [] {
      AllowedIsExact(vis, cs[0]);
      StaysRooted(vis, cs[0]);
      if Coherent(Changed(vis, cs[0])) { CoherentIffAllowed(Changed(vis, cs[0]), cs[1..]); }
    }
  }

  // ---------- a region across a folded graph ----------

  /** x lies in the unfolded graph u and is visible. */
  ghost function Inside(u: Node, x: Node): Flagging
  {
    map[u := UNFOLDED_SGRAPH, x := 0]
  }

  lemma InsideChanges(u: Node, x: Node)
    requires u.root == null && x.root == u && u.depth < x.depth
    ensures Rooted(Inside(u, x)) && Coherent(Inside(u, x)) && !Coherent(map[u := 0, x := 0])
    ensures Can(Inside(u, x), Hide({x}))
    ensures Changed(Inside(u, x), Hide({x})) == map[u := UNFOLDED_SGRAPH, x := FOLDED_RGNODE]
  {
    assert !Open(map[u := 0, x := 0], x);
  }

  lemma FoldedAcross(u: Node, x: Node)
    requires u.root == null && x.root == u && u.depth < x.depth
    ensures Changed(map[u := UNFOLDED_SGRAPH, x := FOLDED_RGNODE], Graph(Fold(u))) == map[u := 0, x := FOLDED_RGNODE]
    ensures Changed(map[u := 0, x := FOLDED_RGNODE], Show({x})) == map[u := 0, x := 0]
  {
    assert !Below(u, u);
  }

  lemma NothingChanges(vis: Flagging)
    ensures CanRun(vis, []) && AfterRun(vis, []) == vis
  {
  }

  /** The node x of the graph u is folded into a region, then u is folded, then the region is
      unfolded: x is visible although u is folded. */
  lemma ShownInFoldedGraph(u: Node, x: Node)
    requires u.root == null && x.root == u && u.depth < x.depth
    ensures var vis, cs := Inside(u, x), [Hide({x}), Graph(Fold(u)), Show({x})];
      && Rooted(vis) && Coherent(vis) && CanRun(vis, cs)
      && AfterRun(vis, cs) == map[u := 0, x := 0] && !Coherent(AfterRun(vis, cs))
  {
    hide Changed, Coherent, Rooted, CanRun, AfterRun, Inside;
    InsideChanges(u, x);
    FoldedAcross(u, x);
    var cs: seq<Change> := [Hide({x}), Graph(Fold(u)), Show({x})];
    var v1: Flagging := map[u := UNFOLDED_SGRAPH, x := FOLDED_RGNODE];
    var v2: Flagging := map[u := 0, x := FOLDED_RGNODE];
    NothingChanges(map[u := 0, x := 0]);
    OneChange(v2, cs[2], []);
    OneChange(v1, cs[1], [cs[2]] + []);
    OneChange(Inside(u, x), cs[0], [cs[1]] + ([cs[2]] + []));
    assert cs == [cs[0]] + ([cs[1]] + ([cs[2]] + []));
  }

  lemma OneChange(vis: Flagging, c: Change, cs: seq<Change>)
    requires Can(vis, c)
    ensures CanRun(vis, [c] + cs) <==> CanRun(Changed(vis, c), cs)
    ensures CanRun(vis, [c] + cs) ==> AfterRun(vis, [c] + cs) == AfterRun(Changed(vis, c), cs)
  {
    assert ([c] + cs)[1..] == cs;
  }
}
