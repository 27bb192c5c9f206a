/** The recursion of fold_region and recursive_fold (folding.c): a depth-first search that
    changes the adjacency lists it runs over. */
module RegionSearch {
  import opened Chains
  import opened GraphTypes
  import opened NodeVisibility
  import opened Adjacency
  import opened RegionCore
  import opened Regions

  /** Every node that has come to the region has been searched completely. */
  ghost predicate Grown(c: Start, r0: set<Node>, r1: set<Node>)
  {
    r0 <= r1 && forall u :: u in r1 - r0 ==> c.Closed(r1, u) && c.Reachable(u)
  }

  lemma GrownTrans(c: Start, r0: set<Node>, r1: set<Node>, r2: set<Node>)
    requires Grown(c, r0, r1) && Grown(c, r1, r2)
    ensures Grown(c, r0, r2)
  {
    hide Start.Reachable, Start.Followed;
    forall u | u in r2 - r0 ensures c.Closed(r2, u) && c.Reachable(u) {
      if u in r1 { assert c.Closed(r1, u); }
    }
  }

  lemma GrownBy(c: Start, r0: set<Node>, v: Node, r2: set<Node>)
    requires Grown(c, r0 + {v}, r2) && c.Closed(r2, v) && c.Reachable(v)
    ensures Grown(c, r0, r2) && v in r2
  {
  }

  /** An edge of the start situation from a node whose lists are still in force is listed,
      or it ends in the region or at n. */
  lemma UnlistedIsInner(c: Start, region: set<Node>, stack: set<Node>, listed: set<Edge>, ts: seq<Edge>, e: Edge)
    requires Core(c, region, stack, {}, listed, ts) && (e.start in stack || e.start == c.n)
    requires e in c.edges0 && e !in listed
    ensures Inner(c, region, e.end)
  {
  }

  /** A new edge from a node of the region ends at n. */
  lemma NewEndsAtRoot(c: Start, region: set<Node>, stack: set<Node>, listed: set<Edge>, ts: seq<Edge>, e: Edge)
    requires Core(c, region, stack, {}, listed, ts) && e.start in stack
    requires e in listed && e !in c.edges0
    ensures e.end == c.n && e in ts
  {
  }

  /** v is a node whose successors the search may be looking at. */
  ghost predicate Searching(g: Vcg, c: Start, stack: set<Node>, v: Node)
    reads g`listed, c.n`region
  {
    && (v in stack || (v == c.n && g.listed == c.edges0 && c.n.region == []))
    && c.Reachable(v) && v in c.act
  }

  /** What is known of the successor list l0 of v when the search of v begins. */
  ghost predicate ListKnown(c: Start, stack: set<Node>, v: Node, l0: Chain<Edge>, listed0: set<Edge>, ts: seq<Edge>)
  {
    && l0.Valid() && v in c.act && (v in stack || v == c.n) && c.Reachable(v)
    && (forall e :: e in l0.at ==> e in listed0 && e.start == v)
    && (forall e :: e in listed0 && e.start == v ==> e in l0.at)
    && (forall e :: e in l0.at ==> e.end in c.act && (e in c.edges0 || (e.end == c.n && e in ts)))
  }

  lemma SearchStarts(g: Vcg, c: Start, stack: set<Node>, v: Node)
    requires Folding(g, c, stack, {}, c.n) && Searching(g, c, stack, v)
    ensures ListKnown(c, stack, v, v.succ, g.listed, g.tmpedgelist)
    ensures forall e :: e in c.edges0 && e.start == v && e !in v.succ.at ==> Inner(c, Elems(c.n.region), e.end)
  {
    hide Start.Reachable, Settled, Justified, Chain.Valid, NodesAgree, MarksAgree;
    var region, listed, ts := Elems(c.n.region), g.listed, g.tmpedgelist;
    ListsAreValid(g);
    forall e | e in v.succ.at ensures e.end in c.act && (e in c.edges0 || (e.end == c.n && e in ts)) {
      assert e in listed && e.start == v;
      if e !in c.edges0 { NewEndsAtRoot(c, region, stack, listed, ts, e); }
    }
    forall e | e in c.edges0 && e.start == v && e !in v.succ.at ensures Inner(c, region, e.end) {
      UnlistedIsInner(c, region, stack, listed, ts, e);
    }
  }

  /** The loop of the search of v stands on cell a of its list l0: the edges passed lead
      into the region if they are to be followed. */
  ghost predicate Passed(c: Start, region: set<Node>, l0: Chain<Edge>, a: int)
  {
    && a >= -1 && (a >= 0 ==> l0.Live(a))
    && forall e :: e in l0.at && l0.at[e] > a && c.Followed(e) ==> Inner(c, region, e.end)
  }

  lemma PassedNone(c: Start, region: set<Node>, l0: Chain<Edge>)
    requires l0.Valid()
    ensures Passed(c, region, l0, l0.head)
  {
  }

  /** The cursor moves on in the list l1 that l0 has become. */
  lemma PassedOne(g: Vcg, c: Start, stack: set<Node>, v: Node, region0: set<Node>, l0: Chain<Edge>,
                  listed0: set<Edge>, ts: seq<Edge>, a: int)
    requires Folding(g, c, stack, {}, c.n) && ListKnown(c, stack, v, l0, listed0, ts)
    requires region0 <= Elems(c.n.region) && Passed(c, region0, l0, a) && a >= 0
    requires v.succ.Valid() && Evolves(l0, v.succ)
    requires c.Followed(l0.cells[a].kante) ==> Inner(c, Elems(c.n.region), l0.cells[a].kante.end)
    ensures a < |v.succ.cells| && v.succ.cells[a].next < a
    ensures Passed(c, Elems(c.n.region), l0, v.succ.cells[a].next)
  {
    hide Vcg.ListsOk, NodesAgree, MarksAgree, Start.Reachable, Start.Followed, Evolves, Core, Distinct;
    var region := Elems(c.n.region);
    ListsAreValid(g);
    CoreKnows(c, region, stack, {}, g.listed, g.tmpedgelist);
    CursorAdvances(l0, v.succ, a);
    var n := v.succ.cells[a].next;
    forall f | f in l0.at && l0.at[f] > n && c.Followed(f) ensures Inner(c, region, f.end) {
      if l0.at[f] > a {
      } else if l0.at[f] == a {
        assert l0.cells[a].kante == f;
      } else if f in c.edges0 {
        assert f !in v.succ.at;
        assert f !in g.listed;
        UnlistedIsInner(c, region, stack, g.listed, g.tmpedgelist, f);
      }
    }
  }

  lemma PassedAll(c: Start, region0: set<Node>, region: set<Node>, v: Node, l0: Chain<Edge>)
    requires Passed(c, region, l0, -1) && region0 <= region
    requires forall e :: e in c.edges0 && e.start == v && e !in l0.at ==> Inner(c, region0, e.end)
    ensures c.Closed(region, v)
  {
  }

  /** The assignment EINVISIBLE(e) = 1 before the search goes on at the end of e. */
  method Mark(g: Vcg, ghost c: Start, ghost stack: set<Node>, e: Edge)
    requires Folding(g, c, stack, {}, c.n) && Inner(c, Elems(c.n.region), e.start)
    modifies e`invisible
    ensures Folding(g, c, stack, {}, e.end)
    ensures MomentOk(c, Now(g, c)) && Progress(c, old(Now(g, c)), Now(g, c))
  {
    hide Vcg.ListsOk, NodesAgree, AdjOk, Core, Progress, Now, MomentOk;
    NowOk(g, c);
    e.invisible := true;
    NowOk(g, c);
  }

  /** recursive_fold returns at once when v is hidden already, or is n. */
  lemma NothingToHide(g: Vcg, c: Start, stack: set<Node>, v: Node)
    requires Folding(g, c, stack, {}, v) && v in c.act
    ensures !v.inlist || v.regroot == c.n || v == c.n <==> Inner(c, Elems(c.n.region), v)
    ensures Inner(c, Elems(c.n.region), v) ==> Folding(g, c, stack, {}, c.n)
  {
    hide Vcg.ListsOk, AdjOk, Core;
  }

  lemma RegionBounds(g: Vcg, c: Start, stack: set<Node>, work: set<Node>, entering: Node)
    requires Folding(g, c, stack, work, entering)
    ensures c.n !in Elems(c.n.region) && stack <= Elems(c.n.region) <= c.act && c.n in c.act
    ensures g.active == c.act && c.act <= g.nodes && g.foldstops == c.stops
  {
    hide Vcg.ListsOk, AdjOk, Start.Ok;
    CoreKnows(c, Elems(c.n.region), stack, work, g.listed, g.tmpedgelist);
  }

  lemma ProgressEnter(c: Start, m: Moment, m': Moment)
    requires MomentOk(c, m) && m'.listed == m.listed && m'.succs == m.succs && m.region <= m'.region
    ensures Progress(c, m, m')
  {
    forall x | x in c.act ensures Evolves(m.succs[x], m'.succs[x]) { EvolvesSelf(m.succs[x]); }
  }

  lemma EntersElems(c: Start, region: set<Node>, v: Node, ns: seq<Node>, os: seq<Node>)
    requires region == Elems(os) && ns == [v] + os && v in c.act - region
    ensures Elems(ns) == region + {v} && |c.act - Elems(ns)| < |c.act - region|
  {
    assert Elems(ns) == region + {v};
    assert c.act - region == c.act - Elems(ns) + {v};
  }

  /** The hiding of v in recursive_fold. */
  method Enter(g: Vcg, ghost c: Start, v: Node, n: Node, ghost stack: set<Node>)
    requires n == c.n && Folding(g, c, stack, {}, v) && v in c.act && c.Reachable(v)
    requires !Inner(c, Elems(n.region), v)
    modifies g`nodeanz, g.nodelist, g.graphlist, n`region
    modifies g.nodes`next, g.nodes`before, v`inlist, v`invisible, v`regroot
    ensures Folding(g, c, stack + {v}, {}, n) && Elems(n.region) == old(Elems(n.region)) + {v}
    ensures Searching(g, c, stack + {v}, v) && stack + {v} - {v} == stack
    ensures Progress(c, old(Now(g, c)), Now(g, c))
    ensures |c.act - Elems(n.region)| < |c.act - old(Elems(n.region))|
  {
    hide *;
    ghost var m, region, os := Now(g, c), Elems(n.region), n.region;
    NowIs(g, c);
    FoldingNow(g, c, stack, {}, v);
    NewOnStack(g, c, stack, v);
    EnterNow(g, c, v, n, stack);
    EntersElems(c, region, v, n.region, os);
    EntersMoment(c, m, Now(g, c), v);
    SearchingNow(g, c, stack, v);
  }

  /** Only the region changes of what the search looks at. */
  method EnterNow(g: Vcg, ghost c: Start, v: Node, n: Node, ghost stack: set<Node>)
    requires n == c.n && Folding(g, c, stack, {}, v) && v in c.act && !Inner(c, Elems(n.region), v)
    modifies g`nodeanz, g.nodelist, g.graphlist, n`region
    modifies g.nodes`next, g.nodes`before, v`inlist, v`invisible, v`regroot
    ensures Folding(g, c, stack + {v}, {}, n) && n.region == [v] + old(n.region)
    ensures Now(g, c) == old(Now(g, c)).(region := Elems(n.region))
  {
    hide *;
    NowIs(g, c);
    EnterRegion(g, c, n, v, stack);
    NowIs(g, c);
  }

  lemma NowIs(g: Vcg, c: Start)
    ensures Now(g, c) == Moment(g.listed, Elems(c.n.region), Succs(c.act))
  {
  }

  lemma NewOnStack(g: Vcg, c: Start, stack: set<Node>, v: Node)
    requires Folding(g, c, stack, {}, v) && !Inner(c, Elems(c.n.region), v)
    ensures v !in Elems(c.n.region) && stack + {v} - {v} == stack
  {
    RegionBounds(g, c, stack, {}, v);
    hide Folding;
  }

  lemma EntersMoment(c: Start, m: Moment, m': Moment, v: Node)
    requires MomentOk(c, m) && m' == m.(region := m.region + {v})
    ensures Progress(c, m, m')
  {
    hide MomentOk;
    ProgressEnter(c, m, m');
  }

  lemma SearchingNow(g: Vcg, c: Start, stack: set<Node>, v: Node)
    requires v in c.act && c.Reachable(v)
    ensures Searching(g, c, stack + {v}, v)
  {
  }

  /** recursive_fold. */
  method RecursiveFold(g: Vcg, ghost c: Start, v: Node, n: Node, k: int, ghost stack: set<Node>)
    requires n == c.n && k == c.k && Folding(g, c, stack, {}, v) && v in c.act && c.Reachable(v)
    modifies g`nodeanz, g`tmpedgelist, g`listed, g.nodelist, g.graphlist, n`region
    modifies g.nodes`next, g.nodes`before, c.act`inlist, c.act`invisible, c.act`regroot
    modifies g.active`succ, g.active`pred, c.edges0`invisible, Elems(g.tmpedgelist)`invisible
    ensures Folding(g, c, stack, {}, n) && Grown(c, old(Elems(n.region)), Elems(n.region))
    ensures Inner(c, Elems(n.region), v) && Progress(c, old(Now(g, c)), Now(g, c))
    ensures forall t :: t in g.tmpedgelist ==> t in old(g.tmpedgelist) || fresh(t)
    decreases |c.act - Elems(n.region)|, 1
  {
    hide Folding, Progress, Core, Inner, Now, MomentOk, Start.Reachable, Start.Closed;
    NothingToHide(g, c, stack, v);
    if !v.inlist { StaysFolding(g, c, stack); return; }
    if v.regroot == n { StaysFolding(g, c, stack); return; }
    if v == n { StaysFolding(g, c, stack); return; }
    HideNode(g, c, v, n, k, stack);
  }

  lemma StaysFolding(g: Vcg, c: Start, stack: set<Node>)
    requires Folding(g, c, stack, {}, c.n)
    ensures Progress(c, Now(g, c), Now(g, c)) && Grown(c, Elems(c.n.region), Elems(c.n.region))
  {
    FoldingNow(g, c, stack, {}, c.n);
  }

  /** recursive_fold of a node that was visible. */
  method HideNode(g: Vcg, ghost c: Start, v: Node, n: Node, k: int, ghost stack: set<Node>)
    requires n == c.n && k == c.k && Folding(g, c, stack, {}, v) && v in c.act && c.Reachable(v)
    requires !Inner(c, Elems(n.region), v)
    modifies g`nodeanz, g`tmpedgelist, g`listed, g.nodelist, g.graphlist, n`region
    modifies g.nodes`next, g.nodes`before, c.act`inlist, c.act`invisible, c.act`regroot
    modifies g.active`succ, g.active`pred, c.edges0`invisible, Elems(g.tmpedgelist)`invisible
    ensures Folding(g, c, stack, {}, n) && Grown(c, old(Elems(n.region)), Elems(n.region))
    ensures Inner(c, Elems(n.region), v) && Progress(c, old(Now(g, c)), Now(g, c))
    ensures forall t :: t in g.tmpedgelist ==> t in old(g.tmpedgelist) || fresh(t)
    decreases |c.act - Elems(n.region)|, 0
  {
    hide *;
    ghost var m0, region := Now(g, c), Elems(n.region);
    FoldingNow(g, c, stack, {}, v);
    Enter(g, c, v, n, stack);
    FoldingNow(g, c, stack + {v}, {}, n);
    ghost var m1 := Now(g, c);
    SearchNode(g, c, v, n, k, stack + {v});
    HideNodeEnds(g, c, v, stack, region, m0, m1);
  }

  lemma HideNodeEnds(g: Vcg, c: Start, v: Node, stack: set<Node>, region: set<Node>, m0: Moment, m1: Moment)
    requires Folding(g, c, stack, {}, c.n) && MomentOk(c, m0) && MomentOk(c, m1)
    requires Progress(c, m0, m1) && Progress(c, m1, Now(g, c))
    requires Grown(c, region + {v}, Elems(c.n.region)) && c.Closed(Elems(c.n.region), v) && c.Reachable(v)
    ensures Progress(c, m0, Now(g, c)) && Grown(c, region, Elems(c.n.region)) && Inner(c, Elems(c.n.region), v)
  {
    FoldingNow(g, c, stack, {}, c.n);
    ProgressTrans(c, m0, m1, Now(g, c));
    GrownBy(c, region, v, Elems(c.n.region));
  }

  /** recursive_fold of v when v is hidden: the search and the substitution of its edges. */
  method SearchNode(g: Vcg, ghost c: Start, v: Node, n: Node, k: int, ghost stack: set<Node>)
    requires n == c.n && k == c.k && Folding(g, c, stack, {}, n) && v in stack && Searching(g, c, stack, v)
    modifies g`nodeanz, g`tmpedgelist, g`listed, g.nodelist, g.graphlist, n`region
    modifies g.nodes`next, g.nodes`before, c.act`inlist, c.act`invisible, c.act`regroot
    modifies g.active`succ, g.active`pred, c.edges0`invisible, Elems(g.tmpedgelist)`invisible
    ensures Folding(g, c, stack - {v}, {}, n) && Grown(c, old(Elems(n.region)), Elems(n.region))
    ensures c.Closed(Elems(n.region), v) && Progress(c, old(Now(g, c)), Now(g, c))
    ensures forall t :: t in g.tmpedgelist ==> t in old(g.tmpedgelist) || fresh(t)
    decreases |c.act - Elems(n.region)|, 6
  {
    hide Folding, Progress, Core, Now, MomentOk, Start.Reachable, Start.Closed, Grown, Inner, Searching, Succs;
    FoldingNow(g, c, stack, {}, n);
    ghost var m1 := Now(g, c);
    FoldSuccessors(g, c, v, n, k, stack);
    FoldingNow(g, c, stack, {}, n);
    ghost var m2 := Now(g, c);
    FinishNode(g, c, n, stack, v);
    FoldingNow(g, c, stack - {v}, {}, n);
    ProgressTrans(c, m1, m2, Now(g, c));
  }

  /** The search goes on at the end of e. */
  method FollowInto(g: Vcg, ghost c: Start, e: Edge, n: Node, k: int, ghost stack: set<Node>)
    requires n == c.n && k == c.k && Folding(g, c, stack, {}, n) && e.end in c.act && c.Reachable(e.end)
    requires Inner(c, Elems(n.region), e.start)
    modifies g`nodeanz, g`tmpedgelist, g`listed, g.nodelist, g.graphlist, n`region
    modifies g.nodes`next, g.nodes`before, c.act`inlist, c.act`invisible, c.act`regroot
    modifies g.active`succ, g.active`pred, c.edges0`invisible, Elems(g.tmpedgelist)`invisible, e`invisible
    ensures Folding(g, c, stack, {}, n) && Grown(c, old(Elems(n.region)), Elems(n.region))
    ensures Inner(c, Elems(n.region), e.end) && Progress(c, old(Now(g, c)), Now(g, c))
    ensures forall t :: t in g.tmpedgelist ==> t in old(g.tmpedgelist) || fresh(t)
    decreases |c.act - Elems(n.region)|, 2
  {
    hide *;
    ghost var m := Now(g, c);
    FoldingNow(g, c, stack, {}, n);
    Mark(g, c, stack, e);
    ghost var m1 := Now(g, c);
    RecursiveFold(g, c, e.end, n, k, stack);
    FoldingNow(g, c, stack, {}, n);
    ProgressTrans(c, m, m1, Now(g, c));
  }

  /** One round of the search of v. */
  method FollowEdge(g: Vcg, ghost c: Start, e: Edge, n: Node, k: int, ghost stack: set<Node>)
    requires n == c.n && k == c.k && Folding(g, c, stack, {}, n) && e.end in c.act && c.Reachable(e.start)
    requires (e in c.edges0 || e.end == n) && (e.start in stack || e.start == n)
    modifies g`nodeanz, g`tmpedgelist, g`listed, g.nodelist, g.graphlist, n`region
    modifies g.nodes`next, g.nodes`before, c.act`inlist, c.act`invisible, c.act`regroot
    modifies g.active`succ, g.active`pred, c.edges0`invisible, Elems(g.tmpedgelist)`invisible, e`invisible
    ensures Folding(g, c, stack, {}, n) && Grown(c, old(Elems(n.region)), Elems(n.region))
    ensures c.Followed(e) ==> Inner(c, Elems(n.region), e.end)
    ensures Progress(c, old(Now(g, c)), Now(g, c))
    ensures forall t :: t in g.tmpedgelist ==> t in old(g.tmpedgelist) || fresh(t)
    decreases |c.act - Elems(n.region)|, 3
  {
    hide *;
    MayFollow(g, c, e, stack);
    if e.attrs.eclass <= k {
      var stop := FoldstopReached(g, e.end);
      if !stop {
        FollowInto(g, c, e, n, k, stack);
        return;
      }
    }
    StaysFolding(g, c, stack);
  }

  /** When the code follows e. */
  lemma MayFollow(g: Vcg, c: Start, e: Edge, stack: set<Node>)
    requires Folding(g, c, stack, {}, c.n) && c.Reachable(e.start)
    requires (e in c.edges0 || e.end == c.n) && (e.start in stack || e.start == c.n)
    ensures c.Followed(e) <==> e.attrs.eclass <= c.k && e.end !in g.foldstops
    ensures c.Followed(e) ==> c.Reachable(e.end)
    ensures Inner(c, Elems(c.n.region), e.start)
  {
    hide Start.Reachable;
    RegionBounds(g, c, stack, {}, c.n);
    if c.Followed(e) { EndIsReachable(c, e); }
  }

  lemma EndIsReachable(c: Start, e: Edge)
    requires c.Reachable(e.start) && c.Followed(e) && (e in c.edges0 || e.end == c.n)
    ensures c.Reachable(e.end)
  {
    if e.end == c.n { ReachableFirst(c); } else { ReachableNext(c, e); }
  }

  /** A round with the step of the cursor: `region0`, `m0`, `l0`, `listed0` and `ts` are the
      state when the search of v began. */
  method FollowCell(g: Vcg, ghost c: Start, v: Node, n: Node, k: int, ghost stack: set<Node>, a: nat,
                    ghost region0: set<Node>, ghost m0: Moment, ghost l0: Chain<Edge>, ghost listed0: set<Edge>,
                    ghost ts: seq<Edge>)
    returns (a': int)
    requires n == c.n && k == c.k && Folding(g, c, stack, {}, n) && Grown(c, region0, Elems(n.region))
    requires ListKnown(c, stack, v, l0, listed0, ts) && Passed(c, Elems(n.region), l0, a)
    requires MomentOk(c, m0) && v in m0.succs && m0.succs[v] == l0 && Progress(c, m0, Now(g, c))
    modifies g`nodeanz, g`tmpedgelist, g`listed, g.nodelist, g.graphlist, n`region
    modifies g.nodes`next, g.nodes`before, c.act`inlist, c.act`invisible, c.act`regroot
    modifies g.active`succ, g.active`pred, c.edges0`invisible, Elems(g.tmpedgelist)`invisible, Elems(ts)`invisible
    ensures Folding(g, c, stack, {}, n) && Grown(c, region0, Elems(n.region))
    ensures Passed(c, Elems(n.region), l0, a') && a' < a && Progress(c, m0, Now(g, c))
    ensures forall t :: t in g.tmpedgelist ==> t in old(g.tmpedgelist) || fresh(t)
    decreases |c.act - Elems(n.region)|, 4
  {
    hide Folding, Progress, Core, Now, MomentOk, Start.Reachable, Start.Closed, Start.Followed, Grown, Passed,
        ListKnown, Chain.Valid, Evolves;
    ghost var m1, region1 := Now(g, c), Elems(n.region);
    CellKnown(g, c, stack, v, region1, l0, listed0, ts, m0, a);
    var e := v.succ.cells[a].kante;
    FollowEdge(g, c, e, n, k, stack);
    CellPassed(g, c, stack, v, region0, region1, l0, listed0, ts, m0, m1, a);
    a' := v.succ.cells[a].next;
  }

  lemma CellKnown(g: Vcg, c: Start, stack: set<Node>, v: Node, region: set<Node>, l0: Chain<Edge>, listed0: set<Edge>,
                  ts: seq<Edge>, m0: Moment, a: nat)
    requires Folding(g, c, stack, {}, c.n) && ListKnown(c, stack, v, l0, listed0, ts) && Passed(c, region, l0, a)
    requires v in m0.succs && m0.succs[v] == l0 && Progress(c, m0, Now(g, c))
    ensures a < |v.succ.cells| && l0.Live(a) && v.succ.cells[a].kante == l0.cells[a].kante
    ensures var e := l0.cells[a].kante;
      e.start == v && e.end in c.act && (v in stack || v == c.n) && c.Reachable(v)
      && (e in c.edges0 || (e in ts && e.end == c.n))
    ensures MomentOk(c, Now(g, c)) && g.active == c.act
  {
    hide Folding, Start.Reachable, Start.Followed, MomentOk;
    FoldingNow(g, c, stack, {}, c.n);
    assert Evolves(l0, v.succ);
    assert LinkEvolves(l0, v.succ, a);
  }

  lemma CellPassed(g: Vcg, c: Start, stack: set<Node>, v: Node, region0: set<Node>, region1: set<Node>, l0: Chain<Edge>,
                   listed0: set<Edge>, ts: seq<Edge>, m0: Moment, m1: Moment, a: nat)
    requires Folding(g, c, stack, {}, c.n) && ListKnown(c, stack, v, l0, listed0, ts)
    requires Passed(c, region1, l0, a) && l0.Live(a)
    requires MomentOk(c, m0) && MomentOk(c, m1) && v in m0.succs && m0.succs[v] == l0
    requires Progress(c, m0, m1) && Progress(c, m1, Now(g, c))
    requires Grown(c, region0, region1) && Grown(c, region1, Elems(c.n.region))
    requires c.Followed(l0.cells[a].kante) ==> Inner(c, Elems(c.n.region), l0.cells[a].kante.end)
    ensures a < |v.succ.cells| && v.succ.cells[a].next < a
    ensures Passed(c, Elems(c.n.region), l0, v.succ.cells[a].next)
    ensures Progress(c, m0, Now(g, c)) && Grown(c, region0, Elems(c.n.region))
  {
    GrownTrans(c, region0, region1, Elems(c.n.region));
    RegionOnlyGrew(c, region1, Elems(c.n.region));
    FoldingNow(g, c, stack, {}, c.n);
    SuccIsValid(g, c, stack, v, l0, listed0, ts);
    ProgressTrans(c, m0, m1, Now(g, c));
    ProgressEvolves(c, m0, Now(g, c), v);
    hide Folding, Passed, ListKnown, Evolves, Progress, Grown, Start.Followed, MomentOk;
    PassedOne(g, c, stack, v, region1, l0, listed0, ts, a);
  }

  lemma SuccIsValid(g: Vcg, c: Start, stack: set<Node>, v: Node, l0: Chain<Edge>, listed0: set<Edge>, ts: seq<Edge>)
    requires Folding(g, c, stack, {}, c.n) && ListKnown(c, stack, v, l0, listed0, ts)
    ensures v in c.act && v.succ.Valid() && v in Now(g, c).succs && Now(g, c).succs[v] == v.succ
  {
    ListsAreValid(g);
  }

  /** The loop over NSUCC(v) in fold_region (v is n) and in recursive_fold. */
  method FoldSuccessors(g: Vcg, ghost c: Start, v: Node, n: Node, k: int, ghost stack: set<Node>)
    requires n == c.n && k == c.k && Folding(g, c, stack, {}, n) && Searching(g, c, stack, v)
    modifies g`nodeanz, g`tmpedgelist, g`listed, g.nodelist, g.graphlist, n`region
    modifies g.nodes`next, g.nodes`before, c.act`inlist, c.act`invisible, c.act`regroot
    modifies g.active`succ, g.active`pred, c.edges0`invisible, Elems(g.tmpedgelist)`invisible
    ensures Folding(g, c, stack, {}, n) && Grown(c, old(Elems(n.region)), Elems(n.region))
    ensures c.Closed(Elems(n.region), v) && Progress(c, old(Now(g, c)), Now(g, c))
    ensures forall t :: t in g.tmpedgelist ==> t in old(g.tmpedgelist) || fresh(t)
    decreases |c.act - Elems(n.region)|, 5
  {
    hide Folding, Progress, Core, Now, MomentOk, Start.Reachable, Start.Closed, Grown, Passed, ListKnown, Chain.Valid,
        Evolves;
    SearchStarts(g, c, stack, v);
    StaysFolding(g, c, stack);
    ghost var l0, region0, listed0, ts := v.succ, Elems(n.region), g.listed, g.tmpedgelist;
    ghost var m0 := Now(g, c);
    FoldingNow(g, c, stack, {}, n);
    SuccIsValid(g, c, stack, v, l0, listed0, ts);
    PassedNone(c, region0, l0);
    var a := v.succ.head;
    while a >= 0
      invariant Folding(g, c, stack, {}, n) && Grown(c, region0, Elems(n.region))
      invariant Passed(c, Elems(n.region), l0, a) && Progress(c, m0, Now(g, c))
      invariant forall t :: t in g.tmpedgelist ==> t in old(g.tmpedgelist) || fresh(t)
      decreases a
    {
      RegionOnlyGrew(c, region0, Elems(n.region));
      a := FollowCell(g, c, v, n, k, stack, a, region0, m0, l0, listed0, ts);
    }
    RegionOnlyGrew(c, region0, Elems(n.region));
    PassedEnds(c, Elems(n.region), l0, a);
    PassedAll(c, region0, Elems(n.region), v, l0);
  }

  lemma PassedEnds(c: Start, region: set<Node>, l0: Chain<Edge>, a: int)
    requires Passed(c, region, l0, a) && a < 0
    ensures a == -1
  {
  }

  lemma RegionOnlyGrew(c: Start, r0: set<Node>, r1: set<Node>)
    requires Grown(c, r0, r1)
    ensures r0 <= r1 && |c.act - r1| <= |c.act - r0|
  {
    var gone := (c.act - r0) - (c.act - r1);
    assert c.act - r0 == gone + (c.act - r1);
  }
}
