/** Folding of regions (folding.c, fold_region, recursive_fold, unfold_region). */
module Regions {
  import opened Chains
  import opened GraphTypes
  import opened NodeVisibility
  import opened SearchVisible
  import opened Adjacency
  import opened Quotient
  import opened RegionCore

  /** What the flags of a node say about the region. */
  ghost predicate NodeAgrees(c: Start, region: set<Node>, x: Node)
    reads x`inlist, x`invisible, x`regroot
  {
    if x in region then !x.inlist && x.invisible == FOLDED_RGNODE && x.regroot == c.n
    else x.inlist && x.invisible == 0 && x in c.roots && x.regroot == c.roots[x] != c.n
  }

  ghost predicate NodesAgree(c: Start, region: set<Node>)
    reads c.act`inlist, c.act`invisible, c.act`regroot
  {
    forall x :: x in c.act ==> NodeAgrees(c, region, x)
  }

  /** A listed edge that folding has followed (and so marked invisible) is inner, but for
      the edge to the node `entering` that is about to be hidden. */
  ghost predicate MarkAgrees(c: Start, region: set<Node>, e: Edge, entering: Node)
    reads e`invisible
  {
    e.invisible && e.start != e.end ==>
      Inner(c, region, e.start) && (Inner(c, region, e.end) || e.end == entering)
  }

  ghost predicate MarksAgree(c: Start, region: set<Node>, listed: set<Edge>, entering: Node)
    reads listed`invisible
  {
    forall e :: e in listed ==> MarkAgrees(c, region, e, entering)
  }

  /** The state during fold_region(c.n, c.k). */
  ghost predicate Folding(g: Vcg, c: Start, stack: set<Node>, work: set<Node>, entering: Node)
    reads g, g.nodelist, g.graphlist, c.n`region, c.act`regroot, g.active`succ, g.active`pred, g.listed`invisible
    reads g.nodes`inlist, g.nodes`invisible, g.nodes`next, g.nodes`before, g.nodes`sgraph, c.act`inlist, c.act`invisible
  {
    && g.ListsOk() && AdjOk(g) && g.active == c.act && c.act <= g.nodes && g.foldstops == c.stops
    && g.foldedge == c.fe
    && NodesAgree(c, Elems(c.n.region)) && MarksAgree(c, Elems(c.n.region), g.listed, entering)
    && Distinct(c.n.region)
    && Core(c, Elems(c.n.region), stack, work, g.listed, g.tmpedgelist)
  }

  /** foldstop_reached, for a node. */
  method FoldstopReached(g: Vcg, v: Node) returns (b: bool)
    ensures b <==> v in g.foldstops
  {
    for i := 0 to |g.foldstops|
      invariant v !in g.foldstops[..i]
    {
      if g.foldstops[i] == v { return true; }
    }
    b := false;
  }

  /** v joins the region. */
  lemma AgreesWithMore(c: Start, region: set<Node>, v: Node, x: Node)
    requires NodeAgrees(c, region, x) && x != v
    ensures NodeAgrees(c, region + {v}, x)
  {
  }

  lemma MarksOfMore(c: Start, region: set<Node>, v: Node, listed: set<Edge>)
    requires MarksAgree(c, region, listed, v)
    ensures MarksAgree(c, region + {v}, listed, c.n)
  {
  }

  /** The assignments of recursive_fold that hide v. */
  method HideMember(g: Vcg, ghost c: Start, n: Node, v: Node, ghost region: set<Node>)
    requires g.ListsOk() && v in g.nodes && n == c.n && region == Elems(n.region) && NodesAgree(c, region)
    requires v in c.act && !Inner(c, region, v)
    modifies g`nodeanz, g.nodelist, g.graphlist, n`region
    modifies g.nodes`next, g.nodes`before, v`inlist, v`invisible, v`regroot
    ensures g.ListsOk() && NodesAgree(c, region + {v})
    ensures n.region == [v] + old(n.region) && Elems(n.region) == region + {v}
  {
    hide Vcg.ListsOk;
    v.regroot := n;
    n.region := [v] + n.region;
    g.DeleteNode(v, FOLDED_RGNODE);
    forall x | x in c.act ensures NodeAgrees(c, region + {v}, x) {
      if x != v {
        assert old(NodeAgrees(c, region, x));
        AgreesWithMore(c, region, v, x);
      }
    }
  }

  lemma OneMoreDistinct<T>(s: seq<T>, v: T)
    requires Distinct(s) && v !in s
    ensures Distinct([v] + s)
  {
  }

  /** The first half of recursive_fold: v becomes a member of the region of n. */
  method EnterRegion(g: Vcg, ghost c: Start, n: Node, v: Node, ghost stack: set<Node>)
    requires n == c.n && Folding(g, c, stack, {}, v) && v in c.act && !Inner(c, Elems(n.region), v)
    modifies g`nodeanz, g.nodelist, g.graphlist, n`region
    modifies g.nodes`next, g.nodes`before, v`inlist, v`invisible, v`regroot
    ensures Folding(g, c, stack + {v}, {}, n) && n.region == [v] + old(n.region)
  {
    hide Vcg.ListsOk, AdjOk, Core, NodesAgree, MarksAgree, Distinct;
    ghost var region := Elems(n.region);
    CoreEnters(c, region, stack, g.listed, g.tmpedgelist, v);
    MarksOfMore(c, region, v, g.listed);
    OneMoreDistinct(n.region, v);
    HideMember(g, c, n, v, region);
  }

  /** During the folding every node has a representative: an inner node the summary node. */
  lemma InnerIsRepresented(g: Vcg, c: Start, stack: set<Node>, work: set<Node>, x: Node)
    requires Folding(g, c, stack, work, c.n) && x in c.act
    ensures Search(HidingOf(g), x, 2) == Some(if Inner(c, Elems(c.n.region), x) then c.n else x)
    ensures x in HidingOf(g).vis && (HidingOf(g).vis[x] == 0 <==> x !in Elems(c.n.region))
  {
    var h := HidingOf(g);
    assert c.n in c.act && c.n !in Elems(c.n.region);
    assert h.vis[x] == x.invisible && h.vis[c.n] == 0;
    assert h.regroot[x] == x.regroot;
    assert Search(h, c.n, 1) == Some(c.n);
  }

  /** The result of substed_edge for a listed edge of the node v whose lists are handled. */
  lemma EdgeIsRepresented(g: Vcg, c: Start, stack: set<Node>, v: Node, e: Edge)
    requires Folding(g, c, stack, {v}, c.n) && e in g.listed && (e.start == v || e.end == v)
    ensures e.start in g.nodes && e.end in g.nodes && e.start in c.act && e.end in c.act
    ensures var h, region := HidingOf(g), Elems(c.n.region);
      && Resolved(h, 2, e) && !Drawable(h, e) && v != c.n
      && (Induces(h, 2, e) <==> !Inner(c, region, e.start) || !Inner(c, region, e.end))
      && Rep(h, 2, e.start) == (if Inner(c, region, e.start) then c.n else e.start)
      && Rep(h, 2, e.end) == (if Inner(c, region, e.end) then c.n else e.end)
      && Inner(c, region, v) && Inner(c, region, c.n)
      && (e.invisible ==> Inner(c, region, e.start) && Inner(c, region, e.end))
  {
    InnerIsRepresented(g, c, stack, {v}, e.start);
    InnerIsRepresented(g, c, stack, {v}, e.end);
  }

  /** The listed edges, the region and the successor lists at one moment. */
  datatype Moment = Moment(listed: set<Edge>, region: set<Node>, succs: map<Node, Chain<Edge>>)

  ghost function Succs(act: set<Node>): (r: map<Node, Chain<Edge>>)
    reads act`succ
  {
    map x | x in act :: x.succ
  }

  ghost function Now(g: Vcg, c: Start): (r: Moment)
    reads g`listed, c.n`region, c.act`succ
  {
    Moment(g.listed, Elems(c.n.region), Succs(c.act))
  }

  ghost predicate MomentOk(c: Start, m: Moment)
  {
    && m.succs.Keys == c.act
    && forall x :: x in c.act ==> m.succs[x].Valid() && m.succs[x].at.Keys == Outs(m.listed, x)
  }

  /** What the folding steps do between two moments: the region grows, unlisted edges touch
      it, new edges do not touch what was in it, and cursors on successor lists stay good. */
  ghost predicate Progress(c: Start, m: Moment, m': Moment)
  {
    && m.region <= m'.region && m.succs.Keys == m'.succs.Keys == c.act
    && (forall e :: e in m.listed && e !in m'.listed ==> e.start in m'.region || e.end in m'.region)
    && (forall e :: e in m'.listed && e !in m.listed ==> e.start !in m.region && e.end !in m.region)
    && (forall x :: x in c.act ==> Evolves(m.succs[x], m'.succs[x]))
  }

  lemma ProgressTrans(c: Start, m0: Moment, m1: Moment, m2: Moment)
    requires MomentOk(c, m0) && MomentOk(c, m1) && MomentOk(c, m2)
    requires Progress(c, m0, m1) && Progress(c, m1, m2)
    ensures Progress(c, m0, m2)
  {
    hide Evolves;
    forall x | x in c.act ensures Evolves(m0.succs[x], m2.succs[x]) {
      forall e | e in m0.succs[x].at && e in m2.succs[x].at ensures e in m1.succs[x].at {
        assert e in Outs(m0.listed, x) && e in Outs(m2.listed, x);
        assert e in m1.listed;
        assert e in Outs(m1.listed, x);
      }
      EvolvesTrans(m0.succs[x], m1.succs[x], m2.succs[x]);
    }
  }

  lemma ProgressStep(c: Start, m: Moment, m': Moment, d: Edge)
    requires m.region == m'.region && m.succs.Keys == m'.succs.Keys == c.act
    requires d.start in m.region || d.end in m.region
    requires forall e :: e in m.listed && e != d ==> e in m'.listed
    requires forall e :: e in m'.listed && e !in m.listed ==> e.start !in m.region && e.end !in m.region
    requires forall x :: x in c.act ==> Evolves(m.succs[x], m'.succs[x])
    ensures Progress(c, m, m')
  {
  }

  lemma NowOk(g: Vcg, c: Start)
    requires AdjOk(g) && g.active == c.act
    ensures MomentOk(c, Now(g, c)) && Progress(c, Now(g, c), Now(g, c))
    ensures forall x :: x in c.act ==> x in Now(g, c).succs && Now(g, c).succs[x] == x.succ
  {
    ListsAreValid(g);
    ListsStay(g);
  }

  /** The state within a round of the substituting loops: the edge e has been looked at,
      and the list of temporary edges was ts before. */
  ghost predicate InRound(g: Vcg, c: Start, stack: set<Node>, v: Node, e: Edge, ts: seq<Edge>)
    reads g, g.nodelist, g.graphlist, c.n`region, c.act`regroot, g.active`succ, g.active`pred, g.listed`invisible
    reads g.nodes`inlist, g.nodes`invisible, g.nodes`next, g.nodes`before, g.nodes`sgraph, c.act`inlist, c.act`invisible
  {
    && g.ListsOk() && AdjOk(g) && g.active == c.act && c.act <= g.nodes && g.foldstops == c.stops
    && g.foldedge == c.fe
    && NodesAgree(c, Elems(c.n.region)) && MarksAgree(c, Elems(c.n.region), g.listed - {e}, c.n)
    && Distinct(c.n.region) && e in g.listed
    && Core(c, Elems(c.n.region), stack, {v}, g.listed, ts)
  }

  /** delete_adjedge, with what the marks say about the remaining edges. */
  method DeleteMarked(g: Vcg, ghost c: Start, ghost region: set<Node>, e: Edge)
    requires AdjOk(g) && e.start in g.active && e.end in g.active && MarksAgree(c, region, g.listed - {e}, c.n)
    modifies g`listed, g.active`succ, g.active`pred, e`invisible
    ensures AdjOk(g) && g.listed == old(g.listed) - {e} && MarksAgree(c, region, g.listed, c.n)
    ensures forall x :: x in g.active ==> Evolves(old(x.succ), x.succ) && Evolves(old(x.pred), x.pred)
  {
    hide AdjOk, Evolves, MarkAgrees;
    DeleteAdjEdge(g, e);
  }

  /** delete_adjedge of e and create_adjedge of ee, likewise. */
  method ExchangeMarked(g: Vcg, ghost c: Start, ghost region: set<Node>, e: Edge, ee: Edge)
    requires AdjOk(g) && e.start in g.active && e.end in g.active && ee.start in g.active && ee.end in g.active
    requires e != ee && MarksAgree(c, region, g.listed - {e}, c.n)
    modifies g`listed, g.active`succ, g.active`pred, e`invisible, ee`invisible
    ensures AdjOk(g) && g.listed == old(g.listed) - {e} + {ee} && MarksAgree(c, region, g.listed, c.n)
    ensures forall x :: x in g.active ==> Evolves(old(x.succ), x.succ) && Evolves(old(x.pred), x.pred)
  {
    hide AdjOk, Evolves;
    ExchangeAdjEdge(g, e, ee);
    forall x | x in g.listed ensures MarkAgrees(c, region, x, c.n) {
      if x != ee || old(ee in g.listed) { assert old(MarkAgrees(c, region, x, c.n)); }
    }
  }

  /** What has become of the state in a round when the edge e is unlisted. */
  lemma RoundProgress(g: Vcg, c: Start, m: Moment, e: Edge, region: set<Node>)
    requires m.succs.Keys == c.act && m.region == region == Elems(c.n.region)
    requires e.start in region || e.end in region
    requires forall x :: x in m.listed && x != e ==> x in g.listed
    requires forall x :: x in g.listed && x !in m.listed ==> x.start !in region && x.end !in region
    requires forall x :: x in c.act ==> Evolves(m.succs[x], x.succ)
    ensures Progress(c, m, Now(g, c))
  {
    hide Evolves;
    ProgressStep(c, m, Now(g, c), e);
  }

  lemma RoundKnows(g: Vcg, c: Start, stack: set<Node>, v: Node, e: Edge, ts: seq<Edge>)
    requires InRound(g, c, stack, v, e, ts)
    ensures AdjOk(g) && g.active == c.act && MarksAgree(c, Elems(c.n.region), g.listed - {e}, c.n)
    ensures e in g.listed && e.start in c.act && e.end in c.act && v in Elems(c.n.region) && v in c.act
    ensures Core(c, Elems(c.n.region), stack, {v}, g.listed, ts) && Now(g, c).succs.Keys == c.act
    ensures Now(g, c).listed == g.listed && Now(g, c).region == Elems(c.n.region)
    ensures forall x :: x in c.act ==> Now(g, c).succs[x] == x.succ
  {
    CoreKnows(c, Elems(c.n.region), stack, {v}, g.listed, ts);
  }

  /** delete_adjedge of an edge between inner nodes. */
  method DropEdge(g: Vcg, ghost c: Start, ghost stack: set<Node>, ghost v: Node, e: Edge)
    requires InRound(g, c, stack, v, e, g.tmpedgelist) && (e.start == v || e.end == v)
    requires Inner(c, Elems(c.n.region), e.start) && Inner(c, Elems(c.n.region), e.end)
    modifies g`listed, g.active`succ, g.active`pred, e`invisible
    ensures Folding(g, c, stack, {v}, c.n) && g.listed == old(g.listed) - {e}
    ensures Progress(c, old(Now(g, c)), Now(g, c)) && Evolves(old(v.pred), v.pred)
  {
    hide Vcg.ListsOk, AdjOk, Core, Evolves, NodesAgree, MarksAgree, Distinct, Inner, Progress, Now, Elems;
    ghost var region, m := Elems(c.n.region), Now(g, c);
    RoundKnows(g, c, stack, v, e, g.tmpedgelist);
    CoreDrops(c, region, stack, v, g.listed, g.tmpedgelist, e);
    DeleteMarked(g, c, region, e);
    RoundProgress(g, c, m, e, region);
  }

  /** delete_adjedge of an edge to (from) an outer node and create_adjedge of its substitute. */
  method ExchangeEdge(g: Vcg, ghost c: Start, ghost stack: set<Node>, ghost v: Node, e: Edge, ee: Edge,
                      ghost ts: seq<Edge>)
    requires InRound(g, c, stack, v, e, ts) && (e.start == v || e.end == v)
    requires !Inner(c, Elems(c.n.region), e.start) || !Inner(c, Elems(c.n.region), e.end)
    requires Replaces(c, Elems(c.n.region), e, ee)
    requires if (ee.start, ee.end) in Pairs(ts) then ee in ts && g.tmpedgelist == ts else g.tmpedgelist == [ee] + ts
    requires ee in ts || LooksLike(c.fe, e, ee)
    modifies g`listed, g.active`succ, g.active`pred, e`invisible, ee`invisible
    ensures Folding(g, c, stack, {v}, c.n) && g.listed == old(g.listed) - {e} + {ee}
    ensures ee != e && ee.start != v && ee.end != v
    ensures Progress(c, old(Now(g, c)), Now(g, c)) && Evolves(old(v.pred), v.pred)
  {
    hide Vcg.ListsOk, AdjOk, Core, Evolves, NodesAgree, MarksAgree, Distinct, Inner, Progress, Pairs, Now, Elems;
    ghost var region, m := Elems(c.n.region), Now(g, c);
    RoundKnows(g, c, stack, v, e, ts);
    SubstituteFits(c, region, stack, v, g.listed, ts, e, ee, g.tmpedgelist);
    ExchangeMarked(g, c, region, e, ee);
    RoundProgress(g, c, m, e, region);
  }

  /** ee joins what e joins, with the summary node in the place of inner nodes. */
  ghost predicate Replaces(c: Start, region: set<Node>, e: Edge, ee: Edge)
  {
    && ee.start == (if Inner(c, region, e.start) then c.n else e.start)
    && ee.end == (if Inner(c, region, e.end) then c.n else e.end)
  }

  /** What a round of the substituting loops does to the listed edges: e goes, and unless both
      its ends are inner its replacement is listed. */
  ghost predicate Replaced(c: Start, region: set<Node>, listed: set<Edge>, e: Edge, sub: Edge?, listed': set<Edge>)
  {
    && (sub == null <==> Inner(c, region, e.start) && Inner(c, region, e.end))
    && if sub == null then listed' == listed - {e} else Replaces(c, region, e, sub) && listed' == listed - {e} + {sub}
  }

  /** One round of the loops of recursive_fold that substitute the edges of v: `incoming`
      tells the loop over NPRED(v) from the one over NSUCC(v). */
  method ReplaceEdge(g: Vcg, ghost c: Start, n: Node, ghost stack: set<Node>, ghost v: Node, e: Edge, incoming: bool)
    returns (ghost sub: Edge?)
    requires n == c.n && Folding(g, c, stack, {v}, n) && e in g.listed
    requires if incoming then e.end == v else e.start == v
    modifies g`tmpedgelist, g`listed, g.active`succ, g.active`pred
    modifies e`invisible, Elems(g.tmpedgelist)`invisible
    ensures Folding(g, c, stack, {v}, n) && Replaced(c, old(Elems(n.region)), old(g.listed), e, sub, g.listed)
    ensures sub != e && (sub != null ==> sub.start != v && sub.end != v)
    ensures Progress(c, old(Now(g, c)), Now(g, c)) && Evolves(old(v.pred), v.pred)
    ensures forall t :: t in g.tmpedgelist ==> t in old(g.tmpedgelist) || fresh(t)
  {
    hide Vcg.ListsOk, AdjOk, Core, Search, HidingOf, Evolves, NodesAgree, Distinct, OnePerPair;
    hide Drawable, Induces, Resolved, Rep, Pairs, Inner, Progress, Now;
    EdgeIsRepresented(g, c, stack, v, e);
    ghost var ts, m := g.tmpedgelist, Now(g, c);
    var ee := SubstedEdge(g, e, 2);
    assert Now(g, c) == m;
    sub := null;
    if ee != e {
      if ee != null && (if incoming then ee.start else ee.end) != n {
        ExchangeEdge(g, c, stack, v, e, ee, ts);
        sub := ee;
      } else {
        DropEdge(g, c, stack, v, e);
      }
    }
  }

  /** The list a substituting loop runs over. */
  function ListOf(v: Node, incoming: bool): Chain<Edge>
    reads v`succ, v`pred
  {
    if incoming then v.pred else v.succ
  }

  ghost predicate OnSide(v: Node, e: Edge, incoming: bool)
  {
    if incoming then e.end == v else e.start == v
  }

  /** The list of an active node holds its listed edges. */
  lemma ListHolds(g: Vcg, v: Node, incoming: bool)
    requires AdjOk(g) && v in g.active
    ensures ListOf(v, incoming).Valid()
    ensures forall e :: e in ListOf(v, incoming).at ==> e in g.listed && OnSide(v, e, incoming)
    ensures forall e :: e in g.listed && OnSide(v, e, incoming) ==> e in ListOf(v, incoming).at
  {
    ListsAreValid(g);
  }

  lemma ProgressEvolves(c: Start, m: Moment, m': Moment, v: Node)
    requires Progress(c, m, m') && v in c.act
    ensures Evolves(m.succs[v], m'.succs[v])
  {
  }

  /** A cursor of the substituting loops: on a linked cell, with no linked cell before it. */
  ghost predicate CursorOk(l: Chain<Edge>, a: int)
  {
    a >= -1 && (a >= 0 ==> l.Live(a)) && forall e :: e in l.at ==> l.at[e] <= a
  }

  /** The edge under the cursor. */
  lemma RoundStarts(g: Vcg, c: Start, stack: set<Node>, v: Node, incoming: bool, a: nat)
    requires Folding(g, c, stack, {v}, c.n) && v in c.act && CursorOk(ListOf(v, incoming), a)
    ensures a < |ListOf(v, incoming).cells|
    ensures var e := ListOf(v, incoming).cells[a].kante;
      e in g.listed && OnSide(v, e, incoming) && (e in c.edges0 || e in g.tmpedgelist)
  {
    ListHolds(g, v, incoming);
    CoreKnows(c, Elems(c.n.region), stack, {v}, g.listed, g.tmpedgelist);
  }

  /** The cursor after the edge under it has been replaced. */
  lemma RoundEnds(g: Vcg, c: Start, v: Node, incoming: bool, a: nat, l: Chain<Edge>, listed: set<Edge>)
    requires AdjOk(g) && v in g.active && l.Valid() && CursorOk(l, a) && Evolves(l, ListOf(v, incoming))
    requires forall e :: e in l.at <==> e in listed && OnSide(v, e, incoming)
    requires l.cells[a].kante !in g.listed
    requires forall x :: x in g.listed ==> x in listed || (x.start != v && x.end != v)
    requires forall x :: x in listed && x != l.cells[a].kante ==> x in g.listed
    ensures a < |ListOf(v, incoming).cells|
    ensures var a' := ListOf(v, incoming).cells[a].next; a' < a && CursorOk(ListOf(v, incoming), a')
  {
    ListHolds(g, v, incoming);
    CursorAfterRemoval(l, ListOf(v, incoming), a);
  }

  /** A round of a substituting loop, with the step of the cursor. */
  method SubstituteRound(g: Vcg, ghost c: Start, n: Node, ghost stack: set<Node>, v: Node, incoming: bool, a: nat)
    returns (a': int)
    requires n == c.n && Folding(g, c, stack, {v}, n) && v in c.act && CursorOk(ListOf(v, incoming), a)
    modifies g`tmpedgelist, g`listed, g.active`succ, g.active`pred
    modifies c.edges0`invisible, Elems(g.tmpedgelist)`invisible
    ensures Folding(g, c, stack, {v}, n)
    ensures CursorOk(ListOf(v, incoming), a') && a' < a
    ensures forall x :: x in g.listed ==> x in old(g.listed) || (x.start != v && x.end != v)
    ensures Progress(c, old(Now(g, c)), Now(g, c))
    ensures forall t :: t in g.tmpedgelist ==> t in old(g.tmpedgelist) || fresh(t)
  {
    hide Vcg.ListsOk, Core, AdjOk, Evolves, NodesAgree, MarksAgree, Distinct, Progress, Chain.Valid, Now, CursorOk;
    ghost var l, m := ListOf(v, incoming), Now(g, c);
    NowOk(g, c);
    ListHolds(g, v, incoming);
    RoundStarts(g, c, stack, v, incoming, a);
    var e := ListOf(v, incoming).cells[a].kante;
    ghost var sub := ReplaceEdge(g, c, n, stack, v, e, incoming);
    NowOk(g, c);
    ProgressEvolves(c, m, Now(g, c), v);
    RoundEnds(g, c, v, incoming, a, l, old(g.listed));
    a' := ListOf(v, incoming).cells[a].next;
  }

  /** A loop of recursive_fold that substitutes the edges of v: all of them become unlisted. */
  method SubstituteEdges(g: Vcg, ghost c: Start, n: Node, ghost stack: set<Node>, v: Node, incoming: bool)
    requires n == c.n && Folding(g, c, stack, {v}, n)
    modifies g`tmpedgelist, g`listed, g.active`succ, g.active`pred
    modifies c.edges0`invisible, Elems(g.tmpedgelist)`invisible
    ensures Folding(g, c, stack, {v}, n)
    ensures forall e :: e in g.listed ==> !OnSide(v, e, incoming)
    ensures forall x :: x in g.listed ==> x in old(g.listed) || (x.start != v && x.end != v)
    ensures Progress(c, old(Now(g, c)), Now(g, c))
    ensures forall t :: t in g.tmpedgelist ==> t in old(g.tmpedgelist) || fresh(t)
  {
    hide Vcg.ListsOk, Core, AdjOk, Evolves, NodesAgree, MarksAgree, Distinct, Progress, Chain.Valid, Now;
    WorkIsActive(g, c, stack, v);
    NowOk(g, c);
    ListHolds(g, v, incoming);
    var a := ListOf(v, incoming).head;
    HeadIsLive(ListOf(v, incoming));
    while a >= 0
      invariant Folding(g, c, stack, {v}, n) && CursorOk(ListOf(v, incoming), a)
      invariant forall x :: x in g.listed ==> x in old(g.listed) || (x.start != v && x.end != v)
      invariant Progress(c, old(Now(g, c)), Now(g, c))
      invariant forall t :: t in g.tmpedgelist ==> t in old(g.tmpedgelist) || fresh(t)
      decreases a
    {
      hide CursorOk;
      ghost var m := Now(g, c);
      NowOk(g, c);
      a := SubstituteRound(g, c, n, stack, v, incoming, a);
      NowOk(g, c);
      ProgressTrans(c, old(Now(g, c)), m, Now(g, c));
    }
    ListHolds(g, v, incoming);
  }

  lemma WorkIsActive(g: Vcg, c: Start, stack: set<Node>, v: Node)
    requires Folding(g, c, stack, {v}, c.n)
    ensures v in g.active && v in Elems(c.n.region) && v in stack && v != c.n
  {
  }

  lemma HeadIsLive<E>(c: Chain<E>)
    requires c.Valid()
    ensures c.head >= -1 && (c.head >= 0 ==> c.Live(c.head)) && forall e :: e in c.at ==> c.at[e] <= c.head
  {
  }

  /** NPRED(v) = NSUCC(v) = NULL, when no listed edge touches v any more. */
  method ClearLists(g: Vcg, ghost c: Start, v: Node)
    requires AdjOk(g) && g.active == c.act && v in c.act
    requires forall e :: e in g.listed ==> e.start != v && e.end != v
    modifies v`succ, v`pred
    ensures AdjOk(g) && Progress(c, old(Now(g, c)), Now(g, c))
  {
    hide Evolves, Chain.Valid;
    ListsAreValid(g);
    ListsStay(g);
    ClearedOk(v.succ);
    ClearedOk(v.pred);
    v.pred := v.pred.Cleared();
    v.succ := v.succ.Cleared();
  }

  /** The end of recursive_fold: v, which no listed edge touches any more, leaves the stack. */
  method LeaveNode(g: Vcg, ghost c: Start, n: Node, ghost stack: set<Node>, v: Node)
    requires n == c.n && Folding(g, c, stack, {v}, n)
    requires forall e :: e in g.listed ==> e.start != v && e.end != v
    modifies v`succ, v`pred
    ensures Folding(g, c, stack - {v}, {}, n)
    ensures Progress(c, old(Now(g, c)), Now(g, c))
  {
    hide Vcg.ListsOk, Core, AdjOk, NodesAgree, Distinct, MarksAgree, Progress, Now, Evolves, Chain.Valid;
    WorkIsActive(g, c, stack, v);
    CoreLeaves(c, Elems(n.region), stack, g.listed, g.tmpedgelist, v);
    ClearLists(g, c, v);
  }

  /** Both loops of recursive_fold that substitute the edges of v. */
  method SubstituteAll(g: Vcg, ghost c: Start, n: Node, ghost stack: set<Node>, v: Node)
    requires n == c.n && Folding(g, c, stack, {v}, n)
    modifies g`tmpedgelist, g`listed, g.active`succ, g.active`pred
    modifies c.edges0`invisible, Elems(g.tmpedgelist)`invisible
    ensures Folding(g, c, stack, {v}, n)
    ensures forall e :: e in g.listed ==> e.start != v && e.end != v
    ensures Progress(c, old(Now(g, c)), Now(g, c))
    ensures forall t :: t in g.tmpedgelist ==> t in old(g.tmpedgelist) || fresh(t)
  {
    hide Folding, Progress, Now, Core, AdjOk;
    FoldingNow(g, c, stack, {v}, n);
    ghost var m0 := Now(g, c);
    SubstituteEdges(g, c, n, stack, v, true);
    FoldingNow(g, c, stack, {v}, n);
    ghost var m1 := Now(g, c);
    SubstituteEdges(g, c, n, stack, v, false);
    FoldingNow(g, c, stack, {v}, n);
    ProgressTrans(c, m0, m1, Now(g, c));
  }

  lemma FoldingNow(g: Vcg, c: Start, stack: set<Node>, work: set<Node>, entering: Node)
    requires Folding(g, c, stack, work, entering)
    ensures MomentOk(c, Now(g, c)) && Progress(c, Now(g, c), Now(g, c)) && g.active == c.act
  {
    NowOk(g, c);
  }

  /** The second half of recursive_fold: the edges of v are substituted. */
  method FinishNode(g: Vcg, ghost c: Start, n: Node, ghost stack: set<Node>, v: Node)
    requires n == c.n && Folding(g, c, stack, {}, n) && v in stack
    modifies g`tmpedgelist, g`listed, g.active`succ, g.active`pred
    modifies c.edges0`invisible, Elems(g.tmpedgelist)`invisible
    ensures Folding(g, c, stack - {v}, {}, n)
    ensures Progress(c, old(Now(g, c)), Now(g, c))
    ensures forall t :: t in g.tmpedgelist ==> t in old(g.tmpedgelist) || fresh(t)
  {
    hide *;
    StartWork(g, c, stack, v);
    WorkIsActive(g, c, stack, v);
    FoldingNow(g, c, stack, {v}, n);
    ghost var m0 := Now(g, c);
    SubstituteAll(g, c, n, stack, v);
    FoldingNow(g, c, stack, {v}, n);
    ghost var m1 := Now(g, c);
    LeaveNode(g, c, n, stack, v);
    FoldingNow(g, c, stack - {v}, {}, n);
    ProgressTrans(c, m0, m1, Now(g, c));
  }

  lemma StartWork(g: Vcg, c: Start, stack: set<Node>, v: Node)
    requires Folding(g, c, stack, {}, c.n) && v in stack
    ensures Folding(g, c, stack, {v}, c.n)
  {
    hide Core;
    CoreWorks(c, Elems(c.n.region), stack, g.listed, g.tmpedgelist, v);
  }
}
