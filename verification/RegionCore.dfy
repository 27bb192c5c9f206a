/** The invariant of region folding, on sets of nodes and edges.

    fold_region(n, k) hides nodes one by one. `region` are the nodes hidden so far; those
    in `stack` still have their adjacency lists, except that the edges of the nodes in
    `work` (at most one) are just being substituted; the others are finished. */
module RegionCore {
  import opened GraphTypes
  import opened Quotient

  /** The situation when fold_region starts: the summary node, the class, the fold stops,
      the visible nodes, the listed edges, NREGROOT of the visible nodes, the attributes that
      are given for folded edges, and the temporary edges. */
  datatype Start = Start(n: Node, k: int, stops: seq<Node>, act: set<Node>, edges0: set<Edge>, roots: map<Node, Node?>,
                         fe: EdgeAttrs, temps: set<Edge>)
  {
    ghost predicate Ok()
    {
      n in act && forall e :: e in edges0 ==> e.start in act && e.end in act
    }

    /** Folding follows e: its class is low enough and its end is no fold stop. */
    predicate Followed(e: Edge)
    {
      e.attrs.eclass <= k && e.end !in stops
    }

    /** The nodes reachable from n along at most i followed edges. */
    ghost function Layer(i: nat): set<Node>
    {
      if i == 0 then {n}
      else Layer(i - 1) + set e | e in edges0 && Followed(e) && e.start in Layer(i - 1) :: e.end
    }

    ghost predicate Reachable(x: Node)
    {
      exists i: nat :: x in Layer(i)
    }

    /** All followed edges from u lead into the region or back to n. */
    ghost predicate Closed(region: set<Node>, u: Node)
    {
      forall e :: e in edges0 && e.start == u && Followed(e) ==> e.end in region || e.end == n
    }
  }

  lemma ReachableNext(c: Start, e: Edge)
    requires e in c.edges0 && c.Followed(e) && c.Reachable(e.start)
    ensures c.Reachable(e.end)
  {
    var i: nat :| e.start in c.Layer(i);
    assert e.end in c.Layer(i + 1);
  }

  lemma ReachableFirst(c: Start)
    ensures c.Reachable(c.n)
  {
    assert c.n in c.Layer(0);
  }

  lemma {:induction false} LayerInside(c: Start, region: set<Node>, i: nat)
    requires c.Closed(region, c.n) && forall u :: u in region ==> c.Closed(region, u)
    ensures forall x :: x in c.Layer(i) ==> x in region || x == c.n
  {
    if i > 0 { LayerInside(c, region, i - 1); }
  }

  /** A region that is closed and contains only reachable nodes is the set of nodes
      reachable from n, without n. */
  lemma RegionIsReachable(c: Start, region: set<Node>)
    requires c.n !in region && c.Closed(region, c.n)
    requires forall u :: u in region ==> c.Closed(region, u) && c.Reachable(u)
    ensures forall x :: x in region ==> c.Reachable(x) && x != c.n
    ensures forall x | c.Reachable(x) && x != c.n :: x in region
  {
    forall x | c.Reachable(x) && x != c.n ensures x in region {
      var i: nat :| x in c.Layer(i);
      LayerInside(c, region, i);
    }
  }

  /** x is hidden in the region or is its summary node. */
  predicate Inner(c: Start, region: set<Node>, x: Node)
  {
    x in region || x == c.n
  }

  ghost function Pairing(es: set<Edge>): set<(Node, Node)>
  {
    set e | e in es :: (e.start, e.end)
  }

  /** What has replaced an edge of the start situation that is not listed any more: nothing
      if both ends are inner; otherwise an edge between the summary node and the outer end,
      as soon as the lists of the inner end have been handled. */
  ghost predicate Settled(c: Start, region: set<Node>, handled: set<Node>, listed: set<Edge>, e: Edge)
  {
    || (Inner(c, region, e.start) && Inner(c, region, e.end) && (e.start in region || e.end in region))
    || (!Inner(c, region, e.start) && e.end in handled && (e.start, c.n) in Pairing(listed))
    || (!Inner(c, region, e.end) && e.start in handled && (c.n, e.end) in Pairing(listed))
  }

  /** A listed edge that is new connects the summary node with an outer node that was
      connected with the region in the same direction. */
  ghost predicate Justified(c: Start, region: set<Node>, ts: seq<Edge>, t: Edge)
  {
    && t in ts && t.start != t.end
    && (|| (t.end == c.n && exists e :: e in c.edges0 && e.start == t.start && e.end in region)
        || (t.start == c.n && exists e :: e in c.edges0 && e.end == t.end && e.start in region))
  }

  /** A temporary edge is from before, or looks like an edge of the start situation that it has
      been made for. */
  ghost predicate Made(c: Start, region: set<Node>, t: Edge)
  {
    t in c.temps || exists e :: e in c.edges0 && MadeFor(c, region, t, e)
  }

  ghost predicate MadeFor(c: Start, region: set<Node>, t: Edge, e: Edge)
  {
    && LooksLike(c.fe, e, t)
    && ((t.end == c.n && e.start == t.start && e.end in region)
        || (t.start == c.n && e.end == t.end && e.start in region))
  }

  /** Folding follows a substitute of e by the class that is given for folded edges, and by the
      class of e if none is given. */
  lemma FollowsSubstitute(c: Start, e: Edge, t: Edge)
    requires LooksLike(c.fe, e, t)
    ensures c.fe.eclass == -1 ==> (c.Followed(t) <==> e.attrs.eclass <= c.k && t.end !in c.stops)
    ensures c.fe.eclass != -1 ==> (c.Followed(t) <==> c.fe.eclass <= c.k && t.end !in c.stops)
  {
  }

  ghost predicate AllMade(c: Start, region: set<Node>, ts: seq<Edge>)
  {
    forall t :: t in ts ==> Made(c, region, t)
  }

  lemma MadeInMore(c: Start, region: set<Node>, v: Node, ts: seq<Edge>)
    requires AllMade(c, region, ts)
    ensures AllMade(c, region + {v}, ts)
  {
    forall t | t in ts ensures Made(c, region + {v}, t) {
      assert Made(c, region, t);
      if t !in c.temps {
        var e :| e in c.edges0 && MadeFor(c, region, t, e);
        assert MadeFor(c, region + {v}, t, e);
      }
    }
  }

  ghost predicate Core(c: Start, region: set<Node>, stack: set<Node>, work: set<Node>, listed: set<Edge>, ts: seq<Edge>)
  {
    && c.Ok() && region <= c.act && c.n !in region && work <= stack <= region
    && (forall e :: e in listed ==> e.start in c.act && e.end in c.act
                                    && e.start !in region - stack && e.end !in region - stack)
    && (forall t :: t in listed && t !in c.edges0 ==> Justified(c, region, ts, t))
    && (forall e :: e in c.edges0 && e !in listed ==> Settled(c, region, region - stack + work, listed, e))
    && OnePerPair(ts) && AllMade(c, region, ts)
  }

  lemma CoreStarts(c: Start, ts: seq<Edge>)
    requires c.Ok() && OnePerPair(ts) && forall t :: t in ts ==> t in c.temps
    ensures Core(c, {}, {}, {}, c.edges0, ts)
  {
  }

  /** v is hidden and put on the stack. */
  lemma CoreEnters(c: Start, region: set<Node>, stack: set<Node>, listed: set<Edge>, ts: seq<Edge>, v: Node)
    requires Core(c, region, stack, {}, listed, ts) && v in c.act && !Inner(c, region, v)
    ensures Core(c, region + {v}, stack + {v}, {}, listed, ts)
  {
    MadeInMore(c, region, v, ts);
    hide AllMade;
    assert region + {v} - (stack + {v}) == region - stack;
  }

  /** The lists of v are going to be handled. */
  lemma CoreWorks(c: Start, region: set<Node>, stack: set<Node>, listed: set<Edge>, ts: seq<Edge>, v: Node)
    requires Core(c, region, stack, {}, listed, ts) && v in stack
    ensures Core(c, region, stack, {v}, listed, ts)
  {
  }

  /** The lists of v have been handled and are empty. */
  lemma CoreLeaves(c: Start, region: set<Node>, stack: set<Node>, listed: set<Edge>, ts: seq<Edge>, v: Node)
    requires Core(c, region, stack, {v}, listed, ts)
    requires forall e :: e in listed ==> e.start != v && e.end != v
    ensures Core(c, region, stack - {v}, {}, listed, ts)
  {
    assert region - (stack - {v}) == region - stack + {v};
  }

  /** An edge between inner nodes is dropped. */
  lemma CoreDrops(c: Start, region: set<Node>, stack: set<Node>, v: Node, listed: set<Edge>, ts: seq<Edge>, d: Edge)
    requires Core(c, region, stack, {v}, listed, ts) && d in listed && (d.start == v || d.end == v)
    requires Inner(c, region, d.start) && Inner(c, region, d.end)
    ensures Core(c, region, stack, {v}, listed - {d}, ts)
  {
    var done := region - stack + {v};
    forall e | e in c.edges0 && e !in listed - {d} ensures Settled(c, region, done, listed - {d}, e) {
      if e != d { SettledStays(c, region, done, listed, d, e); }
    }
  }

  /** Losing an edge with an inner end unsettles nothing. */
  lemma SettledStays(c: Start, region: set<Node>, done: set<Node>, listed: set<Edge>, d: Edge, e: Edge)
    requires Settled(c, region, done, listed, e)
    requires d.start in region || d.end in region
    requires done <= region && c.n !in region
    ensures Settled(c, region, done, listed - {d}, e)
  {
    if (e.start, c.n) in Pairing(listed) && !Inner(c, region, e.start) {
      var t :| t in listed && (t.start, t.end) == (e.start, c.n);
      assert t in listed - {d};
    }
    if (c.n, e.end) in Pairing(listed) && !Inner(c, region, e.end) {
      var t :| t in listed && (t.start, t.end) == (c.n, e.end);
      assert t in listed - {d};
    }
  }

  /** An edge between v and an outer node is replaced by t, which runs between the outer
      node and the summary node. */
  lemma CoreReplaces(c: Start, region: set<Node>, stack: set<Node>, v: Node, listed: set<Edge>, ts: seq<Edge>,
                     d: Edge, t: Edge, ts': seq<Edge>)
    requires Core(c, region, stack, {v}, listed, ts) && d in listed
    requires || (d.end == v && !Inner(c, region, d.start) && t.start == d.start && t.end == c.n)
             || (d.start == v && !Inner(c, region, d.end) && t.end == d.end && t.start == c.n)
    requires t in ts' && OnePerPair(ts') && AllMade(c, region, ts') && forall x :: x in ts ==> x in ts'
    ensures Core(c, region, stack, {v}, listed - {d} + {t}, ts')
  {
    var listed' := listed - {d} + {t};
    var done := region - stack + {v};
    assert d in c.edges0;
    forall x | x in listed' && x !in c.edges0 ensures Justified(c, region, ts', x) {
      if x != t { assert Justified(c, region, ts, x); }
    }
    assert (t.start, t.end) in Pairing(listed');
    forall e | e in c.edges0 && e !in listed' ensures Settled(c, region, done, listed', e) {
      if e != d {
        SettledStays(c, region, done, listed, d, e);
        PairingGrows(listed - {d}, t);
      }
    }
  }

  lemma PairingGrows(es: set<Edge>, t: Edge)
    ensures Pairing(es) <= Pairing(es + {t})
  {
    forall p | p in Pairing(es) ensures p in Pairing(es + {t}) {
      var e :| e in es && (e.start, e.end) == p;
      assert e in es + {t};
    }
  }

  /** What the invariant says when the folding is finished: an outer node is joined to (from)
      n exactly if it was joined to (from) n or a node of the region. */
  lemma CoreFinished(c: Start, region: set<Node>, listed: set<Edge>, ts: seq<Edge>, x: Node)
    requires Core(c, region, {}, {}, listed, ts) && x in c.act && !Inner(c, region, x)
    ensures (x, c.n) in Pairing(listed) <==>
            exists e :: e in c.edges0 && e.start == x && Inner(c, region, e.end)
    ensures (c.n, x) in Pairing(listed) <==>
            exists e :: e in c.edges0 && e.end == x && Inner(c, region, e.start)
  {
    if e :| e in c.edges0 && e.start == x && Inner(c, region, e.end) {
      if e in listed { assert (x, c.n) in Pairing(listed); }
    }
    if e :| e in c.edges0 && e.end == x && Inner(c, region, e.start) {
      if e in listed { assert (c.n, x) in Pairing(listed); }
    }
  }

  lemma CoreKnows(c: Start, region: set<Node>, stack: set<Node>, work: set<Node>, listed: set<Edge>, ts: seq<Edge>)
    requires Core(c, region, stack, work, listed, ts)
    ensures c.n in c.act && c.n !in region && region <= c.act && work <= stack <= region && OnePerPair(ts)
    ensures forall e :: e in listed ==> e.start in c.act && e.end in c.act && (e in c.edges0 || e in ts)
  {
  }

  /** The substitute ee that substed_edge gives for the edge e of v takes the place of e. */
  lemma SubstituteFits(c: Start, region: set<Node>, stack: set<Node>, v: Node, listed: set<Edge>, ts: seq<Edge>,
                       e: Edge, ee: Edge, ts': seq<Edge>)
    requires Core(c, region, stack, {v}, listed, ts) && e in listed && (e.start == v || e.end == v)
    requires !Inner(c, region, e.start) || !Inner(c, region, e.end)
    requires ee.start == if Inner(c, region, e.start) then c.n else e.start
    requires ee.end == if Inner(c, region, e.end) then c.n else e.end
    requires if (ee.start, ee.end) in Pairs(ts) then ee in ts && ts' == ts else ts' == [ee] + ts
    requires ee in ts || LooksLike(c.fe, e, ee)
    ensures Core(c, region, stack, {v}, listed - {e} + {ee}, ts')
    ensures ee != e && ee.start != ee.end && (!Inner(c, region, ee.start) || !Inner(c, region, ee.end))
    ensures ee.start !in region && ee.end !in region && v in region
    ensures ee.start in c.act && ee.end in c.act
  {
    if (ee.start, ee.end) !in Pairs(ts) { NewPair(ts, ee); }
    assert ee in ts || MadeFor(c, region, ee, e);
    assert Made(c, region, ee) by { assert ee in ts ==> Made(c, region, ee); }
    assert AllMade(c, region, ts');
    hide AllMade;
    CoreReplaces(c, region, stack, v, listed, ts, e, ee, ts');
  }
}
