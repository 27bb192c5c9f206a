/** The sorting of the node list (folding.c, sort_all_nodes), and the round trip of folding
    and unfolding with it. */
module SortNodes {
  import opened GraphTypes
  import opened NodeVisibility
  import opened Chains
  import opened Adjacency
  import opened DepthSearch
  import opened Subgraphs
  import opened SubgraphRuns

  ghost predicate Ordered(s: seq<Node>)
  {
    forall i, j :: 0 <= i < j < |s| ==> s[i].refnum < s[j].refnum
  }

  /** No two nodes have the same number. */
  ghost predicate Numbered(nodes: set<Node>)
  {
    forall x, y :: x in nodes && y in nodes && x.refnum == y.refnum ==> x == y
  }

  /** The keys of the nodes, NDFS, do not decrease. */
  ghost predicate Sorted(s: seq<Node>, ndfs: map<Node, int>)
    requires forall x :: x in s ==> x in ndfs
  {
    forall i, j :: 0 <= i < j < |s| ==> ndfs[s[i]] <= ndfs[s[j]]
  }

  /** v in its place among the sorted nodes s. */
  function Insert(s: seq<Node>, v: Node, ndfs: map<Node, int>): (r: seq<Node>)
    requires v in ndfs && forall x :: x in s ==> x in ndfs
  {
    if s == [] || ndfs[v] < ndfs[s[0]] then [v] + s else [s[0]] + Insert(s[1..], v, ndfs)
  }

  lemma {:induction false} InsertElems(s: seq<Node>, v: Node, ndfs: map<Node, int>)
    requires v in ndfs && forall x :: x in s ==> x in ndfs
    ensures Elems(Insert(s, v, ndfs)) == Elems(s) + {v} && |Insert(s, v, ndfs)| == |s| + 1
    ensures forall x :: x in Insert(s, v, ndfs) ==> x in ndfs
  {
    if s == [] || ndfs[v] < ndfs[s[0]] {
      assert Insert(s, v, ndfs) == [v] + s;
    } else {
      InsertElems(s[1..], v, ndfs);
      assert s == [s[0]] + s[1..];
      assert Elems(s) == Elems(s[1..]) + {s[0]};
      assert Elems(Insert(s, v, ndfs)) == Elems(Insert(s[1..], v, ndfs)) + {s[0]};
    }
    forall x | x in Insert(s, v, ndfs) ensures x in ndfs { assert x in Elems(Insert(s, v, ndfs)); }
  }

  lemma {:induction false} InsertSorts(s: seq<Node>, v: Node, ndfs: map<Node, int>)
    requires v in ndfs && (forall x :: x in s ==> x in ndfs) && Sorted(s, ndfs)
    ensures (forall x :: x in Insert(s, v, ndfs) ==> x in ndfs) && Sorted(Insert(s, v, ndfs), ndfs)
  {
    InsertElems(s, v, ndfs);
    if s == [] || ndfs[v] < ndfs[s[0]] {
      assert Insert(s, v, ndfs) == [v] + s;
    } else {
      InsertSorts(s[1..], v, ndfs);
      InsertElems(s[1..], v, ndfs);
      PutSmallestFirst(s, v, Insert(s[1..], v, ndfs), ndfs);
    }
  }

  lemma PutSmallestFirst(s: seq<Node>, v: Node, r: seq<Node>, ndfs: map<Node, int>)
    requires s != [] && v in ndfs && (forall x :: x in s ==> x in ndfs) && Sorted(s, ndfs) && ndfs[s[0]] <= ndfs[v]
    requires Elems(r) == Elems(s[1..]) + {v} && (forall x :: x in r ==> x in ndfs) && Sorted(r, ndfs)
    ensures Sorted([s[0]] + r, ndfs)
  {
    forall x | x in r ensures ndfs[s[0]] <= ndfs[x] {
      assert x in Elems(r);
      assert x in s[1..] || x == v;
    }
  }

  /** Stands for the call of qsort with compare_ndfs. */
  method QSort(s: seq<Node>, ndfs: map<Node, int>) returns (r: seq<Node>)
    requires forall x :: x in s ==> x in ndfs
    ensures |r| == |s| && Elems(r) == Elems(s) && (forall x :: x in r ==> x in ndfs) && Sorted(r, ndfs)
  {
    r := [];
    for i := 0 to |s|
      invariant |r| == i && Elems(r) == Elems(s[..i]) && (forall x :: x in r ==> x in ndfs) && Sorted(r, ndfs)
    {
      hide Sorted, Insert;
      assert Elems(s[..i + 1]) == Elems(s[..i]) + {s[i]};
      InsertElems(r, s[i], ndfs);
      InsertSorts(r, s[i], ndfs);
      r := Insert(r, s[i], ndfs);
    }
    assert s[..|s|] == s;
  }

  lemma HeadIsElem(s: seq<Node>)
    ensures s != [] ==> s[0] in Elems(s)
    ensures forall k :: 0 <= k < |s| ==> s[k] in Elems(s)
  {
  }

  /** The first of ordered nodes has the smallest number. */
  lemma SmallestFirst(s: seq<Node>, x: Node)
    requires Ordered(s) && s != []
    ensures x in s[1..] <==> x in Elems(s) && x != s[0]
    ensures x in Elems(s) ==> s[0].refnum <= x.refnum && (x.refnum == s[0].refnum ==> x == s[0])
  {
    assert s == [s[0]] + s[1..];
  }

  /** There is only one way to order numbered nodes. */
  lemma {:induction false} OneOrder(s: seq<Node>, t: seq<Node>)
    requires Ordered(s) && Ordered(t) && Elems(s) == Elems(t)
    ensures s == t
  {
    HeadIsElem(s);
    HeadIsElem(t);
    if s != [] {
      SmallestFirst(s, t[0]);
      SmallestFirst(t, s[0]);
      forall x ensures x in Elems(s[1..]) <==> x in Elems(t[1..]) {
        SmallestFirst(s, x);
        SmallestFirst(t, x);
      }
      OneOrder(s[1..], t[1..]);
      assert s == [s[0]] + s[1..] && t == [t[0]] + t[1..];
    }
  }

  /** The assignments that link the nodes in the order of the array. */
  method LinkAll(order: seq<Node>, ghost members: set<Node>)
    requires |order| >= 2 && Distinct(order) && Elems(order) == members
    modifies members`next, members`before
    ensures forall k :: 0 <= k < |order| ==> LinkedAt(order, k)
  {
    var max := |order|;
    HeadIsElem(order);
    for i := 1 to max - 1
      invariant forall k :: 1 <= k < i ==> LinkedAt(order, k)
    {
      order[i].next := order[i + 1];
      order[i].before := order[i - 1];
    }
    order[0].next := order[1];
    order[0].before := null;
    order[max - 1].next := null;
    order[max - 1].before := order[max - 2];
  }

  /** The relinking of sort_all_nodes. */
  method Relink(l: NodeList, order: seq<Node>)
    requires |order| >= 2 && Distinct(order) && Elems(order) == l.members
    modifies l, l.members`next, l.members`before
    ensures l.Valid() && l.elems == order && l.members == old(l.members)
  {
    hide Distinct, NodeList.Valid;
    HeadIsElem(order);
    LinkAll(order, l.members);
    l.first := order[0];
    l.last := order[|order| - 1];
    l.Renew(order);
  }

  /** The loop that copies the list to the array. */
  method CopyNodes(l: NodeList) returns (s: seq<Node>)
    requires l.Valid()
    ensures s == l.elems
  {
    var v := l.first;
    s := [];
    while v != null
      invariant |s| <= |l.elems| && s == l.elems[..|s|]
      invariant v == if |s| < |l.elems| then l.elems[|s|] else null
      decreases |l.elems| - |s|
    {
      assert LinkedAt(l.elems, |s|);
      s := s + [v];
      v := v.next;
    }
  }

  lemma {:induction false} DistinctSize<T>(s: seq<T>)
    requires Distinct(s)
    ensures |Elems(s)| == |s|
  {
    if s == [] {
      assert Elems(s) == {};
    } else {
      var r, l := s[..|s| - 1], s[|s| - 1];
      DistinctSize(r);
      assert s == r + [l] && l !in r;
      assert Elems(s) == Elems(r) + {l};
    }
  }

  /** As many places as nodes: no node is there twice. */
  lemma {:induction false} DistinctBySize<T>(s: seq<T>)
    requires |Elems(s)| == |s|
    ensures Distinct(s)
  {
    if s != [] {
      var r, l := s[..|s| - 1], s[|s| - 1];
      assert s == r + [l];
      assert Elems(s) == Elems(r) + {l};
      SizeAtMost(r);
      DistinctBySize(r);
      assert l !in r;
    }
  }

  lemma {:induction false} SizeAtMost<T>(s: seq<T>)
    ensures |Elems(s)| <= |s|
  {
    if s != [] {
      var r, l := s[..|s| - 1], s[|s| - 1];
      assert s == r + [l];
      SizeAtMost(r);
      assert Elems(s) == Elems(r) + {l};
    } else {
      assert Elems(s) == {};
    }
  }

  /** The edges in the cells before the cursor a. */
  ghost predicate Counted(c: Chain<Edge>, seen: set<Edge>, a: int)
  {
    seen == set e | e in c.at && c.at[e] > a
  }

  lemma CountNext(c: Chain<Edge>, seen: set<Edge>, a: nat)
    requires c.Valid() && c.Live(a) && Counted(c, seen, a)
    ensures c.cells[a].kante !in seen && -1 <= c.cells[a].next < a
    ensures c.cells[a].next >= 0 ==> c.Live(c.cells[a].next)
    ensures Counted(c, seen + {c.cells[a].kante}, c.cells[a].next)
  {
    assert c.CellOk(a);
    forall e | e in c.at && c.at[e] > c.cells[a].next ensures e in seen || e == c.cells[a].kante {
      assert c.cells[c.at[e]].kante == e;
    }
  }

  /** The loops over a list of edges in no_indeg, no_outdeg and no_degree. */
  method CountEdges(c: Chain<Edge>) returns (n: nat)
    requires c.Valid()
    ensures n == |c.at.Keys|
  {
    var a := c.head;
    ghost var seen: set<Edge> := {};
    n := 0;
    while a >= 0
      invariant -1 <= a < |c.cells| && (a >= 0 ==> c.Live(a))
      invariant n == |seen| && Counted(c, seen, a)
      decreases a
    {
      CountNext(c, seen, a);
      seen := seen + {c.cells[a].kante};
      n := n + 1;
      a := c.cells[a].next;
    }
    assert seen == c.at.Keys;
  }

  /** What no_dfs has found for the node. */
  function DepthOf(depth: map<Node, int>, v: Node): int {
    if v in depth then depth[v] else 0
  }

  /** The key of a node. */
  ghost function Key(g: Vcg, layoutFlag: int, depth: map<Node, int>, v: Node): int
    reads g`listed
  {
    var ins, outs := |Ins(g.listed, v)|, |Outs(g.listed, v)|;
    match layoutFlag
    case 4 => -DepthOf(depth, v)
    case 5 => DepthOf(depth, v)
    case 6 => ins
    case 7 => -ins
    case 8 => outs
    case 9 => -outs
    case 10 => ins + outs
    case 11 => -(ins + outs)
    case _ => v.refnum
  }

  /** What the key of v needs. */
  ghost predicate KeyReady(g: Vcg, layoutFlag: int, v: Node)
    reads g`active, g`listed, g.active`succ, g.active`pred
  {
    6 <= layoutFlag <= 11 ==> v in g.active && NodeAdj(g.listed, v, v.succ, v.pred)
  }

  /** no_indeg and no_outdeg. */
  method Degrees(g: Vcg, v: Node) returns (ins: nat, outs: nat)
    requires NodeAdj(g.listed, v, v.succ, v.pred)
    ensures ins == |Ins(g.listed, v)| && outs == |Outs(g.listed, v)|
  {
    hide Ins, Outs, Chain.Valid;
    ins := CountEdges(v.pred);
    outs := CountEdges(v.succ);
  }

  method ComputeKey(g: Vcg, layoutFlag: int, depth: map<Node, int>, v: Node) returns (k: int)
    requires KeyReady(g, layoutFlag, v)
    ensures k == Key(g, layoutFlag, depth, v)
  {
    hide NodeAdj, Ins, Outs;
    if layoutFlag == 4 { return -DepthOf(depth, v); }
    if layoutFlag == 5 { return DepthOf(depth, v); }
    if !(6 <= layoutFlag <= 11) { return v.refnum; }
    var ins: int, outs: int := Degrees(g, v);
    if layoutFlag == 6 { return ins; }
    if layoutFlag == 7 { return -ins; }
    if layoutFlag == 8 { return outs; }
    if layoutFlag == 9 { return -outs; }
    k := if layoutFlag == 10 then ins + outs else -(ins + outs);
  }

  /** The loops that set NDFS. */
  method ComputeKeys(g: Vcg, layoutFlag: int, depth: map<Node, int>, s: seq<Node>) returns (ndfs: map<Node, int>)
    requires forall x :: x in s ==> KeyReady(g, layoutFlag, x)
    ensures forall x :: x in s ==> x in ndfs && ndfs[x] == Key(g, layoutFlag, depth, x)
  {
    ndfs := map[];
    for i := 0 to |s|
      invariant forall k :: 0 <= k < i ==> s[k] in ndfs && ndfs[s[k]] == Key(g, layoutFlag, depth, s[k])
    {
      hide Key, KeyReady;
      var k := ComputeKey(g, layoutFlag, depth, s[i]);
      ndfs := ndfs[s[i] := k];
    }
  }

  /** Sorting one list keeps both well-formed. */
  method RelinkNodes(g: Vcg, order: seq<Node>)
    requires g.ListsOk() && |order| >= 2 && |order| == |g.nodelist.elems| && Elems(order) == g.nodelist.members
    modifies g.nodelist, g.nodes`next, g.nodes`before
    ensures g.ListsOk() && g.nodelist.elems == order && g.nodelist.members == old(g.nodelist.members)
  {
    DistinctSize(g.nodelist.elems);
    assert Elems(g.nodelist.elems) == g.nodelist.members;
    DistinctBySize(order);
    hide NodeList.Valid, Distinct;
    Relink(g.nodelist, order);
  }

  /** One sorting of the array by the keys of a layout. */
  method SortBy(g: Vcg, layoutFlag: int, depth: map<Node, int>, s: seq<Node>) returns (r: seq<Node>)
    requires forall x :: x in s ==> KeyReady(g, layoutFlag, x)
    ensures |r| == |s| && Elems(r) == Elems(s) && KeySorted(g, layoutFlag, depth, r)
  {
    hide Key, KeyReady, Sorted, Elems;
    var ndfs := ComputeKeys(g, layoutFlag, depth, s);
    r := QSort(s, ndfs);
    SortedByKey(g, layoutFlag, depth, s, r, ndfs);
  }

  lemma SortedByKey(g: Vcg, layoutFlag: int, depth: map<Node, int>, s: seq<Node>, r: seq<Node>, ndfs: map<Node, int>)
    requires forall x :: x in s ==> KeyReady(g, layoutFlag, x) && x in ndfs && ndfs[x] == Key(g, layoutFlag, depth, x)
    requires Elems(r) == Elems(s) && (forall x :: x in r ==> x in ndfs) && Sorted(r, ndfs)
    ensures KeySorted(g, layoutFlag, depth, r)
  {
    hide Key;
    forall i | 0 <= i < |r| ensures r[i] in s { assert r[i] in Elems(r); }
  }

  /** The keys of a layout do not decrease. */
  ghost predicate KeySorted(g: Vcg, layoutFlag: int, depth: map<Node, int>, s: seq<Node>)
    reads g`listed
  {
    forall i, j :: 0 <= i < j < |s| ==> Key(g, layoutFlag, depth, s[i]) <= Key(g, layoutFlag, depth, s[j])
  }

  /** The depths are what no_dfs finds when no node of the node list is marked. Marks that
      are left on label nodes (`stale`) are not cleared. */
  ghost predicate Measured(adj: Lists, members: set<Node>, depth: map<Node, int>, stale: map<Node, set<Node>>)
  {
    Closed(adj) && forall v :: v in members ==> MeasuredAt(adj, members, depth, stale, v)
  }

  ghost predicate MeasuredAt(adj: Lists, members: set<Node>, depth: map<Node, int>, stale: map<Node, set<Node>>,
                             v: Node)
    requires Closed(adj)
  {
    && v in depth && v in stale && v in adj && stale[v] !! members
    && depth[v] == Dfs(adj, stale[v], v).depth
  }

  /** The loop that sets NMARK to 0 on the node list. */
  method ClearMarks(g: Vcg)
    requires g.nodelist.Valid() && g.nodelist.members <= g.active
    modifies g.active`mark
    ensures Marked(g) !! g.nodelist.members
  {
    ghost var elems := g.nodelist.elems;
    var w := g.nodelist.first;
    ghost var i := 0;
    while w != null
      invariant 0 <= i <= |elems| && w == if i < |elems| then elems[i] else null
      invariant forall k :: 0 <= k < i ==> !elems[k].mark
      decreases |elems| - i
    {
      assert LinkedAt(g.nodelist.elems, i);
      w.mark := false;
      w := w.next;
      i := i + 1;
    }
  }

  lemma MeasuredMore(adj: Lists, members: set<Node>, elems: seq<Node>, i: nat,
                     depth: map<Node, int>, stale: map<Node, set<Node>>, res: nat, marks: set<Node>)
    requires Closed(adj) && i < |elems| && elems[i] in adj && marks !! members
    requires forall k :: 0 <= k < i ==> MeasuredAt(adj, members, depth, stale, elems[k])
    requires res == Dfs(adj, marks, elems[i]).depth
    ensures forall k :: 0 <= k <= i ==>
              MeasuredAt(adj, members, depth[elems[i] := res], stale[elems[i] := marks], elems[k])
  {
    hide Closed, Dfs;
  }

  /** A round of the loops of the layouts 4 and 5. */
  method MeasureOne(g: Vcg, v: Node, ghost adj: Lists) returns (res: nat, ghost marks: set<Node>)
    requires AdjOk(g) && EndsActive(g) && adj == ListsOf(g) && v in g.active
    requires g.nodelist.Valid() && g.nodelist.members <= g.active
    modifies g.active`mark
    ensures ListsOf(g) == adj && Closed(adj) && v in adj && marks !! g.nodelist.members
    ensures res == Dfs(adj, marks, v).depth
  {
    hide *;
    ClearMarks(g);
    marks := Marked(g);
    ListKnown(g, v, adj);
    res := NoDfs(g, v, adj);
  }

  lemma NextIn(l: NodeList, i: nat)
    requires l.Valid() && i < |l.elems|
    ensures l.elems[i].next == (if i + 1 < |l.elems| then l.elems[i + 1] else null) && l.elems[i] in l.members
  {
    assert LinkedAt(l.elems, i);
  }

  /** The loops of the layouts 4 and 5. */
  method Measure(g: Vcg) returns (depth: map<Node, int>, ghost stale: map<Node, set<Node>>)
    requires g.nodelist.Valid() && AdjOk(g) && EndsActive(g) && g.nodelist.members <= g.active
    modifies g.active`mark
    ensures Measured(ListsOf(g), g.nodelist.members, depth, stale)
  {
    hide AdjOk, EndsActive, ListsOf, Closed, Dfs, MeasuredAt, NodeList.Valid;
    ListsAreClosed(g);
    ghost var adj, elems, members := ListsOf(g), g.nodelist.elems, g.nodelist.members;
    ListStarts(g.nodelist);
    depth, stale := map[], map[];
    var v := g.nodelist.first;
    ghost var i := 0;
    while v != null
      invariant 0 <= i <= |elems| && v == (if i < |elems| then elems[i] else null) && ListsOf(g) == adj
      invariant forall k :: 0 <= k < i ==> MeasuredAt(adj, members, depth, stale, elems[k])
      decreases |elems| - i
    {
      NextIn(g.nodelist, i);
      var res: nat;
      ghost var marks;
      res, marks := MeasureOne(g, v, adj);
      MeasuredMore(adj, members, elems, i, depth, stale, res, marks);
      depth, stale := depth[v := res], stale[v := marks];
      v := v.next;
      i := i + 1;
    }
  }

  lemma ListStarts(l: NodeList)
    requires l.Valid()
    ensures l.first == (if l.elems == [] then null else l.elems[0]) && forall x :: x in l.members ==> x in l.elems
  {
  }

  /** The second half of sort_all_nodes. */
  method SecondSort(g: Vcg, layoutFlag: int, s: seq<Node>)
    returns (r: seq<Node>, ghost depth: map<Node, int>, ghost stale: map<Node, set<Node>>)
    requires g.nodelist.Valid() && KeySorted(g, 0, map[], s) && forall x :: x in s ==> KeyReady(g, layoutFlag, x)
    requires 4 <= layoutFlag <= 5 ==> AdjOk(g) && EndsActive(g) && g.nodelist.members <= g.active
    modifies g.active`mark
    ensures |r| == |s| && Elems(r) == Elems(s) && KeySorted(g, layoutFlag, depth, r)
    ensures 4 <= layoutFlag <= 5 ==> AdjOk(g) && Measured(ListsOf(g), g.nodelist.members, depth, stale)
  {
    hide *;
    var depths: map<Node, int> := map[];
    stale := map[];
    r := s;
    if 4 <= layoutFlag <= 5 {
      depths, stale := Measure(g);
      r := SortBy(g, layoutFlag, depths, s);
    } else if 6 <= layoutFlag <= 11 {
      r := SortBy(g, layoutFlag, depths, s);
    } else {
      OtherLayouts(g, layoutFlag, depths, s);
    }
    depth := depths;
  }

  /** sort_all_nodes. The nodes are sorted by their numbers, and then for the layouts 4 to 11
      by a second criterion. */
  method SortAllNodes(g: Vcg, layoutFlag: int) returns (ghost depth: map<Node, int>, ghost stale: map<Node, set<Node>>)
    requires g.ListsOk() && forall x :: x in g.nodelist.members ==> KeyReady(g, layoutFlag, x)
    requires 4 <= layoutFlag <= 5 ==> AdjOk(g) && EndsActive(g) && g.nodelist.members <= g.active
    modifies g.nodelist, g.nodes`next, g.nodes`before, g.active`mark
    ensures g.ListsOk() && g.nodelist.members == old(g.nodelist.members)
    ensures KeySorted(g, layoutFlag, depth, g.nodelist.elems)
    ensures 4 <= layoutFlag <= 5 && |g.nodelist.elems| >= 2 ==>
              AdjOk(g) && Measured(ListsOf(g), g.nodelist.members, depth, stale)
  {
    hide *;
    ListsKnown(g);
    var s := CopyNodes(g.nodelist);
    depth, stale := map[], map[];
    ListMembers(g.nodelist);
    FewSorted(g, layoutFlag, depth, s);
    if |s| < 2 { return; }
    var order := SortBy(g, 0, map[], s);
    SameElems(s, order);
    order, depth, stale := SecondSort(g, layoutFlag, order);
    RelinkNodes(g, order);
  }

  lemma ListsKnown(g: Vcg)
    requires g.ListsOk()
    ensures g.nodelist.Valid() && g.nodelist.members <= g.nodes
  {
  }

  lemma ListMembers(l: NodeList)
    requires l.Valid()
    ensures Elems(l.elems) == l.members && forall x :: x in l.elems ==> x in l.members
  {
  }

  lemma SameElems(s: seq<Node>, r: seq<Node>)
    requires Elems(s) == Elems(r)
    ensures forall x :: x in r ==> x in s
  {
    forall x | x in r ensures x in s { assert x in Elems(r); }
  }

  lemma FewSorted(g: Vcg, layoutFlag: int, depth: map<Node, int>, s: seq<Node>)
    requires forall x :: x in s ==> KeyReady(g, layoutFlag, x)
    ensures |s| < 2 ==> KeySorted(g, layoutFlag, depth, s)
    ensures forall x :: x in s ==> KeyReady(g, 0, x)
  {
  }

  lemma OtherLayouts(g: Vcg, layoutFlag: int, depth: map<Node, int>, s: seq<Node>)
    requires !(4 <= layoutFlag <= 11) && KeySorted(g, 0, map[], s)
    ensures KeySorted(g, layoutFlag, depth, s)
  {
  }

  /** The order of the list in the other layouts: by depth, or by the numbers of edges that end
      at a node, start at it, or touch it; each of them rising or falling. */
  lemma LayoutOrder(g: Vcg, layoutFlag: int, depth: map<Node, int>, i: nat, j: nat)
    requires KeySorted(g, layoutFlag, depth, g.nodelist.elems) && i < j < |g.nodelist.elems|
    ensures var v, w := g.nodelist.elems[i], g.nodelist.elems[j];
      && (v in depth && w in depth && layoutFlag == 4 ==> depth[v] >= depth[w])
      && (v in depth && w in depth && layoutFlag == 5 ==> depth[v] <= depth[w])
      && (layoutFlag == 6 ==> |Ins(g.listed, v)| <= |Ins(g.listed, w)|)
      && (layoutFlag == 7 ==> |Ins(g.listed, v)| >= |Ins(g.listed, w)|)
      && (layoutFlag == 8 ==> |Outs(g.listed, v)| <= |Outs(g.listed, w)|)
      && (layoutFlag == 9 ==> |Outs(g.listed, v)| >= |Outs(g.listed, w)|)
      && (layoutFlag == 10 ==>
            |Ins(g.listed, v)| + |Outs(g.listed, v)| <= |Ins(g.listed, w)| + |Outs(g.listed, w)|)
      && (layoutFlag == 11 ==>
            |Ins(g.listed, v)| + |Outs(g.listed, v)| >= |Ins(g.listed, w)| + |Outs(g.listed, w)|)
  {
    hide Ins, Outs;
    var s := g.nodelist.elems;
    assert Key(g, layoutFlag, depth, s[i]) <= Key(g, layoutFlag, depth, s[j]);
  }

  /** For the other layouts the nodes have the order of their numbers. */
  lemma SortedIsOrdered(g: Vcg, layoutFlag: int, depth: map<Node, int>)
    requires g.ListsOk() && Numbered(g.nodes) && !(4 <= layoutFlag <= 11)
    requires KeySorted(g, layoutFlag, depth, g.nodelist.elems)
    ensures Ordered(g.nodelist.elems)
  {
    var s := g.nodelist.elems;
    forall i, j | 0 <= i < j < |s| ensures s[i].refnum < s[j].refnum {
      assert Key(g, layoutFlag, depth, s[i]) <= Key(g, layoutFlag, depth, s[j]);
      assert s[i] in g.nodes && s[j] in g.nodes && s[i] != s[j];
    }
  }

  // ---------- the round trip ----------

  /** The reasons decide which nodes are on the node list. */
  lemma ListedAreVisible(g: Vcg)
    requires g.ListsOk()
    ensures g.nodelist.members == VisibleNodes(g.Flags()) && Elems(g.nodelist.elems) == g.nodelist.members
  {
    forall x | x in g.nodes ensures g.FlagsOk(x) {}
  }

  lemma ForestIsRooted(g: Vcg)
    requires g.Forest()
    ensures Rooted(g.Flags())
  {
  }

  /** fold_sg and then unfold_sg: every node is as visible as before. */
  method FoldUnfoldSg(g: Vcg, u: Node, ghost vis: Flagging)
    requires g.ListsOk() && g.Forest() && u in g.nodes && u.sgraph != [] && vis == g.Flags()
    requires UnfoldFlags(FoldFlags(vis, u), u) == vis
    modifies g`nodeanz, g.nodelist, g.graphlist
    modifies g.nodes`next, g.nodes`before, g.nodes`inlist, g.nodes`invisible
    ensures g.ListsOk() && g.Flags() == vis
  {
    hide *;
    FoldSg(g, u);
    UnfoldSg(g, u);
  }

  /** fold_sg and then unfold_sg, with the sorting that ends each folding: every node is as
      visible as before, and for the layouts that keep the order of the specification the
      node list is the same, node by node. */
  method FoldUnfoldSort(g: Vcg, u: Node, layoutFlag: int)
    requires g.ListsOk() && g.Forest() && Numbered(g.nodes) && Ordered(g.nodelist.elems)
    requires u in g.nodes && u.sgraph != [] && u.invisible == UNFOLDED_SGRAPH
    requires Coherent(g.Flags()) && Open(g.Flags(), u) && 0 <= layoutFlag <= 3
    modifies g`nodeanz, g.nodelist, g.graphlist
    modifies g.nodes`next, g.nodes`before, g.nodes`inlist, g.nodes`invisible, g.active`mark
    ensures g.ListsOk() && g.Flags() == old(g.Flags())
    ensures g.nodelist.elems == old(g.nodelist.elems)
  {
    hide *;
    ghost var vis, elems := g.Flags(), g.nodelist.elems;
    FoldUnfoldIsIdentity(g, u, vis);
    ListedAreVisible(g);
    FoldUnfoldSg(g, u, vis);
    NoKeyNeeded(g, layoutFlag);
    ghost var depth, stale := SortAllNodes(g, layoutFlag);
    SortedIsOrdered(g, layoutFlag, depth);
    ListedAreVisible(g);
    OneOrder(elems, g.nodelist.elems);
  }

  lemma FoldUnfoldIsIdentity(g: Vcg, u: Node, vis: Flagging)
    requires g.Forest() && u in g.nodes && vis == g.Flags() && u.invisible == UNFOLDED_SGRAPH
    requires Coherent(vis) && Open(vis, u)
    ensures u in vis && UnfoldFlags(FoldFlags(vis, u), u) == vis
  {
    hide Coherent, Open, FoldFlags, UnfoldFlags;
    ForestIsRooted(g);
    FoldUnfold(vis, u);
  }

  lemma NoKeyNeeded(g: Vcg, layoutFlag: int)
    requires 0 <= layoutFlag <= 3
    ensures forall x :: KeyReady(g, layoutFlag, x)
  {
  }
}
