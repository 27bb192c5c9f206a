/** The depth-first search that measures nodes for the sorting (folding.c, no_dfs). */
module DepthSearch {
  import opened Chains
  import opened GraphTypes
  import opened NodeVisibility
  import opened Adjacency

  /** The lists of successors, in the order in which they are linked. */
  type Lists = map<Node, seq<Edge>>

  ghost predicate Closed(adj: Lists)
  {
    forall x, e :: x in adj && e in adj[x] ==> e.start == x && e.end in adj
  }

  /** The result of a search, and the nodes that are marked after it. */
  datatype Found = Found(depth: nat, marks: set<Node>)

  ghost function Dfs(adj: Lists, marks: set<Node>, v: Node): (r: Found)
    requires Closed(adj) && v in adj
    ensures marks <= r.marks && v in r.marks
    decreases |adj.Keys - marks|, 0
  {
    if v in marks then Found(0, marks)
    else
      Smaller(adj.Keys, marks, marks + {v}, v);
      Along(adj, marks + {v}, adj[v], 0)
  }

  ghost function Along(adj: Lists, marks: set<Node>, es: seq<Edge>, res: nat): (r: Found)
    requires Closed(adj) && forall e :: e in es ==> e.end in adj
    ensures marks <= r.marks
    decreases |adj.Keys - marks|, 1 + |es|
  {
    if es == [] then Found(res, marks)
    else
      var d := Dfs(adj, marks, es[0].end);
      NoLarger(adj.Keys, marks, d.marks);
      Along(adj, d.marks, es[1..], Max(res, d.depth + 1))
  }

  function Max(a: nat, b: nat): nat {
    if b > a then b else a
  }

  lemma NoLarger(nodes: set<Node>, marks: set<Node>, marks': set<Node>)
    requires marks <= marks'
    ensures |nodes - marks'| <= |nodes - marks|
  {
    assert nodes - marks == (nodes - marks') + (nodes * marks' - marks);
  }

  lemma Smaller(nodes: set<Node>, marks: set<Node>, marks': set<Node>, v: Node)
    requires marks <= marks' && v in nodes && v in marks' - marks
    ensures |nodes - marks'| < |nodes - marks|
  {
    NoLarger(nodes, marks + {v}, marks');
    assert nodes - marks == (nodes - (marks + {v})) + {v};
  }

  // ---------- what the search finds ----------

  /** The edges w lead from v to x. */
  ghost predicate Leads(adj: Lists, v: Node, w: seq<Edge>, x: Node)
    decreases |w|
  {
    if w == [] then v == x else v in adj && w[0] in adj[v] && Leads(adj, w[0].end, w[1..], x)
  }

  /** No node that w leaves is left twice or marked. */
  ghost predicate Simple(w: seq<Edge>, marks: set<Node>)
  {
    && (forall i :: 0 <= i < |w| ==> w[i].start !in marks)
    && forall i, j :: 0 <= i < j < |w| ==> w[i].start != w[j].start
  }

  /** After the first edge, which is one of es, the edges w lead on and avoid the marks. */
  ghost predicate Branch(adj: Lists, marks: set<Node>, es: seq<Edge>, w: seq<Edge>)
  {
    w == [] || (w[0] in es && Simple(w[1..], marks) && exists x :: x in adj && Leads(adj, w[0].end, w[1..], x))
  }

  /** The depth is the length of a way from v that leaves no node twice and no marked node. */
  lemma {:induction false} DepthIsWay(adj: Lists, marks: set<Node>, v: Node) returns (w: seq<Edge>, x: Node)
    requires Closed(adj) && v in adj
    ensures |w| == Dfs(adj, marks, v).depth && Simple(w, marks) && x in adj && Leads(adj, v, w, x)
    decreases |adj.Keys - marks|, 0
  {
    w, x := [], v;
    if v !in marks {
      Smaller(adj.Keys, marks, marks + {v}, v);
      w := AlongIsWay(adj, marks + {v}, marks + {v}, adj[v], adj[v], []);
      if w != [] {
        x :| x in adj && Leads(adj, w[0].end, w[1..], x);
        SimpleStep(w, marks, v);
      }
    }
  }

  lemma SimpleStep(w: seq<Edge>, marks: set<Node>, v: Node)
    requires w != [] && w[0].start == v && v !in marks && Simple(w[1..], marks + {v})
    ensures Simple(w, marks)
  {
    forall i | 1 <= i < |w| ensures w[i].start !in marks && w[i].start != v { assert w[i] == w[1..][i - 1]; }
    forall i, j | 1 <= i < j < |w| ensures w[i].start != w[j].start {
      assert w[i] == w[1..][i - 1] && w[j] == w[1..][j - 1];
    }
  }

  lemma {:induction false} AlongIsWay(adj: Lists, base: set<Node>, marks: set<Node>, es: seq<Edge>, all: seq<Edge>,
                                      w0: seq<Edge>)
    returns (w: seq<Edge>)
    requires Closed(adj) && base <= marks && (forall e :: e in es ==> e.end in adj && e in all)
    requires Branch(adj, base, all, w0)
    ensures |w| == Along(adj, marks, es, |w0|).depth && Branch(adj, base, all, w)
    decreases |adj.Keys - marks|, 1 + |es|
  {
    w := w0;
    if es != [] {
      var d := Dfs(adj, marks, es[0].end);
      var w1, x := DepthIsWay(adj, marks, es[0].end);
      NoLarger(adj.Keys, marks, d.marks);
      var w2 := if |w1| + 1 > |w0| then [es[0]] + w1 else w0;
      if |w1| + 1 > |w0| { assert w2[1..] == w1; }
      w := AlongIsWay(adj, base, d.marks, es[1..], all, w2);
    }
  }

  /** The nodes that the search has newly marked have all their successors marked. */
  ghost predicate Finished(adj: Lists, marks: set<Node>, marks': set<Node>)
  {
    forall x :: x in marks' - marks ==> x in adj && forall e :: e in adj[x] ==> e.end in marks'
  }

  lemma {:induction false} DfsFinishes(adj: Lists, marks: set<Node>, v: Node)
    requires Closed(adj) && v in adj
    ensures Finished(adj, marks, Dfs(adj, marks, v).marks)
    decreases |adj.Keys - marks|, 0
  {
    if v !in marks {
      Smaller(adj.Keys, marks, marks + {v}, v);
      AlongFinishes(adj, marks + {v}, adj[v], 0);
    }
  }

  lemma {:induction false} AlongFinishes(adj: Lists, marks: set<Node>, es: seq<Edge>, res: nat)
    requires Closed(adj) && forall e :: e in es ==> e.end in adj
    ensures Finished(adj, marks, Along(adj, marks, es, res).marks)
    ensures forall e :: e in es ==> e.end in Along(adj, marks, es, res).marks
    decreases |adj.Keys - marks|, 1 + |es|
  {
    if es != [] {
      var d := Dfs(adj, marks, es[0].end);
      DfsFinishes(adj, marks, es[0].end);
      NoLarger(adj.Keys, marks, d.marks);
      AlongFinishes(adj, d.marks, es[1..], Max(res, d.depth + 1));
      assert es == [es[0]] + es[1..];
    }
  }

  lemma {:induction false} LeadsInside(adj: Lists, inside: set<Node>, v: Node, w: seq<Edge>, x: Node)
    requires v in inside && Finished(adj, {}, inside) && Leads(adj, v, w, x)
    ensures x in inside
    decreases |w|
  {
    if w != [] { LeadsInside(adj, inside, w[0].end, w[1..], x); }
  }

  /** The newly marked nodes can be reached. */
  lemma {:induction false} MarkedIsReached(adj: Lists, marks: set<Node>, v: Node, x: Node) returns (w: seq<Edge>)
    requires Closed(adj) && v in adj && x in Dfs(adj, marks, v).marks - marks
    ensures Leads(adj, v, w, x)
    decreases |adj.Keys - marks|, 0
  {
    w := [];
    if x != v {
      Smaller(adj.Keys, marks, marks + {v}, v);
      w := AlongReaches(adj, marks + {v}, adj[v], 0, x);
    }
  }

  lemma {:induction false} AlongReaches(adj: Lists, marks: set<Node>, es: seq<Edge>, res: nat, x: Node)
    returns (w: seq<Edge>)
    requires Closed(adj) && (forall e :: e in es ==> e.end in adj) && x in Along(adj, marks, es, res).marks - marks
    ensures w != [] && w[0] in es && Leads(adj, w[0].end, w[1..], x)
    decreases |adj.Keys - marks|, 1 + |es|
  {
    var d := Dfs(adj, marks, es[0].end);
    NoLarger(adj.Keys, marks, d.marks);
    if x in d.marks {
      var w1 := MarkedIsReached(adj, marks, es[0].end, x);
      w := [es[0]] + w1;
      assert w[1..] == w1;
    } else {
      w := AlongReaches(adj, d.marks, es[1..], Max(res, d.depth + 1), x);
    }
  }

  /** With nothing marked before, the search marks exactly the nodes that can be reached. */
  lemma MarksAreReachable(adj: Lists, v: Node, x: Node)
    requires Closed(adj) && v in adj
    ensures x in Dfs(adj, {}, v).marks ==> exists w :: Leads(adj, v, w, x)
    ensures forall w :: Leads(adj, v, w, x) ==> x in Dfs(adj, {}, v).marks
  {
    var marks := Dfs(adj, {}, v).marks;
    DfsFinishes(adj, {}, v);
    if x in marks { var w := MarkedIsReached(adj, {}, v, x); }
    forall w | Leads(adj, v, w, x) ensures x in marks { LeadsInside(adj, marks, v, w, x); }
  }

  // ---------- the method ----------

  ghost function ListsOf(g: Vcg): (r: Lists)
    requires AdjOk(g)
    reads g`active, g`listed, g.active`succ, g.active`pred
    ensures r.Keys == g.active
  {
    map x | x in g.active :: ListOf(g, x)
  }

  ghost function ListOf(g: Vcg, x: Node): (r: seq<Edge>)
    requires AdjOk(g) && x in g.active
    reads g`active, g`listed, g.active`succ, g.active`pred
  {
    ListsAreValid(g);
    Walk(x.succ, x.succ.head)
  }

  lemma ListMeets(g: Vcg, x: Node)
    requires AdjOk(g) && x in g.active
    ensures Elems(ListOf(g, x)) == Outs(g.listed, x)
  {
    ListsAreValid(g);
    WalkMeets(x.succ, x.succ.head);
    hide AdjOk, Outs, Chain.Valid;
  }

  lemma ListsAreClosed(g: Vcg)
    requires AdjOk(g) && EndsActive(g)
    ensures Closed(ListsOf(g)) && forall x, e :: x in g.active && e in ListsOf(g)[x] ==> e in g.listed
  {
    hide AdjOk, ListOf;
    forall x, e | x in g.active && e in ListsOf(g)[x] ensures e in Outs(g.listed, x) {
      ListMeets(g, x);
      assert e in Elems(ListOf(g, x));
    }
  }

  ghost function Marked(g: Vcg): set<Node>
    reads g`active, g.active`mark
  {
    set x | x in g.active && x.mark
  }

  /** The rest of the loop over the successors, from the cell a on. */
  lemma LoopStep(adj: Lists, c: Chain<Edge>, a: nat, marks: set<Node>, res: nat)
    requires Closed(adj) && c.Valid() && a < |c.cells| && forall e :: e in Walk(c, a) ==> e.end in adj
    ensures -1 <= c.cells[a].next < a && c.cells[a].kante.end in adj
    ensures forall e :: e in Walk(c, c.cells[a].next) ==> e.end in adj
    ensures var d := Dfs(adj, marks, c.cells[a].kante.end);
      Along(adj, marks, Walk(c, a), res) == Along(adj, d.marks, Walk(c, c.cells[a].next), Max(res, d.depth + 1))
  {
    assert c.CellOk(a);
    var rest := Walk(c, c.cells[a].next);
    assert Walk(c, a) == [c.cells[a].kante] + rest;
    assert Walk(c, a)[1..] == rest;
    assert c.cells[a].kante in Walk(c, a);
  }

  lemma ListKnown(g: Vcg, n: Node, adj: Lists)
    requires AdjOk(g) && EndsActive(g) && adj == ListsOf(g) && n in g.active
    ensures Closed(adj) && adj.Keys == g.active && n.succ.Valid() && -1 <= n.succ.head < |n.succ.cells|
    ensures adj[n] == Walk(n.succ, n.succ.head) && forall e :: e in adj[n] ==> e.end in adj
  {
    ListsAreClosed(g);
    ListsAreValid(g);
  }

  lemma MarkedNow(g: Vcg, n: Node, adj: Lists)
    requires adj.Keys == g.active && n in g.active && Closed(adj)
    ensures n.mark ==> Dfs(adj, Marked(g), n) == Found(0, Marked(g))
    ensures !n.mark ==> |adj.Keys - (Marked(g) + {n})| < |adj.Keys - Marked(g)|
    ensures !n.mark ==> Dfs(adj, Marked(g), n) == Along(adj, Marked(g) + {n}, adj[n], 0)
  {
    if !n.mark { Smaller(adj.Keys, Marked(g), Marked(g) + {n}, n); }
  }

  method Mark(g: Vcg, n: Node)
    requires n in g.active
    modifies n`mark
    ensures Marked(g) == old(Marked(g)) + {n}
  {
    n.mark := true;
  }

  /** The loop over the successors of n will end with `total`. */
  ghost predicate Visiting(g: Vcg, n: Node, adj: Lists, total: Found, edge: int, res: nat)
    reads g`active, g.active`mark, n`succ
  {
    && Closed(adj) && n.succ.Valid() && -1 <= edge < |n.succ.cells|
    && (forall e :: e in Walk(n.succ, edge) ==> e.end in adj)
    && total == Along(adj, Marked(g), Walk(n.succ, edge), res)
  }

  lemma VisitStarts(g: Vcg, n: Node, adj: Lists)
    requires Closed(adj) && n in adj && n.succ.Valid() && -1 <= n.succ.head < |n.succ.cells|
    requires adj[n] == Walk(n.succ, n.succ.head)
    ensures Visiting(g, n, adj, Along(adj, Marked(g), adj[n], 0), n.succ.head, 0)
  {
    hide Along;
  }

  lemma VisitNext(g: Vcg, n: Node, adj: Lists, total: Found, edge: nat, res: nat)
    requires Visiting(g, n, adj, total, edge, res)
    ensures edge < |n.succ.cells| && -1 <= n.succ.cells[edge].next < edge && n.succ.cells[edge].kante.end in adj
    ensures n.succ.Valid() && Closed(adj) && forall e :: e in Walk(n.succ, n.succ.cells[edge].next) ==> e.end in adj
    ensures var d := Dfs(adj, Marked(g), n.succ.cells[edge].kante.end);
      total == Along(adj, d.marks, Walk(n.succ, n.succ.cells[edge].next), Max(res, d.depth + 1))
  {
    LoopStep(adj, n.succ, edge, Marked(g), res);
  }

  lemma VisitEnds(g: Vcg, n: Node, adj: Lists, total: Found, edge: int, res: nat)
    requires Visiting(g, n, adj, total, edge, res) && edge < 0
    ensures total == Found(res, Marked(g))
  {
  }

  lemma Visited(g: Vcg, n: Node, adj: Lists, total: Found, edge: int, res: nat)
    requires Closed(adj) && n.succ.Valid() && -1 <= edge < |n.succ.cells|
    requires forall e :: e in Walk(n.succ, edge) ==> e.end in adj
    requires total == Along(adj, Marked(g), Walk(n.succ, edge), res)
    ensures Visiting(g, n, adj, total, edge, res)
  {
  }

  /** A round of the loop in no_dfs. */
  method Visit(g: Vcg, n: Node, edge: nat, res: nat, ghost adj: Lists, ghost total: Found)
    returns (next: int, res': nat)
    requires AdjOk(g) && EndsActive(g) && adj == ListsOf(g) && n in g.active && Visiting(g, n, adj, total, edge, res)
    modifies g.active`mark
    ensures ListsOf(g) == adj && Visiting(g, n, adj, total, next, res') && next < edge && old(Marked(g)) <= Marked(g)
    decreases |adj.Keys - Marked(g)|, 1
  {
    hide *;
    ListKnown(g, n, adj);
    VisitNext(g, n, adj, total, edge, res);
    var z := NoDfs(g, n.succ.cells[edge].kante.end, adj);
    res' := Max(res, z + 1);
    next := n.succ.cells[edge].next;
    Visited(g, n, adj, total, next, res');
  }

  /** no_dfs. */
  method NoDfs(g: Vcg, n: Node, ghost adj: Lists) returns (res: nat)
    requires AdjOk(g) && EndsActive(g) && adj == ListsOf(g) && n in g.active
    modifies g.active`mark
    ensures ListsOf(g) == adj && Closed(adj) && Found(res, Marked(g)) == Dfs(adj, old(Marked(g)), n)
    decreases |adj.Keys - Marked(g)|, 0
  {
    hide *;
    ListKnown(g, n, adj);
    ghost var marks := Marked(g);
    MarkedNow(g, n, adj);
    if n.mark { return 0; }
    Mark(g, n);
    ghost var total := Along(adj, marks + {n}, adj[n], 0);
    VisitStarts(g, n, adj);
    res := 0;
    var edge := n.succ.head;
    while edge >= 0
      invariant Visiting(g, n, adj, total, edge, res) && marks + {n} <= Marked(g) && ListsOf(g) == adj
      decreases edge
    {
      NoLarger(adj.Keys, marks + {n}, Marked(g));
      edge, res := Visit(g, n, edge, res, adj, total);
    }
    VisitEnds(g, n, adj, total, edge, res);
  }
}
