/** Adjacency lists (folding.c, create_adjedge and delete_adjedge). */
module Adjacency {
  import opened Chains
  import opened GraphTypes
  import opened NodeVisibility

  ghost function Outs(es: set<Edge>, x: Node): set<Edge> {
    set e | e in es && e.start == x
  }

  ghost function Ins(es: set<Edge>, x: Node): set<Edge> {
    set e | e in es && e.end == x
  }

  /** The lists NSUCC and NPRED of x hold exactly the edges of es that start (end) at x. */
  ghost predicate NodeAdj(es: set<Edge>, x: Node, succ: Chain<Edge>, pred: Chain<Edge>)
  {
    && succ.Valid() && pred.Valid()
    && succ.at.Keys == Outs(es, x) && pred.at.Keys == Ins(es, x)
  }

  /** NSUCC and NPRED agree: each listed edge is once in NSUCC of its start and once in
      NPRED of its end, and nowhere else. */
  ghost predicate AdjOk(g: Vcg)
    reads g`active, g`listed, g.active`succ, g.active`pred
  {
    forall x :: x in g.active ==> NodeAdj(g.listed, x, x.succ, x.pred)
  }

  /** The listed edges join nodes whose lists are in force. */
  ghost predicate EndsActive(g: Vcg)
    reads g`active, g`listed
  {
    forall e :: e in g.listed ==> e.start in g.active && e.end in g.active
  }

  lemma OutsAdded(es: set<Edge>, x: Node, e: Edge)
    ensures Outs(es + {e}, x) == Outs(es, x) + if x == e.start then {e} else {}
    ensures Ins(es + {e}, x) == Ins(es, x) + if x == e.end then {e} else {}
  {
  }

  lemma NodeAdjAdded(es: set<Edge>, x: Node, succ: Chain<Edge>, pred: Chain<Edge>, e: Edge)
    requires NodeAdj(es, x, succ, pred) && e !in es
    ensures NodeAdj(es + {e}, x, if x == e.start then succ.Prepend(e) else succ,
                                 if x == e.end then pred.Prepend(e) else pred)
  {
    OutsAdded(es, x, e);
    assert e !in succ.at && e !in pred.at;
    hide Outs, Ins, Chain.Valid, Chain.Prepend, Evolves;
    if x == e.start { PrependOk(succ, e); }
    if x == e.end { PrependOk(pred, e); }
  }

  lemma NodeAdjRemoved(es: set<Edge>, x: Node, succ: Chain<Edge>, pred: Chain<Edge>, e: Edge,
                       succ': Chain<Edge>, pred': Chain<Edge>)
    requires NodeAdj(es, x, succ, pred) && succ'.Valid() && pred'.Valid()
    requires if x == e.start then succ'.at.Keys == succ.at.Keys - {e} else succ' == succ
    requires if x == e.end then pred'.at.Keys == pred.at.Keys - {e} else pred' == pred
    ensures NodeAdj(es - {e}, x, succ', pred')
  {
  }

  lemma ListsAreValid(g: Vcg)
    requires AdjOk(g)
    ensures forall x :: x in g.active ==> x.succ.Valid() && x.succ.at.Keys == Outs(g.listed, x)
    ensures forall x :: x in g.active ==> x.pred.Valid() && x.pred.at.Keys == Ins(g.listed, x)
  {
  }

  lemma ListsStay(g: Vcg)
    requires AdjOk(g)
    ensures forall x :: x in g.active ==> Evolves(x.succ, x.succ) && Evolves(x.pred, x.pred)
  {
    forall x | x in g.active ensures Evolves(x.succ, x.succ) && Evolves(x.pred, x.pred) {
      EvolvesSelf(x.succ);
      EvolvesSelf(x.pred);
    }
  }

  /** The lists of x when e has been put in front of those of its ends. */
  ghost predicate ListsGrow(es: set<Edge>, e: Edge, x: Node, succ: Chain<Edge>, pred: Chain<Edge>)
  {
    var succ', pred' := if x == e.start then succ.Prepend(e) else succ, if x == e.end then pred.Prepend(e) else pred;
    NodeAdj(es + {e}, x, succ', pred') && Evolves(succ, succ') && Evolves(pred, pred')
  }

  lemma ListsDoGrow(es: set<Edge>, e: Edge, x: Node, succ: Chain<Edge>, pred: Chain<Edge>)
    requires NodeAdj(es, x, succ, pred) && e !in es
    ensures ListsGrow(es, e, x, succ, pred)
  {
    hide Evolves;
    NodeAdjAdded(es, x, succ, pred, e);
    if x == e.start { PrependOk(succ, e); }
    if x == e.end { PrependOk(pred, e); }
    EvolvesSelf(succ);
    EvolvesSelf(pred);
  }

  /** The end of create_adjedge, for an edge that is not listed. */
  method PutInLists(g: Vcg, e: Edge)
    requires AdjOk(g) && e.start in g.active && e.end in g.active && e !in g.listed
    modifies g`listed, e.start`succ, e.end`pred, e`invisible
    ensures AdjOk(g) && g.listed == old(g.listed) + {e} && !e.invisible
    ensures forall x :: x in g.active ==> Evolves(old(x.succ), x.succ) && Evolves(old(x.pred), x.pred)
  {
    hide Chain.Valid, Chain.Prepend, NodeAdj, Evolves, ListsGrow;
    forall x | x in g.active ensures ListsGrow(g.listed, e, x, x.succ, x.pred) {
      ListsDoGrow(g.listed, e, x, x.succ, x.pred);
    }
    PrependAll(g, e);
  }

  method PrependAll(g: Vcg, e: Edge)
    requires e.start in g.active && e.end in g.active
    requires forall x :: x in g.active ==> ListsGrow(g.listed, e, x, x.succ, x.pred)
    modifies g`listed, e.start`succ, e.end`pred, e`invisible
    ensures AdjOk(g) && g.listed == old(g.listed) + {e} && !e.invisible
    ensures forall x :: x in g.active ==> Evolves(old(x.succ), x.succ) && Evolves(old(x.pred), x.pred)
  {
    hide Chain.Valid, Chain.Prepend, NodeAdj, Evolves;
    e.end.pred := e.end.pred.Prepend(e);
    e.start.succ := e.start.succ.Prepend(e);
    e.invisible := false;
    g.listed := g.listed + {e};
  }

  /** An edge between active nodes is in their lists iff it is listed. */
  lemma EndsFacts(g: Vcg, e: Edge)
    requires AdjOk(g) && e.start in g.active && e.end in g.active
    ensures e.start.succ.Valid() && (e in e.start.succ.at <==> e in g.listed)
    ensures e.end.pred.Valid() && (e in e.end.pred.at <==> e in g.listed)
  {
    ListsAreValid(g);
  }

  /** create_adjedge. */
  method CreateAdjEdge(g: Vcg, e: Edge)
    requires AdjOk(g) && e.start in g.active && e.end in g.active
    modifies g`listed, e.start`succ, e.end`pred, e`invisible
    ensures AdjOk(g) && g.listed == old(g.listed) + {e}
    ensures e.invisible == (old(e in g.listed && e.invisible))
    ensures forall x :: x in g.active ==> Evolves(old(x.succ), x.succ) && Evolves(old(x.pred), x.pred)
  {
    hide *;
    ListsStay(g);
    EndsFacts(g, e);
    var b := Contains(e.start.succ, e);
    if b { return; }
    b := Contains(e.end.pred, e);
    if b { return; }
    PutInLists(g, e);
  }

  /** delete_adjedge. */
  method DeleteAdjEdge(g: Vcg, e: Edge)
    requires AdjOk(g) && e.start in g.active && e.end in g.active
    modifies g`listed, e.start`succ, e.end`pred, e`invisible
    ensures AdjOk(g) && g.listed == old(g.listed) - {e} && e.invisible
    ensures e.start.succ.at == old(e.start.succ.at) - {e} && e.end.pred.at == old(e.end.pred.at) - {e}
    ensures forall x :: x in g.active ==> Evolves(old(x.succ), x.succ) && Evolves(old(x.pred), x.pred)
  {
    hide Chain.Valid, Evolves, Outs, Ins;
    ghost var es := g.listed;
    var s, t := e.start, e.end;
    ListsStay(g);
    var c := Remove(s.succ, e);
    s.succ := c;
    c := Remove(t.pred, e);
    t.pred := c;
    e.invisible := true;
    g.listed := es - {e};
    forall x | x in g.active ensures NodeAdj(g.listed, x, x.succ, x.pred) {
      assert old(NodeAdj(es, x, x.succ, x.pred));
      NodeAdjRemoved(es, x, old(x.succ), old(x.pred), e, x.succ, x.pred);
    }
  }

  /** delete_adjedge of one edge and then create_adjedge of another. */
  method ExchangeAdjEdge(g: Vcg, d: Edge, e: Edge)
    requires AdjOk(g) && d.start in g.active && d.end in g.active && e.start in g.active && e.end in g.active
    requires d != e
    modifies g`listed, g.active`succ, g.active`pred, d`invisible, e`invisible
    ensures AdjOk(g) && g.listed == old(g.listed) - {d} + {e}
    ensures e.invisible == (old(e in g.listed && e.invisible))
    ensures forall x :: x in g.active ==> Evolves(old(x.succ), x.succ) && Evolves(old(x.pred), x.pred)
  {
    hide AdjOk, Evolves, Chain.Valid;
    DeleteAdjEdge(g, d);
    ListsAreValid(g);
    label M:
    CreateAdjEdge(g, e);
    ListsAreValid(g);
    forall x | x in g.active ensures Evolves(old(x.succ), x.succ) && Evolves(old(x.pred), x.pred) {
      EvolvesTrans(old(x.succ), old@M(x.succ), x.succ);
      EvolvesTrans(old(x.pred), old@M(x.pred), x.pred);
    }
  }
}
