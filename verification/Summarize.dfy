/** The removal of duplicate edges (folding.c, summarize_edges). */
module Summarize {
  import opened Chains
  import opened GraphTypes
  import opened NodeVisibility
  import opened Adjacency

  /** e2 can stand for e1: the same ends and the same looks, and neither thinner nor of lower
      priority. Labels are not compared. */
  predicate Covers(e2: Edge, e1: Edge)
  {
    && e1.start == e2.start && e1.end == e2.end && e1.anchor == e2.anchor
    && e1.attrs.lstyle == e2.attrs.lstyle && e1.attrs.horder == e2.attrs.horder
    && e1.attrs.eclass == e2.attrs.eclass && e1.attrs.color == e2.attrs.color
    && e1.attrs.arrowsize == e2.attrs.arrowsize && e1.attrs.arrowbsize == e2.attrs.arrowbsize
    && e1.attrs.arrowstyle == e2.attrs.arrowstyle && e1.attrs.arrowbstyle == e2.attrs.arrowbstyle
    && e1.attrs.arrowcol == e2.attrs.arrowcol && e1.attrs.arrowbcol == e2.attrs.arrowbcol
    && e1.attrs.thickness <= e2.attrs.thickness && e1.attrs.prio <= e2.attrs.prio
  }

  /** What stands for an edge joins the same nodes at the same anchor, and differs from it at
      most in label and label colour, and in being thicker or of higher priority. */
  lemma CoversMeans(e2: Edge, e1: Edge)
    ensures var a, b := e1.attrs, e2.attrs;
      Covers(e2, e1) <==>
        && e2.start == e1.start && e2.end == e1.end && e2.anchor == e1.anchor
        && b == a.(text := b.text, labelcol := b.labelcol, thickness := b.thickness, prio := b.prio)
        && b.thickness >= a.thickness && b.prio >= a.prio
  {
  }

  /** Another edge of es covers e. */
  ghost predicate Covered(es: set<Edge>, e: Edge)
  {
    exists f :: f in es && f != e && Covers(f, e)
  }

  /** es are what remains of es0: for every removed edge one that covers it is still there. */
  ghost predicate Remains(es0: set<Edge>, es: set<Edge>)
  {
    es <= es0 && forall d :: d in es0 - es ==> Covered(es, d)
  }

  lemma RemoveCovered(es0: set<Edge>, es: set<Edge>, e: Edge)
    requires Remains(es0, es) && e in es && Covered(es, e)
    ensures Remains(es0, es - {e})
  {
    var f :| f in es && f != e && Covers(f, e);
    forall d | d in es0 - (es - {e}) ensures Covered(es - {e}, d) {
      if d == e {
        assert f in es - {e};
      } else {
        assert d in es0 - es;
        var h :| h in es && h != d && Covers(h, d);
        if h == e { assert f in es - {e} && f != d && Covers(f, d); } else { assert h in es - {e}; }
      }
    }
  }

  lemma FewerCover(es: set<Edge>, fs: set<Edge>, e: Edge)
    requires fs <= es && Covered(fs, e)
    ensures Covered(es, e)
  {
    var f :| f in fs && f != e && Covers(f, e);
    assert f in es;
  }

  /** Removing covered edges disconnects nothing. */
  lemma StillConnected(es0: set<Edge>, es: set<Edge>, s: Node, t: Node)
    requires Remains(es0, es)
    ensures (exists e :: e in es && e.start == s && e.end == t)
        <==> (exists e :: e in es0 && e.start == s && e.end == t)
  {
    if e :| e in es0 && e.start == s && e.end == t {
      if e !in es {
        assert Covered(es, e);
        var f :| f in es && f != e && Covers(f, e);
        assert f.start == s && f.end == t;
      }
    }
  }

  /** The edges in front of the cursor a: those that are linked in older cells, and the rest
      are not covered. */
  ghost predicate Checked(l: Chain<Edge>, a: int)
  {
    && a >= -1 && (a >= 0 ==> l.Live(a))
    && forall e :: e in l.at && l.at[e] > a ==> !Covered(l.at.Keys, e)
  }

  /** The inner loop. */
  method FindCover(l: Chain<Edge>, e1: Edge) returns (found: bool)
    requires l.Valid() && e1 in l.at
    ensures found <==> Covered(l.at.Keys, e1)
  {
    var c := l.head;
    while c >= 0
      invariant -1 <= c < |l.cells| && (c >= 0 ==> l.Live(c))
      invariant forall e :: e in l.at && l.at[e] > c ==> e == e1 || !Covers(e, e1)
      decreases c
    {
      var e2 := l.cells[c].kante;
      if e2 != e1 && Covers(e2, e1) { return true; }
      assert l.CellOk(c);
      c := l.cells[c].next;
    }
    found := false;
  }

  /** The cursor after its edge was kept, or was unlinked. */
  lemma NextChecked(l: Chain<Edge>, l': Chain<Edge>, a: int)
    requires l.Valid() && l'.Valid() && a >= 0 && Checked(l, a) && Evolves(l, l')
    requires if Covered(l.at.Keys, l.cells[a].kante) then l'.at == l.at - {l.cells[a].kante} else l' == l
    ensures Checked(l', l.cells[a].next) && l.cells[a].next < a
  {
    var b := l.cells[a].next;
    assert l.CellOk(a);
    assert l'.at.Keys <= l.at.Keys;
    if b >= 0 {
      assert LinkEvolves(l, l', b);
      assert l.Live(b) && l.cells[b].kante != l.cells[a].kante;
    }
    forall e | e in l'.at && l'.at[e] > b ensures !Covered(l'.at.Keys, e) {
      assert l'.at[e] == l.at[e];
      if Covered(l'.at.Keys, e) { FewerCover(l.at.Keys, l'.at.Keys, e); }
      assert l.at[e] >= a;
      assert l.at[e] == a ==> e == l.cells[a].kante;
    }
  }

  /** The result for the edges from v: none of them is covered by another one. */
  ghost predicate Tidy(es: set<Edge>, v: Node)
  {
    forall e :: e in Outs(es, v) ==> !Covered(Outs(es, v), e)
  }

  /** Covering edges start at the same node. */
  lemma CoverStaysOut(es: set<Edge>, v: Node, e: Edge)
    requires e in es && e.start == v
    ensures Covered(Outs(es, v), e) <==> Covered(es, e)
  {
    if Covered(es, e) {
      var f :| f in es && f != e && Covers(f, e);
      assert f in Outs(es, v);
    }
    if Covered(Outs(es, v), e) { FewerCover(es, Outs(es, v), e); }
  }

  /** delete_adjedge of a covered edge. */
  method DropCovered(g: Vcg, v: Node, e: Edge, ghost es0: set<Edge>)
    requires AdjOk(g) && EndsActive(g) && v in g.active && Remains(es0, g.listed)
    requires e in g.listed && e.start == v && Covered(g.listed, e)
    modifies g`listed, g.active`succ, g.active`pred, e`invisible
    ensures AdjOk(g) && EndsActive(g) && Remains(es0, g.listed) && g.listed == old(g.listed) - {e}
    ensures v.succ.Valid() && v.succ.at == old(v.succ.at) - {e} && Evolves(old(v.succ), v.succ)
  {
    hide AdjOk, Evolves, Chain.Valid, Covered, Remains;
    RemoveCovered(es0, g.listed, e);
    DeleteAdjEdge(g, e);
    ListsAreValid(g);
  }

  /** A round of the loop over NSUCC(v). */
  method SummarizeCell(g: Vcg, v: Node, a: nat, ghost es0: set<Edge>) returns (b: int)
    requires AdjOk(g) && EndsActive(g) && v in g.active && Remains(es0, g.listed) && Checked(v.succ, a)
    modifies g`listed, g.active`succ, g.active`pred, g.listed`invisible
    ensures AdjOk(g) && EndsActive(g) && Remains(es0, g.listed) && Checked(v.succ, b) && b < a
    ensures g.listed <= old(g.listed) && forall e :: e in old(g.listed) && e.start != v ==> e in g.listed
  {
    hide *;
    CursorIsListed(g, v, a);
    ghost var l := v.succ;
    var e := v.succ.cells[a].kante;
    b := v.succ.cells[a].next;
    CoverStaysOut(g.listed, v, e);
    var found := FindCover(v.succ, e);
    EvolvesSelf(l);
    if found { DropCovered(g, v, e, es0); }
    NextChecked(l, v.succ, a);
  }

  lemma CursorIsListed(g: Vcg, v: Node, a: nat)
    requires AdjOk(g) && v in g.active && Checked(v.succ, a)
    ensures a < |v.succ.cells| && v.succ.cells[a].kante in v.succ.at
    ensures v.succ.cells[a].kante in g.listed && v.succ.cells[a].kante.start == v
    ensures v.succ.Valid() && v.succ.at.Keys == Outs(g.listed, v)
  {
    ListsAreValid(g);
    assert v.succ.cells[a].kante in Outs(g.listed, v);
  }

  lemma NothingRemoved(es: set<Edge>)
    ensures Remains(es, es)
  {
  }

  lemma HeadChecked(l: Chain<Edge>)
    requires l.Valid()
    ensures Checked(l, l.head)
  {
  }

  lemma AllChecked(g: Vcg, v: Node, a: int)
    requires AdjOk(g) && v in g.active && Checked(v.succ, a) && a < 0
    ensures Tidy(g.listed, v)
  {
    ListsAreValid(g);
  }

  /** The loop over NSUCC(v). */
  method SummarizeNode(g: Vcg, v: Node, ghost es0: set<Edge>)
    requires AdjOk(g) && EndsActive(g) && v in g.active && Remains(es0, g.listed)
    modifies g`listed, g.active`succ, g.active`pred, g.listed`invisible
    ensures AdjOk(g) && EndsActive(g) && Remains(es0, g.listed) && Tidy(g.listed, v)
    ensures g.listed <= old(g.listed) && forall e :: e in old(g.listed) && e.start != v ==> e in g.listed
  {
    hide AdjOk, Evolves, Chain.Valid, Checked, Remains, Tidy;
    ListsAreValid(g);
    HeadChecked(v.succ);
    var a := v.succ.head;
    while a >= 0
      invariant AdjOk(g) && EndsActive(g) && Remains(es0, g.listed) && Checked(v.succ, a)
      invariant g.listed <= old(g.listed) && forall e :: e in old(g.listed) && e.start != v ==> e in g.listed
      decreases a
    {
      a := SummarizeCell(g, v, a, es0);
    }
    AllChecked(g, v, a);
  }

  /** Work on the i-th node leaves those before it tidy. */
  lemma KeepsTidy(es: set<Edge>, es': set<Edge>, elems: seq<Node>, i: nat)
    requires i < |elems| && Distinct(elems) && es' <= es && Tidy(es', elems[i])
    requires forall k :: 0 <= k < i ==> Tidy(es, elems[k])
    requires forall e :: e in es && e.start != elems[i] ==> e in es'
    ensures forall k :: 0 <= k <= i ==> Tidy(es', elems[k])
  {
    forall k | 0 <= k < i ensures Tidy(es', elems[k]) {
      assert elems[k] != elems[i];
      assert Outs(es', elems[k]) == Outs(es, elems[k]);
    }
  }

  /** summarize_edges: no listed edge that starts on the node list is covered by another one,
      those that start at label nodes are as before, every removed edge is covered by one that
      is still listed, and the same nodes are connected. */
  method SummarizeEdges(g: Vcg)
    requires g.nodelist.Valid() && AdjOk(g) && EndsActive(g) && g.nodelist.members <= g.active
    modifies g`listed, g.active`succ, g.active`pred, g.listed`invisible
    ensures AdjOk(g) && Remains(old(g.listed), g.listed)
    ensures forall e :: e in g.listed && e.start in g.nodelist.members ==> !Covered(g.listed, e)
    ensures forall e :: e in old(g.listed) && e.start !in g.nodelist.members ==> e in g.listed
  {
    hide AdjOk, Remains, Tidy;
    ghost var es0, elems := g.listed, g.nodelist.elems;
    NothingRemoved(es0);
    var v := g.nodelist.first;
    ghost var i := 0;
    while v != null
      invariant 0 <= i <= |elems| && v == if i < |elems| then elems[i] else null
      invariant AdjOk(g) && EndsActive(g) && Remains(es0, g.listed) && g.listed <= es0
      invariant forall k :: 0 <= k < i ==> Tidy(g.listed, elems[k])
      invariant forall e :: e in es0 && e.start !in g.nodelist.members ==> e in g.listed
      decreases |elems| - i
    {
      assert LinkedAt(g.nodelist.elems, i);
      ghost var es := g.listed;
      SummarizeNode(g, v, es0);
      KeepsTidy(es, g.listed, elems, i);
      v := v.next;
      i := i + 1;
    }
    AllTidy(g, elems);
  }

  lemma AllTidy(g: Vcg, elems: seq<Node>)
    requires forall k :: 0 <= k < |elems| ==> Tidy(g.listed, elems[k])
    ensures forall e :: e in g.listed && e.start in elems ==> !Covered(g.listed, e)
  {
    forall e | e in g.listed && e.start in elems ensures !Covered(g.listed, e) {
      assert Tidy(g.listed, e.start) && e in Outs(g.listed, e.start);
      CoverStaysOut(g.listed, e.start, e);
    }
  }
}
