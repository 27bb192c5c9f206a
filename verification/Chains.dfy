/** Adjacency lists as they are linked in memory (alloc.h, ADJEDGE).

    A list is an arena of cons cells: a cell is named by the number under which it was put
    in front of the list, `next` holds the number of the following cell (-1 for NULL). A
    cell that delete_adjedge unlinks stays in the arena with its `next` as it was, because
    a loop of the source may still hold a cursor on it. `at` records, for each edge in the
    list, the cell that holds it. */
module Chains {

  datatype Cell<E> = Cell(kante: E, next: int)

  datatype Chain<E(==)> = Chain(head: int, cells: seq<Cell<E>>, at: map<E, nat>)
  {
    predicate Live(i: int)
    {
      0 <= i < |cells| && cells[i].kante in at && at[cells[i].kante] == i
    }

    /** A link goes to an older cell, from a linked cell to a linked one, and jumps over
        no linked cell. */
    ghost predicate CellOk(i: int)
      requires 0 <= i < |cells|
    {
      && -1 <= cells[i].next < i
      && (Live(i) && cells[i].next >= 0 ==> Live(cells[i].next))
      && (forall e :: e in at && at[e] < i ==> at[e] <= cells[i].next)
    }

    ghost predicate Valid()
    {
      && -1 <= head < |cells|
      && (head >= 0 ==> Live(head))
      && (forall e :: e in at ==> at[e] <= head && cells[at[e]].kante == e)
      && (forall i :: 0 <= i < |cells| ==> CellOk(i))
    }

    /** prededgealloc / succedgealloc. */
    function Prepend(e: E): (r: Chain<E>)
    {
      Chain(|cells|, cells + [Cell(e, head)], at[e := |cells|])
    }

    /** The assignment of NULL to the list head. */
    function Cleared(): (r: Chain<E>)
    {
      Chain(-1, cells, map[])
    }
  }

  function Empty<E>(): (r: Chain<E>)
    ensures r.Valid() && r.at == map[]
  {
    Chain(-1, [], map[])
  }

  /** How the linking of one cell may change: a linked cell only gets to point to a cell
      that was linked, and an unlinked one is not touched. */
  ghost predicate LinkEvolves<E>(c0: Chain<E>, c1: Chain<E>, i: int)
    requires 0 <= i < |c0.cells| <= |c1.cells|
  {
    && c1.cells[i].kante == c0.cells[i].kante
    && if c0.Live(i) then c1.cells[i].next < 0 || c0.Live(c1.cells[i].next)
       else c1.cells[i].next == c0.cells[i].next
  }

  /** How a list may change under a cursor: besides the above, cells keep their edge, an
      edge keeps its cell, and new edges get new cells. */
  ghost predicate Evolves<E>(c0: Chain<E>, c1: Chain<E>)
  {
    && |c0.cells| <= |c1.cells|
    && (forall e :: e in c1.at ==> if e in c0.at then c1.at[e] == c0.at[e] else c1.at[e] >= |c0.cells|)
    && (forall i :: 0 <= i < |c0.cells| ==> LinkEvolves(c0, c1, i))
  }

  lemma EvolvesSelf<E>(c: Chain<E>)
    requires c.Valid()
    ensures Evolves(c, c)
  {
    forall i | 0 <= i < |c.cells| ensures LinkEvolves(c, c, i) {
      assert c.CellOk(i);
    }
  }

  lemma EvolvesTrans<E>(c0: Chain<E>, c1: Chain<E>, c2: Chain<E>)
    requires c1.Valid() && c2.Valid() && Evolves(c0, c1) && Evolves(c1, c2)
    requires forall e :: e in c0.at && e in c2.at ==> e in c1.at
    ensures Evolves(c0, c2)
  {
    forall i | 0 <= i < |c0.cells| ensures LinkEvolves(c0, c2, i) {
      assert LinkEvolves(c0, c1, i) && LinkEvolves(c1, c2, i);
      var j := c2.cells[i].next;
      if c1.Live(i) && j >= 0 {
        assert c2.CellOk(i);
        assert c1.Live(j);
        assert LinkEvolves(c0, c1, j);
      }
    }
  }

  lemma PrependOk<E>(c: Chain<E>, e: E)
    requires c.Valid() && e !in c.at
    ensures c.Prepend(e).Valid() && Evolves(c, c.Prepend(e)) && c.Prepend(e).at.Keys == c.at.Keys + {e}
  {
    var r := c.Prepend(e);
    forall i | 0 <= i < |r.cells| ensures r.CellOk(i) {
      if i < |c.cells| { assert c.CellOk(i); }
    }
    forall i | 0 <= i < |c.cells| ensures LinkEvolves(c, r, i) {
      assert c.CellOk(i);
    }
  }

  lemma ClearedOk<E>(c: Chain<E>)
    requires c.Valid()
    ensures c.Cleared().Valid() && Evolves(c, c.Cleared())
  {
    var r := c.Cleared();
    forall i | 0 <= i < |r.cells| ensures r.CellOk(i) && LinkEvolves(c, r, i) {
      assert c.CellOk(i);
    }
  }

  /** Two linked cells never link to the same cell: the younger would jump over the older. */
  lemma OneLinkTo<E>(c: Chain<E>, p: int, i: int)
    requires c.Valid() && c.Live(p) && c.Live(i)
    ensures c.cells[p].next == c.cells[i].next >= 0 ==> p == i
  {
    assert c.CellOk(p) && c.CellOk(i);
    assert c.at[c.cells[p].kante] == p && c.at[c.cells[i].kante] == i;
  }

  /** The unlinking of the cell of e: behind the linked cell p, or from the head. */
  function Unlinked<E>(c: Chain<E>, e: E, p: int): (r: Chain<E>)
    requires c.Valid() && e in c.at && p < |c.cells|
  {
    var b := c.cells[c.at[e]].next;
    if p < 0 then Chain(b, c.cells, c.at - {e})
    else Chain(c.head, c.cells[p := Cell(c.cells[p].kante, b)], c.at - {e})
  }

  lemma UnlinkedOk<E>(c: Chain<E>, e: E, p: int)
    requires c.Valid() && e in c.at && p < |c.cells|
    requires if p < 0 then c.head == c.at[e] else c.Live(p) && c.cells[p].next == c.at[e]
    ensures Unlinked(c, e, p).Valid() && Evolves(c, Unlinked(c, e, p))
  {
    var r := Unlinked(c, e, p);
    var x := c.at[e];
    assert c.CellOk(x) && c.Live(x);
    if p >= 0 { assert c.CellOk(p) && c.at[c.cells[p].kante] == p; }
    forall f | f in r.at ensures r.at[f] <= r.head && r.cells[r.at[f]].kante == f {
      assert c.cells[c.at[f]].kante == f;
    }
    forall i | 0 <= i < |r.cells| ensures r.CellOk(i) && LinkEvolves(c, r, i) {
      UnlinkedCellOk(c, e, p, i);
    }
  }

  lemma UnlinkedCellOk<E>(c: Chain<E>, e: E, p: int, i: int)
    requires c.Valid() && e in c.at && p < |c.cells|
    requires if p < 0 then c.head == c.at[e] else c.Live(p) && c.cells[p].next == c.at[e]
    requires 0 <= i < |c.cells|
    ensures Unlinked(c, e, p).CellOk(i) && LinkEvolves(c, Unlinked(c, e, p), i)
  {
    var r := Unlinked(c, e, p);
    var x := c.at[e];
    assert c.CellOk(x) && c.CellOk(i);
    assert c.Live(x);
    forall f | f in r.at && r.at[f] < i ensures r.at[f] <= r.cells[i].next {
      assert c.cells[c.at[f]].kante == f;
    }
    if p >= 0 && c.Live(i) { OneLinkTo(c, p, i); }
  }

  /** The scan loops of create_adjedge. */
  method Contains<E(==)>(c: Chain<E>, e: E) returns (b: bool)
    requires c.Valid()
    ensures b <==> e in c.at
  {
    var a := c.head;
    while a >= 0
      invariant -1 <= a < |c.cells| && (a >= 0 ==> c.Live(a))
      invariant e in c.at ==> c.at[e] <= a
      decreases a
    {
      if c.cells[a].kante == e { return true; }
      assert c.CellOk(a);
      a := c.cells[a].next;
    }
    b := false;
  }

  /** The edges a traversal meets that starts at cell i. */
  ghost function Walk<E>(c: Chain<E>, i: int): (r: seq<E>)
    requires c.Valid() && -1 <= i < |c.cells|
    decreases i
  {
    if i < 0 then [] else
      assert c.CellOk(i);
      [c.cells[i].kante] + Walk(c, c.cells[i].next)
  }

  /** From a linked cell a traversal meets exactly the edges linked in this or an older
      cell, each once: `at` describes the list that the links make. */
  lemma {:induction false} WalkMeets<E>(c: Chain<E>, i: int)
    requires c.Valid() && -1 <= i < |c.cells| && (i >= 0 ==> c.Live(i))
    ensures forall e :: e in Walk(c, i) ==> e in c.at && c.at[e] <= i
    ensures forall e :: e in c.at && c.at[e] <= i ==> e in Walk(c, i)
    ensures forall j, k :: 0 <= j < k < |Walk(c, i)| ==> Walk(c, i)[j] != Walk(c, i)[k]
    decreases i
  {
    if i >= 0 {
      assert c.CellOk(i);
      var n := c.cells[i].next;
      WalkMeets(c, n);
      assert Walk(c, i) == [c.cells[i].kante] + Walk(c, n);
    }
  }

  /** The state of delete_adjedge's loop: r is what the list c has become, a the visited cell
      and ap the cell (or the head, -1) that links to it. */
  ghost predicate Removing<E>(c: Chain<E>, r: Chain<E>, e: E, a: int, ap: int)
  {
    && r.Valid() && Evolves(c, r) && -1 <= a < |r.cells| && -1 <= ap < |r.cells|
    && (a >= 0 ==> r.Live(a))
    && if e in r.at then r == c && r.at[e] <= a && (if ap < 0 then a == r.head else r.Live(ap) && a == r.cells[ap].next)
       else r.at == c.at - {e}
  }

  lemma RemovingUnlinks<E>(c: Chain<E>, r: Chain<E>, e: E, a: nat, ap: int)
    requires Removing(c, r, e, a, ap) && r.cells[a].kante == e
    ensures ap < |r.cells| && Removing(c, Unlinked(r, e, ap), e, r.cells[a].next, a) && r.cells[a].next < a
  {
    assert r.CellOk(a);
    UnlinkedOk(r, e, ap);
    hide Chain.Valid, Evolves;
  }

  lemma RemovingPasses<E>(c: Chain<E>, r: Chain<E>, e: E, a: nat, ap: int)
    requires Removing(c, r, e, a, ap) && r.cells[a].kante != e
    ensures Removing(c, r, e, r.cells[a].next, a) && r.cells[a].next < a
  {
    assert r.CellOk(a);
  }

  lemma RemovingStarts<E>(c: Chain<E>, e: E)
    requires c.Valid()
    ensures Removing(c, c, e, c.head, -1)
  {
    EvolvesSelf(c);
    hide Evolves;
  }

  /** delete_adjedge's loop on one list. The trailing pointer `ap` (-1 for the head
      variable) moves on to the visited cell even when that cell was just unlinked. */
  method Remove<E(==)>(c: Chain<E>, e: E) returns (r: Chain<E>)
    requires c.Valid()
    ensures r.Valid() && r.at == c.at - {e} && r.at.Keys == c.at.Keys - {e} && Evolves(c, r)
  {
    hide Chain.Valid, Evolves;
    r := c;
    var a, ap := c.head, -1;
    RemovingStarts(c, e);
    while a >= 0
      invariant Removing(c, r, e, a, ap)
      decreases a
    {
      var b := r.cells[a].next;
      if r.cells[a].kante == e {
        RemovingUnlinks(c, r, e, a, ap);
        r := if ap < 0 then r.(head := b, at := r.at - {e})
             else r.(cells := r.cells[ap := r.cells[ap].(next := b)], at := r.at - {e});
      } else {
        RemovingPasses(c, r, e, a, ap);
      }
      ap := a;
      a := b;
    }
  }

  /** Where a cursor on the linked cell a gets to when the edge of that cell is unlinked and
      the list does not change otherwise. */
  lemma CursorAfterRemoval<E>(c0: Chain<E>, c1: Chain<E>, a: int)
    requires c0.Valid() && c1.Valid() && Evolves(c0, c1) && c0.Live(a)
    requires c1.at.Keys == c0.at.Keys - {c0.cells[a].kante}
    requires forall f :: f in c0.at ==> c0.at[f] <= a
    ensures a < |c1.cells|
    ensures var n := c1.cells[a].next;
      -1 <= n < a && (n >= 0 ==> c1.Live(n)) && forall f :: f in c1.at ==> c1.at[f] <= n
  {
    var n := c1.cells[a].next;
    assert c1.CellOk(a) && LinkEvolves(c0, c1, a);
    if n >= 0 { assert LinkEvolves(c0, c1, n); }
    forall f | f in c1.at ensures c1.at[f] < a {
      assert c1.cells[c1.at[f]].kante == f;
    }
  }

  /** Where a cursor gets to in a list that others change: every edge that was linked in the
      list c0 and still is in c1 is in the cell a, or ahead of the cursor, or was passed. */
  lemma CursorAdvances<E>(c0: Chain<E>, c1: Chain<E>, a: int)
    requires c0.Valid() && c1.Valid() && Evolves(c0, c1) && c0.Live(a)
    ensures a < |c1.cells|
    ensures var n := c1.cells[a].next;
      -1 <= n < a && (n >= 0 ==> c0.Live(n))
      && forall f :: f in c0.at && f in c1.at && c0.at[f] < a ==> c0.at[f] <= n
  {
    var n := c1.cells[a].next;
    assert c1.CellOk(a) && LinkEvolves(c0, c1, a);
  }
}
