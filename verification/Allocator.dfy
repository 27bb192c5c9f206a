/** The free lists of alloc.c. Nodes, edges, and the cons cells of node and adjacency lists
    are all managed in the same way, linked by their INTERN field. */
module Allocator {
  import opened GraphTypes

  /** A record with its INTERN field (DSUCC for DLLIST cells). */
  class Cell {
    var intern: Cell?

    constructor ()
      ensures intern == null
    {
      intern := null;
    }
  }

  /** The link of the i-th cell of a list. */
  ghost predicate NextOk(s: seq<Cell>, i: int)
    requires 0 <= i < |s|
    reads s`intern
  {
    s[i].intern == if i + 1 < |s| then s[i + 1] else null
  }

  /** The cells from `head` on, linked by INTERN, are those of s. */
  ghost predicate Linked(head: Cell?, s: seq<Cell>)
    reads s`intern
  {
    && head == (if s == [] then null else s[0])
    && forall i :: 0 <= i < |s| ==> NextOk(s, i)
  }

  /** Every record is in exactly one place. */
  ghost predicate Partition(free: seq<Cell>, tmp: seq<Cell>, fold: seq<Cell>, perm: set<Cell>, cells: set<Cell>)
  {
    multiset(free) + multiset(tmp) + multiset(fold) + multiset(perm) == multiset(cells)
  }

  /** No record is lost or counted twice. */
  lemma Conservation(free: seq<Cell>, tmp: seq<Cell>, fold: seq<Cell>, perm: set<Cell>, cells: set<Cell>)
    requires Partition(free, tmp, fold, perm, cells)
    ensures |cells| == |free| + |tmp| + |fold| + |perm|
  {
    assert |multiset(cells)| == |cells| && |multiset(perm)| == |perm|;
    assert |multiset(free)| == |free| && |multiset(tmp)| == |tmp| && |multiset(fold)| == |fold|;
  }

  lemma {:induction false} OnceEach(s: seq<Cell>, cells: set<Cell>)
    requires multiset(s) <= multiset(cells)
    ensures Distinct(s) && forall x :: x in s ==> x in cells
  {
    if s != [] {
      var r, l := s[..|s| - 1], s[|s| - 1];
      assert s == r + [l];
      assert multiset(s) == multiset(r) + multiset{l};
      assert multiset(s)[l] == multiset(r)[l] + 1 <= multiset(cells)[l] <= 1;
      OnceEach(r, cells);
      assert l !in r && l in cells;
      forall i, j | 0 <= i < j < |s| ensures s[i] != s[j] {
        if j == |s| - 1 { assert s[i] == r[i]; assert r[i] in r; }
      }
    }
  }

  lemma NullIsEmpty(head: Cell?, s: seq<Cell>)
    requires Linked(head, s)
    ensures (head == null <==> s == []) && (s != [] ==> head == s[0]) && Linked(null, [])
  {
  }

  lemma LinkedTail(head: Cell?, s: seq<Cell>)
    requires Linked(head, s) && s != []
    ensures Linked(s[0].intern, s[1..])
  {
    var t := s[1..];
    assert NextOk(s, 0);
    forall i | 0 <= i < |t| ensures NextOk(t, i) {
      assert NextOk(s, i + 1);
    }
  }

  lemma LinkedFront(h: Cell, head: Cell?, s: seq<Cell>)
    requires Linked(head, s) && h.intern == head
    ensures Linked(h, [h] + s)
  {
    var t := [h] + s;
    forall i | 0 <= i < |t| ensures NextOk(t, i) {
      if i > 0 { assert NextOk(s, i - 1); }
    }
  }

  /** The lists have no cell twice and none in common. */
  lemma Apart(free: seq<Cell>, tmp: seq<Cell>, fold: seq<Cell>, perm: set<Cell>, cells: set<Cell>)
    requires Partition(free, tmp, fold, perm, cells)
    ensures Distinct(free) && Distinct(tmp) && Distinct(fold)
    ensures forall x :: x in free ==> x in cells && x !in tmp && x !in fold && x !in perm
    ensures forall x :: x in tmp ==> x in cells && x !in fold && x !in perm
    ensures forall x :: x in fold ==> x in cells && x !in perm
    ensures perm <= cells
  {
    OnceEach(free, cells);
    OnceEach(tmp, cells);
    OnceEach(fold, cells);
    forall x | x in free ensures x !in tmp && x !in fold && x !in perm { OnlyIn(free, tmp, fold, perm, cells, x); }
    forall x | x in tmp ensures x !in fold && x !in perm { OnlyIn(free, tmp, fold, perm, cells, x); }
    forall x | x in fold ensures x !in perm { OnlyIn(free, tmp, fold, perm, cells, x); }
    forall x | x in perm ensures x in cells { OnlyIn(free, tmp, fold, perm, cells, x); }
  }

  /** The part of this that the splicing needs. */
  lemma ApartFrom(free: seq<Cell>, tmp: seq<Cell>, fold: seq<Cell>, perm: set<Cell>, cells: set<Cell>)
    requires Partition(free, tmp, fold, perm, cells)
    ensures Disjoint(tmp, free) && Disjoint(tmp, fold) && Disjoint(fold, free) && Disjoint(fold, tmp)
  {
    Apart(free, tmp, fold, perm, cells);
  }

  /** s has no cell twice and none of t. */
  ghost predicate Disjoint(s: seq<Cell>, t: seq<Cell>)
  {
    Distinct(s) && forall x :: x in s ==> x !in t
  }

  lemma OnlyIn(free: seq<Cell>, tmp: seq<Cell>, fold: seq<Cell>, perm: set<Cell>, cells: set<Cell>, x: Cell)
    requires Partition(free, tmp, fold, perm, cells)
    ensures multiset(free)[x] + multiset(tmp)[x] + multiset(fold)[x] + multiset(perm)[x] == if x in cells then 1 else 0
  {
    assert (multiset(free) + multiset(tmp) + multiset(fold) + multiset(perm))[x] == multiset(cells)[x];
  }

  /** The first free record comes into use. */
  lemma FreeTaken(free: seq<Cell>, tmp: seq<Cell>, fold: seq<Cell>, perm: set<Cell>, cells: set<Cell>)
    requires Partition(free, tmp, fold, perm, cells) && free != []
    ensures Partition(free[1..], tmp, fold, perm + {free[0]}, cells + {free[0]})
    ensures free[0] !in perm && free[0] !in tmp && free[0] !in fold && free[0] in cells
  {
    hide Distinct;
    var h := free[0];
    Apart(free, tmp, fold, perm, cells);
    assert free == [h] + free[1..];
    assert multiset(free) == multiset{h} + multiset(free[1..]);
    assert multiset(perm + {h}) == multiset(perm) + multiset{h};
    assert cells + {h} == cells;
  }

  /** A new record comes into use. */
  lemma NewTaken(free: seq<Cell>, tmp: seq<Cell>, fold: seq<Cell>, perm: set<Cell>, cells: set<Cell>, h: Cell)
    requires Partition(free, tmp, fold, perm, cells) && h !in cells
    ensures Partition(free, tmp, fold, perm + {h}, cells + {h})
    ensures h !in perm && h !in tmp && h !in fold
  {
    hide Distinct;
    Apart(free, tmp, fold, perm, cells);
    assert multiset(perm + {h}) == multiset(perm) + multiset{h};
    assert multiset(cells + {h}) == multiset(cells) + multiset{h};
  }

  /** A record in use comes to one of the lists. */
  lemma PutOnList(free: seq<Cell>, tmp: seq<Cell>, fold: seq<Cell>, perm: set<Cell>, cells: set<Cell>, h: Cell)
    requires Partition(free, tmp, fold, perm, cells) && h in perm
    ensures Partition([h] + free, tmp, fold, perm - {h}, cells)
    ensures Partition(free, [h] + tmp, fold, perm - {h}, cells)
    ensures Partition(free, tmp, [h] + fold, perm - {h}, cells)
  {
    assert multiset(perm - {h}) == multiset(perm) - multiset{h};
    assert multiset([h] + free) == multiset{h} + multiset(free);
    assert multiset([h] + tmp) == multiset{h} + multiset(tmp);
    assert multiset([h] + fold) == multiset{h} + multiset(fold);
  }

  /** Putting a record in front of the free list leaves every record in one place exactly if
      it was in use and on no list; a temporary one would be given free twice. */
  lemma FreeOnlyPermanent(free: seq<Cell>, tmp: seq<Cell>, fold: seq<Cell>, perm: set<Cell>, cells: set<Cell>, h: Cell)
    requires Partition(free, tmp, fold, perm, cells) && h in cells
    ensures h in perm ==> Partition([h] + free, tmp, fold, perm - {h}, cells)
    ensures h !in perm ==> forall p: set<Cell> :: !Partition([h] + free, tmp, fold, p, cells)
  {
    OnlyIn(free, tmp, fold, perm, cells, h);
    assert multiset([h] + free) == multiset{h} + multiset(free);
    if h in perm {
      assert multiset(perm - {h}) == multiset(perm) - multiset{h};
    } else {
      forall p: set<Cell> ensures !Partition([h] + free, tmp, fold, p, cells) {
        if Partition([h] + free, tmp, fold, p, cells) { OnlyIn([h] + free, tmp, fold, p, cells, h); }
      }
    }
  }

  /** The lists of one kind of record: the free ones, the temporary ones, and those that live
      until the end of a folding (or of a layout); `perm` are the records that are in use and
      on none of these lists, and `cells` all records ever obtained. */
  class Pool {
    var freelist: Cell?
    var tmplist: Cell?
    var foldlist: Cell?
    ghost var free: seq<Cell>
    ghost var tmp: seq<Cell>
    ghost var fold: seq<Cell>
    ghost var perm: set<Cell>
    ghost var cells: set<Cell>

    /** The lists are finite chains without cycles, and every record is in one place. */
    ghost predicate Valid()
      reads this, free`intern, tmp`intern, fold`intern
    {
      && Partition(free, tmp, fold, perm, cells)
      && Linked(freelist, free) && Linked(tmplist, tmp) && Linked(foldlist, fold)
    }

    constructor ()
      ensures Valid() && cells == {}
    {
      freelist, tmplist, foldlist := null, null, null;
      free, tmp, fold, perm, cells := [], [], [], {}, {};
    }

    /** The common part of all allocations: from the free list, or from the core memory. The
        record was free or did not exist before. */
    method Take() returns (h: Cell)
      requires Valid()
      modifies this`freelist, this`free, this`perm, this`cells
      ensures Valid()
      ensures perm == old(perm) + {h} && cells == old(cells) + {h} && h !in old(perm) && h !in tmp && h !in fold
      ensures if old(free) == [] then fresh(h) && free == [] else h == old(free)[0] && free == old(free)[1..]
    {
      hide Linked, NextOk, Partition;
      NullIsEmpty(freelist, free);
      if freelist != null {
        h := freelist;
        LinkedTail(freelist, free);
        FreeTaken(free, tmp, fold, perm, cells);
        freelist := freelist.intern;
        free := free[1..];
      } else {
        h := new Cell();
        NewTaken(free, tmp, fold, perm, cells, h);
      }
      perm, cells := perm + {h}, cells + {h};
    }

    /** tmpnodealloc, tmpnodelist_alloc, tmpedgealloc and edgelist_alloc, as far as the lists
        are concerned. */
    method AllocTemp() returns (h: Cell)
      requires Valid()
      modifies this`freelist, this`free, this`tmplist, this`tmp, this`perm, this`cells, free`intern
      ensures Valid() && tmp == [h] + old(tmp) && perm == old(perm) && cells == old(cells) + {h}
      ensures if old(free) == [] then fresh(h) && free == [] else h == old(free)[0] && free == old(free)[1..]
    {
      hide Linked, NextOk, Partition;
      ghost var perm0 := perm;
      h := Take();
      PutOnList(free, tmp, fold, perm, cells, h);
      Push(h, tmplist, tmp);
      assert perm - {h} == perm0;
      tmplist, tmp, perm := h, [h] + tmp, perm0;
    }

    /** foldnodelist_alloc; in the same way the cells of the near and back edge lists. */
    method AllocFold() returns (h: Cell)
      requires Valid()
      modifies this`freelist, this`free, this`foldlist, this`fold, this`perm, this`cells, free`intern
      ensures Valid() && fold == [h] + old(fold) && perm == old(perm) && cells == old(cells) + {h}
      ensures if old(free) == [] then fresh(h) && free == [] else h == old(free)[0] && free == old(free)[1..]
    {
      hide Linked, NextOk, Partition;
      ghost var perm0 := perm;
      h := Take();
      PutOnList(free, tmp, fold, perm, cells, h);
      Push(h, foldlist, fold);
      assert perm - {h} == perm0;
      foldlist, fold, perm := h, [h] + fold, perm0;
    }

    /** nodealloc, graphalloc, edgealloc and dllist_alloc. */
    method AllocPermanent() returns (h: Cell)
      requires Valid()
      modifies this`freelist, this`free, this`perm, this`cells, free`intern
      ensures Valid() && perm == old(perm) + {h} && cells == old(cells) + {h}
      ensures h !in old(perm) && h.intern == null
      ensures if old(free) == [] then fresh(h) && free == [] else h == old(free)[0] && free == old(free)[1..]
    {
      h := Take();
      hide Linked, NextOk, Partition;
      Unlisted(h);
      h.intern := null;
    }

    lemma Unlisted(h: Cell)
      requires Valid() && h in perm
      ensures h !in free && h !in tmp && h !in fold
    {
      hide Linked;
      Apart(free, tmp, fold, perm, cells);
    }

    /** The record h, which is on no list, is linked in front of a list. */
    method Push(h: Cell, head: Cell?, ghost s: seq<Cell>)
      requires Valid() && h in perm && Linked(head, s) && h !in s
      modifies h`intern
      ensures Valid() && Linked(h, [h] + s)
    {
      hide Linked, NextOk, Partition;
      Unlisted(h);
      h.intern := head;
      LinkedFront(h, head, s);
    }

    /** free_node, for a record that is in use and on no list; also what free_regionnodelist
        does with the first cell of its list, the only one it can reach by INTERN. */
    method FreeOne(h: Cell)
      requires Valid() && h in perm
      modifies this`freelist, this`free, this`perm, h`intern
      ensures Valid() && free == [h] + old(free) && perm == old(perm) - {h}
    {
      hide Linked, NextOk, Partition;
      Unlisted(h);
      PutOnList(free, tmp, fold, perm, cells, h);
      Push(h, freelist, free);
      freelist, free, perm := h, [h] + free, perm - {h};
    }

    /** The loop to the tail of a list and the splice in front of the free list. */
    method Splice(head: Cell, ghost s: seq<Cell>)
      requires Linked(head, s) && Linked(freelist, free) && Disjoint(s, free)
      modifies s`intern
      ensures Linked(head, s + free)
    {
      var h := head;
      ghost var i := 0;
      assert NextOk(s, 0);
      while h.intern != null
        invariant 0 <= i < |s| && h == s[i] && NextOk(s, i)
        decreases |s| - i
      {
        h := h.intern;
        i := i + 1;
        assert NextOk(s, i);
      }
      ghost var t := s + free;
      assert i == |s| - 1;
      h.intern := freelist;
      forall k | 0 <= k < |t| ensures NextOk(t, k) {
        if k < i {
          assert old(NextOk(s, k)) && s[k] != s[i];
        } else if k > i {
          assert old(NextOk(free, k - |s|)) && free[k - |s|] !in s;
        }
      }
    }

    /** A list s in front of the free list; another list r stays. */
    method SpliceBeside(head: Cell, ghost s: seq<Cell>, ghost other: Cell?, ghost r: seq<Cell>)
      requires Linked(head, s) && Linked(freelist, free) && Linked(other, r)
      requires Disjoint(s, free) && Disjoint(s, r)
      modifies s`intern
      ensures Linked(head, s + free) && Linked(other, r)
    {
      Splice(head, s);
      forall k | 0 <= k < |r| ensures NextOk(r, k) {
        assert old(NextOk(r, k)) && r[k] !in s;
      }
    }

    /** free_tmpnodes, free_nodelists, free_tmpedges and free_edgelists. */
    method FreeTemp()
      requires Valid()
      modifies this`freelist, this`free, this`tmplist, this`tmp, tmp`intern
      ensures Valid() && free == old(tmp) + old(free) && tmp == []
    {
      NullIsEmpty(tmplist, tmp);
      hide Linked, NextOk, Distinct, Partition;
      if tmplist != null { GiveBackTemp(tmplist); }
    }

    /** The same for a list that is not empty. */
    method GiveBackTemp(head: Cell)
      requires Valid() && head == tmplist
      modifies this`freelist, this`free, this`tmplist, this`tmp, tmp`intern
      ensures Valid() && free == old(tmp) + old(free) && tmp == []
    {
      hide Linked, NextOk, Disjoint, Partition;
      ApartFrom(free, tmp, fold, perm, cells);
      NullIsEmpty(tmplist, tmp);
      SplicedPartition(free, tmp, fold, perm, cells);
      SpliceBeside(head, tmp, foldlist, fold);
      freelist, tmplist := head, null;
      free, tmp := tmp + free, [];
    }

    /** free_foldnodelists; in the same way dllist_free_all. */
    method FreeFold()
      requires Valid()
      modifies this`freelist, this`free, this`foldlist, this`fold, fold`intern
      ensures Valid() && free == old(fold) + old(free) && fold == []
    {
      NullIsEmpty(foldlist, fold);
      hide Linked, NextOk, Distinct, Partition;
      if foldlist != null { GiveBackFold(foldlist); }
    }

    /** The same for a list that is not empty. */
    method GiveBackFold(head: Cell)
      requires Valid() && head == foldlist
      modifies this`freelist, this`free, this`foldlist, this`fold, fold`intern
      ensures Valid() && free == old(fold) + old(free) && fold == []
    {
      hide Linked, NextOk, Disjoint, Partition;
      ApartFrom(free, tmp, fold, perm, cells);
      NullIsEmpty(foldlist, fold);
      SplicedPartition(free, tmp, fold, perm, cells);
      SpliceBeside(head, fold, tmplist, tmp);
      freelist, foldlist := head, null;
      free, fold := fold + free, [];
    }
  }

  lemma SplicedPartition(free: seq<Cell>, tmp: seq<Cell>, fold: seq<Cell>, perm: set<Cell>, cells: set<Cell>)
    requires Partition(free, tmp, fold, perm, cells)
    ensures Partition(tmp + free, [], fold, perm, cells) && Partition(fold + free, tmp, [], perm, cells)
  {
    assert multiset(tmp + free) == multiset(tmp) + multiset(free);
    assert multiset(fold + free) == multiset(fold) + multiset(free);
  }
}
