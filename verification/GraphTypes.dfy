/** The records of alloc.h and the global variables of alloc.c and folding.c. */
module GraphTypes {
  import opened Chains

  datatype Option<+T> = None | Some(value: T)

  /** The attributes copy_nodeattributes copies (NTITLE and NSTATE included). Text
      attributes are optional because the fold defaults use NULL for "not given". */
  datatype NodeAttrs = NodeAttrs(
    title: Option<string>, text: Option<string>,
    info1: Option<string>, info2: Option<string>, info3: Option<string>,
    width: int, height: int, sx: int, sy: int,
    textmode: int, borderw: int, folding: int, color: int, tcolor: int, bcolor: int,
    status: int, shape: int, shrink: int, stretch: int, level: int, horder: int)

  /** The attributes of an edge that the specification gives. */
  datatype EdgeAttrs = EdgeAttrs(
    text: Option<string>, lstyle: int, thickness: int, eclass: int, prio: int, horder: int,
    color: int, labelcol: int, arrowsize: int, arrowbsize: int, arrowstyle: int,
    arrowbstyle: int, arrowcol: int, arrowbcol: int)

  datatype Arrow = Arrow(size: int, style: int, col: int)

  /** ESTART, EEND, the arrows and EART, which the layout changes when it draws an edge
      backwards. */
  datatype Ends = Ends(source: Node, target: Node, arrow: Arrow, backArrow: Arrow, art: char)

  function Exchanged(x: Ends): Ends
  {
    x.(source := x.target, target := x.source, arrow := x.backArrow, backArrow := x.arrow)
  }

  /** revert_edge. */
  function Reverted(x: Ends): Ends
  {
    Exchanged(x).(art := if x.art == 'R' then 'U' else if x.art == 'S' then 'S' else 'R')
  }

  /** What refresh does. */
  function Restored(x: Ends): Ends
  {
    (if x.art == 'R' then Exchanged(x) else x).(art := 'U')
  }

  /** A GEDGE. What the specification or tmpedgealloc gives does not change while the
      graph is folded; only EINVISIBLE does. The ends that folding works with are those which
      refresh has restored. */
  class Edge {
    const start: Node
    const end: Node
    const attrs: EdgeAttrs
    const anchor: int
    var invisible: bool
    var ends: Ends

    constructor (start: Node, end: Node, attrs: EdgeAttrs, anchor: int)
      ensures this.start == start && this.end == end && this.attrs == attrs && this.anchor == anchor
      ensures !invisible && ends == Specified()
    {
      this.start, this.end, this.attrs, this.anchor := start, end, attrs, anchor;
      invisible := false;
      ends := Ends(start, end, Arrow(attrs.arrowsize, attrs.arrowstyle, attrs.arrowcol),
                   Arrow(attrs.arrowbsize, attrs.arrowbstyle, attrs.arrowbcol), 'U');
    }

    /** As the specification or tmpedgealloc has it. */
    function Specified(): Ends
    {
      Ends(start, end, Arrow(attrs.arrowsize, attrs.arrowstyle, attrs.arrowcol),
           Arrow(attrs.arrowbsize, attrs.arrowbstyle, attrs.arrowbcol), 'U')
    }
  }

  /** A GNODE: a node or a (sub)graph summary node. `sgraph` is NSGRAPH (empty for NULL)
      and `root` is NROOT, which the specification fixes. `depth` counts the NROOT links
      to the top level. */
  class Node {
    const refnum: int
    var sgraph: seq<Node>
    const root: Node?
    ghost const depth: nat
    var attrs: NodeAttrs
    var regrepl: Node?      // NREGREPL
    var region: seq<Node>   // NREGION, front first
    var regroot: Node?      // NREGROOT
    var next: Node?
    var before: Node?
    var inlist: bool        // NINLIST
    var invisible: int      // NINVISIBLE
    var mark: bool          // NMARK
    var succ: Chain<Edge>
    var pred: Chain<Edge>

    constructor (refnum: int, root: Node?, ghost depth: nat, attrs: NodeAttrs)
      ensures this.refnum == refnum && this.root == root && sgraph == []
      ensures this.depth == depth && this.attrs == attrs
      ensures regrepl == null && region == [] && regroot == null
      ensures next == null && before == null && inlist && invisible == 0
      ensures succ == Empty() && pred == Empty()
    {
      this.refnum, this.root, this.attrs := refnum, root, attrs;
      sgraph := [];
      this.depth := depth;
      regrepl, region, regroot := null, [], null;
      next, before, inlist, invisible, mark := null, null, true, 0, false;
      succ, pred := Empty(), Empty();
    }
  }

  /** s without the element v. */
  function Minus<T(==)>(s: seq<T>, v: T): (r: seq<T>)
    ensures forall x :: x in r ==> x in s && x != v
    ensures forall x :: x in s && x != v ==> x in r
    ensures v !in s ==> r == s
  {
    if s == [] then [] else if s[0] == v then Minus(s[1..], v) else [s[0]] + Minus(s[1..], v)
  }

  ghost function Elems<T>(ts: seq<T>): set<T>
  {
    set t | t in ts
  }

  ghost predicate Distinct<T>(s: seq<T>)
  {
    forall i, j :: 0 <= i < j < |s| ==> s[i] != s[j]
  }

  lemma {:induction false} MinusAt<T>(s: seq<T>, k: nat)
    requires k < |s| && Distinct(s)
    ensures Minus(s, s[k]) == s[..k] + s[k + 1..]
  {
    var t := s[1..];
    if k == 0 {
      assert s[0] !in t;
    } else {
      assert s[k] == t[k - 1] && s[0] != s[k];
      MinusAt(t, k - 1);
      FirstStays(s, k);
    }
  }

  lemma FirstStays<T>(s: seq<T>, k: nat)
    requires 0 < k < |s|
    ensures s[..k] + s[k + 1..] == [s[0]] + (s[1..][..k - 1] + s[1..][k..])
  {
  }

  lemma WithoutOne<T>(s: seq<T>, k: nat)
    requires Distinct(s) && k < |s|
    ensures Distinct(s[..k] + s[k + 1..]) && |s[..k] + s[k + 1..]| == |s| - 1
  {
    var t := s[..k] + s[k + 1..];
    forall i, j | 0 <= i < j < |t| ensures t[i] != t[j] {
      var i', j' := if i < k then i else i + 1, if j < k then j else j + 1;
      assert t[i] == s[i'] && t[j] == s[j'];
    }
  }

  lemma MinusDistinct<T>(s: seq<T>, v: T)
    requires Distinct(s)
    ensures Distinct(Minus(s, v))
    ensures |Minus(s, v)| == if v in s then |s| - 1 else |s|
  {
    hide Distinct;
    if v in s {
      var k :| 0 <= k < |s| && s[k] == v;
      MinusAt(s, k);
      WithoutOne(s, k);
    }
  }

  lemma SameAt<T>(s: seq<T>, i: int, j: nat)
    requires Distinct(s) && j < |s|
    ensures 0 <= i < |s| && s[i] == s[j] ==> i == j
  {
  }

  /** The links of s[i] are those it must have in a doubly linked list. */
  ghost predicate LinkedAt(s: seq<Node>, i: int)
    requires 0 <= i < |s|
    reads {s[i]}`next, {s[i]}`before
  {
    && s[i].next == (if i + 1 < |s| then s[i + 1] else null)
    && s[i].before == (if i > 0 then s[i - 1] else null)
  }

  /** The same for links that are given as a map, for one node and for all. */
  ghost predicate LinkingAt(s: seq<Node>, was: map<Node, (Node?, Node?)>, i: int)
    requires 0 <= i < |s|
  {
    && s[i] in was
    && was[s[i]].0 == (if i > 0 then s[i - 1] else null)
    && was[s[i]].1 == (if i + 1 < |s| then s[i + 1] else null)
  }

  ghost predicate Linking(s: seq<Node>, was: map<Node, (Node?, Node?)>)
  {
    forall i :: 0 <= i < |s| ==> LinkingAt(s, was, i)
  }

  /** A doubly linked list of nodes: nodelist/nodelistend or graphlist/graphlistend. */
  class NodeList {
    var first: Node?
    var last: Node?
    ghost var elems: seq<Node>
    ghost var members: set<Node>   // the elements of elems

    constructor ()
      ensures elems == [] && members == {} && Valid()
    {
      first, last, elems, members := null, null, [], {};
    }

    ghost predicate Valid()
      reads this, members`next, members`before
    {
      && Distinct(elems)
      && (forall x :: x in elems ==> x in members)
      && (forall x :: x in members ==> x in elems)
      && first == (if elems == [] then null else elems[0])
      && last == (if elems == [] then null else elems[|elems| - 1])
      && forall i :: 0 <= i < |elems| ==> LinkedAt(elems, i)
    }

    /** The links of all members. */
    ghost function Links(): (r: map<Node, (Node?, Node?)>)
      reads this, members`next, members`before
    {
      map x | x in members :: (x.before, x.next)
    }

    /** What changes when v leaves the list: `was` are the links before, and the list ran
        from f to l. */
    ghost predicate Unlinked(v: Node, was: map<Node, (Node?, Node?)>, f: Node?, l: Node?)
      reads this, members`next, members`before
    {
      && v in was.Keys && was.Keys == members
      && first == (if was[v].0 == null then was[v].1 else f)
      && last == (if was[v].1 == null then was[v].0 else l)
      && (forall x :: x in members && x != v ==> x.next == if was[v].0 == x then was[v].1 else was[x].1)
      && (forall x :: x in members && x != v ==> x.before == if was[v].1 == x then was[v].0 else was[x].0)
    }

    /** del_node_from_dl_list, followed by the two NULL assignments all its callers make. */
    method Unlink(v: Node)
      requires v in members && (v.before != null ==> v.before in members && v.before != v)
      requires v.next != null ==> v.next in members && v.next != v
      modifies this`first, this`last, members`next, members`before
      ensures v.next == null && v.before == null && Unlinked(v, old(Links()), old(first), old(last))
    {
      if v.before != null { v.before.next := v.next; } else { first := v.next; }
      if v.next != null { v.next.before := v.before; } else { last := v.before; }
      v.next, v.before := null, null;
    }

    /** Where v is in the list, and what follows for the list without v. */
    lemma Position(v: Node) returns (k: nat)
      requires Valid() && v in members
      ensures k < |elems| && elems[k] == v && Distinct(elems) && Linking(elems, Links())
      ensures v.before == (if k > 0 then elems[k - 1] else null) != v
      ensures v.next == (if k + 1 < |elems| then elems[k + 1] else null) != v
      ensures forall x :: x in elems <==> x in members
      ensures first == elems[0] && last == elems[|elems| - 1]
      ensures Minus(elems, v) == elems[..k] + elems[k + 1..] && Distinct(Minus(elems, v))
      ensures Elems(Minus(elems, v)) == members - {v}
    {
      hide Minus;
      k :| 0 <= k < |elems| && elems[k] == v;
      assert LinkedAt(elems, k);
      MinusAt(elems, k);
      MinusDistinct(elems, v);
      forall i | 0 <= i < |elems| ensures LinkingAt(elems, Links(), i) {
        assert LinkedAt(elems, i);
      }
    }

    /** After the unlinking of v, its k-th node, the links are those of the rest of the list. */
    lemma LinksOfRest(v: Node, s: seq<Node>, t: seq<Node>, k: nat, was: map<Node, (Node?, Node?)>, f: Node?, l: Node?,
                      i: nat)
      requires Unlinked(v, was, f, l) && Linking(s, was) && Distinct(s)
      requires k < |s| && s[k] == v && t == s[..k] + s[k + 1..] && i < |t|
      ensures LinkedAt(t, i)
    {
      hide Distinct;
      var j := if i < k then i else i + 1;
      assert t[i] == s[j] && LinkingAt(s, was, j) && LinkingAt(s, was, k);
      SameAt(s, k - 1, j);
      SameAt(s, k, j);
      SameAt(s, k + 1, j);
    }

    lemma EndsOfRest(v: Node, s: seq<Node>, t: seq<Node>, k: nat, was: map<Node, (Node?, Node?)>)
      requires k < |s| && Unlinked(v, was, s[0], s[|s| - 1]) && Linking(s, was)
      requires s[k] == v && t == s[..k] + s[k + 1..]
      ensures first == (if t == [] then null else t[0]) && last == if t == [] then null else t[|t| - 1]
    {
      assert LinkingAt(s, was, k);
    }

    /** The sequence of nodes follows the links. */
    ghost method Renew(t: seq<Node>)
      requires Distinct(t) && (forall x :: x in t ==> x in members)
      requires first == (if t == [] then null else t[0]) && last == if t == [] then null else t[|t| - 1]
      requires forall i :: 0 <= i < |t| ==> LinkedAt(t, i)
      modifies this`elems, this`members
      ensures Valid() && elems == t && members == Elems(t)
    {
      hide Distinct, LinkedAt;
      elems, members := t, Elems(t);
    }

    /** Deletion of a node from the list. */
    method Delete(v: Node)
      requires Valid() && v in members
      modifies this, members`next, members`before
      ensures Valid() && elems == Minus(old(elems), v) && members == old(members) - {v}
      ensures |elems| == |old(elems)| - 1
      ensures v.next == null && v.before == null
    {
      hide Distinct, Minus, NodeList.Valid, LinkedAt, Elems, Linking, NodeList.Links, NodeList.Unlinked;
      ghost var s, t, was := elems, Minus(elems, v), Links();
      ghost var k := Position(v);
      Unlink(v);
      forall i | 0 <= i < |t| ensures LinkedAt(t, i) {
        LinksOfRest(v, s, t, k, was, s[0], s[|s| - 1], i);
      }
      EndsOfRest(v, s, t, k, was);
      Renew(t);
    }

    /** ins_node_in_dl_list, for a node whose links are NULL: v becomes the last element. */
    method Append(v: Node)
      requires Valid() && v !in members && v.next == null
      modifies this, v`before, members`next
      ensures Valid() && elems == old(elems) + [v] && members == old(members) + {v}
    {
      if last != null { assert LinkedAt(elems, |elems| - 1); }
      label L:
      v.before := last;
      if last != null { last.next := v; }
      last := v;
      if first == null { first := v; }
      elems, members := elems + [v], members + {v};
      forall i | 0 <= i < |elems| ensures LinkedAt(elems, i) {
        if i + 1 < |elems| { assert old@L(LinkedAt(elems, i)); }
      }
    }
  }
}
