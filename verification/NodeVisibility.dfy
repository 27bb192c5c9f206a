/** The node list, the graph list and the reasons why a node is hidden (folding.c). */
module NodeVisibility {
  import opened GraphTypes

  // The values of NINVISIBLE. 0 means visible.
  const UNFOLDED_SGRAPH := 1
  const FOLDED_SGNODE := 2
  const FOLDED_RGNODE := 3

  /** The global variables of alloc.c and folding.c. The ghost sets hold what the lists are
      about: all specified nodes, the nodes whose adjacency lists are in force (those that
      were visible when the lists were built), and the edges in the adjacency lists. */
  class Vcg {
    const nodelist: NodeList
    const graphlist: NodeList
    var nodeanz: int
    var edgelist: seq<Edge>
    var tmpedgelist: seq<Edge>   // newest first
    var foldstops: seq<Node>
    var foldnode: NodeAttrs
    var foldedge: EdgeAttrs
    ghost var nodes: set<Node>
    ghost var active: set<Node>
    ghost var listed: set<Edge>
    ghost var maxdepth: nat

    constructor (foldnode: NodeAttrs, foldedge: EdgeAttrs)
      ensures nodes == {} && active == {} && listed == {} && edgelist == [] && tmpedgelist == []
      ensures fresh(nodelist) && fresh(graphlist) && ListsOk()
    {
      nodelist := new NodeList();
      graphlist := new NodeList();
      nodeanz, edgelist, tmpedgelist, foldstops := 0, [], [], [];
      this.foldnode, this.foldedge := foldnode, foldedge;
      nodes, active, listed, maxdepth := {}, {}, {}, 0;
    }

    /** What the flags of one node say: it is on the node list iff it is visible, on the
        graph list iff it is an unfolded graph. The links of a node on neither list are free;
        those of the nodes that edge classes hide form the list invis_nodes. */
    ghost predicate FlagsOk(x: Node)
      reads nodelist, graphlist, x`inlist, x`invisible, x`sgraph
    {
      && (x.inlist <==> x in nodelist.members)
      && (x.inlist <==> x.invisible == 0)
      && (x.invisible == UNFOLDED_SGRAPH <==> x in graphlist.members)
      && (x.invisible == UNFOLDED_SGRAPH ==> x.sgraph != [])
    }

    ghost predicate ListsOk()
      reads this`nodes, this`nodeanz, nodelist, graphlist, nodes`inlist, nodes`invisible, nodes`next, nodes`before,
          nodes`sgraph
    {
      && nodelist != graphlist
      && nodelist.members <= nodes && graphlist.members <= nodes
      && nodelist.members !! graphlist.members
      && nodelist.Valid() && graphlist.Valid()
      && nodeanz == |nodelist.elems|
      && forall x :: x in nodes ==> FlagsOk(x)
    }

    lemma UnfoldedHasNodes(v: Node)
      requires ListsOk() && v in nodes
      ensures v.invisible == UNFOLDED_SGRAPH ==> v.sgraph != []
    {
      assert FlagsOk(v);
    }

    /** NSGRAPH and NROOT describe a forest. */
    ghost predicate Forest()
      reads this`nodes, this`maxdepth, nodes`sgraph
    {
      && (forall x :: x in nodes ==> x.depth <= maxdepth)
      && (forall x :: x in nodes && x.root != null ==>
            x.root in nodes && x.root.depth < x.depth && x in x.root.sgraph)
      && (forall u, x :: u in nodes && x in u.sgraph ==> x in nodes && x.root == u)
    }

    /** The reasons of all nodes. */
    ghost function Flags(): (r: map<Node, int>)
      reads this`nodes, nodes`invisible
    {
      map x | x in nodes :: x.invisible
    }

    /** The lists and flags agree but for v, which is on neither list. */
    ghost predicate AgreeWithout(v: Node)
      reads this`nodes, this`nodeanz, nodelist, graphlist, nodes`inlist, nodes`invisible
      reads nodes`next, nodes`before, nodes`sgraph
    {
      && nodelist != graphlist && v !in nodelist.members && v !in graphlist.members
      && nodelist.members <= nodes && graphlist.members <= nodes
      && nodelist.members !! graphlist.members
      && nodelist.Valid() && graphlist.Valid()
      && nodeanz == |nodelist.elems|
      && forall x :: x in nodes && x != v ==> FlagsOk(x)
    }

    /** The first half of delete_node: the visible node v leaves the node list. */
    method LeaveNodes(v: Node, k: int)
      requires ListsOk() && v in nodes && v.inlist
      modifies this`nodeanz, nodelist, nodes`next, nodes`before, v`inlist, v`invisible
      ensures AgreeWithout(v) && v.invisible == k && !v.inlist && v.next == null
      ensures nodelist.elems == Minus(old(nodelist.elems), v) && graphlist.elems == old(graphlist.elems)
    {
      hide NodeList.Valid, Minus, Distinct;
      assert FlagsOk(v);
      v.inlist := false;
      v.invisible := k;
      nodelist.Delete(v);
      nodeanz := nodeanz - 1;
    }

    /** The second half: a subgraph comes back to the graph list. */
    method JoinGraphs(v: Node, k: int)
      requires AgreeWithout(v) && v in nodes && k != 0 && (k == UNFOLDED_SGRAPH ==> v.sgraph != [])
      requires v.invisible == k && !v.inlist && v.next == null
      modifies graphlist, nodes`next, nodes`before
      ensures ListsOk() && nodelist.elems == old(nodelist.elems)
      ensures graphlist.elems == old(graphlist.elems) + (if k == UNFOLDED_SGRAPH then [v] else [])
    {
      hide NodeList.Valid, Minus, Distinct;
      if v.sgraph != [] {
        if k == UNFOLDED_SGRAPH {
          graphlist.Append(v);
        }
      }
    }

    /** delete_node. */
    method DeleteNode(v: Node, k: int)
      requires ListsOk() && v in nodes && k != 0 && (k == UNFOLDED_SGRAPH ==> v.sgraph != [])
      modifies this`nodeanz, nodelist, graphlist, nodes`next, nodes`before, v`inlist, v`invisible
      ensures ListsOk()
      ensures !old(v.inlist) ==> v.inlist == old(v.inlist) && v.invisible == old(v.invisible)
      ensures old(v.inlist) ==> v.invisible == k && !v.inlist
      ensures Flags() == old(Flags())[v := if old(v.invisible) == 0 then k else old(v.invisible)]
      ensures nodelist.elems == Minus(old(nodelist.elems), v)
      ensures graphlist.elems == old(graphlist.elems) + (if old(v.inlist) && k == UNFOLDED_SGRAPH then [v] else [])
    {
      hide ListsOk, AgreeWithout, Minus;
      FlagsOfNode(v);
      if !v.inlist { return; }
      LeaveNodes(v, k);
      JoinGraphs(v, k);
    }

    /** The first half of insert_node: v, hidden for the reason k, leaves the graph list. */
    method LeaveGraphs(v: Node, k: int)
      requires ListsOk() && v in nodes && k != 0 && v.invisible == k
      modifies graphlist, nodes`next, nodes`before
      ensures AgreeWithout(v) && nodelist.elems == old(nodelist.elems)
      ensures graphlist.elems == if k == UNFOLDED_SGRAPH then Minus(old(graphlist.elems), v) else old(graphlist.elems)
    {
      hide NodeList.Valid, Minus, Distinct;
      assert FlagsOk(v);
      if v.sgraph != [] {
        if k == UNFOLDED_SGRAPH {
          graphlist.Delete(v);
        }
      }
    }

    /** The second half: v joins the node list. */
    method JoinNodes(v: Node)
      requires AgreeWithout(v) && v in nodes
      modifies this`nodeanz, nodelist, nodes`next, v`before, v`inlist, v`invisible
      ensures ListsOk() && v.invisible == 0 && v.inlist
      ensures nodelist.elems == old(nodelist.elems) + [v] && graphlist.elems == old(graphlist.elems)
    {
      hide NodeList.Valid, Minus, Distinct;
      v.inlist := true;
      v.invisible := 0;
      v.next, v.before := null, null;
      nodelist.Append(v);
      nodeanz := nodeanz + 1;
    }

    /** insert_node. */
    method InsertNode(v: Node, k: int)
      requires ListsOk() && v in nodes && k != 0
      modifies this`nodeanz, nodelist, graphlist, nodes`next, nodes`before, v`inlist, v`invisible
      ensures ListsOk()
      ensures old(v.invisible) != k ==> v.inlist == old(v.inlist) && v.invisible == old(v.invisible)
      ensures old(v.invisible) == k ==> v.invisible == 0 && v.inlist
      ensures Flags() == old(Flags())[v := if old(v.invisible) == k then 0 else old(v.invisible)]
      ensures nodelist.elems == old(nodelist.elems) + (if old(v.invisible) == k then [v] else [])
      ensures graphlist.elems == if k == UNFOLDED_SGRAPH then Minus(old(graphlist.elems), v) else old(graphlist.elems)
    {
      hide ListsOk, AgreeWithout, Minus;
      FlagsOfNode(v);
      if v.inlist { return; }
      if v.invisible != k { return; }
      LeaveGraphs(v, k);
      JoinNodes(v);
    }

    lemma FlagsOfNode(v: Node)
      requires ListsOk() && v in nodes
      ensures v.inlist <==> v.invisible == 0
      ensures !v.inlist ==> Minus(nodelist.elems, v) == nodelist.elems
      ensures v.invisible != UNFOLDED_SGRAPH ==> Minus(graphlist.elems, v) == graphlist.elems
    {
      assert FlagsOk(v);
    }
  }
}
