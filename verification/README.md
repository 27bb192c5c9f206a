# Verification of the graph viewer and the PIN debugger stub

This project models the parts of the repository whose correctness is least obvious, in Dafny
4.11, and proves what they promise. `dafny verify dfyconfig.toml` checks all of it.

The code is modelled in its own form. Global variables and records that the C and C++ code
updates are fields of classes, its loops are loops, and each method is proved against a
function or predicate on the old and the new state; the theorems are about these. Integers are
unbounded, and the division of C is written out (`Clipping.TruncDiv`).

## Folding (folding.c)

* `Chains`, `GraphTypes`: adjacency lists as cells linked by numbers, where a deleted cell
  keeps its link because a loop may still stand on it; doubly linked node lists; the records.
* `NodeVisibility`: the node list, the graph list and the reasons why a node is hidden.
* `Subgraphs`, `SubgraphRuns`: folding and unfolding of nested subgraphs, every run of them,
  and the exact conditions under which "visible iff no graph around it is folded" is kept.
* `SearchVisible`: the search for the visible node that stands for a hidden one. The source
  doubts its termination. It returns exactly if, on the way up to the visible node, no
  unfolded graph starts with an unfolded graph (`WayFree`); a folding after which it does not
  return is given (`NestedGraphDiverges`).
* `Adjacency`, `Quotient`: the adjacency lists are the quotient graph under representation.
* `RegionCore`, `Regions`, `RegionSearch`, `FoldRegions`: folding of regions, a depth-first
  search that rewrites the lists it runs over. `RegionCore` is its invariant, on sets of nodes
  and edges; `Regions` keeps it in the substituting half of the recursion, `RegionSearch` in
  the searching half; `FoldRegions` states the result and the round trip with unfolding.
* `RegionRuns`: any number of foldings. The edges that they move one by one join the same
  nodes as those that create_adjacencies builds from scratch afterwards (`FoldAndRebuild`).
* `LeftOvers`: region folding from a hidden node. refresh does not clear the list of a node that
  is neither visible nor an unfolded graph, and fold_region follows what the last layout has
  left there. If this leads to a visible node, it is folded into a node that is not visible,
  and the assertions of recursive_fold fail (`LeftOverRun`). Folding from n works exactly if n
  is visible or no left-over edge of class k or lower leads to a visible node that is no fold
  stop (`FoldVisible`, `FoldHidden`, `FoldLeftOver`), and that is what `FoldAndRebuild` requires.
* `MixedRuns`: runs that mix regions and subgraphs, with the exact condition for each operation.
* `DepthSearch`, `SortNodes`: measuring nodes and sorting the node list; folding, unfolding and
  sorting restores the list.
* `Summarize`, `SplitEdges`: removal of duplicate edges, and splitting of double edges.

Where the comment and the code of summarize_edges disagree (the comment excludes edges with
labels, the code compares no labels), the model follows the code.

## The debugger stub (idadbg.cpp)

* `Breakpoints`: the breakpoint manager, and the interleavings of client, compiler and
  reinstrumenter with PIN's code cache. No breakpoint is missed as long as nothing is compiled
  between the adding of a breakpoint and the end of the next resume (`OrderlyRun`). The exact
  condition on a single compilation is proved (`CompileExact`), and that a breakpoint can be
  missed in a run that is not orderly (`MissedWithoutOrder`). No step is missed in any run
  (`NoStepMissed`). An execution of an instruction
  looks at the control flag, lets do_ctrl decide, and calls do_bpt at three moments, with
  steps of other threads in between; a flush of the code cache between the first two can make
  it miss a breakpoint (`MissedAcrossFlush`). All routines that one execution calls belong to
  one compiled copy of the instruction.
* `EventQueue`, `Protocol`, `ProtocolRuns`: suspending and resuming, one step for each section
  under a lock; `Perform` shows that the methods perform the steps. The queue has a lock of its
  own, which some callbacks take alone: `NoticesWithinResume` and `PopWithinSuspend` show that
  what they do in the middle of a section might as well happen after it. Exiting and detaching
  are one step each, the start of the application is one step and does not happen after them,
  and the network does not fail. A thread that has reported a stop waits if run_app_sem is
  clear. In the state WAIT_FLUSH it is set: a breakpoint that is reported then is queued, but
  the thread runs on (`WaitsAfterReport`, `ReportersWaitIff`, `PassesReportedBreakpoint`).

## Drawing (drawlib.c, fisheye.c, grprint2.c)

* `Clipping`, `LineClipping`, `SolidLines`: clipping of lines with integer division in all
  quadrant pairs, and that the assertions of the line functions cannot fail.
* `Dashes`: the loops of the dashed and dotted lines, which the source writes out for each
  direction, are modelled once with the signs of the direction.
* `Fisheye`, `FisheyeTable`, `Scaling`: the cartesian fisheye map, the table that inverts it,
  and the normalisation of the scaling factor. The table is the inverse of the map where that
  is monotone. The rounding of the parameters can make it not monotone
  (`RoundingMisplacesEdge`); it is monotone exactly if the edges of the screen fit
  (`NormalizedIsMonotoneIff`).
* `Raster`, `Bitmap`: lines in the bitmap of the pbm printer.

## Memory (alloc.c)

* `Allocator`: the free lists. Nodes, edges and the cons cells share one scheme, which is
  modelled once.

## Model

| member | source | states |
|---|---|---|
| Chains.WalkMeets | alloc.c:1348-1415 | from a linked cell a traversal meets exactly the edges linked in this cell or an older one, each once: the map of an adjacency list describes what its links make |
| Chains.Contains | folding.c:1887-1896 | the scan loops of create_adjedge find an edge iff it is linked |
| Chains.Remove | folding.c:1923-1940 | the loop of delete_adjedge unlinks exactly the given edge and leaves a well-formed list; unlinked cells keep their next link, so a cursor on one still reaches the rest |
| Chains.UnlinkedOk | folding.c:1925-1931 | unlinking behind the trailing pointer (or at the head) keeps the list well-formed and every other cell in place |
| Chains.OneLinkTo | folding.c:1925-1931 | no two linked cells link to the same cell |
| Chains.CursorAfterRemoval | folding.c:1159-1175 | a loop that deletes the edge it stands on goes on with the next linked edge and misses none |
| Chains.CursorAdvances | folding.c:1146-1156 | a loop over a list that the recursion changes meanwhile passes every edge that stays linked |
| GraphTypes.NodeList.Unlink | folding.c:835-840 | del_node_from_dl_list with the two NULL assignments: which links change and how |
| GraphTypes.NodeList.Delete | folding.c:835-840 | deleting a member leaves a well-formed doubly linked list of the other nodes in the same order |
| GraphTypes.NodeList.Append | folding.c:842-847 | ins_node_in_dl_list appends an unlinked node and keeps the list well-formed |
| NodeVisibility.Vcg.DeleteNode | folding.c:858-881 | delete_node: the reason changes only for a visible node; node list, graph list, NINLIST, NINVISIBLE and nodeanz keep agreeing |
| NodeVisibility.Vcg.InsertNode | folding.c:893-917 | insert_node: a node becomes visible only if it is hidden for this very reason; the lists and flags keep agreeing |
| Subgraphs.DeleteSgNodes | folding.c:930-948 | delete_sgnodes hides exactly the visible nodes below a subgraph, at any depth |
| Subgraphs.FoldSg | folding.c:959-970 | fold_sg changes the reasons of all nodes as FoldFlags says: everything visible below is hidden, the summary node is shown if it was unfolded |
| Subgraphs.UnfoldSg | folding.c:982-1010 | unfold_sg shows exactly the nodes between which and the graph no folded graph lies, and hides the summary node |
| Subgraphs.WithinMembers | folding.c:930-1010 | the nodes below a graph are those in or below one of its members |
| SubgraphRuns.FoldKeepsCoherence | folding.c:930-970 | fold_sg keeps 'visible iff no graph around it is folded' exactly if the graph is not unfolded or all graphs around it are |
| SubgraphRuns.UnfoldKeepsCoherence | folding.c:982-1010 | unfold_sg keeps it when all graphs around are unfolded, even with regions folded and classes hidden |
| SubgraphRuns.UnfoldCoherenceExact | folding.c:982-1010 | as long as only subgraphs are folded, that condition is necessary and sufficient |
| SubgraphRuns.RunKeepsCoherence | folding.c:690-706 | after any admissible run of foldings and unfoldings a node is on the node list iff it is a plain node or folded graph and no graph around it is folded |
| SubgraphRuns.InitialCoherent | alloc.c:541-564 | the specified graph, with every graph unfolded, is coherent |
| SubgraphRuns.FoldUnfold | folding.c:958-1010 | unfold_sg undoes fold_sg for every node, with inner fold states intact |
| SubgraphRuns.FoldAndUnfold | folding.c:690-706 | steps 2 and 3 of the driver are the run of the requested foldings and then unfoldings |
| MixedRuns.ShowKeepsCoherence | folding.c:1206-1259 | unfold_region keeps 'visible iff no graph around it is folded' exactly if no graph around a node that it shows is folded |
| MixedRuns.UnfoldKeepsCoherenceIff | folding.c:982-1010 | unfold_sg keeps it, with regions folded and classes hidden, exactly if no graph around is folded and nothing else hides the summary node, or nothing is shown |
| MixedRuns.CoherentIffAllowed | folding.c:690-738 | a run of foldings and unfoldings of subgraphs and regions keeps it all along exactly if every operation meets its condition when its turn comes |
| MixedRuns.ShownInFoldedGraph | folding.c:1206-1259 | a run in which unfolding a region shows a node inside a folded graph |
| SearchVisible.Find | folding.c:2026-2055 | search_visible returns what the specification of the search says whenever that is defined |
| SearchVisible.LoopEndsIff | folding.c:2041-2045 | the inner loop, which looks at the first member of the same graph again and again, ends iff that is not an unfolded graph |
| SearchVisible.CoverExists | folding.c:2017-2024 | exactly one node on the root path of a plain node, a folded graph or a hidden graph is visible |
| SearchVisible.SearchFindsCover | folding.c:2026-2055 | from a node inside a folded graph the search returns that node within the nesting depth, if no unfolded graph on the way starts with an unfolded graph |
| SearchVisible.SearchFindsFirst | folding.c:2041-2048 | from an unfolded graph that is not hidden the search returns its first member |
| SearchVisible.SearchEndsIff | folding.c:2026-2055 | while only subgraphs are folded, the search from a node returns iff its way up to the visible node is free of unfolded graphs that start with an unfolded graph; then depth + 2 calls are enough and the result is the visible node |
| SearchVisible.SearchDiverges | folding.c:2036-2045 | if the way is not free, no bound on the calls is enough |
| SearchVisible.NestedGraphDiverges | folding.c:2036-2045 | such a state: a graph with an unfolded graph in it that starts with another one is folded, and the search from the innermost node does not return |
| SearchVisible.SearchMore | folding.c:2026-2055 | more steps do not change the result of a search that has ended |
| Adjacency.CreateAdjEdge | folding.c:1876-1901 | create_adjedge: the edge is listed afterwards, once in NSUCC of its start and once in NPRED of its end, everything else is as before |
| Adjacency.DeleteAdjEdge | folding.c:1911-1942 | delete_adjedge: exactly this edge is unlisted, both lists stay well-formed, and the edge is marked invisible |
| Adjacency.ExchangeAdjEdge | folding.c:1167-1172 | deleting one edge and creating another keeps the lists consistent and cursors on them good |
| Quotient.FindSubstitute | folding.c:2116-2120 | the scan of tmpedgelist finds an edge for the pair of nodes iff there is one |
| Quotient.Substitute | folding.c:2116-2146 | a substitute is shared per ordered pair: an existing one is reused, otherwise one is made: every attribute is the given one of the fold edge, and where none is given that of the edge (the label is only the fold edge's); the anchor is the edge's if it starts at the representative, otherwise 0 |
| Quotient.FoldedAttrs | alloc.c:1095-1119 | inherit_foldedge_attributes: each attribute is the given one, otherwise the edge's own |
| Quotient.InheritedTwice | alloc.c:1097-1119 | if nothing is given the attributes are those of the edge without the label; inheriting twice changes nothing more |
| Quotient.SubstedEdge | folding.c:2078-2147 | substed_edge: the edge itself if both ends are visible, a substitute between the representatives if they exist and differ, NULL otherwise; EINVISIBLE says which |
| Quotient.Refresh | folding.c:1477-1525 | refresh empties the adjacency lists of the nodes on the node list and the graph list, leaves those of the other nodes alone, makes the specified edges visible, and gives the edges back that the layout has reversed |
| Quotient.RefreshRestores | folding.c:1503-1521 | however often revert_edge (step1.c:1312-1331) has reversed an edge, refresh restores its ends; its arrows too, exactly unless it is a self loop with different arrows that was reversed an odd number of times |
| Quotient.HandleEdge | folding.c:2168-2172 | a round of create_adjacencies extends the quotient by one specified edge; a substitute that is new is made for this edge, the first that induces its pair |
| Quotient.CreateAdjacencies | folding.c:2159-2173 | create_adjacencies lists exactly the drawn edges and, for each induced pair, the one substitute of tmpedgelist; substitutes left over from earlier are listed iff their pair is induced again; EINVISIBLE is 0 for what is listed and 1 for the other specified edges; tmpedgelist keeps what it held, and each further substitute looks like the first edge that induces its pair (InheritsEdge, attribute by attribute, and the anchor), but for what is given for folded edges |
| Quotient.BuildAdjacencies | folding.c:717-724 | where every search for a representative returns, refresh and create_adjacencies build the quotient graph, also with substitutes left over from before; a hidden node that is no unfolded graph keeps the list of successors it had |
| Quotient.JoiningGrows | folding.c:2111-2146 | one more induced pair lists one more substitute, and no edge that is left over for another pair |
| Quotient.EdgeResolvesIff | folding.c:2095-2110 | while only subgraphs are folded, the ends of an edge have representatives iff both ways are free |
| Quotient.RepIsCover | folding.c:2095-2110 | and these representatives are the visible nodes on the root paths |
| Quotient.ListedIsQuotient | folding.c:2078-2173 | edge by edge: a specified edge is listed iff both ends are visible; from s to t there is a substitute, and only one, iff some edge that is not drawn has the representatives s and t, s not t |
| Quotient.InducedMeaning | folding.c:2098-2120 | a pair is induced iff some edge that is not drawn has these two different representatives |
| Quotient.OtherReasonDropsEdge | folding.c:2053-2055 | an edge to or from a node that is hidden by edge classes is not drawn and has no substitute |
| RegionCore.RegionIsReachable | folding.c:1086-1096 | a set that is closed under followed edges and holds only reachable nodes is the set of the nodes reachable from n |
| RegionCore.LayerInside | folding.c:1146-1156 | a region closed under followed edges contains every node reachable from n, however long the path |
| RegionCore.CoreReplaces | folding.c:1158-1194 | replacing an edge of a hidden node by one to the summary node keeps the invariant of the folding |
| RegionCore.CoreDrops | folding.c:1158-1194 | dropping an edge between inner nodes keeps it |
| RegionCore.CoreLeaves | folding.c:1195 | clearing the lists of a node whose edges are all substituted keeps it |
| RegionCore.SubstituteFits | folding.c:1162-1172 | the edge that substed_edge gives is the right replacement; it is no self loop and does not touch the region |
| RegionCore.FollowsSubstitute | folding.c:1090-1091 | folding follows a substitute by the class of the edge it stands for, or by the given class if the fold edge gives one |
| RegionCore.CoreFinished | folding.c:1040-1196 | at the end an outer node is joined to (from) n iff it was joined to (from) n or a node of the region |
| Regions.InnerIsRepresented | folding.c:2026-2055 | during the folding the representative of a hidden node is the summary node |
| Regions.EdgeIsRepresented | folding.c:2078-2110 | what substed_edge finds for an edge of a node being finished: the assertions of recursive_fold on the substitute hold |
| Regions.FoldstopReached | folding.c:599-614 | foldstop_reached tells whether the node is a fold stop |
| Regions.EnterRegion | folding.c:1133-1143 | a node is put in front of NREGION(n), gets NREGROOT n and is hidden; the invariant is kept |
| Regions.ReplaceEdge | folding.c:1161-1173 | a round of the substituting loops unlists the edge and lists its substitute, with n in the place of the inner ends, unless both ends are inner; no other edge is listed or unlisted |
| Regions.SubstituteEdges | folding.c:1158-1194 | each substituting loop of recursive_fold ends with no edge of its list left, although it deletes the cells it stands on |
| Regions.FinishNode | folding.c:1158-1195 | after the second half of recursive_fold the node is finished: no listed edge touches it |
| RegionSearch.RecursiveFold | folding.c:1110-1196 | recursive_fold terminates; the node is hidden or was inner already, and every node that became hidden is reachable and searched completely |
| RegionSearch.FollowEdge | folding.c:1087-1094 | a round of the search follows an edge iff its class is low enough and its end is no fold stop |
| RegionSearch.FoldSuccessors | folding.c:1086-1096 | the loop over NSUCC leaves no followed edge whose end is outside, although the recursion edits the list |
| RegionSearch.PassedOne | folding.c:1146-1156 | an edge that the recursion unlisted before the cursor came to it ends in the region or at n |
| FoldRegions.Replacement | folding.c:1061-1072 | the replacement record keeps everything of n and leaves the node list as it was |
| FoldRegions.AttributesComeBack | folding.c:1225-1243 | unfolding gives all attributes back, except NSTATE; all of them iff the fold node gives no other state |
| FoldRegions.FoldFrom | folding.c:1086-1096 | the search from n hides exactly the region and leaves the lists ready for the next folding |
| FoldRegions.FoldRegion | folding.c:1040-1096 | fold_region hides exactly the visible nodes other than n that are reachable along edges of class at most k without entering a fold stop; each is once in NREGION(n) and has NREGROOT n; no listed edge touches a hidden node; edges among other nodes are unchanged; an outer node is joined to (from) n iff it was joined to (from) n or the region; each attribute of n is the given one of the fold node, otherwise what it was (0 and -1 for location and size), and title and fold class stay |
| FoldRegions.Summary | alloc.c:466-497 | the attributes of the summary node, one by one |
| FoldRegions.NothingGiven | folding.c:1069-1079 | a fold node that gives nothing changes only location and size |
| FoldRegions.CoreEdges | folding.c:1040-1196 | what the finished folding has done to the listed edges: those that touch the region are gone, the others stay, an outer node is joined to (from) n iff it was joined to (from) n or the region, and each new edge is the only one of its pair and was temporary before or has the attributes of an edge that it replaces |
| FoldRegions.RegionFound | folding.c:1110-1156 | the nodes found by the search are the region |
| FoldRegions.QuotientIsReady | folding.c:721-738 | the lists that create_adjacencies has built are what fold_region needs |
| RegionRuns.FoldMovesSearch | folding.c:2026-2055 | after a region is folded every search returns that returned before, and finds the summary node where it found a node of the region |
| RegionRuns.FoldsMoveSearch | folding.c:726-738 | the same for any number of foldings, one after the other |
| RegionRuns.ListedPairs | folding.c:2159-2173 | the lists that create_adjacencies builds join exactly the pairs of the quotient |
| RegionRuns.FoldMovesPairs | folding.c:2078-2173 | the quotient after a folding is the quotient before it, with the region moved to the summary node and pairs within it dropped |
| RegionRuns.EdgesMovedPairs | folding.c:1040-1196 | so are the listed edges, which recursive_fold moves one by one |
| RegionRuns.FoldVisible | folding.c:1040-1096 | fold_region of a visible node keeps: every search returns, the listed edges join the pairs of the quotient, and each folding so far has found what was reachable from its start along the edges that the folding before it left, by its class and the fold stops of the graph |
| RegionRuns.FoldHidden | folding.c:1040-1096 | fold_region of a hidden node none of whose left-over edges leads to a visible node folds nothing |
| RegionRuns.DriverCallsAre | folding.c:730-738 | step 7 calls fold_region for exactly the fold starts with a class from 0 to 16, with this class |
| RegionRuns.LowerClassesFirst | folding.c:730-738 | the calls come in the order of the classes |
| RegionRuns.FoldAllRegions | folding.c:726-738 | step 7 of the driver folds, class by class, a region for each start node that is still visible when its turn comes; each folding starts on the listed edges that the one before has left (the first on those of step 6), hides exactly what is reachable along them by its class and the fold stops of the graph, and moves them as EdgesMoved says |
| RegionRuns.FoldAndRebuild | folding.c:717-749 | steps 5 to 8: step 6 builds the quotient; the foldings of step 7 start on its edges, one after the other, and leave the edges `moved`; after all of them every search returns again, the lists are built again, and they join exactly the pairs of nodes that `moved` joins |
| LeftOvers.MemberFindsStartIff | folding.c:2049-2050 | the search from a member of a region finds the start node of the folding iff that is visible; otherwise it finds what the search from the start node does |
| LeftOvers.AssertionsHoldIff | folding.c:1158-1193 | when substed_edge gives a substitute for an edge into (out of) the region, it ends (starts) at the start node, as recursive_fold asserts, iff that is visible |
| LeftOvers.FollowHidden | folding.c:1086-1096 | the loop of fold_region over the list of a hidden node comes to an edge that leads to a visible node iff there is one |
| LeftOvers.FoldLeftOver | folding.c:1040-1096 | if there is one, fold_region of the hidden node hides a visible node, which the start node does not stand for |
| LeftOvers.LeftOverRun | folding.c:690-738 | a run against the assertion EEND(ee)==n: n is a fold start in a graph u, and its edge to the outer node w is left over from the last layout; when u is folded, fold_region of n hides w, and the substitute of the edge from x to w ends at u |
| FoldRegions.ShowMembers | folding.c:1251-1256 | every former member is shown again, unless it is hidden for another reason, and has no NREGROOT |
| FoldRegions.UnfoldRegion | folding.c:1206-1259 | unfold_region does nothing without a replacement; otherwise n gets back what the replacement keeps and the members are shown |
| FoldRegions.FoldThenUnfold | folding.c:1040-1259 | fold_region and unfold_region restore the visible set, NREGROOT of all nodes and every attribute of n but NSTATE, also for a region folded inside another one |
| SortNodes.OneOrder | folding.c:1600-1628 | numbered nodes can be sorted in one way only |
| SortNodes.Relink | folding.c:1718-1727 | the relinking makes a well-formed list of the array |
| SortNodes.SortAllNodes | folding.c:1587-1731 | sort_all_nodes keeps the nodes of the list and orders them by the key of the layout: number, depth that no_dfs finds, indegree, outdegree or degree, upwards or downwards |
| DepthSearch.NoDfs | folding.c:1766-1789 | no_dfs terminates and does what the depth-first search of the specification does |
| DepthSearch.DepthIsWay | folding.c:1751-1789 | the depth that it finds is the length of a way that leaves no node twice and no marked node |
| DepthSearch.MarksAreReachable | folding.c:1766-1789 | with nothing marked before, it marks exactly the nodes that can be reached |
| SortNodes.CountEdges | folding.c:1794-1857 | the counting loops give the number of edges that enter or leave the node |
| SortNodes.SortedIsOrdered | folding.c:1640-1728 | for the layouts without an own key the numbers increase strictly along the list |
| SortNodes.LayoutOrder | folding.c:1640-1728 | for the layouts 4 to 11 the list is ordered by depth, indegree, outdegree or degree, rising or falling |
| SortNodes.FoldUnfoldSort | folding.c:958-1010 | fold_sg, unfold_sg and sorting give the identical node list |
| Summarize.FindCover | folding.c:2277-2304 | the inner loop finds another edge that covers the given one iff there is one |
| Summarize.CoversMeans | folding.c:2279-2298 | a covering edge differs from the covered one at most in label and label colour, and in being thicker or of higher priority |
| Summarize.RemoveCovered | folding.c:2305 | removing a covered edge leaves a covering edge for every edge removed before |
| Summarize.StillConnected | folding.c:2251-2256 | summarizing disconnects no pair of nodes |
| Summarize.SummarizeNode | folding.c:2274-2307 | after the loop over NSUCC(v) no edge from v is covered by another one |
| Summarize.SummarizeEdges | folding.c:2262-2309 | no edge from a node of the node list is covered by another one, edges from label nodes stay, and every removed edge is covered by one that is still listed |
| SplitEdges.FindDouble | folding.c:2360-2367 | the inner loop finds another edge to the same target iff there is one |
| SplitEdges.LabelIsPrivate | folding.c:2368-2411 | the only edges at a label node are those of its path |
| SplitEdges.SplitEdge | folding.c:2368-2411 | the edge is replaced by a path through a fresh label node: no arrow at the label, the first part has the label, the anchor and the arrow at the start, the second the arrow at the end, and both look like the edge otherwise |
| SplitEdges.SplitDoubleEdges | folding.c:2341-2416 | at most one edge leads from a node of the node list to another node, each removed edge has its own path instead, and all others are as before, also those from label nodes |
| Allocator.Pool.Take | alloc.c:291-311 | an allocation returns a record that was free or new, never one in use |
| Allocator.Pool.AllocTemp | alloc.c:573-617 | a temporary record leaves the free list and is put on the temporary list |
| Allocator.Pool.AllocFold | alloc.c:825-843 | a fold cell is put on the list of fold cells |
| Allocator.Pool.AllocPermanent | alloc.c:367-386 | a permanent record is one that was free or new and is on no list |
| Allocator.Pool.FreeOne | alloc.c:658-667 | free_node puts a record that is on no list on the free list |
| Allocator.Pool.Splice | alloc.c:635-637 | the splice behind the tail joins two chains into one without a cycle |
| Allocator.Pool.FreeTemp | alloc.c:625-646 | the whole temporary list becomes free; every record stays in exactly one place |
| Allocator.Pool.FreeFold | alloc.c:875-890 | the same for fold cells |
| Allocator.Conservation | alloc.c:291-355 | the records ever obtained are the free, the temporary, the fold and the permanent ones, added up |
| Allocator.Apart | alloc.c:573-667 | no record is on two lists or twice on one |
| Allocator.FreeOnlyPermanent | alloc.c:649-667 | free_node is right exactly for records in use that are on no list |
| Breakpoints.BptMgr.AddSoftBpt | idadbg.cpp:2302-2315 | a new breakpoint becomes pending and asks for reinstrumentation |
| Breakpoints.BptMgr.DelSoftBpt | idadbg.cpp:2318-2336 | a breakpoint is removed from the set it is in |
| Breakpoints.BptMgr.PrepareResume | idadbg.cpp:2361-2369 | the control flag is set iff a thread is to be stepped, the process is to stop at the next instruction, a thread is suspended or a breakpoint is pending; the request for reinstrumentation is returned and cleared |
| Breakpoints.BptMgr.InstallAll | idadbg.cpp:2447-2455 | the loop moves all pending breakpoints |
| Breakpoints.BptMgr.AddRtns | idadbg.cpp:2404-2465 | add_rtns moves the compiled address or all pending ones and inserts bpt_rtn iff the address is installed |
| Breakpoints.BptMgr.DecideCtrl | idadbg.cpp:2494-2521 | the event do_ctrl decides on |
| Breakpoints.CompileExact | idadbg.cpp:2419-2457 | compiling keeps the code of installed breakpoints right exactly if it moves only its own address or no pending breakpoint is cached without bpt_rtn |
| Breakpoints.OrderlyIsSafe | idadbg.cpp:2446-2456 | one step is safe when nothing is compiled between the adding of a breakpoint and the end of the next resume |
| Breakpoints.OrderlyRunIsSafe | idadbg.cpp:2404-2465 | so is every run in which nothing is compiled between the adding of a breakpoint and the end of the next resume |
| Breakpoints.StepKeepsInv | idadbg.cpp:2302-2465 | every locked step of client, compiler and reinstrumenter keeps the invariant |
| Breakpoints.RunKeepsPartition | idadbg.cpp:2302-2336 | in every run bpts and pending_bpts are disjoint and their union is what the client added and did not delete |
| Breakpoints.StaysInstalled | idadbg.cpp:2318-2336 | only deleting uninstalls a breakpoint |
| Breakpoints.StaysArmed | idadbg.cpp:2404-2465 | along a safe run a breakpoint that waits to be installed, or is installed in code that calls bpt_rtn, stays so until it is deleted or the code cache is flushed |
| Breakpoints.NoBreakpointMissed | idadbg.cpp:2480-2569 | after any orderly run the execution of a breakpoint is reported by do_ctrl or by do_bpt, whatever other threads do between the look at the control flag, the decision of do_ctrl and do_bpt, short of deleting it or flushing the cache |
| Breakpoints.NoBreakpointInvented | idadbg.cpp:2497-2562 | only breakpoints of the client are reported |
| Breakpoints.ResumeSetsFlag | idadbg.cpp:2361-2384 | after a resume the control flag is set exactly for these reasons |
| Breakpoints.CompilationSetsFlag | idadbg.cpp:2419-2457 | a compilation that installs a breakpoint sets the flag by the same reasons, another one leaves it |
| Breakpoints.CompilationInstalls | idadbg.cpp:2419-2457 | a compilation installs the pending breakpoint of its address, and the others iff no thread steps or is suspended and the instrumentation is in order |
| Breakpoints.ChangesReinstrument | idadbg.cpp:2302-2369 | a resume asks for reinstrumentation iff the client has changed its breakpoints since the last one |
| Breakpoints.FlagStays | idadbg.cpp:2361-2384 | once a resume has set the flag it stays set as long as a thread is to be stepped or suspended, or the process is to stop |
| Breakpoints.NoStepMissed | idadbg.cpp:2353-2507 | after set_step and a resume, whatever else happens until an event is emitted or another step set, an instruction without breakpoint that the thread executes calls do_ctrl, which decides for the step |
| Breakpoints.NoStepInvented | idadbg.cpp:2353-2357 | do_ctrl decides for a step only where the client has set one for the thread and nothing was emitted since |
| Breakpoints.DecidedApart | idadbg.cpp:2496-2521 | where the client has no breakpoint do_ctrl decides for a step exactly for the thread to be stepped, and for the initial stop exactly for the others while break_at_next_inst is set |
| Breakpoints.NoInitialStopMissed | idadbg.cpp:2372-2521 | the stop at the next instruction is not missed either |
| Breakpoints.SuspendedThreadsWait | idadbg.cpp:2372-2384 | while threads are suspended the code calls do_ctrl, where they wait |
| Breakpoints.MissedWithoutOrder | idadbg.cpp:2443-2456 | a run in which a compilation before the resume makes the execution of a breakpoint go unreported |
| Breakpoints.MissedAcrossFlush | idadbg.cpp:2404-2521 | an orderly run in which the cache is flushed and the code compiled again between control flag and decision, and the old copy goes unreported |
| EventQueue.EvQueue.AddEv | idadbg.cpp:2265-2275 | events are added at either end |
| EventQueue.EvQueue.PopFront | idadbg.cpp:2218-2229 | the first event is removed and remembered |
| EventQueue.PushFrontOk | idadbg.cpp:3075-3077 | a TRACE_FULL may be pushed in front when none is queued |
| EventQueue.PopOk | idadbg.cpp:2218-2229 | popping keeps the queue a prefix-faithful account of what was pushed |
| Protocol.PinTool.DoSuspendNolock | idadbg.cpp:553-568 | do_suspend_nolock for every target state: nothing happens to a held process, WAIT_FLUSH is refused, otherwise the semaphore is cleared, the state set and control prepared unless the process is gone |
| Protocol.PinTool.SuspendAtEvent | idadbg.cpp:587-595 | the event is queued and the process suspended, unless it is exiting or detached |
| Protocol.PinTool.AppStart | idadbg.cpp:973-1007 | the start of the application is reported and the process suspended |
| Protocol.PinTool.EmitEvent | idadbg.cpp:2573-2601 | emit_event resets stepping, suspends and queues the event of the right kind |
| Protocol.PinTool.EmitCtrl | idadbg.cpp:2523-2530 | do_ctrl reports a pause only when it has nothing else to report |
| Protocol.PinTool.EmitBpt | idadbg.cpp:2557-2564 | do_bpt reports an installed breakpoint |
| Protocol.PinTool.PreparePause | idadbg.cpp:1586-1620 | prepare_pause |
| Protocol.PinTool.ResumeSection | idadbg.cpp:1649-1678 | the locked section of do_resume: a real resume only with an empty queue |
| Protocol.PinTool.DoResume | idadbg.cpp:1626-1682 | do_resume refuses when all threads are suspended; otherwise it passes the answer to an exception on to the thread, releases the data of a thread that exited, runs the section and sets the trace semaphore |
| Protocol.ThreadsAfterAnswer | idadbg.cpp:1632-1682 | the answer to an exception is kept for its thread, an ended thread is forgotten, other threads are left alone |
| Protocol.PinTool.RequestFlush | idadbg.cpp:3068-3082 | a full trace buffer in the state RUNNING queues TRACE_FULL in front, sets WAIT_FLUSH and clears tracebuf_sem, not run_app_sem |
| Protocol.NoticesWithinResume | idadbg.cpp:1649-1678 | events that are queued between the test for an empty queue and the change of the state might as well be queued after the section, which holds another lock |
| Protocol.PopWithinSuspend | idadbg.cpp:2218-2229 | an event that is popped between the queueing and the suspension of a section might as well be popped after it |
| ProtocolRuns.EverySectionIsQueueStep | idadbg.cpp:2208-2275 | every section pushes at most one event, pops one, or leaves the queue alone; only a trace flush pushes in front |
| ProtocolRuns.SemaphoreStaysOk | idadbg.cpp:553-568 | every section keeps: SUSPENDED implies run_app_sem clear; clear implies SUSPENDED, or EXITING after a resume of PROCESS_EXIT with events queued |
| ProtocolRuns.StaysStopped | idadbg.cpp:587-595 | every section keeps: with the report of a stop (or TRACE_FULL) queued the state is SUSPENDED or WAIT_FLUSH, or the process is gone |
| ProtocolRuns.WaitsAfterReport | idadbg.cpp:553-595 | a section that queues the report of a stop leaves the threads waiting at run_app_sem, exactly unless the state is WAIT_FLUSH (and the section is not the start of the application) |
| ProtocolRuns.WaitsIffSuspended | idadbg.cpp:553-568 | while the process is not gone, threads wait at run_app_sem exactly in the state SUSPENDED |
| ProtocolRuns.RunKeepsProtocol | idadbg.cpp:553-595 | every interleaving of the sections keeps these, and: no event is lost, doubled or overtaken, and a TRACE_FULL is at the head only |
| ProtocolRuns.EveryRunIsSafe | idadbg.cpp:84-97 | so they hold in every state the stub can get into |
| ProtocolRuns.GoneForever | idadbg.cpp:707-720 | EXITING and DETACHED are never left |
| ProtocolRuns.FreedOnlyWhenDrained | idadbg.cpp:1650-1663 | threads that wait at run_app_sem come free only by a resume that finds the queue empty, or when the process is exiting or detached |
| ProtocolRuns.OnlyDrainedResumes | idadbg.cpp:1650-1663 | a held process runs again only by a resume that finds the queue empty |
| ProtocolRuns.HeldRun | idadbg.cpp:1649-1678 | in every run that does not let a held process go on, the threads wait at run_app_sem all along in SUSPENDED and not at all in WAIT_FLUSH, and at tracebuf_sem until the first answer |
| ProtocolRuns.ReportersWaitIff | idadbg.cpp:553-595 | after the report of a stop, as long as nothing lets the process go on, the threads wait exactly unless it was queued in WAIT_FLUSH and no start of the application has been reported since |
| ProtocolRuns.ResumesWhenDrained | idadbg.cpp:1622-1667 | a client that answers each event resumes the process after exactly the queued number of answers; answering PROCESS_EXIT makes it exit |
| ProtocolRuns.CtrlReportsBreakpoint | idadbg.cpp:2523-2534 | a breakpoint that do_ctrl reports is queued as BREAKPOINT; the threads wait iff the state was not WAIT_FLUSH, and a running process gets the control flag |
| ProtocolRuns.CtrlReports | idadbg.cpp:2523-2601 | a step is queued as STEP, the initial stop as PROCESS_ATTACH, and a requested pause, if there is nothing else, as PROCESS_SUSPEND |
| ProtocolRuns.StepIsQueued | idadbg.cpp:2353-2601 | after set_step and a resume the next instruction of the thread queues STEP, and no step is left to do |
| ProtocolRuns.InitialStopIsQueued | idadbg.cpp:2372-2601 | likewise the stop at the next instruction queues PROCESS_ATTACH |
| ProtocolRuns.PauseIsReported | idadbg.cpp:1586-1620 | a pause of the running process is reported by the next thread in do_ctrl, or at once if a thread is suspended already |
| ProtocolRuns.ResumeIsSteps | idadbg.cpp:1650-1663 | a drained resume changes breakpoints and instrumentation as the steps of Breakpoints do |
| ProtocolRuns.ReportIsSteps | idadbg.cpp:2586-2600 | so does the report of a stop |
| ProtocolRuns.CallbackEndIsStep | idadbg.cpp:2388-2400 | and the end of a callback |
| ProtocolRuns.TracersWaitIff | idadbg.cpp:3068-3085 | after a full trace buffer, as long as nothing lets the process go on, threads wait at tracebuf_sem exactly until the first answer |
| ProtocolRuns.GivingUpFrees | idadbg.cpp:958-970 | a thread that gives up waiting sets the semaphore it waited at |
| ProtocolRuns.BptReportsBreakpoint | idadbg.cpp:2557-2568 | so is what do_bpt reports |
| ProtocolRuns.BreakpointIsQueued | idadbg.cpp:2480-2601 | after an orderly run the execution of a breakpoint queues BREAKPOINT, from any state of the queue, and the threads wait iff the state was not WAIT_FLUSH |
| ProtocolRuns.PassesReportedBreakpoint | idadbg.cpp:3068-3085 | a run from the beginning in which a breakpoint is reported in WAIT_FLUSH: after TRACE_FULL is answered BREAKPOINT is still queued, and no thread waits at either semaphore |
| ProtocolRuns.Perform | idadbg.cpp:553-720 | each section of the runs is what a method of the stub does, on the same state |
| Clipping.TruncBracket | drawlib.c:5827 | no integer lies between a quotient and its truncation, for any signs |
| Clipping.XAtSide | drawlib.c:5826-5834 | a rounded crossing beyond a border tells on which side of the line the corner is |
| Clipping.XAtBetween | drawlib.c:5826-5834 | a crossing within the vertical range of the segment lies within its horizontal range |
| Clipping.XAtOrder | drawlib.c:5826-5865 | the crossings with the upper and the lower border have the order of the direction |
| Clipping.YAtBetween | drawlib.c:5887-5895 | the same for the vertical borders |
| Clipping.Misses | drawlib.c:6018-6023 | a segment beyond a border, or with the window on one side, has no real point in the window |
| LineClipping.Clipper.CheckInner | drawlib.c:6026-6081 | the cases with one visible end are right |
| LineClipping.Clipper.CheckNextSides | drawlib.c:6082-6113 | the cases between neighbouring borders are right |
| LineClipping.Clipper.CheckUpright | drawlib.c:6115-6170 | the cases from above or below to a corner are right |
| LineClipping.Clipper.CheckSideways | drawlib.c:6172-6227 | the cases from the left or right to a corner are right |
| LineClipping.Clipper.CheckCorners | drawlib.c:6229-6280 | the cases between opposite corners are right |
| LineClipping.Clipper.CheckStraight | drawlib.c:6281-6297 | the cases between opposite borders are right; their first cut cannot fail |
| LineClipping.Clipper.CheckVisible | drawlib.c:5955-6300 | check_visible never divides by zero; 1 means that both ends lie in the closed window, keep the direction in both axes, and are a visible end or a rounded crossing with the border that the end is beyond; 0 means that no real point of the line is visible |
| SolidLines.ArrowOrientation | drawlib.c:2774-2824 | the orientation agrees with the direction in both axes; the overflow cases do not occur |
| SolidLines.FunctionBySlope | drawlib.c:3414-3462 | which of the four functions draws a line depends on its slope only |
| SolidLines.ClipDirected | drawlib.c:3414-3462 | clipping a line and handing it on from north to south, or from east to west, meets the assertions of the function for its orientation |
| SolidLines.MySolidLine | drawlib.c:3414-3462 | none of the assertions of the four functions for solid lines can fail, for any integers; what is drawn is the clipped line, by the function for its orientation, and nothing visible is omitted |
| Dashes.YOffset | drawlib.c:273-291 | the tables: yoffset does not exceed xoffset |
| Dashes.OffsetTables | drawlib.c:273-291 | the tables: each entry is a vector of 14 to 16 pixels whose slope is right but for less than one pixel |
| Dashes.LoopsEnd | drawlib.c:3962-4028 | once i*d has reached the longer extent both loop conditions are false |
| Dashes.DashFits | drawlib.c:3962-4028 | every dash has the direction of the line and the length of the offsets, and ends on the line's side of its end |
| Dashes.DashStart | drawlib.c:3966-3968 | the truncated products are the distances along the line, for all four directions, without a division by zero |
| Dashes.DashLoop | drawlib.c:3962-4028 | the dash loops terminate, draw the dashes in order, and stop at the first one within an offset of the end |
| Dashes.DotLoop | drawlib.c:4722-4776 | the dot loops likewise |
| Dashes.Measure | drawlib.c:3938-3961 | the table index is in 0..50, the step is positive, the steep loops are used exactly for steep lines, and the offsets are those of the tables for the slope, a quarter of them for dots, times stretch/shrink, rounded down |
| Dashes.ScaledOffset | drawlib.c:4697-4711 | this is what the divisions of the source compute |
| Dashes.DashSlope | drawlib.c:3938-3961 | in the normal scale a dash is 14 to 16 pixels long and has the slope of the line but for less than a pixel |
| Dashes.DashesApart | drawlib.c:3962-4028 | in the normal scale consecutive dashes before the end are 22 to 30 pixels apart along the longer side |
| Dashes.DotsApart | drawlib.c:4722-4776 | and consecutive dots 4 or 6 |
| Dashes.PartsOnLine | drawlib.c:3962-4028 | before the end dots, and starts of dashes, are less than a pixel from the real line |
| Dashes.DashesAssert | drawlib.c:3488-3592 | every dash and dot meets the assertions of the function it is handed to |
| Dashes.DashedLine | drawlib.c:3915-4364 | the eight functions for dashed and dotted lines: no division by zero, every loop ends, what is drawn are the dashes (or dots) in order up to the first one near the end, and no assertion of the called function fails |
| Dashes.MyDashedLine | drawlib.c:3850-3898 | the driver for dashed lines (and, at 4604-4652, for dotted ones): no assertion fails for any integers; the dashes are those of the clipped line, and nothing visible is omitted |
| Fisheye.MonotoneWherePositive | fisheye.c:671-693 | the map from screen to graph is monotone wherever its denominator is positive |
| Fisheye.FocusInScale | fisheye.c:671-693 | the focus is shown in its place; towards a border the graph is compressed against the given scale if it is larger than the screen in this scale, and stretched if it is smaller |
| Fisheye.ScreenIsMonotone | fisheye.c:291-312 | with the parameters before their normalisation the denominator is positive on the whole screen |
| Fisheye.RightEdge | fisheye.c:291-294 | with these parameters the right edge of the screen shows exactly graph_xmax iff the second parameter was not zero or the graph is not too wide |
| Fisheye.LeftEdge | fisheye.c:295-298 | the left edge likewise shows graph_xmin |
| Fisheye.NormalizedRatio | fisheye.c:2200-2243 | normalize_fe_parameters makes both parameters at most 1000, keeps the sign, and keeps their ratio up to half a percent if it is between 1/1000 and 1000 |
| Fisheye.NormalizedIsMonotoneIff | fisheye.c:284-315 | with the normalised parameters the map is monotone on the screen iff at both edges the denominator is positive, or zero where the value that stands for a division by zero has the right order |
| Fisheye.MonotoneIffEdgesFit | fisheye.c:671-693 | the same for any parameters behind whose poles the map is on the wrong side of the focus |
| Fisheye.RoundingMisplacesEdge | fisheye.c:2200-2243 | the normalisation can break it: a graph 3000 wide, magnified 50 times, whose right edge is shown 18045 to the left of the focus |
| FisheyeTable.RecordCoordinates | fisheye.c:317-327 | every entry gets the last screen coordinate that shows it |
| FisheyeTable.FillTable | fisheye.c:317-332 | every entry x from 0 to graph_xmax that fits the table gets the last screen coordinate that shows the nearest position up to x that is shown at all, whatever the map |
| FisheyeTable.NearestIsInverse | fisheye.c:317-332 | where the map is monotone that is its generalised inverse: the greatest screen coordinate that shows x or something before x |
| FisheyeTable.CalcParameters | fisheye.c:284-332 | calc_cscf_parameters: the assertions of the normalisation hold, every entry from 0 to graph_xmax that fits the table is filled, and the table is the inverse of the map if the edges fit |
| FisheyeTable.LookupShowsTheSame | fisheye.c:1844-1847 | looking up what a screen coordinate shows gives a coordinate that shows the same, even if the map is not monotone |
| Scaling.GlobalScale.NormalizeScaling | fisheye.c:2144-2188 | normalize_scaling terminates with positive, coprime numbers of at most 300000 whose ratio is the old one in sixtieths, within 1/5000 to 5000; the checks for zero at the end never apply |
| Scaling.GlobalScale.SetScaling | fisheye.c:1892-1918 | setting the scale leaves the given ratio, normalised |
| Scaling.GlobalScale.ChangeScaling | fisheye.c:1953-1955 | every zoom operation leaves the scale normal |
| Scaling.SixtiethsClose | fisheye.c:2154-2169 | the ratio drops by less than one sixtieth |
| Scaling.LowestTerms | fisheye.c:2170-2185 | without a common factor 2, 3 or 5 the numbers are coprime |
| Scaling.NoDrift | fisheye.c:2139-2142 | a second normalisation does not change the ratio |
| Raster.Ends | grprint2.c:711-751 | both ends are on the line |
| Raster.Connected | grprint2.c:711-751 | the line is an unbroken chain of neighbouring pixels with one point per step along its longer side |
| Raster.NearLine | grprint2.c:711-751 | every point is less than a pixel from the real line |
| Raster.Boxed | grprint2.c:711-751 | it stays within its bounding box |
| Bitmap.BwBitmap.IndexInside | grprint2.c:662 | every byte written is in the bitmap |
| Bitmap.OnlyOneBit | grprint2.c:663-681 | only the bit of the pixel changes |
| Bitmap.LeftIsHigh | grprint2.c:663-672 | the pixels of a byte run from its highest bit to its lowest |
| Bitmap.BwBitmap.RowsInOrder | grprint2.c:662 | the bytes are in the order of the pixels, row by row |
| Bitmap.BwBitmap.PlaceTurns | grprint2.c:649-656 | a drawing is moved by the margins, and turned clockwise if it is printed rotated |
| Bitmap.BwBitmap.BwPoint | grprint2.c:639-681 | bw_point changes exactly the pixel of its point |
| Bitmap.BwBitmap.BwLine | grprint2.c:711-751 | bw_line sets or clears exactly the pixels of the points of the line |

## Left out

- hide_edge_classes and invis_nodes: that a node is hidden by edge classes only occurs as one more reason, which the other operations leave alone; the links of such a node are arbitrary, so it may be chained in invis_nodes.
- create_lab_adjacencies: label edges for specified labels; the same construction is modelled for split_double_edges.
- FoldRegions.FoldRegion: for a visible node, while no visible node has it as NREGROOT; the order of the remaining node list is not stated.
- RegionRuns.FoldAndRebuild: without labels and hidden edge classes, and for start nodes that are visible or whose left-over edges lead to no visible node (with others the code goes wrong, see LeftOvers).
- LeftOvers.FoldLeftOver: the cells of a left-over list are those of the last layout, although relayout has put them in the free list of alloc.c and the new lists may reuse them; edges to label and dummy nodes are left out, from which recursive_fold returns at once.
- SearchVisible.Search: the number of calls is an argument, as a witness of termination; SearchEndsIff bounds it when only subgraphs are folded.
- SortNodes.SortAllNodes: the time limit is left out, and qsort is replaced by an insertion sort.
- SplitEdges.CreateLabelNode: the position and size that the label text would give are left open, because split_double_edges overwrites the size and the label.
- check_graph_consistency: that graphs are not empty is a condition of the subgraph lemmas instead.
- Breakpoints.NoBreakpointMissed: delivery of the wake-up of the reinstrumenter is not modelled; a lost one delays the flush, but breakpoints stay pending and are reported by do_ctrl.
- ProtocolRuns.WaitsAfterReport: for the time when the listener thread runs; before, a waiting thread serves the client itself (serve_sync). The semaphores that suspend single threads are left out.
- Protocol.PinTool.DoResume: whether threads are suspended is an input, and the thread data are the record of the passed exceptions.
- FisheyeTable.FillTable: screen coordinates are not negative and fit a short, as those of a window do.
- FisheyeTable.CalcParameters: the quotients of normalize_fe_parameters are exact rational numbers, not rounded to double.
- The polar fisheye, the fixed-width fisheye and the search for the best focus.
- Dashes.DashedLine: the X11 and PostScript variants and the thickness of the lines.
- SolidLines.Draw: the lines that make up the thickness of a solid line.
- Clipping with a fisheye view: check_visible then accepts every line, and so does the model.
- co_point and co_line: they differ from the black and white versions in storing three bytes.
- Allocator.Pool: state across free_memory, and the default values of the records.
- The fields of nodes and edges that only the layout uses, draw.c, the text output, the Qt user interface, sockets and the calls of the PIN interface.
