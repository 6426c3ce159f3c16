# Directed weighted graph store and its algorithms, in Dafny

This project models the core of a small Python library for directed
weighted graphs:

- the `DiGraph` store: nodes keyed by integer id, a mirrored pair of
  out-edge and in-edge tables per node, an edge count and a modification
  counter (`mc`);
- its dictionary (JSON) form, `to_dict` and `from_dict`, together with the
  `Node` and `Edge` records and their own dict codecs;
- `GraphAlgo`: Dijkstra's `shortest_path` with its back-tracking of the
  path through the nodes' `info` fields, Tarjan's strongly connected
  components (`connected_components`, `connected_component`), the tag
  reset and the low-link counter, and the bounding box of the positioned
  nodes (`__get_current_world_range`);
- the affine maps `Range` and `Range2D` of `src/location`.

The store is a class (`Graph.DiGraph`) whose methods update its fields.
Each method is proved against a function on an immutable snapshot
(`GraphState`), and the well-formedness invariant `Wf` says:

- the out- and in-tables mirror each other;
- every edge is labelled with its own endpoints;
- the edge count is the number of edge pairs.

Lemmas prove which operations preserve `Wf`. The dict form is a `Json`
value. Loading the document of any non-empty well-formed store gives that
store back.

The search algorithms are methods of `GraphAlgorithms.GraphAlgo`. They
work on the node table as a value and write it back to the store.

- **Dijkstra.** The loop is proved with an invariant (`Dijkstra.Searching`)
  that ties the queue, the distances, the tags and the `info`
  back-pointers together. Each returned path is a real path of the graph
  whose weight is the returned distance. The distance is finite exactly
  when the target is reachable.
- **Tarjan.** The recursion is proved to list every node it reaches in
  exactly one component. It terminates because the number of tag-0 nodes
  falls.

Modules, one per file:

| file | module |
|---|---|
| `wrappers.dfy` | `Wrappers`, `IdSets` |
| `text.dfy` | decimal text (`"{}".format`, `int()`, `float()`, `split`) |
| `json.dfy` | dict values |
| `location.dfy` | points and ranges |
| `node.dfy` | `Node` |
| `edge.dfy` | `Edge` |
| `graph.dfy` | the store |
| `graph_doc.dfy` | `to_dict` / `from_dict` |
| `paths.dfy` | paths and reachability |
| `dijkstra.dfy` | the search loop |
| `tarjan.dfy` | the component bookkeeping |
| `world_range.dfy` | bounding box |
| `graph_algo.dfy` | `GraphAlgo` |

## Model

| member | source | states |
|---|---|---|
| Location.Range.Length | src/location/Range.py:6-8 | the length added to `min` gives `max` |
| Location.Range.GetRatio | src/location/Range.py:10-16 | for a non-degenerate range, ratio times length is the offset of the value from `min` |
| Location.Range.FromRatio | src/location/Range.py:18-24 | ratio 0 maps to `min` and ratio 1 maps to `max` |
| Location.RatioRoundTrip | src/location/Range.py:10-24 | `get_ratio(from_ratio(r)) == r` on a non-degenerate range |
| Location.ValueRoundTrip | src/location/Range.py:10-24 | `from_ratio(get_ratio(v)) == v` on a non-degenerate range |
| Location.RatioInUnitInterval | src/location/Range.py:10-16 | a value inside `[min, max]` has a ratio inside `[0, 1]` |
| Location.RangeExample | tests/test_Range.py:7-17 | the length, ratio and inverse ratio of a concrete range |
| Location.Range2D.GetRatio | src/location/Range2D.py:10-13 | z becomes 0; mapping x and y back through their ranges recovers the point's x and y |
| Location.Range2D.FromRatio | src/location/Range2D.py:15-18 | z becomes 0; each axis's `get_ratio` recovers the given ratio |
| Location.Range2DRoundTrip | src/location/Range2D.py:10-18 | both compositions of the two maps are the identity on x and y and zero z |
| Location.Range2DIgnoresZ | src/location/Range2D.py:10-18 | neither map depends on the z coordinate |
| Location.Range2DExample | tests/test_Range2D.py:9-19 | the two maps on a concrete 2x2 box |
| EdgeRecords.NewEdge | src/Edge.py:4-9 | every argument that is given is stored in its field |
| EdgeRecords.NewEdgeDefaults | src/Edge.py:2-9 | without arguments the endpoints and tag are the invalid entry -1, the weight is 0 and the info is empty |
| EdgeRecords.FromDict | src/Edge.py:11-31 | an endpoint missing gives an error, as does no `weight` and no `w`; `weight` wins over `w`; every present `src`, `dest`, `info` and `tag` is the record's value; info defaults to "" and tag to -1 |
| EdgeRecords.ToDict | src/Edge.py:33-38 | exactly five distinct members carrying the five fields |
| EdgeRecords.RoundTrip | src/Edge.py:11-38 | decoding the dict form of any edge gives the edge back |
| EdgeRecords.FromDictDefaults | src/Edge.py:24-31 | a dict without info and tag yields the default info and tag |
| EdgeRecords.FromDictValues | src/Edge.py:11-31 | a dict carrying all five members decodes to exactly those values |
| EdgeRecords.FromDictOk | src/Edge.py:11-31 | loading succeeds exactly when both endpoints are present, the weight (`weight`, else `w`) is a number and each of `src`, `dest`, `info`, `tag` is null, absent or of its type, in any combination |
| EdgeRecords.ValuesExample | tests/test_Edge.py:7-20 | `{'src': 1, 'dest': 2, 'weight': 3, 'info': "yuri", 'tag': 4655}` decodes to that edge |
| EdgeRecords.ShortWeightExample | tests/test_Edge.py:22-32 | the short weight key `w` is accepted |
| EdgeRecords.ZeroWeightKept | src/Edge.py:18-22 | a present weight of 0 is kept, not replaced by `w` |
| NodeRecords.NewNode | src/Node.py:8-13 | the key and position are stored; info "", tag 0, weight 0 |
| NodeRecords.NodeIds.constructor | src/Node.py:6 | the class-wide id counter starts at 0 |
| NodeRecords.NodeIds.NextNodeId | src/Node.py:18-22 | returns the counter and advances it by one |
| NodeRecords.NodeIds.Create | src/Node.py:8-13 | an explicit key is used as is and leaves the counter alone; without one the next counter value becomes the key |
| NodeRecords.AutoIdsIncrease | src/Node.py:6-22 | two nodes created without keys get consecutive, increasing ids |
| NodeRecords.Truncate | src/Node.py:40 | `int()` of a real truncates toward zero on both signs |
| NodeRecords.IdOf | src/Node.py:38-40 | a number id is truncated; a string id is read as `int()` reads it |
| NodeRecords.PositionOf | src/Node.py:42-51 | no position gives none; a dict without all of x, y and z is rejected; a falsy value gives none; a point comes only from a truthy value |
| NodeRecords.FromDict | src/Node.py:24-64 | no `id` and no `key` is rejected; the key is the `id` member if present, else `key`; every present `weight`, `info` and `tag` is the record's value, and each defaults when absent |
| NodeRecords.ToDict | src/Node.py:66-77 | distinct members `key`, `weight`, `info` and `tag`, plus `geoLocation` exactly when the node has a position |
| NodeRecords.PositionRoundTrip | src/Node.py:45-51 | the dict form of a point decodes back to that point |
| NodeRecords.RoundTrip | src/Node.py:24-77 | decoding the dict form of any node gives the node back |
| NodeRecords.FromDictDefaults | src/Node.py:53-62 | a dict without weight, tag and info gives the same node as the constructor |
| NodeRecords.FromDictValues | src/Node.py:53-62 | a dict carrying id, position, weight, info and tag decodes to exactly those values |
| NodeRecords.FromDictOk | src/Node.py:24-64 | loading succeeds exactly when the id (`id`, else `key`) is integral, the position is absent or loads, and each of `weight`, `tag`, `info` is null, absent or of its type, in any combination |
| NodeRecords.ValuesExample | tests/test_Node.py:8-20 | `{'id': 1, 'pos': "1.0,2.0,3.0", 'weight': 123, 'info': "amazinginfo", 'tag': 4655}` decodes to that node at (1, 2, 3) |
| NodeRecords.PointTextExample | src/Node.py:50-51 | the position string `"1.0,2.0,3.0"` is the point (1, 2, 3) |
| NodeRecords.PointOfParts | src/Node.py:50-51 | a string of three readable comma-separated coordinates is the point they name |
| NodeRecords.DefaultsExample | tests/test_Node.py:22-30 | `{"id": 1}` decodes to node 1 with all defaults |
| NodeRecords.IdBeforeKey | src/Node.py:38-39 | when both `id` and `key` are present, `id` wins |
| NodeRecords.PosBeforeGeoLocation | src/Node.py:42-43 | when both `pos` and `geoLocation` are present, `pos` wins |
| Text.DecimalRoundTrip | src/GraphAlgo.py:138 | the decimal text written into `info` parses back to the same id |
| Text.DecimalInjective | src/GraphAlgo.py:138 | distinct ids have distinct decimal texts |
| Text.Strip | src/Node.py:40 | the surrounding whitespace `int()` ignores is gone from both ends, and the result is no longer than the text |
| Text.StripTrims | src/Node.py:40 | the stripped text is a slice of the original with only whitespace before and after it, and a text with no whitespace at either end is kept whole |
| Text.ParseInt | src/Node.py:40 | `int(s)` gives a value exactly when the stripped text, after an optional `+` or `-`, is digit groups joined by single underscores; the value is theirs, negated after `-` |
| Text.UnsignedValue | src/Node.py:40 | a value exactly for digit groups joined by single underscores, the plain digits' value when there is no underscore |
| Text.ParseIntSigns | src/Node.py:40 | `int("7")`, `int("+7")` and `int("-7")` |
| Text.ParseIntSpaces | src/Node.py:40 | surrounding whitespace is ignored, the ASCII separator 28 included |
| Text.ParseIntGroups | src/Node.py:40 | `int("1_000") == 1000` |
| Text.ParseIntRejects | src/Node.py:40 | the empty string, a bare sign and misplaced underscores are refused |
| Text.SplitThree | src/Node.py:51 | splitting `a,b,c` on the comma gives the three pieces |
| Text.ParseOneDecimal | src/Node.py:51 | `float("d.0")` is the digit `d` |
| Text.ParseRealPoint | src/location/GeoLocation.py:9-11 | `float("w.f")` for digit strings `w` and `f`, not both empty, is the whole digits plus the fraction digits over the matching power of ten |
| Text.ParseRealWhole | src/location/GeoLocation.py:9-11 | `float("w")` for a non-empty digit string is its value |
| Text.ParseRealNegative | src/location/GeoLocation.py:9-11 | a leading `-` negates the value of the rest, and the text is refused when the rest is |
| Json.Get | src/Node.py:38 | a member is found exactly when the dict has that name, and the value found is one of its members |
| Json.GetValue | src/Node.py:53-55 | `dict.get` with `None` for an absent name or a null value |
| Json.OrElse | src/DiGraph.py:23-24 | `a or b`: `a` when it is present and truthy, else `b` |
| Graph.WfHasReverse | src/DiGraph.py:194-196 | in a well-formed store every out-edge has its in-edge mirror |
| Graph.EdgePairsRemoveOut | src/DiGraph.py:176-178 | removing a set of out-edges of a node lowers the edge-pair count by that set's size |
| Graph.AddNodeSpec | src/DiGraph.py:143-165 | accepted exactly when the id is new; then one more node with empty tables, mc + 1, edge count unchanged; otherwise nothing changes |
| Graph.AddNodePreservesWf | src/DiGraph.py:143-165 | `add_node` keeps the store well formed |
| Graph.AddEdgeSpec | src/DiGraph.py:111-131 | accepted exactly when the endpoints differ, both exist and the edge is new; then the edge is in both tables, edge count + 1 and mc + 1; otherwise nothing changes |
| Graph.AddEdgePreservesWf | src/DiGraph.py:111-131 | `add_edge` keeps the store well formed |
| Graph.AddEdgeRepeatIsNoop | src/DiGraph.py:122-123 | adding the same edge twice is refused the second time, whatever the weight |
| Graph.RemoveEdgeSpec | src/DiGraph.py:185-200 | succeeds exactly when the edge exists; then it is gone from both tables, edge count - 1 and mc + 1; otherwise nothing changes |
| Graph.RemoveEdgePreservesWf | src/DiGraph.py:185-200 | `remove_edge` keeps the store well formed |
| Graph.RemoveOutEdgesStep | src/DiGraph.py:177-178 | each `remove_edge` in the loop of `remove_node` succeeds and removes one more out-edge |
| Graph.RemoveNodeSpec | src/DiGraph.py:167-183 | succeeds exactly when the node exists; then it and its row are gone, and mc rises and the edge count falls by its out-degree |
| Graph.RemoveNodeKeepsCount | src/DiGraph.py:167-183 | after `remove_node` the edge count still equals the number of edge pairs |
| Graph.RemoveNodeWithoutIncoming | src/DiGraph.py:167-183 | removing a node with no incoming edges keeps the store well formed |
| Graph.RemoveNodeLeavesIncoming | src/DiGraph.py:176-182 | an incoming edge of the removed node stays in its source's out-table |
| Graph.RemoveNodeKeepsOtherRows | src/DiGraph.py:176-182 | the out-table of every other node is unchanged |
| Graph.AddNodeByInstanceF | src/DiGraph.py:133-136 | the node is stored under its key, overwriting; the edge count is unchanged |
| Graph.AddNodeByInstancePreservesWf | src/DiGraph.py:133-136 | keeps the store well formed; mc grows only for a new key |
| Graph.AddEdgeByInstanceF | src/DiGraph.py:138-141 | the edge is stored in both tables under its endpoints |
| Graph.AddEdgeByInstanceAccepted | src/DiGraph.py:138-141 | for a new, non-loop edge it is the `add_edge` update with the edge's own info and tag |
| Graph.AddEdgeByInstanceFresh | src/DiGraph.py:138-141 | a new, non-loop edge keeps the store well formed with edge count + 1 and mc + 1 |
| Graph.AddEdgeByInstanceSelfLoop | src/DiGraph.py:138-141 | a self-loop is stored but not counted, so the edge count stops matching |
| Graph.DiGraph.constructor | src/DiGraph.py:11-17 | an empty, well-formed store with mc 0 |
| Graph.DiGraph.VSize | src/DiGraph.py:69-74 | the number of nodes, equal to the number of link rows |
| Graph.DiGraph.ESize | src/DiGraph.py:76-81 | in a well-formed store, the number of distinct edges |
| Graph.DiGraph.GetMc | src/DiGraph.py:103-109 | the modification counter |
| Graph.DiGraph.AllOutEdges | src/DiGraph.py:96-101 | the out-neighbours of the node, each with the weight of its edge; `None`, for the `AttributeError`, exactly when the id has no link row |
| Graph.DiGraph.AllInEdges | src/DiGraph.py:89-94 | the in-neighbours of the node, each with the weight of its edge; `None`, for the `AttributeError`, exactly when the id has no link row |
| Graph.DiGraph.AddNode | src/DiGraph.py:143-165 | the new state and the answer are those of `AddNodeF`; the store stays valid |
| Graph.DiGraph.AddEdge | src/DiGraph.py:111-131 | the new state and the answer are those of `AddEdgeF`; the store stays valid |
| Graph.DiGraph.RemoveEdge | src/DiGraph.py:185-200 | the new state and the answer are those of `RemoveEdgeF`; the store stays valid |
| Graph.DiGraph.RemoveOutEdgesOf | src/DiGraph.py:176-178 | every out-edge of the node is removed, one `remove_edge` at a time |
| Graph.DiGraph.RemoveNode | src/DiGraph.py:167-183 | the new state and the answer are those of `RemoveNodeF` |
| Graph.DiGraph.AddNodeByInstance | src/DiGraph.py:133-136 | the new state is `AddNodeByInstanceF` of the old one |
| Graph.DiGraph.AddEdgeByInstance | src/DiGraph.py:138-141 | the new state is `AddEdgeByInstanceF` of the old one |
| Graph.DiGraph.SetModeCount | src/DiGraph.py:202-203 | only mc changes |
| GraphDoc.DocMembers | src/DiGraph.py:51-55 | the document has distinct members, holding mc and the edge count |
| GraphDoc.DocContents | src/DiGraph.py:51-67 | the document lists every node's dict under its decimal id and every edge's dict under its source and target ids |
| GraphDoc.ToDict | src/DiGraph.py:51-67 | the loops build exactly the document `Doc` of the store's state |
| GraphDoc.NodeRowsOf | src/DiGraph.py:57-58 | the node loop builds the node rows in the given key order |
| GraphDoc.EdgeRowsOf | src/DiGraph.py:63-64 | the inner link loop builds one edge row per target |
| GraphDoc.LinkRowsOf | src/DiGraph.py:60-65 | the outer link loop builds one row per node |
| GraphDoc.SortedKeys | src/DiGraph.py:57 | the order the document lists ids in: every key exactly once, ascending |
| GraphDoc.Load | src/DiGraph.py:19-49 | a non-dict is rejected; a missing node or edge collection raises; a loaded store has matching tables and the given mc |
| GraphDoc.MissingCollectionRejected | src/DiGraph.py:23-27 | no `nodes`/`Nodes` or no `links`/`Edges` makes loading fail |
| GraphDoc.EmptyStoreRejected | src/DiGraph.py:23-27 | the document of an empty store does not load, since its empty collections are falsy |
| GraphDoc.RoundTrip | src/DiGraph.py:19-67 | loading the document of any non-empty well-formed store gives the same store back |
| GraphDoc.LoadSucceeds | src/DiGraph.py:19-49 | when every stage succeeds, loading gives the replayed store with the given mc |
| GraphDoc.FromDict | src/DiGraph.py:19-49 | succeeds exactly when `Load` does, with a fresh valid store whose state is the loaded one |
| GraphDoc.AddNodes | src/DiGraph.py:29-32 | the node loop fails exactly when some item does not decode, and otherwise leaves the replayed state |
| GraphDoc.AddEdges | src/DiGraph.py:41-43 | the edge loop fails exactly when some item does not decode or names an unknown node, and otherwise leaves the replayed state |
| GraphDoc.FlattenLinks | src/DiGraph.py:35-39 | the loop gathers the values of every inner dict |
| GraphDoc.Flatten | src/DiGraph.py:36-38 | fails exactly when some inner value is not a dict |
| GraphDoc.Iterate | src/DiGraph.py:29-30 | iteration of a list gives its items and of a dict its names |
| GraphDoc.NodeItems | src/DiGraph.py:29 | a dict collection yields its values |
| GraphDoc.DecodeNodes | src/DiGraph.py:30-31 | each item is decoded with `Node.from_dict` |
| GraphDoc.ReplayNodes | src/DiGraph.py:30-32 | fails exactly when some node fails to decode; otherwise the tables still match and no edge is added |
| GraphDoc.ReplayEdges | src/DiGraph.py:41-43 | a successful replay keeps the nodes and the tables matching |
| GraphDoc.ModeCountOf | src/DiGraph.py:45-47 | an absent `modeCount` changes nothing; a present one must be an integer and becomes mc |
| Paths.Prepend | src/GraphAlgo.py:160-164 | prefixing a node along an edge keeps a path, with the edge's weight added |
| Paths.ClosedHoldsReachable | src/GraphAlgo.py:126-129 | a node set closed under out-edges holds everything reachable from its members |
| Paths.RegionClosed | src/GraphAlgo.py:126-129 | when every edge reachable from the roots ends at a node, the nodes reachable from them hold the roots and are closed under out-edges |
| Paths.RegionStep | src/GraphAlgo.py:126-129 | following an edge out of a reachable node stays among the reachable nodes |
| Paths.Append | src/GraphAlgo.py:126-129 | a path extended by an edge out of its last node is a path to the edge's target |
| Paths.RegionOfOne | src/GraphAlgo.py:207-214 | a search started from the single node `a` stays among the nodes `a` reaches |
| Dijkstra.MinIndex | src/GraphAlgo.py:119 | the popped entry is no later, by distance and then id, than any other |
| Dijkstra.RelaxEdge | src/GraphAlgo.py:127-138 | keeps the search invariant; distances only fall; afterwards the neighbour's distance is at most the node's plus the weight; an edge that improves nothing changes nothing |
| Dijkstra.RelaxNeighbours | src/GraphAlgo.py:126-138 | keeps the invariant and leaves every out-edge of every visited node relaxed |
| Dijkstra.Visit | src/GraphAlgo.py:119-123 | pops the nearest entry and tags it visited; the invariant holds; a repeat pop shrinks the queue |
| Dijkstra.Step | src/GraphAlgo.py:118-138 | one loop pass keeps the invariant, and either the unvisited nodes or the queue shrink |
| Dijkstra.Start | src/GraphAlgo.py:113-114 | the invariant holds with the source alone in the queue at distance 0 |
| Dijkstra.Search | src/GraphAlgo.py:100-138 | with an empty queue, the invariant holds, every visited node is relaxed, and the target is found exactly when it was visited |
| Dijkstra.FinishedClosed | src/GraphAlgo.py:118-138 | when the queue empties, the visited set holds the source and is closed under out-edges |
| Dijkstra.NotPoppedUnreachable | src/GraphAlgo.py:140-142 | a target never popped is not reachable from the source |
| Dijkstra.Restore | src/GraphAlgo.py:144-146 | the popped nodes get tag 0 back; nothing else changes |
| Dijkstra.CleanedUp | src/GraphAlgo.py:144-146 | after the clean-up every tag is 0; each `info` is either unchanged or names an in-neighbour |
| GraphAlgorithms.BacktrackPath | src/GraphAlgo.py:150-166 | following the `info` back-pointers yields a path from the source to the target whose weight is the target's distance |
| GraphAlgorithms.SearchAndTrace | src/GraphAlgo.py:103-148 | finite exactly when the target is reachable, with a path of that weight; else `(inf, [])`; same node always gives `(0, [id])` |
| GraphAlgorithms.ExamplePaths | src/GraphAlgo.py:81-92 | in the chain 0 -> 1 -> 2 every path from 0 is a prefix of `[0, 1, 2]` |
| GraphAlgorithms.ExampleAnswer | src/GraphAlgo.py:81-92 | in that graph, nodes 1 and 2 are reachable from 0 and the only paths have weights 1 and 5 |
| GraphAlgorithms.ExampleNodes | src/GraphAlgo.py:84-86 | three nodes 0, 1, 2 with no edges |
| GraphAlgorithms.ExampleStore | src/GraphAlgo.py:84-88 | the example graph with edges 0 -> 1 (weight 1) and 1 -> 2 (weight 4) |
| GraphAlgorithms.ShortestPathExample | src/GraphAlgo.py:81-92 | the documented answers `(1, [0, 1])` and `(5, [0, 1, 2])` |
| GraphAlgorithms.ReachesFromSink | src/GraphAlgo.py:126 | a node without out-edges reaches only itself |
| GraphAlgorithms.SinkIsSafe | src/GraphAlgo.py:126-128 | a node without out-edges is a safe start, whatever edges dangle elsewhere |
| GraphAlgorithms.DanglingStore | src/DiGraph.py:176-182 | after `remove_node` of a sink, the edge into it stays in its source's out-table and dangles |
| GraphAlgorithms.DanglingEdgeExample | src/GraphAlgo.py:99-148 | with a dangling edge the searches never reach, `shortest_path(0, 1)` is `(inf, [])` and `connected_component(0)` is `[0]` |
| GraphAlgorithms.GraphAlgo.constructor | src/GraphAlgo.py:35-37 | the algorithms hold the given store |
| GraphAlgorithms.GraphAlgo.SetAllNodesUnvisited | src/GraphAlgo.py:196-198 | every tag becomes 0 and nothing else changes |
| GraphAlgorithms.GraphAlgo.ShortestPath | src/GraphAlgo.py:74-148 | the distance is finite exactly when `id2` is reachable, and then the path runs from `id1` to `id2` with that weight; else `(inf, [])`; only tags (back to 0) and `info` change |
| GraphAlgorithms.GraphAlgo.NextLowlinkVal | src/GraphAlgo.py:218-225 | returns the counter and advances it by one |
| GraphAlgorithms.GraphAlgo.TarjanDfs | src/GraphAlgo.py:227-260 | the nodes reached are tagged and placed either on the stack or in exactly one component; started on an empty stack, everything pushed is popped; a node without out-edges is its own component |
| GraphAlgorithms.GraphAlgo.DfsNeighbours | src/GraphAlgo.py:235-248 | keeps the bookkeeping invariants; `v`'s low-link value only falls, and `v` stays a root exactly when it did not fall |
| GraphAlgorithms.GraphAlgo.DfsNeighbour | src/GraphAlgo.py:236-248 | one neighbour: keeps the invariants, lowers `v` only to the value of a node on the stack, and clears `is_root` exactly when it lowers |
| GraphAlgorithms.GraphAlgo.Tarjan | src/GraphAlgo.py:200-216 | every node reached appears in exactly one component; with no start node every node is reached; from a start node only nodes it reaches are reached; only tags change |
| GraphAlgorithms.GraphAlgo.SearchRoots | src/GraphAlgo.py:207-214 | the root loop lists every node it reaches in exactly one component |
| GraphAlgorithms.GraphAlgo.ConnectedComponents | src/GraphAlgo.py:184-194 | the components partition the nodes that had tag 0 (all nodes when every tag was 0); afterwards every tag is 0 |
| GraphAlgorithms.GraphAlgo.ConnectedComponent | src/GraphAlgo.py:168-182 | `[]` for an unknown or already-tagged id; otherwise a duplicate-free list holding `id1`, and exactly `[id1]` when it has no out-edges; the result lies within the nodes the search tagged, which had tag 0 and keep tag `Visited`, all reachable from a known `id1`, and every tag-0 node when `id1` is unknown |
| GraphAlgorithms.GraphAlgo.GetCurrentWorldRange | src/GraphAlgo.py:350-388 | `[0,1] x [0,1]` without positioned nodes; otherwise each axis spans the least to the greatest coordinate, with a single value widened to reach 0 |
| Tarjan.PopComponent | src/GraphAlgo.py:250-260 | pops the stack down to `v`, appends the popped part as a component, and gives its members `v`'s low-link value |
| Tarjan.PopComponentKeeps | src/GraphAlgo.py:250-260 | popping a component keeps every reached node either on the stack or in exactly one component |
| Tarjan.EnterKeeps | src/GraphAlgo.py:229-231 | tagging and pushing a tag-0 node keeps the bookkeeping invariants |
| Tarjan.LowerKeeps | src/GraphAlgo.py:246-248 | taking over the low-link value of a node on the stack keeps the invariants |
| Tarjan.ZeroTagsFewer | src/GraphAlgo.py:229 | tagging a node leaves strictly fewer tag-0 nodes, so the recursion ends |
| Tarjan.RetaggedAll | src/GraphAlgo.py:207-214 | once no tag is 0, the nodes reached are exactly the nodes that had tag 0 |
| Tarjan.FlattenPartition | src/GraphAlgo.py:184-194 | components whose concatenation lists a key set once each form a partition of it |
| WorldRange.SpansContains | src/GraphAlgo.py:356-372 | every coordinate lies within the computed axis |
| WorldRange.SpansSpread | src/GraphAlgo.py:364-372 | with two distinct coordinates, the axis ends are the least and greatest of them |
| WorldRange.SpansSingle | src/GraphAlgo.py:380-386 | a single coordinate `a` gives an axis holding both `a` and 0, degenerate exactly when `a` is 0 |

## Left out

- Plotting (`plot_graph`, `set_missing_positions`, `__position_neighbours`, `__is_position_free`): drawing and random placement with matplotlib are output and randomness, not graph logic.
- `load_from_json` and `save_to_json`: file I/O; the model covers the dict form they read and write (`GraphDoc.Load`, `GraphDoc.Doc`).
- `GeoLocation.distance`, `set_links_dict`, `__repr__`, `get_graph`, `get_all_v` and the interfaces: accessors, formatting and geometry outside the algorithms.
- `sys.setrecursionlimit` in the constructor: recursion depth is not a concern for a model.
- Floating point: weights, distances and coordinates are mathematical reals, and `inf` is the `Infinite` case of `Dijkstra.Distance`. Node `weight`, an int in the constructor, is a real so that decoded values fit.
- Dict iteration order: every iteration over a dict of nodes or neighbours takes an arbitrary next element; `to_dict` writes ids in ascending order.
- GraphAlgorithms.GraphAlgo.ShortestPath: the returned distance is proved to be the weight of a real path to `id2`, not proved to be the least such weight.
- GraphAlgorithms.GraphAlgo.ShortestPath: heap entries with equal distance are ordered by node id; Python may raise when `heapq` compares two tied `(dist, Node)` entries, or pop tied entries in heap order.
- GraphAlgorithms.GraphAlgo.ShortestPath: requires `id1` in the store and every edge leaving a node reachable from `id1` to end at a node. The search pops every reachable node, so for any other store the source reaches a dangling edge and raises on the missing neighbour; dangling edges elsewhere are allowed (`GraphAlgorithms.DanglingEdgeExample`).
- GraphAlgorithms.GraphAlgo.ShortestPath: the tag reset at the start is the same loop as `__set_all_nodes_unvisited` and is modelled by calling it.
- GraphAlgorithms.GraphAlgo.Tarjan: the components are proved to list each reached node once, not proved to be strongly connected or maximal.
- GraphAlgorithms.GraphAlgo.Tarjan: requires every edge leaving a node reachable from the tag-0 start nodes to end at a node. The source descends only into tag-0 nodes, so a dangling edge behind a node whose tag is already non-zero is excluded here though the source would not look it up. The same holds for `GraphAlgorithms.GraphAlgo.ConnectedComponent` and `GraphAlgorithms.GraphAlgo.ConnectedComponents`.
- GraphAlgorithms.GraphAlgo.TarjanDfs: the component is built in stack order directly rather than appended in pop order and then reversed; the lists are the same.
- GraphAlgorithms.GraphAlgo.ConnectedComponent: for a node with out-edges, the result is proved to hold `id1` and only nodes that had tag 0 and that `id1` reaches, not proved to be exactly its strongly connected component.
- GraphAlgorithms.GraphAlgo.ConnectedComponents: the partition is proved for the nodes that had tag 0; nodes already tagged by an earlier search are not revisited, as in the source. The components are not proved to be strongly connected or maximal.
- Graph.DiGraph.RemoveNode: the loop runs over a snapshot of the node's out-neighbours; CPython deletes from the dict it iterates over and raises after the first deletion. Incoming edges of the removed node stay, as in the source (`Graph.RemoveNodeLeavesIncoming`).
- Graph.DiGraph.RemoveEdge: requires the in-edge mirror of the edge to exist, which `Graph.WfHasReverse` gives for any well-formed store. `remove_node` of a node with incoming edges leaves a store that is not well formed (`Graph.RemoveNodeLeavesIncoming`, `GraphAlgorithms.DanglingStore`); there, removing a dangling edge deletes its out-entry and then raises `AttributeError` at src/DiGraph.py:196, which is not modelled. `Graph.DiGraph.RemoveNode` carries the same requirement (`OutEdgesHaveReverse`).
- NodeRecords.IdOf: a string id is read with ASCII whitespace (the separators 28 to 31 included) and ASCII digits only; Python's `int()` also accepts non-ASCII Unicode whitespace and digits.
- NodeRecords.PositionOf: the coordinates of a position are read in the plain decimal forms `[-]digits[.digits]`; Python's `float()` also accepts a `+` sign, exponents, surrounding whitespace, underscores, `inf` and `nan`, which give an error here.
- GraphDoc.ModeCountOf: a `modeCount` that is not an integer is rejected; Python stores whatever value is given.
- GraphDoc.Load: a node, edge or member of a type the source would accept by duck typing (for example a non-integer `tag`) gives an error here.
- GraphDoc.RoundTrip: holds for non-empty stores; an empty store's document does not load back, as in the source (`GraphDoc.EmptyStoreRejected`).
- Node and edge tables are handled as values inside the search and the DFS and written back to the store once; aliasing between the store's `Node` objects and the algorithm's references is not modelled.
