/**
 * `GraphAlgo` (src/GraphAlgo.py): the algorithms run on a `DiGraph` store —
 * `shortest_path` with its back-tracking, the Tarjan search behind
 * `connected_components` and `connected_component`, and the bounding box of
 * the positioned nodes.
 */
module GraphAlgorithms {
  import opened Wrappers
  import opened IdSets
  import opened Location
  import opened NodeRecords
  import opened Graph
  import opened Text
  import opened Paths
  import opened Dijkstra
  import opened Tarjan
  import opened WorldRange

  /**
   * The nodes `__tarjan(node)` starts a search from: `node` when given and
   * still at tag 0, else every node at tag 0.
   */
  function Roots(n: map<int, Node>, start: Option<int>): (r: set<int>)
    ensures r <= ZeroTags(n)
    ensures start.Some? ==> r <= {start.value}
    ensures start.None? ==> r == ZeroTags(n)
  {
    if start.Some? then ZeroTags(n) * {start.value} else ZeroTags(n)
  }

  /** Every node with its tag reset to 0. */
  function Untagged(n: map<int, Node>): map<int, Node>
  {
    map v | v in n :: n[v].(tag := NotVisited)
  }

  /**
   * `__backtrack_path`: from `dest`, follow the predecessor id written in
   * each node's `info` back to `src`, collecting the ids front to back. The
   * walk is a path from `src` to `dest` whose weight is `dest`'s distance.
   * The source walks `Node` objects and compares their keys; the store files
   * each node under its key, so the model walks the keys of the node table
   * `nodes` it looks them up in.
   */
  method BacktrackPath(nodes: map<int, Node>, src: int, dest: int, ghost outs: Adjacency,
                       ghost dist: map<int, real>, ghost vis: set<int>, ghost pred: map<int, int>,
                       ghost order: map<int, nat>, ghost step: nat)
    returns (path: seq<int>)
    requires Chain(outs, nodes, src, dist, vis, pred, order, step) && Queue(nodes, src, dist, [], vis)
    requires dest in vis
    ensures IsPath(outs, path) && path[0] == src && Last(path) == dest
    ensures PathWeight(outs, path) == dist[dest]
    ensures src == dest ==> path == [src]
  {
    path := [];
    var cur := dest;
    while cur != src
      invariant cur in vis && (cur == dest || order[cur] < order[dest])
      invariant cur == dest ==> path == []
      invariant IsPath(outs, [cur] + path) && Last([cur] + path) == dest
      invariant dist[cur] + PathWeight(outs, [cur] + path) == dist[dest]
      decreases order[cur]
    {
      assert Linked(outs, nodes, dist, vis, pred, order, cur);
      var p := pred[cur];
      Prepend(outs, p, [cur] + path);
      path := [cur] + path;
      var info := nodes[cur].info;
      if info != "" {
        DecimalRoundTrip(p);
        cur := ParseInt(info).value;
      } else {
        assert false;
      }
    }
    path := [cur] + path;
  }

  /**
   * The body of `shortest_path` after the tags are reset, on the node table
   * `n0`: search from `id1`, back-track to `id2` when it was popped, and put
   * the popped nodes back to tag 0. The table returned differs from `n0`
   * only in the `info` left on the nodes whose distance was lowered.
   */
  method SearchAndTrace(outs: Adjacency, n0: map<int, Node>, id1: int, id2: int)
    returns (d: Distance, path: seq<int>, n2: map<int, Node>)
    requires SafeFrom(n0, outs, {id1}) && n0.Keys <= outs.Keys
    requires forall v :: v in n0 ==> n0[v].tag == NotVisited
    ensures n2.Keys == n0.Keys
    ensures forall v :: v in n2 ==> n2[v] == n0[v].(tag := NotVisited, info := n2[v].info)
    ensures forall v :: v in n2 ==>
              (n2[v].info == n0[v].info || exists u :: u in outs && v in outs[u] && n2[v].info == Decimal(u))
    ensures d.Finite? <==> Reaches(outs, id1, id2)
    ensures d.Infinite? ==> path == []
    ensures d.Finite? ==> IsPath(outs, path) && path[0] == id1 && Last(path) == id2 && PathWeight(outs, path) == d.value
    ensures id2 !in n0 ==> d == Infinite && path == []
    ensures id1 == id2 ==> d == Finite(0.0) && path == [id1]
  {
    RegionClosed(n0, outs, {id1});
    var n, dist, found, visitedNodes, vis, pred, order, step := Search(outs, n0, id1, id2, Region(n0, outs, {id1}));
    FinishedClosed(outs, n0, n, id1, dist, vis, pred, order, step);
    if found {
      d := Finite(dist[id2]);
      path := BacktrackPath(n, id1, id2, outs, dist, vis, pred, order, step);
    } else {
      d, path := Infinite, [];
      NotPoppedUnreachable(outs, id1, vis, id2);
    }
    n2 := Restore(n, visitedNodes);
    CleanedUp(outs, n0, n, id1, dist, vis, pred, order, step, visitedNodes, n2);
  }

  /**
   * In the store of the documented example of `shortest_path`, with edges
   * `0 -> 1` and `1 -> 2` only, every path from 0 runs along 0, 1, 2.
   */
  lemma {:induction false} ExamplePaths(outs: Adjacency, p: seq<int>)
    requires 0 in outs && 1 in outs && 2 in outs
    requires outs[0].Keys == {1} && outs[1].Keys == {2} && outs[2].Keys == {}
    requires IsPath(outs, p) && p[0] == 0
    ensures |p| <= 3 && forall i :: 0 <= i < |p| ==> p[i] == i
    decreases |p|
  {
    if |p| > 1 {
      var q := p[..|p| - 1];
      assert IsPath(outs, q) by {
        forall i | 0 <= i < |q| - 1
          ensures q[i] in outs && q[i + 1] in outs[q[i]]
        {
          assert q[i] == p[i] && q[i + 1] == p[i + 1];
        }
      }
      ExamplePaths(outs, q);
      var i := |p| - 2;
      assert p[i] == q[i] == i;
      assert p[i] in outs && p[i + 1] in outs[p[i]];
    }
  }

  /** The nodes of the documented example of `shortest_path`, added with `add_node`. */
  method ExampleNodes() returns (g: DiGraph)
    ensures fresh(g) && g.Valid() && g.nodes.Keys == {0, 1, 2}
    ensures g.outs == map[0 := map[], 1 := map[], 2 := map[]]
  {
    g := new DiGraph();
    var ok := g.AddNode(0, None);
    ok := g.AddNode(1, None);
    ok := g.AddNode(2, None);
  }

  /** The store of the documented example of `shortest_path`: its edges, added with `add_edge`. */
  method ExampleStore() returns (g: DiGraph)
    ensures fresh(g) && g.Valid() && g.nodes.Keys == {0, 1, 2}
    ensures g.outs.Keys == {0, 1, 2} && g.outs[0].Keys == {1} && g.outs[1].Keys == {2} && g.outs[2].Keys == {}
    ensures g.outs[0][1].weight == 1.0 && g.outs[1][2].weight == 4.0
  {
    g := ExampleNodes();
    var ok := g.AddEdge(0, 1, 1.0);
    ok := g.AddEdge(1, 2, 4.0);
  }

  /**
   * In the store of the documented example, 1 and 2 are reachable from 0,
   * along `[0, 1]` of weight 1 and `[0, 1, 2]` of weight 5, and along no
   * other path.
   */
  lemma ExampleAnswer(outs: Adjacency, dest: int, p: seq<int>)
    requires outs.Keys == {0, 1, 2} && outs[0].Keys == {1} && outs[1].Keys == {2} && outs[2].Keys == {}
    requires outs[0][1].weight == 1.0 && outs[1][2].weight == 4.0
    requires dest == 1 || dest == 2
    ensures Reaches(outs, 0, dest)
    ensures IsPath(outs, p) && p[0] == 0 && Last(p) == dest ==>
              p == (if dest == 1 then [0, 1] else [0, 1, 2]) && PathWeight(outs, p) == if dest == 1 then 1.0 else 5.0
  {
    var q := if dest == 1 then [0, 1] else [0, 1, 2];
    assert IsPath(outs, q) && q[0] == 0 && Last(q) == dest;
    assert PathWeight(outs, [0, 1]) == 1.0 by {
      assert [0, 1][1..] == [1];
    }
    assert PathWeight(outs, [0, 1, 2]) == 5.0 by {
      assert [0, 1, 2][1..] == [1, 2] && [1, 2][1..] == [2];
    }
    if IsPath(outs, p) && p[0] == 0 && Last(p) == dest {
      ExamplePaths(outs, p);
      assert p == q;
    }
  }

  /**
   * The documented example of `shortest_path`: nodes 0, 1 and 2, an edge
   * `0 -> 1` of weight 1 and an edge `1 -> 2` of weight 4; the shortest
   * paths from 0 to 1 and to 2 are `(1, [0, 1])` and `(5, [0, 1, 2])`.
   */
  method ShortestPathExample() returns (r1: (Distance, seq<int>), r2: (Distance, seq<int>))
    ensures r1 == (Finite(1.0), [0, 1])
    ensures r2 == (Finite(5.0), [0, 1, 2])
  {
    var g := ExampleStore();
    var algo := new GraphAlgo(g);
    ghost var outs := g.outs;
    var d, p := algo.ShortestPath(0, 1);
    assert algo.graph == g && g.outs == outs;
    ExampleAnswer(outs, 1, p);
    assert d.Finite?;
    assert p == [0, 1];
    assert d.value == 1.0;
    r1 := (d, p);
    assert g.Valid() && g.nodes.Keys == {0, 1, 2};
    d, p := algo.ShortestPath(0, 2);
    assert algo.graph == g && g.outs == outs;
    ExampleAnswer(outs, 2, p);
    assert d.Finite?;
    assert p == [0, 1, 2];
    assert d.value == 5.0;
    r2 := (d, p);
  }

  /** A node without out-edges reaches only itself. */
  lemma ReachesFromSink(outs: Adjacency, a: int, u: int)
    requires a in outs && outs[a] == map[]
    ensures Reaches(outs, a, u) ==> u == a
  {
    if Reaches(outs, a, u) {
      var p :| IsPath(outs, p) && p[0] == a && Last(p) == u;
      if |p| > 1 {
        PathStep(outs, p, 0);
        assert false;
      }
    }
  }

  lemma PathStep(outs: Adjacency, p: seq<int>, i: nat)
    requires IsPath(outs, p) && i < |p| - 1
    ensures p[i] in outs && p[i + 1] in outs[p[i]]
  {
  }

  /** A node without out-edges is a safe root, whatever dangles elsewhere. */
  lemma SinkIsSafe(nodes: map<int, Node>, outs: Adjacency, a: int)
    requires a in nodes && a in outs && outs[a] == map[]
    ensures SafeFrom(nodes, outs, {a})
  {
    forall r, u, v | r in {a} && Reaches(outs, r, u)
      ensures u in outs && v in outs[u] ==> v in nodes
    {
      ReachesFromSink(outs, a, u);
    }
  }

  /**
   * Nodes 0, 1 and 2 with an edge `1 -> 2`, after `remove_node(2)`: the edge
   * into the removed node stays in 1's out-table and dangles.
   */
  method DanglingStore() returns (g: DiGraph)
    ensures fresh(g) && g.Valid() && g.nodes.Keys == {0, 1}
    ensures 0 in g.outs && g.outs[0] == map[] && 1 in g.outs && 2 in g.outs[1] && 2 !in g.nodes
  {
    g := ExampleNodes();
    var ok := g.AddEdge(1, 2, 1.0);
    assert g.outs.Keys == {0, 1, 2} && g.outs[0] == map[] && 2 in g.outs[1] && g.outs[2] == map[];
    ghost var s := g.State();
    RemoveOutEdgesNone(s, 2);
    ok := g.RemoveNode(2);
    assert g.nodes == s.nodes - {2};
    assert g.nodes.Keys == s.nodes.Keys - {2};
  }

  /**
   * A dangling edge the searches never reach does not disturb them: from 0,
   * which has no out-edges, node 1 is unreachable and 0 is a component of
   * its own.
   */
  method DanglingEdgeExample() returns (d: Distance, p: seq<int>, c: seq<int>)
    ensures d == Infinite && p == []
    ensures c == [0]
  {
    var g := DanglingStore();
    var algo := new GraphAlgo(g);
    SinkIsSafe(g.nodes, g.outs, 0);
    ghost var outs := g.outs;
    d, p := algo.ShortestPath(0, 1);
    ReachesFromSink(outs, 0, 1);
    assert algo.graph == g && g.outs == outs && g.nodes[0].tag == NotVisited;
    SinkIsSafe(g.nodes, g.outs, 0);
    assert Roots(g.nodes, Some(0)) <= {0};
    ghost var seen;
    c, seen := algo.ConnectedComponent(0);
  }

  class GraphAlgo {
    /** The store the algorithms work on (`self.__g`). */
    var graph: DiGraph
    /** `self.__counter_lowlink`, the discovery counter of the Tarjan search. */
    var counterLowlink: int

    constructor (g: DiGraph)
      ensures graph == g && counterLowlink == 0
    {
      graph := g;
      counterLowlink := 0;
    }

    /** `__set_all_nodes_unvisited`: every node's tag becomes 0; nothing else changes. */
    method SetAllNodesUnvisited()
      modifies graph
      ensures graph.State() == old(graph.State()).(nodes := Untagged(old(graph.nodes)))
      ensures old(graph.Valid()) ==> graph.Valid()
    {
      ghost var n0 := graph.nodes;
      var todo := graph.nodes.Keys;
      while todo != {}
        invariant todo <= n0.Keys
        invariant graph.State() == old(graph.State()).(nodes := graph.nodes)
        invariant graph.nodes.Keys == n0.Keys
        invariant forall v :: v in n0 ==> graph.nodes[v] == if v in todo then n0[v] else n0[v].(tag := NotVisited)
        decreases todo
      {
        NonEmptyHasMember(todo);
        var v :| v in todo;
        graph.nodes := graph.nodes[v := graph.nodes[v].(tag := NotVisited)];
        todo := todo - {v};
      }
      assert forall v :: v in n0 ==> graph.nodes[v] == Untagged(n0)[v];
    }

    // -------------------------------------------------------------------------
    // Shortest paths

    /**
     * `shortest_path(id1, id2)`: the tags are reset, the search runs from
     * `id1`, and when `id2` was popped its distance and back-tracked path are
     * returned, else `(inf, [])`; the popped nodes get tag 0 again. Every
     * edge the search can reach must end at a node, as the source looks
     * each such endpoint up.
     */
    method ShortestPath(id1: int, id2: int) returns (d: Distance, path: seq<int>)
      requires graph.Valid() && SafeFrom(graph.nodes, graph.outs, {id1})
      modifies graph
      ensures graph.Valid() && graph.State() == old(graph.State()).(nodes := graph.nodes)
      ensures graph.nodes.Keys == old(graph.nodes).Keys
      ensures forall v :: v in graph.nodes ==>
                graph.nodes[v] == old(graph.nodes)[v].(tag := NotVisited, info := graph.nodes[v].info)
      ensures forall v :: v in graph.nodes ==>
                (graph.nodes[v].info == old(graph.nodes)[v].info ||
                 exists u :: u in graph.outs && v in graph.outs[u] && graph.nodes[v].info == Decimal(u))
      ensures d.Finite? <==> Reaches(graph.outs, id1, id2)
      ensures d.Infinite? ==> path == []
      ensures d.Finite? ==> IsPath(graph.outs, path) && path[0] == id1 && Last(path) == id2 &&
                            PathWeight(graph.outs, path) == d.value
      ensures id2 !in graph.nodes ==> d == Infinite && path == []
      ensures id1 == id2 ==> d == Finite(0.0) && path == [id1]
    {
      ghost var old0 := graph.nodes;
      SetAllNodesUnvisited();
      ghost var st := graph.State();
      var n2;
      d, path, n2 := SearchAndTrace(graph.outs, graph.nodes, id1, id2);
      assert KeysAgree(st.(nodes := n2));
      graph.nodes := n2;
      assert graph.State() == st.(nodes := n2);
      assert forall v :: v in old0 ==> st.nodes[v] == old0[v].(tag := NotVisited);
    }

    // -------------------------------------------------------------------------
    // Strongly connected components

    /** `__next_lowlink_val`: hands out the discovery counter and advances it. */
    method NextLowlinkVal() returns (res: int)
      modifies this
      ensures res == old(counterLowlink) && counterLowlink == res + 1 && graph == old(graph)
    {
      res := counterLowlink;
      counterLowlink := counterLowlink + 1;
    }

    /**
     * `__tarjan_DFS(v)`: tag `v`, push it, give it the next low-link value,
     * search its out-neighbours, and if its low-link value is still its own,
     * pop its component. Nodes are handled as a value `n`; the caller writes
     * the table back. `floor` bounds the low-link values on the stack from
     * below; started on an empty stack with the current counter as `floor`,
     * the call pops everything it pushed.
     */
    method TarjanDfs(outs: Adjacency, n: map<int, Node>, v: int, comps: seq<seq<int>>, low: map<int, int>,
                     stack: seq<int>, ghost n0: map<int, Node>, ghost seen: set<int>, ghost floor: int,
                     ghost region: set<int>)
      returns (n2: map<int, Node>, comps2: seq<seq<int>>, low2: map<int, int>, stack2: seq<int>,
               ghost seen2: set<int>)
      requires ClosedRegion(n0, outs, region) && v in region && n0.Keys <= outs.Keys && seen <= region
      requires Retagged(n0, n, seen) && Placed(seen, stack, comps, low) && LowAbove(stack, low, floor)
      requires floor <= counterLowlink && v in n && n[v].tag == NotVisited
      modifies this
      ensures graph == old(graph) && counterLowlink >= old(counterLowlink) && seen2 <= region
      ensures Retagged(n0, n2, seen2) && Placed(seen2, stack2, comps2, low2) && LowAbove(stack2, low2, floor)
      ensures seen + {v} <= seen2 && stack <= stack2 && comps <= comps2 && PushedSince(stack, stack2, seen)
      ensures forall w :: w in low ==> low2[w] == low[w]
      ensures stack == [] && floor == old(counterLowlink) ==> stack2 == []
      ensures outs[v] == map[] ==> stack2 == stack && comps2 == comps + [[v]]
      decreases |ZeroTags(n)|, 0
    {
      ZeroTagsFewer(n, v);
      var c := NextLowlinkVal();
      EnterKeeps(n0, n, seen, stack, comps, low, floor, v, c);
      n2 := n[v := n[v].(tag := Visited)];
      stack2 := stack + [v];
      low2 := low[v := c];
      seen2 := seen + {v};
      var isRoot;
      n2, comps2, low2, stack2, seen2, isRoot :=
        DfsNeighbours(outs, n2, v, comps, low2, stack2, n0, seen2, floor, |stack|, c, region);
      if isRoot {
        ghost var comps1, low1, stack1 := comps2, low2, stack2;
        comps2, low2, stack2 := PopComponent(v, comps2, low2, stack2, |stack|);
        PushedAbove(stack, stack1, seen);
        PopComponentKeeps(seen2, stack1, comps1, low1, low2, |stack|, floor);
      }
    }

    /**
     * The `for neighbour_id, weight in ...` loop of `__tarjan_DFS` for the
     * node `v` at position `base` of the stack, whose own low-link value is
     * `c`: descend into each neighbour still at tag 0, then take over a
     * smaller low-link value of a neighbour on the stack. `isRoot` is false
     * exactly when `v`'s value was lowered.
     */
    method DfsNeighbours(outs: Adjacency, n: map<int, Node>, v: int, comps: seq<seq<int>>, low: map<int, int>,
                         stack: seq<int>, ghost n0: map<int, Node>, ghost seen: set<int>, ghost floor: int,
                         ghost base: nat, ghost c: int, ghost region: set<int>)
      returns (n2: map<int, Node>, comps2: seq<seq<int>>, low2: map<int, int>, stack2: seq<int>,
               ghost seen2: set<int>, isRoot: bool)
      requires ClosedRegion(n0, outs, region) && v in region && n0.Keys <= outs.Keys && v in outs && seen <= region
      requires Retagged(n0, n, seen) && Placed(seen, stack, comps, low) && LowAbove(stack, low, floor)
      requires floor <= counterLowlink && base < |stack| && stack[base] == v && low[v] == c
      modifies this
      ensures graph == old(graph) && counterLowlink >= old(counterLowlink) && seen2 <= region
      ensures Retagged(n0, n2, seen2) && Placed(seen2, stack2, comps2, low2) && LowAbove(stack2, low2, floor)
      ensures seen <= seen2 && stack <= stack2 && comps <= comps2 && PushedSince(stack, stack2, seen)
      ensures forall w :: w in low && w != v ==> low2[w] == low[w]
      ensures low2[v] <= c && (isRoot <==> low2[v] == c)
      ensures outs[v] == map[] ==> isRoot && stack2 == stack && comps2 == comps && low2 == low
      decreases |ZeroTags(n)|, 2
    {
      n2, comps2, low2, stack2, seen2, isRoot := n, comps, low, stack, seen, true;
      var todo := outs[v].Keys;
      ghost var done: set<int> := {};
      while todo != {}
        invariant todo + done == outs[v].Keys
        invariant Retagged(n0, n2, seen2) && Placed(seen2, stack2, comps2, low2) && LowAbove(stack2, low2, floor)
        invariant graph == old(graph) && counterLowlink >= old(counterLowlink) && seen2 <= region
        invariant seen <= seen2 && stack <= stack2 && comps <= comps2 && PushedSince(stack, stack2, seen)
        invariant forall w :: w in low && w != v ==> low2[w] == low[w]
        invariant low2[v] <= c && (isRoot <==> low2[v] == c)
        invariant done == {} ==> isRoot && stack2 == stack && comps2 == comps && low2 == low
        decreases todo
      {
        NonEmptyHasMember(todo);
        var u :| u in todo;
        assert u in outs[v] && u in region;
        assert v in low2 by { assert v in stack; }
        ZeroTagsShrink(n0, n, seen, n2, seen2);
        ghost var stack1, seen1, low1 := stack2, seen2, low2;
        n2, comps2, low2, stack2, seen2, isRoot :=
          DfsNeighbour(outs, n2, v, u, comps2, low2, stack2, isRoot, n0, seen2, floor, region);
        PushedSinceTrans(stack, stack1, stack2, seen, seen1);
        LowKeptTrans(low, low1, low2, v);
        todo, done := todo - {u}, done + {u};
      }
    }

    /**
     * One pass of the `for neighbour_id, weight in ...` loop of
     * `__tarjan_DFS(v)` for the out-neighbour `u`: descend into `u` when its
     * tag is still 0, then when `u` is on the stack with a smaller low-link
     * value, `v` takes that value over and is no longer a root.
     */
    method DfsNeighbour(outs: Adjacency, n: map<int, Node>, v: int, u: int, comps: seq<seq<int>>,
                        low: map<int, int>, stack: seq<int>, isRoot: bool,
                        ghost n0: map<int, Node>, ghost seen: set<int>, ghost floor: int, ghost region: set<int>)
      returns (n2: map<int, Node>, comps2: seq<seq<int>>, low2: map<int, int>, stack2: seq<int>,
               ghost seen2: set<int>, isRoot2: bool)
      requires ClosedRegion(n0, outs, region) && u in region && n0.Keys <= outs.Keys && seen <= region
      requires Retagged(n0, n, seen) && Placed(seen, stack, comps, low) && LowAbove(stack, low, floor)
      requires floor <= counterLowlink && v in low
      modifies this
      ensures graph == old(graph) && counterLowlink >= old(counterLowlink) && seen2 <= region
      ensures Retagged(n0, n2, seen2) && Placed(seen2, stack2, comps2, low2) && LowAbove(stack2, low2, floor)
      ensures seen <= seen2 && stack <= stack2 && comps <= comps2 && PushedSince(stack, stack2, seen)
      ensures forall w :: w in low && w != v ==> low2[w] == low[w]
      ensures low2[v] <= low[v] && (isRoot2 <==> isRoot && low2[v] == low[v])
      decreases |ZeroTags(n)|, 1
    {
      n2, comps2, low2, stack2, seen2, isRoot2 := n, comps, low, stack, seen, isRoot;
      assert u in n;
      if n[u].tag == NotVisited {
        n2, comps2, low2, stack2, seen2 := TarjanDfs(outs, n, u, comps, low, stack, n0, seen, floor, region);
      }
      if u in stack2 && low2[u] < low2[v] {
        LowerKeeps(seen2, stack2, comps2, low2, floor, v, u);
        low2 := low2[v := low2[u]];
        isRoot2 := false;
      }
    }

    /**
     * `__tarjan(node)`: reset the counter, then start the search from `node`
     * (or, when there is none, from every node) wherever the tag is 0. The
     * components found list every node reached exactly once; the reached
     * nodes keep tag `Visited`.
     */
    method Tarjan(start: Option<int>) returns (comps: seq<seq<int>>, ghost seen: set<int>)
      requires graph.Valid() && SafeFrom(graph.nodes, graph.outs, Roots(graph.nodes, start))
      requires start.Some? ==> start.value in graph.nodes
      modifies this, graph
      ensures graph == old(graph) && graph.Valid()
      ensures graph.State() == old(graph.State()).(nodes := graph.nodes)
      ensures Retagged(old(graph.nodes), graph.nodes, seen)
      ensures start.Some? ==> forall v :: v in seen ==> Reaches(graph.outs, start.value, v)
      ensures NoDup(Flatten(comps)) && Elems(Flatten(comps)) == seen
      ensures start.None? ==> forall v :: v in graph.nodes ==> graph.nodes[v].tag != NotVisited
      ensures start.Some? ==> graph.nodes[start.value].tag != NotVisited
      ensures (start.Some? && old(graph.nodes)[start.value].tag == NotVisited && graph.outs[start.value] == map[]) ==>
                comps == [[start.value]]
    {
      ghost var st := graph.State();
      counterLowlink := 0;
      var n;
      RegionClosed(graph.nodes, graph.outs, Roots(graph.nodes, start));
      n, comps, seen := SearchRoots(graph.outs, graph.nodes, start, Region(graph.nodes, graph.outs, Roots(graph.nodes, start)));
      if start.Some? {
        RegionOfOne(st.nodes, st.outs, Roots(st.nodes, start), start.value, seen);
      }
      assert KeysAgree(st.(nodes := n));
      graph.nodes := n;
      assert graph.State() == st.(nodes := n);
    }

    /**
     * The loop of `__tarjan` on the node table `n0`: start `__tarjan_DFS`
     * from `start`, or from every node in turn, wherever the tag is still 0.
     */
    method SearchRoots(outs: Adjacency, n0: map<int, Node>, start: Option<int>, ghost region: set<int>)
      returns (n: map<int, Node>, comps: seq<seq<int>>, ghost seen: set<int>)
      requires ClosedRegion(n0, outs, region) && Roots(n0, start) <= region && n0.Keys <= outs.Keys
      requires start.Some? ==> start.value in n0
      modifies this
      ensures graph == old(graph)
      ensures Retagged(n0, n, seen) && seen <= region
      ensures NoDup(Flatten(comps)) && Elems(Flatten(comps)) == seen
      ensures start.None? ==> forall v :: v in n ==> n[v].tag != NotVisited
      ensures start.Some? ==> n[start.value].tag != NotVisited
      ensures (start.Some? && n0[start.value].tag == NotVisited && outs[start.value] == map[]) ==>
                comps == [[start.value]]
    {
      n := n0;
      var low: map<int, int> := map[];
      var stack: seq<int> := [];
      comps, seen := [], {};
      var todo := if start.Some? then {start.value} else n.Keys;
      ghost var done: set<int> := {};
      assert Flatten([]) == [] && Elems([]) == {};
      while todo != {}
        invariant todo <= n0.Keys && todo !! done
        invariant start.None? ==> todo + done == n0.Keys
        invariant start.Some? ==> todo + done == {start.value}
        invariant graph == old(graph)
        invariant Retagged(n0, n, seen) && Placed(seen, stack, comps, low) && stack == [] && seen <= region
        invariant forall u :: u in done ==> u in seen || n0[u].tag != NotVisited
        invariant (start.Some? && n0[start.value].tag == NotVisited && outs[start.value] == map[]) ==>
                    comps == if done == {} then [] else [[start.value]]
        decreases todo
      {
        NonEmptyHasMember(todo);
        var u :| u in todo;
        if n[u].tag == NotVisited {
          assert u in Roots(n0, start);
          assert LowAbove(stack, low, counterLowlink);
          n, comps, low, stack, seen := TarjanDfs(outs, n, u, comps, low, stack, n0, seen, counterLowlink, region);
        }
        todo, done := todo - {u}, done + {u};
      }
      forall u | u in done
        ensures n[u].tag != NotVisited
      {
        assert u in seen || n0[u].tag != NotVisited;
      }
    }

    /**
     * `connected_components`: the components of the nodes whose tag was 0,
     * each listed in exactly one of them; afterwards every tag is 0. With
     * every tag 0 on entry, the components partition all the nodes.
     */
    method ConnectedComponents() returns (comps: seq<seq<int>>)
      requires graph.Valid() && SafeFrom(graph.nodes, graph.outs, ZeroTags(graph.nodes))
      modifies this, graph
      ensures graph == old(graph) && graph.Valid()
      ensures graph.State() == old(graph.State()).(nodes := Untagged(old(graph.nodes)))
      ensures Partition(comps, ZeroTags(old(graph.nodes)))
      ensures (forall v :: v in old(graph.nodes) ==> old(graph.nodes)[v].tag == NotVisited) ==>
                Partition(comps, old(graph.nodes).Keys)
    {
      ghost var n0 := graph.nodes;
      ghost var seen;
      comps, seen := Tarjan(None);
      RetaggedAll(n0, graph.nodes, seen);
      FlattenPartition(comps, seen);
      ghost var n1 := graph.nodes;
      SetAllNodesUnvisited();
      assert forall v :: v in n0 ==> Untagged(n1)[v] == Untagged(n0)[v];
    }

    /**
     * `connected_component(id1)`: run the search from `id1` (from every node
     * when `id1` is absent) and return the first component holding `id1`,
     * or `[]`. Tags are not reset: the nodes `seen` by the search keep tag
     * `Visited`, so a later call from one of them finds nothing. From a known
     * `id1` the search reaches only nodes `id1` reaches; from an unknown one
     * it tags every node that had tag 0.
     */
    method ConnectedComponent(id1: int) returns (r: seq<int>, ghost seen: set<int>)
      requires graph.Valid()
      requires SafeFrom(graph.nodes, graph.outs, Roots(graph.nodes, if id1 in graph.nodes then Some(id1) else None))
      modifies this, graph
      ensures graph == old(graph) && graph.Valid()
      ensures graph.State() == old(graph.State()).(nodes := graph.nodes)
      ensures graph.nodes.Keys == old(graph.nodes).Keys
      ensures forall v :: v in graph.nodes ==> graph.nodes[v] == old(graph.nodes)[v].(tag := graph.nodes[v].tag)
      ensures id1 !in old(graph.nodes) ==> r == []
      ensures id1 in old(graph.nodes) && old(graph.nodes)[id1].tag != NotVisited ==> r == []
      ensures id1 in old(graph.nodes) && old(graph.nodes)[id1].tag == NotVisited ==> id1 in r
      ensures (id1 in old(graph.nodes) && old(graph.nodes)[id1].tag == NotVisited && graph.outs[id1] == map[]) ==>
                r == [id1]
      ensures NoDup(r) && forall v :: v in r ==> v in graph.nodes && graph.nodes[v].tag == Visited
      ensures Retagged(old(graph.nodes), graph.nodes, seen) && Elems(r) <= seen
      ensures id1 !in old(graph.nodes) ==> seen == ZeroTags(old(graph.nodes))
      ensures id1 in old(graph.nodes) ==> forall v :: v in seen ==> Reaches(graph.outs, id1, v)
    {
      ghost var n0 := graph.nodes;
      var start := if id1 in graph.nodes then Some(id1) else None;
      var comps;
      comps, seen := Tarjan(start);
      FlattenPartition(comps, seen);
      assert id1 in n0 && n0[id1].tag == NotVisited ==> id1 in seen;
      if start.None? {
        RetaggedAll(n0, graph.nodes, seen);
      }
      var i := 0;
      while i < |comps|
        invariant 0 <= i <= |comps|
        invariant forall j :: 0 <= j < i ==> id1 !in comps[j]
      {
        if id1 in comps[i] {
          assert comps[i] == [id1] || |comps| != 1 || id1 !in n0 || n0[id1].tag != NotVisited ||
                 graph.outs[id1] != map[];
          r := comps[i];
          return;
        }
        i := i + 1;
      }
      r := [];
    }

    // -------------------------------------------------------------------------
    // The world's bounding box

    /**
     * `__get_current_world_range`: the least and greatest x and y over the
     * positioned nodes, [0,1] x [0,1] when there is none, and an axis whose
     * ends coincide widened to reach 0.
     */
    method GetCurrentWorldRange() returns (r: Range2D)
      ensures Xs(graph.nodes, graph.nodes.Keys) == {} ==> r == Range2D(Range(0.0, 1.0), Range(0.0, 1.0))
      ensures Xs(graph.nodes, graph.nodes.Keys) != {} ==>
                Spans(Xs(graph.nodes, graph.nodes.Keys), r.xRange) && Spans(Ys(graph.nodes, graph.nodes.Keys), r.yRange)
    {
      var nodes := graph.nodes;
      var found := false;
      var minX, maxX, minY, maxY := 0.0, 0.0, 0.0, 0.0;
      var todo := nodes.Keys;
      ghost var done: set<int> := {};
      while todo != {}
        invariant todo + done == nodes.Keys && todo !! done
        invariant found <==> Xs(nodes, done) != {}
        invariant found <==> Ys(nodes, done) != {}
        invariant found ==> Extremes(Xs(nodes, done), minX, maxX) && Extremes(Ys(nodes, done), minY, maxY)
        decreases todo
      {
        NonEmptyHasMember(todo);
        var v :| v in todo;
        var node := nodes[v];
        XsStep(nodes, done, v);
        if node.pos.Some? {
          var p := node.pos.value;
          if !found {
            minX := p.x;
            maxX := minX;
            minY := p.y;
            maxY := minY;
            found := true;
          } else {
            ExtremesAdd(Xs(nodes, done), minX, maxX, p.x);
            ExtremesAdd(Ys(nodes, done), minY, maxY, p.y);
            if p.x < minX {
              minX := p.x;
            }
            if p.x > maxX {
              maxX := p.x;
            }
            if p.y < minY {
              minY := p.y;
            }
            if p.y > maxY {
              maxY := p.y;
            }
          }
        }
        todo, done := todo - {v}, done + {v};
      }
      if !found {
        minX, maxX, minY, maxY := 0.0, 1.0, 0.0, 1.0;
      }
      ghost var loX, hiX, loY, hiY := minX, maxX, minY, maxY;
      if minX == maxX {
        minX := if minX >= 0.0 then 0.0 else minX;
        maxX := if maxX <= 0.0 then 0.0 else maxX;
      }
      if minY == maxY {
        minY := if minY >= 0.0 then 0.0 else minY;
        maxY := if maxY <= 0.0 then 0.0 else maxY;
      }
      r := Range2D(Range(minX, maxX), Range(minY, maxY));
      if found {
        assert Extremes(Xs(nodes, nodes.Keys), loX, hiX);
        assert Extremes(Ys(nodes, nodes.Keys), loY, hiY);
      }
    }
  }
}
