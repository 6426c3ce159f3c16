/**
 * The search loop of `shortest_path` (src/GraphAlgo.py:99-148): a heap of
 * `(distance, node)` entries, the `distances` map, the `visited_nodes` list,
 * the visit state kept in each node's `tag` and the predecessor id written
 * into each node's `info`.
 *
 * The node table is handled as a value here; `GraphAlgo.ShortestPath` takes it
 * from the store and writes it back.
 */
module Dijkstra {
  import opened Graph
  import opened NodeRecords
  import opened Paths
  import opened Text
  import opened IdSets

  /** A heap entry: a tentative distance and a node id. */
  type Entry = (real, int)

  /** The distance `shortest_path` returns: a sum of weights, or `float('inf')`. */
  datatype Distance = Infinite | Finite(value: real)

  /**
   * The heap's order on entries: by distance, and between equal distances
   * by node id (the source compares the `Node` objects there).
   */
  predicate NoLater(a: Entry, b: Entry)
  {
    a.0 < b.0 || (a.0 == b.0 && a.1 <= b.1)
  }

  /** The ids that have at least one entry in the heap. */
  function Ids(pq: seq<Entry>): set<int>
  {
    set i | 0 <= i < |pq| :: pq[i].1
  }

  lemma IdsPush(pq: seq<Entry>, e: Entry)
    ensures Ids(pq + [e]) == Ids(pq) + {e.1}
  {
    var q := pq + [e];
    assert q[|pq|] == e;
    forall i | 0 <= i < |pq|
      ensures q[i] == pq[i]
    {
    }
  }

  lemma IdsRemove(pq: seq<Entry>, m: nat)
    requires m < |pq|
    ensures Ids(pq) == Ids(pq[..m] + pq[m + 1..]) + {pq[m].1}
  {
    var rest := pq[..m] + pq[m + 1..];
    forall i | 0 <= i < |pq| && i != m
      ensures pq[i].1 in Ids(rest)
    {
      if i < m {
        assert rest[i] == pq[i];
      } else {
        assert rest[i - 1] == pq[i];
      }
    }
    forall i | 0 <= i < |rest|
      ensures rest[i].1 in Ids(pq)
    {
      if i < m {
        assert rest[i] == pq[i];
      } else {
        assert rest[i] == pq[i + 1];
      }
    }
  }

  /** `heappop`: the position of an entry that comes no later than any other. */
  method MinIndex(pq: seq<Entry>) returns (m: nat)
    requires pq != []
    ensures m < |pq| && forall j :: 0 <= j < |pq| ==> NoLater(pq[m], pq[j])
  {
    m := 0;
    for j := 1 to |pq|
      invariant m < j
      invariant forall k :: 0 <= k < j ==> NoLater(pq[m], pq[k])
    {
      if !NoLater(pq[m], pq[j]) {
        m := j;
      }
    }
  }

  // ---------------------------------------------------------------------------
  // What holds between two steps of the search

  /** Only the `tag` and `info` of a node change. */
  ghost predicate Kept(n0: map<int, Node>, n: map<int, Node>)
  {
    n.Keys == n0.Keys && forall v :: v in n ==> n[v] == n0[v].(tag := n[v].tag, info := n[v].info)
  }

  /** A node is tagged visited exactly when it has been popped; any other non-zero tag belongs to a queued node. */
  ghost predicate Tags(n: map<int, Node>, vis: set<int>, pq: seq<Entry>)
  {
    vis <= n.Keys &&
    forall v :: v in n ==> (n[v].tag == Visited <==> v in vis) && (n[v].tag != NotVisited ==> v in vis || v in Ids(pq))
  }

  /** The source is at distance 0; every node with a distance has been popped or is still queued. */
  ghost predicate Queue(n: map<int, Node>, src: int, dist: map<int, real>, pq: seq<Entry>, vis: set<int>)
  {
    src in dist && dist[src] == 0.0 && dist.Keys <= n.Keys && vis <= dist.Keys &&
    (forall i :: 0 <= i < |pq| ==> pq[i].1 in dist) &&
    (forall v :: v in dist ==> v in vis || v in Ids(pq)) &&
    (vis == {} ==> pq == [(0.0, src)]) &&
    (vis != {} ==> src in vis)
  }

  /**
   * Every node with a distance, other than the source, names in its `info`
   * a popped predecessor whose distance plus the edge's weight is its own;
   * a popped node's predecessor was popped before it (`order` numbers the
   * pops, `step` is the next number).
   */
  ghost predicate Chain(outs: Adjacency, n: map<int, Node>, src: int, dist: map<int, real>, vis: set<int>,
                        pred: map<int, int>, order: map<int, nat>, step: nat)
  {
    pred.Keys == dist.Keys - {src} && order.Keys == vis &&
    (forall u :: u in order ==> order[u] < step) &&
    forall v :: v in pred ==> Linked(outs, n, dist, vis, pred, order, v)
  }

  /** `v`'s predecessor link, as `Chain` describes it. */
  ghost predicate Linked(outs: Adjacency, n: map<int, Node>, dist: map<int, real>, vis: set<int>,
                         pred: map<int, int>, order: map<int, nat>, v: int)
    requires v in pred && order.Keys == vis
  {
    v in n && v in dist && pred[v] in vis && pred[v] in dist && pred[v] in outs && v in outs[pred[v]] &&
    n[v].info == Decimal(pred[v]) && dist[v] == dist[pred[v]] + outs[pred[v]][v].weight &&
    (v in vis ==> order[pred[v]] < order[v])
  }

  /** `info` is only written for nodes that got a predecessor. */
  ghost predicate Written(n0: map<int, Node>, n: map<int, Node>, pred: map<int, int>)
  {
    forall v :: v in n0 && v in n && v !in pred ==> n[v].info == n0[v].info
  }

  ghost predicate Searching(outs: Adjacency, n0: map<int, Node>, n: map<int, Node>, src: int, dist: map<int, real>,
                            pq: seq<Entry>, vis: set<int>, pred: map<int, int>, order: map<int, nat>, step: nat)
  {
    Kept(n0, n) && Tags(n, vis, pq) && Queue(n, src, dist, pq, vis) &&
    Chain(outs, n, src, dist, vis, pred, order, step) && Written(n0, n, pred)
  }

  /** Every out-neighbour of `u` has a distance, at most `u`'s plus the edge's weight unless it was popped. */
  ghost predicate Settled(outs: Adjacency, dist: map<int, real>, vis: set<int>, u: int)
  {
    u in dist && u in outs &&
    forall v :: v in outs[u] ==> v in dist && (v !in vis ==> dist[v] <= dist[u] + outs[u][v].weight)
  }

  ghost predicate SettledAll(outs: Adjacency, dist: map<int, real>, vis: set<int>, s: set<int>)
  {
    forall u :: u in s ==> Settled(outs, dist, vis, u)
  }

  /** Distances only fall, and never for a popped node. */
  ghost predicate Lowered(dist: map<int, real>, dist2: map<int, real>, vis: set<int>)
  {
    dist.Keys <= dist2.Keys &&
    forall x :: x in dist ==> dist2[x] <= dist[x] && (x in vis ==> dist2[x] == dist[x])
  }

  lemma SettledLowered(outs: Adjacency, dist: map<int, real>, dist2: map<int, real>, vis: set<int>, s: set<int>)
    requires s <= vis && SettledAll(outs, dist, vis, s) && Lowered(dist, dist2, vis)
    ensures SettledAll(outs, dist2, vis, s)
  {
    forall u | u in s
      ensures Settled(outs, dist2, vis, u)
    {
      assert Settled(outs, dist, vis, u);
      forall v | v in outs[u]
        ensures v in dist2 && (v !in vis ==> dist2[v] <= dist2[u] + outs[u][v].weight)
      {
        assert v in dist;
      }
    }
  }

  // ---------------------------------------------------------------------------
  // One step at a time

  /**
   * The body of the inner loop for the edge `u -> v` of the node just popped:
   * a visited neighbour is skipped; a shorter distance is recorded, queued,
   * and `v` is tagged queued with `u` written into its `info`.
   */
  method RelaxEdge(outs: Adjacency, n: map<int, Node>, u: int, v: int, dist: map<int, real>, pq: seq<Entry>,
                   ghost n0: map<int, Node>, ghost src: int, ghost vis: set<int>, ghost pred: map<int, int>,
                   ghost order: map<int, nat>, ghost step: nat, ghost region: set<int>)
    returns (n2: map<int, Node>, dist2: map<int, real>, pq2: seq<Entry>, ghost pred2: map<int, int>)
    requires Searching(outs, n0, n, src, dist, pq, vis, pred, order, step)
    requires ClosedRegion(n0, outs, region) && dist.Keys <= region
    requires u in vis && u in outs && v in outs[u]
    ensures Searching(outs, n0, n2, src, dist2, pq2, vis, pred2, order, step)
    ensures dist2.Keys <= region
    ensures Lowered(dist, dist2, vis)
    ensures v in dist2 && (v !in vis ==> dist2[v] <= dist2[u] + outs[u][v].weight)
    ensures v in dist && (v !in vis ==> dist[v] <= dist[u] + outs[u][v].weight) ==>
              n2 == n && dist2 == dist && pq2 == pq
  {
    assert u in region && v in region;
    if n[v].tag == Visited {
      return n, dist, pq, pred;
    }
    var nd := dist[u] + outs[u][v].weight;
    if v !in dist || nd < dist[v] {
      n2 := n[v := n[v].(tag := Queued, info := Decimal(u))];
      dist2 := dist[v := nd];
      pq2 := pq + [(nd, v)];
      pred2 := pred[v := u];
      IdsPush(pq, (nd, v));
      RelaxKeeps(outs, n0, n, src, dist, pq, vis, pred, order, step, u, v, nd, n2, dist2, pq2, pred2);
    } else {
      return n, dist, pq, pred;
    }
  }

  lemma RelaxKeeps(outs: Adjacency, n0: map<int, Node>, n: map<int, Node>, src: int, dist: map<int, real>,
                   pq: seq<Entry>, vis: set<int>, pred: map<int, int>, order: map<int, nat>, step: nat,
                   u: int, v: int, nd: real,
                   n2: map<int, Node>, dist2: map<int, real>, pq2: seq<Entry>, pred2: map<int, int>)
    requires Searching(outs, n0, n, src, dist, pq, vis, pred, order, step)
    requires u in vis && u in outs && v in outs[u] && v in n && v !in vis
    requires nd == dist[u] + outs[u][v].weight
    requires n2 == n[v := n[v].(tag := Queued, info := Decimal(u))]
    requires dist2 == dist[v := nd] && pq2 == pq + [(nd, v)] && pred2 == pred[v := u]
    requires Ids(pq2) == Ids(pq) + {v}
    ensures Searching(outs, n0, n2, src, dist2, pq2, vis, pred2, order, step)
  {
    RelaxTags(n0, n, vis, pq, pred, u, v, n2, pq2, pred2);
    RelaxQueue(n, src, dist, pq, vis, v, nd, n2, dist2, pq2);
    RelaxChain(outs, n, src, dist, vis, pred, order, step, u, v, nd, n2, dist2, pred2);
  }

  lemma RelaxTags(n0: map<int, Node>, n: map<int, Node>, vis: set<int>, pq: seq<Entry>, pred: map<int, int>,
                  u: int, v: int, n2: map<int, Node>, pq2: seq<Entry>, pred2: map<int, int>)
    requires Kept(n0, n) && Tags(n, vis, pq) && Written(n0, n, pred)
    requires v in n && v !in vis
    requires n2 == n[v := n[v].(tag := Queued, info := Decimal(u))] && pred2 == pred[v := u]
    requires Ids(pq2) == Ids(pq) + {v}
    ensures Kept(n0, n2) && Tags(n2, vis, pq2) && Written(n0, n2, pred2)
  {
  }

  lemma RelaxQueue(n: map<int, Node>, src: int, dist: map<int, real>, pq: seq<Entry>, vis: set<int>,
                   v: int, nd: real, n2: map<int, Node>, dist2: map<int, real>, pq2: seq<Entry>)
    requires Queue(n, src, dist, pq, vis) && v in n && v !in vis && vis != {}
    requires n2.Keys == n.Keys && dist2 == dist[v := nd] && pq2 == pq + [(nd, v)]
    requires Ids(pq2) == Ids(pq) + {v}
    ensures Queue(n2, src, dist2, pq2, vis)
  {
    assert src in vis && v != src;
    forall i | 0 <= i < |pq2|
      ensures pq2[i].1 in dist2
    {
      if i < |pq| {
        assert pq2[i] == pq[i];
      }
    }
  }

  lemma RelaxChain(outs: Adjacency, n: map<int, Node>, src: int, dist: map<int, real>, vis: set<int>,
                   pred: map<int, int>, order: map<int, nat>, step: nat, u: int, v: int, nd: real,
                   n2: map<int, Node>, dist2: map<int, real>, pred2: map<int, int>)
    requires Chain(outs, n, src, dist, vis, pred, order, step) && src in dist && vis <= dist.Keys
    requires u in vis && u in outs && v in outs[u] && v in n && v !in vis && src in vis
    requires nd == dist[u] + outs[u][v].weight
    requires n2 == n[v := n[v].(tag := Queued, info := Decimal(u))]
    requires dist2 == dist[v := nd] && pred2 == pred[v := u]
    ensures Chain(outs, n2, src, dist2, vis, pred2, order, step)
  {
    forall x | x in pred2
      ensures x in n2 && x in dist2 && pred2[x] in vis && pred2[x] in dist2 && pred2[x] in outs && x in outs[pred2[x]] &&
              n2[x].info == Decimal(pred2[x]) && dist2[x] == dist2[pred2[x]] + outs[pred2[x]][x].weight &&
              (x in vis ==> order[pred2[x]] < order[x])
    {
      if x != v {
        assert pred[x] in vis && pred[x] != v;
      }
    }
  }

  /**
   * The inner loop over the popped node's out-edges. When that node had been
   * popped before, every neighbour is already settled and nothing changes.
   */
  method RelaxNeighbours(outs: Adjacency, n: map<int, Node>, u: int, dist: map<int, real>, pq: seq<Entry>,
                         ghost n0: map<int, Node>, ghost src: int, ghost vis: set<int>, ghost pred: map<int, int>,
                         ghost order: map<int, nat>, ghost step: nat, ghost region: set<int>)
    returns (n2: map<int, Node>, dist2: map<int, real>, pq2: seq<Entry>, ghost pred2: map<int, int>)
    requires Searching(outs, n0, n, src, dist, pq, vis, pred, order, step)
    requires ClosedRegion(n0, outs, region) && dist.Keys <= region
    requires u in vis && u in outs && SettledAll(outs, dist, vis, vis - {u})
    ensures Searching(outs, n0, n2, src, dist2, pq2, vis, pred2, order, step)
    ensures dist2.Keys <= region
    ensures SettledAll(outs, dist2, vis, vis)
    ensures Settled(outs, dist, vis, u) ==> n2 == n && dist2 == dist && pq2 == pq
  {
    n2, dist2, pq2, pred2 := n, dist, pq, pred;
    var todo := outs[u].Keys;
    ghost var done: set<int> := {};
    while todo != {}
      invariant todo !! done && todo + done == outs[u].Keys
      invariant Searching(outs, n0, n2, src, dist2, pq2, vis, pred2, order, step)
      invariant dist2.Keys <= region
      invariant Lowered(dist, dist2, vis)
      invariant forall v :: v in done ==> v in dist2 && (v !in vis ==> dist2[v] <= dist2[u] + outs[u][v].weight)
      invariant Settled(outs, dist, vis, u) ==> n2 == n && dist2 == dist && pq2 == pq
      decreases todo
    {
      NonEmptyHasMember(todo);
      var v :| v in todo;
      ghost var dist1 := dist2;
      n2, dist2, pq2, pred2 := RelaxEdge(outs, n2, u, v, dist2, pq2, n0, src, vis, pred2, order, step, region);
      LoweredTwice(dist, dist1, dist2, vis);
      todo, done := todo - {v}, done + {v};
    }
    SettledLowered(outs, dist, dist2, vis, vis - {u});
  }

  lemma LoweredTwice(d0: map<int, real>, d1: map<int, real>, d2: map<int, real>, vis: set<int>)
    requires Lowered(d0, d1, vis) && Lowered(d1, d2, vis)
    ensures Lowered(d0, d2, vis)
  {
  }

  /** Popping entry `m`: its node is appended to the visited list, tagged visited and numbered if new. */
  lemma PopKeeps(outs: Adjacency, n0: map<int, Node>, n: map<int, Node>, src: int, dist: map<int, real>,
                 pq: seq<Entry>, vis: set<int>, pred: map<int, int>, order: map<int, nat>, step: nat,
                 m: nat, x: int, n2: map<int, Node>, pq2: seq<Entry>, vis2: set<int>, order2: map<int, nat>)
    requires Searching(outs, n0, n, src, dist, pq, vis, pred, order, step)
    requires m < |pq| && x == pq[m].1
    requires x in n && n2 == n[x := n[x].(tag := Visited)]
    requires pq2 == pq[..m] + pq[m + 1..] && vis2 == vis + {x}
    requires order2 == if x in vis then order else order[x := step]
    ensures Searching(outs, n0, n2, src, dist, pq2, vis2, pred, order2, step + 1)
  {
    IdsRemove(pq, m);
    PopTags(n0, n, vis, pq, pred, x, n2, pq2, vis2);
    PopQueue(n, src, dist, pq, vis, m, x, n2, pq2, vis2);
    PopChain(outs, n, src, dist, vis, pred, order, step, x, n2, vis2, order2);
  }

  lemma PopTags(n0: map<int, Node>, n: map<int, Node>, vis: set<int>, pq: seq<Entry>, pred: map<int, int>,
                x: int, n2: map<int, Node>, pq2: seq<Entry>, vis2: set<int>)
    requires Kept(n0, n) && Tags(n, vis, pq) && Written(n0, n, pred)
    requires x in n && n2 == n[x := n[x].(tag := Visited)] && vis2 == vis + {x}
    requires Ids(pq) == Ids(pq2) + {x}
    ensures Kept(n0, n2) && Tags(n2, vis2, pq2) && Written(n0, n2, pred)
  {
  }

  lemma PopQueue(n: map<int, Node>, src: int, dist: map<int, real>, pq: seq<Entry>, vis: set<int>,
                 m: nat, x: int, n2: map<int, Node>, pq2: seq<Entry>, vis2: set<int>)
    requires Queue(n, src, dist, pq, vis)
    requires m < |pq| && x == pq[m].1 && n2.Keys == n.Keys
    requires pq2 == pq[..m] + pq[m + 1..] && vis2 == vis + {x}
    requires Ids(pq) == Ids(pq2) + {x}
    ensures Queue(n2, src, dist, pq2, vis2)
  {
    assert vis == {} ==> x == src;
    forall i | 0 <= i < |pq2|
      ensures pq2[i].1 in dist
    {
      if i < m {
        assert pq2[i] == pq[i];
      } else {
        assert pq2[i] == pq[i + 1];
      }
    }
  }

  lemma PopChain(outs: Adjacency, n: map<int, Node>, src: int, dist: map<int, real>, vis: set<int>,
                 pred: map<int, int>, order: map<int, nat>, step: nat,
                 x: int, n2: map<int, Node>, vis2: set<int>, order2: map<int, nat>)
    requires Chain(outs, n, src, dist, vis, pred, order, step)
    requires x in n && n2 == n[x := n[x].(tag := Visited)] && vis2 == vis + {x}
    requires order2 == if x in vis then order else order[x := step]
    ensures Chain(outs, n2, src, dist, vis2, pred, order2, step + 1)
  {
    forall v | v in pred
      ensures v in vis2 ==> order2[pred[v]] < order2[v]
    {
    }
  }

  /**
   * `node_distance, node = heappop(pq)`, `visited_nodes.append(node)` and
   * `node.tag = VISITED`: the popped node joins the visited set. A node
   * popped for the first time leaves fewer unvisited nodes; one popped again
   * is already settled.
   */
  method Visit(outs: Adjacency, n: map<int, Node>, dist: map<int, real>, pq: seq<Entry>, visitedNodes: seq<int>,
               ghost n0: map<int, Node>, ghost src: int, ghost vis: set<int>, ghost pred: map<int, int>,
               ghost order: map<int, nat>, ghost step: nat)
    returns (x: int, n2: map<int, Node>, pq2: seq<Entry>, visitedNodes2: seq<int>,
             ghost vis2: set<int>, ghost order2: map<int, nat>)
    requires Searching(outs, n0, n, src, dist, pq, vis, pred, order, step) && SettledAll(outs, dist, vis, vis)
    requires pq != [] && n0.Keys <= outs.Keys
    requires forall v :: v in visitedNodes <==> v in vis
    ensures Searching(outs, n0, n2, src, dist, pq2, vis2, pred, order2, step + 1)
    ensures x in vis2 && x in outs && vis2 == vis + {x} && SettledAll(outs, dist, vis2, vis2 - {x})
    ensures forall v :: v in visitedNodes2 <==> v in vis2
    ensures x in vis ==> vis2 == vis && Settled(outs, dist, vis2, x) && |pq2| < |pq|
    ensures x !in vis ==> Unvisited(n0, vis2) < Unvisited(n0, vis)
  {
    var m := MinIndex(pq);
    x := pq[m].1;
    pq2 := pq[..m] + pq[m + 1..];
    visitedNodes2 := visitedNodes + [x];
    assert x in n;
    n2 := n[x := n[x].(tag := Visited)];
    vis2 := vis + {x};
    order2 := if x in vis then order else order[x := step];
    PopKeeps(outs, n0, n, src, dist, pq, vis, pred, order, step, m, x, n2, pq2, vis2, order2);
    PopSettled(outs, dist, vis, x);
    if x !in vis {
      FewerUnvisited(n0, vis, x);
    }
  }

  lemma PopSettled(outs: Adjacency, dist: map<int, real>, vis: set<int>, x: int)
    requires SettledAll(outs, dist, vis, vis)
    ensures SettledAll(outs, dist, vis + {x}, (vis + {x}) - {x})
    ensures x in vis ==> Settled(outs, dist, vis + {x}, x)
  {
    assert vis + {x} == vis || x !in vis;
    forall u | u in (vis + {x}) - {x}
      ensures Settled(outs, dist, vis + {x}, u)
    {
      assert Settled(outs, dist, vis, u);
    }
  }

  /** The number of nodes not yet popped: the search's measure of progress. */
  function Unvisited(n0: map<int, Node>, vis: set<int>): nat
  {
    |n0.Keys - vis|
  }

  lemma FewerUnvisited(n0: map<int, Node>, vis: set<int>, x: int)
    requires vis <= n0.Keys && x in n0 && x !in vis
    ensures Unvisited(n0, vis + {x}) < Unvisited(n0, vis)
  {
    assert n0.Keys - (vis + {x}) < n0.Keys - vis;
  }

  /**
   * One turn of the `while (len(pq) > 0)` loop: pop, then relax the popped
   * node's out-edges. Either one more node is visited or the heap shrinks.
   */
  method Step(outs: Adjacency, n: map<int, Node>, dist: map<int, real>, pq: seq<Entry>, visitedNodes: seq<int>,
              ghost n0: map<int, Node>, ghost src: int, ghost vis: set<int>, ghost pred: map<int, int>,
              ghost order: map<int, nat>, ghost step: nat, ghost region: set<int>)
    returns (x: int, n2: map<int, Node>, dist2: map<int, real>, pq2: seq<Entry>, visitedNodes2: seq<int>,
             ghost vis2: set<int>, ghost pred2: map<int, int>, ghost order2: map<int, nat>)
    requires Searching(outs, n0, n, src, dist, pq, vis, pred, order, step) && SettledAll(outs, dist, vis, vis)
    requires pq != [] && n0.Keys <= outs.Keys && ClosedRegion(n0, outs, region) && dist.Keys <= region
    requires forall v :: v in visitedNodes <==> v in vis
    ensures Searching(outs, n0, n2, src, dist2, pq2, vis2, pred2, order2, step + 1)
    ensures dist2.Keys <= region
    ensures SettledAll(outs, dist2, vis2, vis2)
    ensures vis2 == vis + {x} && forall v :: v in visitedNodes2 <==> v in vis2
    ensures Unvisited(n0, vis2) < Unvisited(n0, vis) ||
            (Unvisited(n0, vis2) == Unvisited(n0, vis) && |pq2| < |pq|)
  {
    var pq1;
    x, n2, pq1, visitedNodes2, vis2, order2 := Visit(outs, n, dist, pq, visitedNodes, n0, src, vis, pred, order, step);
    n2, dist2, pq2, pred2 := RelaxNeighbours(outs, n2, x, dist, pq1, n0, src, vis2, pred, order2, step + 1, region);
  }

  /** Before the loop: only the source is queued, at distance 0, and nothing is popped. */
  lemma Start(outs: Adjacency, n0: map<int, Node>, src: int)
    requires src in n0 && forall v :: v in n0 ==> n0[v].tag == NotVisited
    ensures Searching(outs, n0, n0, src, map[src := 0.0], [(0.0, src)], {}, map[], map[], 0)
    ensures SettledAll(outs, map[src := 0.0], {}, {})
  {
    IdsPush([], (0.0, src));
    assert [] + [(0.0, src)] == [(0.0, src)];
  }

  /**
   * The `while (len(pq) > 0)` loop, from a graph whose tags are all reset:
   * on return the heap is empty, every node with a distance has been popped,
   * the popped set is closed under edges, and `found` tells whether `dest`
   * was popped.
   */
  method Search(outs: Adjacency, n0: map<int, Node>, src: int, dest: int, ghost region: set<int>)
    returns (n: map<int, Node>, dist: map<int, real>, found: bool, visitedNodes: seq<int>,
             ghost vis: set<int>, ghost pred: map<int, int>, ghost order: map<int, nat>, ghost step: nat)
    requires ClosedRegion(n0, outs, region) && src in region && n0.Keys <= outs.Keys
    requires forall v :: v in n0 ==> n0[v].tag == NotVisited
    ensures Searching(outs, n0, n, src, dist, [], vis, pred, order, step)
    ensures SettledAll(outs, dist, vis, vis)
    ensures found <==> dest in vis
    ensures forall v :: v in visitedNodes <==> v in vis
  {
    n := n0;
    var pq: seq<Entry> := [(0.0, src)];
    dist := map[src := 0.0];
    visitedNodes := [];
    found := false;
    vis, pred, order, step := {}, map[], map[], 0;
    Start(outs, n0, src);
    while pq != []
      invariant Searching(outs, n0, n, src, dist, pq, vis, pred, order, step)
      invariant dist.Keys <= region
      invariant SettledAll(outs, dist, vis, vis)
      invariant found <==> dest in vis
      invariant forall v :: v in visitedNodes <==> v in vis
      decreases Unvisited(n0, vis), |pq|
    {
      var x: int;
      x, n, dist, pq, visitedNodes, vis, pred, order := Step(outs, n, dist, pq, visitedNodes, n0, src, vis, pred, order, step, region);
      step := step + 1;
      found := if x == dest then true else found;
    }
  }

  // ---------------------------------------------------------------------------
  // After the loop

  /** Once the heap is empty the source has been popped, and every out-neighbour of a popped node was popped too. */
  lemma FinishedClosed(outs: Adjacency, n0: map<int, Node>, n: map<int, Node>, src: int, dist: map<int, real>,
                       vis: set<int>, pred: map<int, int>, order: map<int, nat>, step: nat)
    requires Searching(outs, n0, n, src, dist, [], vis, pred, order, step) && SettledAll(outs, dist, vis, vis)
    ensures src in vis && vis <= n.Keys
    ensures forall u, v :: u in vis && u in outs && v in outs[u] ==> v in vis
  {
    assert Ids([]) == {};
    forall u, v | u in vis && u in outs && v in outs[u]
      ensures v in vis
    {
      assert Settled(outs, dist, vis, u);
    }
  }

  /** A node the search did not pop cannot be reached from the source. */
  lemma NotPoppedUnreachable(outs: Adjacency, src: int, vis: set<int>, dest: int)
    requires src in vis && dest !in vis
    requires forall u, v :: u in vis && u in outs && v in outs[u] ==> v in vis
    ensures !Reaches(outs, src, dest)
  {
    if Reaches(outs, src, dest) {
      ClosedHoldsReachable(outs, vis, src, dest);
    }
  }

  /** `for n in visited_nodes: n.tag = NOT_VISITED`: the nodes the search popped get tag 0 again. */
  method Restore(n: map<int, Node>, visitedNodes: seq<int>) returns (n2: map<int, Node>)
    requires forall v :: v in visitedNodes ==> v in n
    ensures n2.Keys == n.Keys
    ensures forall v :: v in n ==> n2[v] == if v in visitedNodes then n[v].(tag := NotVisited) else n[v]
  {
    n2 := n;
    for i := 0 to |visitedNodes|
      invariant n2.Keys == n.Keys
      invariant forall v :: v in n ==> n2[v] == if v in visitedNodes[..i] then n[v].(tag := NotVisited) else n[v]
    {
      var v := visitedNodes[i];
      assert visitedNodes[..i + 1] == visitedNodes[..i] + [v];
      n2 := n2[v := n2[v].(tag := NotVisited)];
    }
    assert visitedNodes[..|visitedNodes|] == visitedNodes;
  }

  /**
   * After the clean-up every tag is 0 again, and a node differs from its
   * state before the search at most in `info`, which is unchanged or names
   * a node with an edge into it.
   */
  lemma CleanedUp(outs: Adjacency, n0: map<int, Node>, n: map<int, Node>, src: int, dist: map<int, real>,
                  vis: set<int>, pred: map<int, int>, order: map<int, nat>, step: nat,
                  visitedNodes: seq<int>, n2: map<int, Node>)
    requires Searching(outs, n0, n, src, dist, [], vis, pred, order, step)
    requires forall v :: v in visitedNodes <==> v in vis
    requires n2.Keys == n.Keys
    requires forall v :: v in n ==> n2[v] == if v in visitedNodes then n[v].(tag := NotVisited) else n[v]
    ensures n2.Keys == n0.Keys
    ensures forall v :: v in n2 ==> n2[v] == n0[v].(tag := NotVisited, info := n2[v].info)
    ensures forall v :: v in n2 ==>
              (n2[v].info == n0[v].info ||
               (v in pred && pred[v] in outs && v in outs[pred[v]] && n2[v].info == Decimal(pred[v])))
  {
    assert Ids([]) == {};
    forall v | v in n2
      ensures n2[v] == n0[v].(tag := NotVisited, info := n2[v].info)
    {
      assert v in vis || n[v].tag == NotVisited;
    }
    forall v | v in n2 && v in pred
      ensures pred[v] in outs && v in outs[pred[v]] && n2[v].info == Decimal(pred[v])
    {
      assert Linked(outs, n, dist, vis, pred, order, v);
    }
  }
}
