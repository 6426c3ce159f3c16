/**
 * `DiGraph` (src/DiGraph.py): a node table, per-node maps of outgoing and
 * incoming edges, an edge counter and a modification counter.
 *
 * `GraphState` is the value of the store's fields; the functions `AddNodeF`,
 * `AddEdgeF`, `RemoveEdgeF` and `RemoveNodeF` say what each guarded mutation
 * does to that value, and the class `DiGraph` performs the mutations in place.
 */
module Graph {
  import opened Wrappers
  import opened Location
  import opened EdgeRecords
  import opened NodeRecords
  import opened IdSets

  type Adjacency = map<int, map<int, Edge>>

  /** The fields `__nodes`, `__links` (split into its LINKS_OUT and LINKS_IN maps), `__edge_count`, `__mode_count`. */
  datatype GraphState = GraphState(nodes: map<int, Node>, outs: Adjacency, ins: Adjacency,
                                   edgeCount: int, modeCount: int)

  const Empty: GraphState := GraphState(map[], map[], map[], 0, 0)

  /** The ordered pairs `(a, b)` with an edge stored in `a`'s outgoing map. */
  function EdgePairs(outs: Adjacency): set<(int, int)>
  {
    set a, b | a in outs && b in outs[a] :: (a, b)
  }

  /** Every node has a link container, every container belongs to a node, and nodes are filed under their key. */
  ghost predicate KeysAgree(g: GraphState)
  {
    g.outs.Keys == g.nodes.Keys && g.ins.Keys == g.nodes.Keys &&
    forall k :: k in g.nodes ==> g.nodes[k].key == k
  }

  /** `b in out[a]` exactly when `a in in[b]`, and both entries hold the same edge. */
  ghost predicate Symmetric(g: GraphState)
  {
    Mirrored(g.outs, g.ins)
  }

  ghost predicate Mirrored(outs: Adjacency, ins: Adjacency)
  {
    (forall a, b :: a in outs && b in outs[a] ==> b in ins && a in ins[b] && ins[b][a] == outs[a][b]) &&
    (forall b, a :: b in ins && a in ins[b] ==> a in outs && b in outs[a])
  }

  /** Each stored edge knows its own endpoints, and there are no self-loops. */
  ghost predicate EdgesLabelled(g: GraphState)
  {
    Labelled(g.outs)
  }

  ghost predicate Labelled(outs: Adjacency)
  {
    forall a, b :: a in outs && b in outs[a] ==> outs[a][b].src == a && outs[a][b].dest == b && a != b
  }

  /** The edge counter equals the number of stored ordered pairs. */
  ghost predicate CountOk(g: GraphState)
  {
    g.edgeCount == |EdgePairs(g.outs)|
  }

  ghost predicate Wf(g: GraphState)
  {
    KeysAgree(g) && Symmetric(g) && EdgesLabelled(g) && CountOk(g)
  }

  /** The edge `a -> b`, if stored, has its reverse entry in `b`'s incoming map (else `remove_edge` raises). */
  ghost predicate HasReverse(g: GraphState, a: int, b: int)
  {
    a in g.outs && b in g.outs[a] ==> b in g.ins && a in g.ins[b]
  }

  lemma WfHasReverse(g: GraphState, a: int, b: int)
    requires Wf(g)
    ensures HasReverse(g, a, b)
  {
  }

  // ---------------------------------------------------------------------------
  // The guarded mutations on values

  /** `add_node`: only an absent id is added, with empty link maps; bumps the modification counter. */
  function AddNodeF(g: GraphState, id: int, pos: Option<Point>): (r: (GraphState, bool))
  {
    if id in g.nodes then (g, false)
    else (g.(nodes := g.nodes[id := NewNode(id, pos)], outs := g.outs[id := map[]],
             ins := g.ins[id := map[]], modeCount := g.modeCount + 1), true)
  }

  /** `add_edge`: refused for a self-loop, a missing endpoint or an existing pair. */
  function AddEdgeF(g: GraphState, a: int, b: int, w: real): (r: (GraphState, bool))
    requires KeysAgree(g)
  {
    if a != b && a in g.nodes && b in g.nodes && b !in g.outs[a] then
      var e := NewEdge(Some(a), Some(b), Some(w), None, None);
      (g.(outs := g.outs[a := g.outs[a][b := e]], ins := g.ins[b := g.ins[b][a := e]],
          modeCount := g.modeCount + 1, edgeCount := g.edgeCount + 1), true)
    else (g, false)
  }

  /** `remove_edge`: only a stored pair is removed, from both maps. */
  function RemoveEdgeF(g: GraphState, a: int, b: int): (r: (GraphState, bool))
    requires HasReverse(g, a, b)
  {
    if a in g.outs && b in g.outs[a] then
      (g.(outs := g.outs[a := g.outs[a] - {b}], ins := g.ins[b := g.ins[b] - {a}],
          modeCount := g.modeCount + 1, edgeCount := g.edgeCount - 1), true)
    else (g, false)
  }

  /** The state after `remove_edge(id, b)` for every `b` of `done`, all of them stored edges of `id`. */
  function RemoveOutEdges(g: GraphState, id: int, done: set<int>): GraphState
    requires id in g.outs && done <= g.outs[id].Keys
  {
    g.(outs := g.outs[id := g.outs[id] - done],
       ins := map b | b in g.ins :: if b in done then g.ins[b] - {id} else g.ins[b],
       modeCount := g.modeCount + |done|, edgeCount := g.edgeCount - |done|)
  }

  /** Before any edge is removed the closed form is the state itself. */
  lemma RemoveOutEdgesNone(g: GraphState, id: int)
    requires id in g.outs
    ensures RemoveOutEdges(g, id, {}) == g
  {
    var r := RemoveOutEdges(g, id, {});
    assert r.outs[id] == g.outs[id];
    assert r.outs == g.outs;
    assert r.ins == g.ins;
  }

  /** Every outgoing edge of `id` has its reverse entry. */
  ghost predicate OutEdgesHaveReverse(g: GraphState, id: int)
    requires id in g.outs
  {
    forall b :: b in g.outs[id] ==> b in g.ins && id in g.ins[b]
  }

  /**
   * `remove_node`: removes the node's OUTGOING edges one `remove_edge` at a
   * time, then the node and its link container, with no increment of its own.
   * Edges that other nodes have into it stay in their outgoing maps.
   */
  function RemoveNodeF(g: GraphState, id: int): (r: (GraphState, bool))
    requires KeysAgree(g)
    requires id in g.outs ==> OutEdgesHaveReverse(g, id)
  {
    if id !in g.nodes then (g, false)
    else
      var g1 := RemoveOutEdges(g, id, g.outs[id].Keys);
      (g1.(nodes := g1.nodes - {id}, outs := g1.outs - {id}, ins := g1.ins - {id}), true)
  }

  // ---------------------------------------------------------------------------
  // Counting stored pairs

  lemma EdgePairsInsert(outs: Adjacency, a: int, b: int, e: Edge)
    requires a in outs && b !in outs[a]
    ensures EdgePairs(outs[a := outs[a][b := e]]) == EdgePairs(outs) + {(a, b)}
    ensures |EdgePairs(outs[a := outs[a][b := e]])| == |EdgePairs(outs)| + 1
  {
    var outs': Adjacency := outs[a := outs[a][b := e]];
    forall p | p in EdgePairs(outs')
      ensures p in EdgePairs(outs) + {(a, b)}
    {
      if p != (a, b) {
        assert p.0 in outs && p.1 in outs[p.0];
      }
    }
    forall p | p in EdgePairs(outs) + {(a, b)}
      ensures p in EdgePairs(outs')
    {
      assert p.0 in outs' && p.1 in outs'[p.0];
    }
  }

  lemma EdgePairsDelete(outs: Adjacency, a: int, b: int)
    requires a in outs && b in outs[a]
    ensures EdgePairs(outs[a := outs[a] - {b}]) == EdgePairs(outs) - {(a, b)}
    ensures |EdgePairs(outs[a := outs[a] - {b}])| == |EdgePairs(outs)| - 1
  {
    var outs': Adjacency := outs[a := outs[a] - {b}];
    forall p | p in EdgePairs(outs')
      ensures p in EdgePairs(outs) - {(a, b)}
    {
      assert p.0 in outs && p.1 in outs[p.0];
    }
    forall p | p in EdgePairs(outs) - {(a, b)}
      ensures p in EdgePairs(outs')
    {
      assert p.0 in outs' && p.1 in outs'[p.0];
    }
  }

  lemma EdgePairsNewEmpty(outs: Adjacency, id: int)
    requires id !in outs
    ensures EdgePairs(outs[id := map[]]) == EdgePairs(outs)
  {
    var outs' := outs[id := map[]];
    forall p | p in EdgePairs(outs')
      ensures p in EdgePairs(outs)
    {
      assert p.0 in outs && p.1 in outs[p.0];
    }
    forall p | p in EdgePairs(outs)
      ensures p in EdgePairs(outs')
    {
      assert p.0 in outs' && p.1 in outs'[p.0];
    }
  }

  lemma EdgePairsDropEmpty(outs: Adjacency, id: int)
    requires id in outs && outs[id] == map[]
    ensures EdgePairs(outs - {id}) == EdgePairs(outs)
  {
    var outs' := outs - {id};
    forall p | p in EdgePairs(outs)
      ensures p in EdgePairs(outs')
    {
      assert p.0 in outs' && p.1 in outs'[p.0];
    }
  }

  lemma EdgePairsRemoveOneMore(outs: Adjacency, id: int, rest: set<int>, x: int)
    requires id in outs && rest <= outs[id].Keys && x in outs[id] && x !in rest
    ensures |EdgePairs(outs[id := outs[id] - (rest + {x})])| == |EdgePairs(outs[id := outs[id] - rest])| - 1
  {
    var mid := outs[id := outs[id] - rest];
    EdgePairsDelete(mid, id, x);
    assert mid[id] - {x} == outs[id] - (rest + {x});
    assert mid[id := mid[id] - {x}] == outs[id := outs[id] - (rest + {x})];
  }

  lemma MapUpdateSame(outs: Adjacency, id: int, gone: set<int>)
    requires id in outs && gone == {}
    ensures outs[id := outs[id] - gone] == outs
  {
    assert outs[id] - gone == outs[id];
  }

  lemma {:induction false} EdgePairsRemoveOut(outs: Adjacency, id: int, gone: set<int>)
    requires id in outs && gone <= outs[id].Keys
    ensures |EdgePairs(outs[id := outs[id] - gone])| == |EdgePairs(outs)| - |gone|
    decreases gone
  {
    if gone == {} {
      MapUpdateSame(outs, id, gone);
    } else {
      NonEmptyHasMember(gone);
      var x :| x in gone;
      var rest := gone - {x};
      EdgePairsRemoveOut(outs, id, rest);
      EdgePairsRemoveOneMore(outs, id, rest, x);
      assert rest + {x} == gone;
    }
  }

  // ---------------------------------------------------------------------------
  // What each mutation promises

  /** `add_node` succeeds exactly for an absent id: one more node with empty maps, `mc` up by one; else nothing changes. */
  lemma AddNodeSpec(g: GraphState, id: int, pos: Option<Point>)
    requires KeysAgree(g)
    ensures var (g', ok) := AddNodeF(g, id, pos);
            (ok <==> id !in g.nodes) &&
            (ok ==> |g'.nodes| == |g.nodes| + 1 && g'.modeCount == g.modeCount + 1 &&
                    g'.edgeCount == g.edgeCount && g'.nodes[id] == NewNode(id, pos) &&
                    g'.outs[id] == map[] && g'.ins[id] == map[]) &&
            (!ok ==> g' == g)
  {
  }

  lemma AddNodePreservesWf(g: GraphState, id: int, pos: Option<Point>)
    requires Wf(g)
    ensures Wf(AddNodeF(g, id, pos).0)
  {
    if id !in g.nodes {
      EdgePairsNewEmpty(g.outs, id);
    }
  }

  /**
   * `add_edge` succeeds exactly for two distinct present nodes without an edge
   * between them; it then files one edge of weight `w` under both maps and
   * bumps both counters. Otherwise nothing changes.
   */
  lemma AddEdgeSpec(g: GraphState, a: int, b: int, w: real)
    requires Wf(g)
    ensures var (g', ok) := AddEdgeF(g, a, b, w);
            (ok <==> a != b && a in g.nodes && b in g.nodes && (a, b) !in EdgePairs(g.outs)) &&
            (ok ==> b in g'.outs[a] && a in g'.ins[b] && g'.outs[a][b] == g'.ins[b][a] &&
                    g'.outs[a][b] == Edge(a, b, w, "", InvalidEntry) &&
                    g'.edgeCount == g.edgeCount + 1 && g'.modeCount == g.modeCount + 1 &&
                    g'.nodes == g.nodes) &&
            (!ok ==> g' == g)
  {
  }

  lemma MirroredInsert(outs: Adjacency, ins: Adjacency, a: int, b: int, e: Edge)
    requires Mirrored(outs, ins) && a in outs && b in ins
    ensures Mirrored(outs[a := outs[a][b := e]], ins[b := ins[b][a := e]])
  {
    var outs', ins' := outs[a := outs[a][b := e]], ins[b := ins[b][a := e]];
    forall x, y | x in outs' && y in outs'[x]
      ensures y in ins' && x in ins'[y] && ins'[y][x] == outs'[x][y]
    {
      if (x, y) != (a, b) {
        assert y in outs[x];
      }
    }
    forall y, x | y in ins' && x in ins'[y]
      ensures x in outs' && y in outs'[x]
    {
      if (x, y) != (a, b) {
        assert x in ins[y];
      }
    }
  }

  lemma LabelledInsert(outs: Adjacency, a: int, b: int, e: Edge)
    requires Labelled(outs) && a in outs && e.src == a && e.dest == b && a != b
    ensures Labelled(outs[a := outs[a][b := e]])
  {
    var outs': Adjacency := outs[a := outs[a][b := e]];
    forall x, y | x in outs' && y in outs'[x]
      ensures outs'[x][y].src == x && outs'[x][y].dest == y && x != y
    {
      if (x, y) != (a, b) {
        assert y in outs[x];
      }
    }
  }

  lemma AddEdgePreservesWf(g: GraphState, a: int, b: int, w: real)
    requires Wf(g)
    ensures Wf(AddEdgeF(g, a, b, w).0)
  {
    var (g', ok) := AddEdgeF(g, a, b, w);
    if ok {
      var e := NewEdge(Some(a), Some(b), Some(w), None, None);
      EdgePairsInsert(g.outs, a, b, e);
      MirroredInsert(g.outs, g.ins, a, b, e);
      LabelledInsert(g.outs, a, b, e);
    }
  }

  /** A second `add_edge` with the same endpoints is refused and changes nothing, whatever its weight. */
  lemma AddEdgeRepeatIsNoop(g: GraphState, a: int, b: int, w: real, w': real)
    requires Wf(g)
    ensures var g1 := AddEdgeF(g, a, b, w).0;
            KeysAgree(g1) && AddEdgeF(g1, a, b, w') == (g1, false)
  {
    AddEdgePreservesWf(g, a, b, w);
  }

  /** `remove_edge` succeeds exactly for a stored pair: both entries go, `e_size` down by one, `mc` up by one. */
  lemma RemoveEdgeSpec(g: GraphState, a: int, b: int)
    requires Wf(g)
    ensures HasReverse(g, a, b)
    ensures var (g', ok) := RemoveEdgeF(g, a, b);
            (ok <==> (a, b) in EdgePairs(g.outs)) &&
            (ok ==> b !in g'.outs[a] && a !in g'.ins[b] && g'.nodes == g.nodes &&
                    g'.edgeCount == g.edgeCount - 1 && g'.modeCount == g.modeCount + 1) &&
            (!ok ==> g' == g)
  {
  }

  lemma MirroredDelete(outs: Adjacency, ins: Adjacency, a: int, b: int)
    requires Mirrored(outs, ins) && a in outs && b in outs[a]
    ensures b in ins && Mirrored(outs[a := outs[a] - {b}], ins[b := ins[b] - {a}])
  {
    var outs', ins' := outs[a := outs[a] - {b}], ins[b := ins[b] - {a}];
    forall x, y | x in outs' && y in outs'[x]
      ensures y in ins' && x in ins'[y] && ins'[y][x] == outs'[x][y]
    {
      assert y in outs[x];
    }
    forall y, x | y in ins' && x in ins'[y]
      ensures x in outs' && y in outs'[x]
    {
      assert x in ins[y];
    }
  }

  lemma LabelledDelete(outs: Adjacency, a: int, b: int)
    requires Labelled(outs) && a in outs
    ensures Labelled(outs[a := outs[a] - {b}])
  {
    var outs': Adjacency := outs[a := outs[a] - {b}];
    forall x, y | x in outs' && y in outs'[x]
      ensures outs'[x][y].src == x && outs'[x][y].dest == y && x != y
    {
      assert y in outs[x];
    }
  }

  lemma RemoveEdgePreservesWf(g: GraphState, a: int, b: int)
    requires Wf(g)
    ensures HasReverse(g, a, b) && Wf(RemoveEdgeF(g, a, b).0)
  {
    if (a, b) in EdgePairs(g.outs) {
      EdgePairsDelete(g.outs, a, b);
      MirroredDelete(g.outs, g.ins, a, b);
      LabelledDelete(g.outs, a, b);
    }
  }

  /** One more `remove_edge(id, b)` in the loop of `remove_node`. */
  lemma RemoveOutEdgesStep(g: GraphState, id: int, done: set<int>, b: int)
    requires KeysAgree(g) && id in g.outs && OutEdgesHaveReverse(g, id)
    requires done <= g.outs[id].Keys && b in g.outs[id] && b !in done
    ensures HasReverse(RemoveOutEdges(g, id, done), id, b)
    ensures RemoveEdgeF(RemoveOutEdges(g, id, done), id, b) == (RemoveOutEdges(g, id, done + {b}), true)
  {
    var g1 := RemoveOutEdges(g, id, done);
    var g2 := RemoveOutEdges(g, id, done + {b});
    assert b in g1.outs[id];
    assert |done + {b}| == |done| + 1;
    var r := RemoveEdgeF(g1, id, b).0;
    assert (g.outs[id] - done) - {b} == g.outs[id] - (done + {b});
    assert r.outs == g2.outs;
    assert r.ins == g2.ins;
  }

  /** Moving `b` from the pending set to the done set keeps them disjoint with the same union. */
  lemma MoveMember(done: set<int>, targets: set<int>, b: int)
    requires done !! targets && b in targets
    ensures (done + {b}) !! (targets - {b}) && (done + {b}) + (targets - {b}) == done + targets
  {
  }

  /**
   * `remove_node` succeeds exactly for a present id; `mc` rises and `e_size`
   * falls by its out-degree, and the node and its link maps are gone.
   */
  lemma RemoveNodeSpec(g: GraphState, id: int)
    requires Wf(g)
    ensures id in g.outs ==> OutEdgesHaveReverse(g, id)
    ensures var (g', ok) := RemoveNodeF(g, id);
            (ok <==> id in g.nodes) &&
            (ok ==> g'.nodes == g.nodes - {id} && g'.outs.Keys == g.outs.Keys - {id} &&
                    g'.modeCount == g.modeCount + |g.outs[id]| &&
                    g'.edgeCount == g.edgeCount - |g.outs[id]|) &&
            (!ok ==> g' == g)
  {
    if id in g.nodes {
      assert |g.outs[id].Keys| == |g.outs[id]|;
    }
  }

  /** `remove_node` keeps the edge counter equal to the number of pairs left in the outgoing maps. */
  lemma RemoveNodeKeepsCount(g: GraphState, id: int)
    requires Wf(g)
    ensures id in g.outs ==> OutEdgesHaveReverse(g, id)
    ensures KeysAgree(RemoveNodeF(g, id).0) && CountOk(RemoveNodeF(g, id).0)
  {
    if id in g.nodes {
      RemoveNodeCount(g, id);
    }
  }

  lemma RemoveNodeCount(g: GraphState, id: int)
    requires Wf(g) && id in g.nodes
    ensures CountOk(RemoveNodeF(g, id).0)
  {
    var s := g.outs[id].Keys;
    var g1 := RemoveOutEdges(g, id, s);
    EdgePairsRemoveOut(g.outs, id, s);
    assert g1.outs[id] == map[];
    EdgePairsDropEmpty(g1.outs, id);
    assert RemoveNodeF(g, id).0.outs == g1.outs - {id};
  }

  lemma MirroredRemoveNode(outs: Adjacency, ins: Adjacency, id: int)
    requires Mirrored(outs, ins) && id in outs && id in ins && ins[id] == map[]
    ensures var s := outs[id].Keys;
            var ins1 := map b | b in ins :: if b in s then ins[b] - {id} else ins[b];
            Mirrored(outs - {id}, ins1 - {id})
  {
    var s := outs[id].Keys;
    var ins1 := map b | b in ins :: if b in s then ins[b] - {id} else ins[b];
    var outs', ins': Adjacency := outs - {id}, ins1 - {id};
    forall a, b | a in outs' && b in outs'[a]
      ensures b in ins' && a in ins'[b] && ins'[b][a] == outs'[a][b]
    {
      assert b in outs[a];
      assert b != id by { assert a in ins[b]; }
      assert a != id;
      assert a in ins[b] && ins[b][a] == outs[a][b];
    }
    forall b, a | b in ins' && a in ins'[b]
      ensures a in outs' && b in outs'[a]
    {
      assert a in ins[b];
      assert a != id;
    }
  }

  lemma LabelledRemoveNode(outs: Adjacency, id: int)
    requires Labelled(outs)
    ensures Labelled(outs - {id})
  {
  }

  /** When nothing points into the node, `remove_node` keeps the whole invariant. */
  lemma RemoveNodeWithoutIncoming(g: GraphState, id: int)
    requires Wf(g) && id in g.ins && g.ins[id] == map[]
    ensures Wf(RemoveNodeF(g, id).0)
  {
    RemoveNodeKeepsCount(g, id);
    var g1 := RemoveOutEdges(g, id, g.outs[id].Keys);
    var r := RemoveNodeF(g, id).0;
    assert r.outs == g1.outs - {id} && r.ins == g1.ins - {id};
    MirroredRemoveNode(g.outs, g.ins, id);
    assert g1.outs - {id} == g.outs - {id};
    assert Symmetric(r);
    LabelledRemoveNode(g.outs, id);
  }

  /**
   * An edge `a -> id` outlives `remove_node(id)`: it stays in `a`'s outgoing
   * map although `id` is no longer a node.
   */
  lemma RemoveNodeLeavesIncoming(g: GraphState, id: int, a: int)
    requires Wf(g) && id in g.ins && a in g.ins[id]
    ensures OutEdgesHaveReverse(g, id)
    ensures var g' := RemoveNodeF(g, id).0;
            id !in g'.nodes && a in g'.outs && id in g'.outs[a]
  {
    WfOutEdgesHaveReverse(g, id);
    assert a in g.outs && id in g.outs[a] && a != id;
    RemoveNodeKeepsOtherRows(g, id, a);
  }

  lemma WfOutEdgesHaveReverse(g: GraphState, id: int)
    requires Wf(g) && id in g.outs
    ensures OutEdgesHaveReverse(g, id)
  {
    forall b | b in g.outs[id]
      ensures b in g.ins && id in g.ins[b]
    {
      WfHasReverse(g, id, b);
    }
  }

  /** `remove_node(id)` leaves the outgoing map of every other node as it was. */
  lemma RemoveNodeKeepsOtherRows(g: GraphState, id: int, a: int)
    requires KeysAgree(g) && id in g.outs && OutEdgesHaveReverse(g, id)
    requires a in g.outs && a != id
    ensures var g' := RemoveNodeF(g, id).0;
            id !in g'.nodes && a in g'.outs && g'.outs[a] == g.outs[a]
  {
    var g1 := RemoveOutEdges(g, id, g.outs[id].Keys);
    assert g1.outs[a] == g.outs[a];
  }

  // ---------------------------------------------------------------------------
  // Loading replays: `__add_node_by_instance` and `__add_edge_by_instance`

  /** `add_node(node.key)`, then the given node object replaces whatever is filed under its key. */
  function AddNodeByInstanceF(g: GraphState, n: Node): (r: GraphState)
    ensures KeysAgree(g) ==> KeysAgree(r)
    ensures r.nodes == g.nodes[n.key := n] && r.edgeCount == g.edgeCount
  {
    var g1 := AddNodeF(g, n.key, None).0;
    g1.(nodes := g1.nodes[n.key := n])
  }

  /**
   * `add_edge(src, dest, weight)`, then the given edge object is written into
   * both maps whether or not `add_edge` accepted it.
   */
  function AddEdgeByInstanceF(g: GraphState, e: Edge): (r: GraphState)
    requires KeysAgree(g) && e.src in g.nodes && e.dest in g.nodes
    ensures KeysAgree(r) && r.nodes == g.nodes
    ensures e.dest in r.outs[e.src] && r.outs[e.src][e.dest] == e
    ensures e.src in r.ins[e.dest] && r.ins[e.dest][e.src] == e
  {
    var g1 := AddEdgeF(g, e.src, e.dest, e.weight).0;
    g1.(outs := g1.outs[e.src := g1.outs[e.src][e.dest := e]],
        ins := g1.ins[e.dest := g1.ins[e.dest][e.src := e]])
  }

  /** When `add_edge` accepts the pair, the replay is that insertion with the given edge object. */
  lemma AddEdgeByInstanceAccepted(g: GraphState, e: Edge)
    requires KeysAgree(g) && e.src in g.nodes && e.dest in g.nodes
    requires e.src != e.dest && e.dest !in g.outs[e.src]
    ensures AddEdgeByInstanceF(g, e) ==
            g.(outs := g.outs[e.src := g.outs[e.src][e.dest := e]],
               ins := g.ins[e.dest := g.ins[e.dest][e.src := e]],
               modeCount := g.modeCount + 1, edgeCount := g.edgeCount + 1)
  {
    var a, b := e.src, e.dest;
    var r := AddEdgeByInstanceF(g, e);
    assert r.outs[a] == g.outs[a][b := e];
    assert r.ins[b] == g.ins[b][a := e];
  }

  lemma AddNodeByInstancePreservesWf(g: GraphState, n: Node)
    requires Wf(g)
    ensures Wf(AddNodeByInstanceF(g, n))
    ensures AddNodeByInstanceF(g, n).nodes == g.nodes[n.key := n]
    ensures AddNodeByInstanceF(g, n).modeCount == g.modeCount + (if n.key in g.nodes then 0 else 1)
  {
    AddNodePreservesWf(g, n.key, None);
  }

  /** For a new pair of distinct nodes the replay files exactly the given edge and keeps the invariant. */
  lemma AddEdgeByInstanceFresh(g: GraphState, e: Edge)
    requires Wf(g) && e.src in g.nodes && e.dest in g.nodes
    requires e.src != e.dest && (e.src, e.dest) !in EdgePairs(g.outs)
    ensures var g' := AddEdgeByInstanceF(g, e);
            Wf(g') && g'.outs == g.outs[e.src := g.outs[e.src][e.dest := e]] &&
            g'.ins == g.ins[e.dest := g.ins[e.dest][e.src := e]] &&
            g'.nodes == g.nodes && g'.edgeCount == g.edgeCount + 1 && g'.modeCount == g.modeCount + 1
  {
    var a, b := e.src, e.dest;
    var g1 := AddEdgeF(g, a, b, e.weight).0;
    var e1 := NewEdge(Some(a), Some(b), Some(e.weight), None, None);
    assert b !in g.outs[a];
    assert g1.outs == g.outs[a := g.outs[a][b := e1]];
    assert g1.ins == g.ins[b := g.ins[b][a := e1]];
    var g' := AddEdgeByInstanceF(g, e);
    assert g'.outs[a] == g.outs[a][b := e];
    assert g'.outs == g.outs[a := g.outs[a][b := e]];
    assert g'.ins[b] == g.ins[b][a := e];
    assert g'.ins == g.ins[b := g.ins[b][a := e]];
    EdgePairsInsert(g.outs, a, b, e);
    MirroredInsert(g.outs, g.ins, a, b, e);
    LabelledInsert(g.outs, a, b, e);
  }

  /**
   * A self-loop in the replayed edges is stored although `add_edge` refused it,
   * so the edge counter no longer matches the stored pairs.
   */
  lemma AddEdgeByInstanceSelfLoop(g: GraphState, e: Edge)
    requires Wf(g) && e.src in g.nodes && e.src == e.dest
    ensures var g' := AddEdgeByInstanceF(g, e);
            (e.src, e.src) in EdgePairs(g'.outs) && g'.edgeCount == g.edgeCount && !CountOk(g')
  {
    var g' := AddEdgeByInstanceF(g, e);
    var a := e.src;
    assert (a, a) !in EdgePairs(g.outs);
    EdgePairsInsert(g.outs, a, a, e);
    assert g'.outs == g.outs[a := g.outs[a][a := e]];
  }

  // ---------------------------------------------------------------------------
  // The store, updated in place

  class DiGraph {
    var nodes: map<int, Node>
    var outs: Adjacency
    var ins: Adjacency
    var edgeCount: int
    var modeCount: int

    function State(): GraphState
      reads this
    {
      GraphState(nodes, outs, ins, edgeCount, modeCount)
    }

    /** Holds after every public operation, whatever was loaded or removed. */
    ghost predicate Valid()
      reads this
    {
      KeysAgree(State())
    }

    constructor ()
      ensures Valid() && State() == Empty
    {
      nodes, outs, ins := map[], map[], map[];
      edgeCount, modeCount := 0, 0;
    }

    /** `v_size`. */
    function VSize(): (n: nat)
      reads this
      requires Valid()
      ensures n == |outs.Keys| == |nodes.Keys|
    {
      |nodes|
    }

    /** `e_size`: the counter, which is the number of stored pairs while the invariant holds. */
    function ESize(): (n: int)
      reads this
      ensures Wf(State()) ==> n == |EdgePairs(outs)|
    {
      edgeCount
    }

    /** `get_mc`. */
    function GetMc(): (n: int)
      reads this
      ensures n == State().modeCount
    {
      modeCount
    }

    /**
     * `all_out_edges_of_node`: neighbour id to weight. `None` stands for the
     * `AttributeError` the source raises for an id without a link container.
     */
    function AllOutEdges(id: int): (r: Option<map<int, real>>)
      reads this
      ensures r.Some? <==> id in outs
      ensures r.Some? ==> r.value.Keys == outs[id].Keys
      ensures r.Some? ==> forall k :: k in r.value ==> r.value[k] == outs[id][k].weight
    {
      if id in outs then Some(map k | k in outs[id] :: outs[id][k].weight) else None
    }

    /** `all_in_edges_of_node`, with `None` for the `AttributeError` on an unknown id. */
    function AllInEdges(id: int): (r: Option<map<int, real>>)
      reads this
      ensures r.Some? <==> id in ins
      ensures r.Some? ==> r.value.Keys == ins[id].Keys
      ensures r.Some? ==> forall k :: k in r.value ==> r.value[k] == ins[id][k].weight
    {
      if id in ins then Some(map k | k in ins[id] :: ins[id][k].weight) else None
    }

    method AddNode(id: int, pos: Option<Point>) returns (ok: bool)
      requires Valid()
      modifies this
      ensures Valid() && (State(), ok) == AddNodeF(old(State()), id, pos)
    {
      if id !in nodes {
        nodes := nodes[id := NewNode(id, pos)];
        outs := outs[id := map[]];
        ins := ins[id := map[]];
        modeCount := modeCount + 1;
        ok := true;
      } else {
        ok := false;
      }
    }

    method AddEdge(a: int, b: int, w: real) returns (ok: bool)
      requires Valid()
      modifies this
      ensures Valid() && (State(), ok) == AddEdgeF(old(State()), a, b, w)
    {
      if a != b && a in nodes && b in nodes && b !in outs[a] {
        var e := NewEdge(Some(a), Some(b), Some(w), None, None);
        outs := outs[a := outs[a][b := e]];
        ins := ins[b := ins[b][a := e]];
        modeCount := modeCount + 1;
        edgeCount := edgeCount + 1;
        ok := true;
      } else {
        ok := false;
      }
    }

    method RemoveEdge(a: int, b: int) returns (ok: bool)
      requires Valid() && HasReverse(State(), a, b)
      modifies this
      ensures Valid() && (State(), ok) == RemoveEdgeF(old(State()), a, b)
    {
      if a in outs && b in outs[a] {
        outs := outs[a := outs[a] - {b}];
        ins := ins[b := ins[b] - {a}];
        modeCount := modeCount + 1;
        edgeCount := edgeCount - 1;
        ok := true;
      } else {
        ok := false;
      }
    }

    /**
     * The loop of `remove_node`: `remove_edge(id, b)` for every outgoing
     * neighbour `b`. The source deletes from the map it iterates over; here
     * the loop runs over a snapshot of its keys.
     */
    method RemoveOutEdgesOf(id: int)
      requires Valid() && id in outs && OutEdgesHaveReverse(State(), id)
      modifies this
      ensures Valid() && State() == RemoveOutEdges(old(State()), id, old(outs[id].Keys))
    {
      ghost var g0 := State();
      var targets := outs[id].Keys;
      ghost var done: set<int> := {};
      RemoveOutEdgesNone(g0, id);
      while targets != {}
        invariant Valid()
        invariant done !! targets && done + targets == g0.outs[id].Keys
        invariant State() == RemoveOutEdges(g0, id, done)
        decreases targets
      {
        NonEmptyHasMember(targets);
        var b :| b in targets;
        RemoveOutEdgesStep(g0, id, done, b);
        var removed := RemoveEdge(id, b);
        MoveMember(done, targets, b);
        targets := targets - {b};
        done := done + {b};
      }
      assert done == g0.outs[id].Keys;
    }

    /** `remove_node`: the outgoing edges one by one, then the node and its link container. */
    method RemoveNode(id: int) returns (ok: bool)
      requires Valid() && (id in outs ==> OutEdgesHaveReverse(State(), id))
      modifies this
      ensures Valid() && (State(), ok) == RemoveNodeF(old(State()), id)
    {
      if id !in nodes {
        return false;
      }
      ghost var g0 := State();
      RemoveOutEdgesOf(id);
      ghost var g1 := State();
      assert g1 == RemoveOutEdges(g0, id, g0.outs[id].Keys);
      nodes := nodes - {id};
      outs := outs - {id};
      ins := ins - {id};
      ok := true;
      assert State() == g1.(nodes := g1.nodes - {id}, outs := g1.outs - {id}, ins := g1.ins - {id});
      assert outs.Keys == g1.outs.Keys - {id};
    }

    /** `__add_node_by_instance`. */
    method AddNodeByInstance(n: Node)
      requires Valid()
      modifies this
      ensures Valid() && State() == AddNodeByInstanceF(old(State()), n)
    {
      var _ := AddNode(n.key, None);
      nodes := nodes[n.key := n];
    }

    /** `__add_edge_by_instance`; the source fails when an endpoint has no link container. */
    method AddEdgeByInstance(e: Edge)
      requires Valid() && e.src in nodes && e.dest in nodes
      modifies this
      ensures Valid() && State() == AddEdgeByInstanceF(old(State()), e)
    {
      var _ := AddEdge(e.src, e.dest, e.weight);
      outs := outs[e.src := outs[e.src][e.dest := e]];
      ins := ins[e.dest := ins[e.dest][e.src := e]];
    }

    /** `__set_mode_count`. */
    method SetModeCount(mc: int)
      modifies this
      ensures State() == old(State()).(modeCount := mc)
    {
      modeCount := mc;
    }
  }
}
