/**
 * `DiGraph.to_dict` and `DiGraph.from_dict` (src/DiGraph.py): the store as a
 * nested-map document and back.
 *
 * The document is held as it reads after a JSON round trip, so its member
 * names are the decimal text of the ids. Python emits members in insertion
 * order; here they come in ascending id order, which `from_dict` ignores.
 */
module GraphDoc {
  import opened Wrappers
  import opened Json
  import opened Text
  import opened IdSets
  import opened EdgeRecords
  import opened NodeRecords
  import opened Graph

  // ---------------------------------------------------------------------------
  // Ascending order of a key set

  lemma {:induction false} MinExists(s: set<int>)
    requires s != {}
    ensures exists m :: m in s && forall y :: y in s ==> m <= y
    decreases |s|
  {
    NonEmptyHasMember(s);
    var x :| x in s;
    if s != {x} {
      MinExists(s - {x});
      var r :| r in s - {x} && forall y :: y in s - {x} ==> r <= y;
      var m := if r < x then r else x;
      forall y | y in s
        ensures m <= y
      {
        if y != x {
          assert y in s - {x};
        }
      }
    } else {
      assert forall y :: y in s ==> x <= y;
    }
  }

  /** The smallest element of a non-empty set. */
  function MinOf(s: set<int>): (m: int)
    requires s != {}
    ensures m in s && forall y :: y in s ==> m <= y
  {
    MinExists(s);
    var m :| m in s && forall y :: y in s ==> m <= y;
    m
  }

  predicate Ascending(ks: seq<int>)
  {
    forall i, j :: 0 <= i < j < |ks| ==> ks[i] < ks[j]
  }

  /** The keys of `s`, each once, smallest first. */
  function SortedKeys(s: set<int>): (ks: seq<int>)
    ensures forall k :: k in ks <==> k in s
    ensures |ks| == |s| && Ascending(ks)
    decreases |s|
  {
    if s == {} then []
    else
      var m := MinOf(s);
      var rest := SortedKeys(s - {m});
      SortedCons(s, m, rest);
      [m] + rest
  }

  /** Putting the minimum in front of the sorted rest gives the sorted whole. */
  lemma SortedCons(s: set<int>, m: int, rest: seq<int>)
    requires m in s && forall y :: y in s ==> m <= y
    requires forall k :: k in rest <==> k in s - {m}
    requires |rest| == |s - {m}| && Ascending(rest)
    ensures forall k :: k in [m] + rest <==> k in s
    ensures |[m] + rest| == |s| && Ascending([m] + rest)
  {
    var ks := [m] + rest;
    forall i, j | 0 <= i < j < |ks|
      ensures ks[i] < ks[j]
    {
      assert ks[j] == rest[j - 1] && ks[j] in rest;
      if i > 0 {
        assert ks[i] == rest[i - 1];
      }
    }
    assert s == (s - {m}) + {m};
  }

  // ---------------------------------------------------------------------------
  // The document `to_dict` produces

  /** `res['nodes']`: one member per node, named by its id. */
  function NodeRows(nodes: map<int, Node>, ks: seq<int>): seq<(string, Json)>
    requires forall k :: k in ks ==> k in nodes
  {
    seq(|ks|, i requires 0 <= i < |ks| => (Decimal(ks[i]), NodeRecords.ToDict(nodes[ks[i]])))
  }

  /** One node's `link_info`: its outgoing edges, named by the other end. */
  function EdgeRows(row: map<int, Edge>, ds: seq<int>): seq<(string, Json)>
    requires forall d :: d in ds ==> d in row
  {
    seq(|ds|, j requires 0 <= j < |ds| => (Decimal(ds[j]), EdgeRecords.ToDict(row[ds[j]])))
  }

  function LinkInfo(row: map<int, Edge>): Json
  {
    JObj(EdgeRows(row, SortedKeys(row.Keys)))
  }

  /** `res['links']`: one member per link container. */
  function LinkRows(outs: Adjacency, ks: seq<int>): seq<(string, Json)>
    requires forall k :: k in ks ==> k in outs
  {
    seq(|ks|, i requires 0 <= i < |ks| => (Decimal(ks[i]), LinkInfo(outs[ks[i]])))
  }

  function Doc(g: GraphState): Json
  {
    JObj([("modeCount", JNum(g.modeCount as real)),
          ("edgeCount", JNum(g.edgeCount as real)),
          ("links", JObj(LinkRows(g.outs, SortedKeys(g.outs.Keys)))),
          ("nodes", JObj(NodeRows(g.nodes, SortedKeys(g.nodes.Keys))))])
  }

  lemma DistinctIds(ks: seq<int>, rows: seq<(string, Json)>)
    requires Ascending(ks) && |rows| == |ks|
    requires forall i :: 0 <= i < |ks| ==> rows[i].0 == Decimal(ks[i])
    ensures DistinctNames(rows)
  {
    forall i, j | 0 <= i < j < |rows|
      ensures rows[i].0 != rows[j].0
    {
      if rows[i].0 == rows[j].0 {
        DecimalInjective(ks[i], ks[j]);
      }
    }
  }

  /** The member named by the id `ks[i]` in rows named by the ids `ks`. */
  lemma GetById(ks: seq<int>, rows: seq<(string, Json)>, i: nat)
    requires Ascending(ks) && |rows| == |ks| && i < |ks|
    requires forall i :: 0 <= i < |ks| ==> rows[i].0 == Decimal(ks[i])
    ensures Get(rows, Decimal(ks[i])) == Some(rows[i].1)
  {
    DistinctIds(ks, rows);
    GetDistinct(rows, i);
  }

  /** The position of a member of a sequence. */
  lemma IndexOfKey(ks: seq<int>, k: int) returns (i: nat)
    requires k in ks
    ensures i < |ks| && ks[i] == k
  {
    i :| 0 <= i < |ks| && ks[i] == k;
  }

  lemma DocMembers(g: GraphState)
    ensures DistinctNames(Doc(g).members)
    ensures Get(Doc(g).members, "modeCount") == Some(JNum(g.modeCount as real))
    ensures Get(Doc(g).members, "edgeCount") == Some(JNum(g.edgeCount as real))
    ensures Get(Doc(g).members, "links") == Some(Doc(g).members[2].1)
    ensures Get(Doc(g).members, "nodes") == Some(Doc(g).members[3].1)
  {
    var m := Doc(g).members;
    GetDistinct(m, 0);
    GetDistinct(m, 1);
    GetDistinct(m, 2);
    GetDistinct(m, 3);
  }

  /** `res['nodes']` holds one entry per vertex, with that node's record. */
  lemma NodesEntry(nodes: map<int, Node>)
    ensures var rows := NodeRows(nodes, SortedKeys(nodes.Keys));
            |rows| == |nodes| &&
            forall k :: k in nodes ==> Get(rows, Decimal(k)) == Some(NodeRecords.ToDict(nodes[k]))
  {
    var ks := SortedKeys(nodes.Keys);
    var rows := NodeRows(nodes, ks);
    forall k | k in nodes
      ensures Get(rows, Decimal(k)) == Some(NodeRecords.ToDict(nodes[k]))
    {
      var i := IndexOfKey(ks, k);
      GetById(ks, rows, i);
    }
  }

  lemma LinkRowAt(outs: Adjacency, a: int)
    requires a in outs
    ensures Get(LinkRows(outs, SortedKeys(outs.Keys)), Decimal(a)) == Some(LinkInfo(outs[a]))
  {
    var ks := SortedKeys(outs.Keys);
    var i := IndexOfKey(ks, a);
    GetById(ks, LinkRows(outs, ks), i);
  }

  lemma EdgeRowAt(row: map<int, Edge>, b: int)
    requires b in row
    ensures Get(LinkInfo(row).members, Decimal(b)) == Some(EdgeRecords.ToDict(row[b]))
  {
    var ds := SortedKeys(row.Keys);
    EdgeRowIn(row, ds, b);
  }

  lemma EdgeRowIn(row: map<int, Edge>, ds: seq<int>, b: int)
    requires Ascending(ds) && b in ds
    requires forall d :: d in ds ==> d in row
    ensures b in row && Get(EdgeRows(row, ds), Decimal(b)) == Some(EdgeRecords.ToDict(row[b]))
  {
    var j := IndexOfKey(ds, b);
    GetById(ds, EdgeRows(row, ds), j);
  }

  lemma LinkEntryAt(outs: Adjacency, a: int, b: int)
    requires a in outs && b in outs[a]
    ensures LinkEntry(JObj(LinkRows(outs, SortedKeys(outs.Keys))), a, b) == Some(EdgeRecords.ToDict(outs[a][b]))
  {
    LinkRowAt(outs, a);
    EdgeRowAt(outs[a], b);
  }

  /** `res['links'][a][b]` holds the record of the stored edge from `a` to `b`. */
  lemma LinksEntry(outs: Adjacency)
    ensures var links := JObj(LinkRows(outs, SortedKeys(outs.Keys)));
            forall a, b :: a in outs && b in outs[a] ==>
              LinkEntry(links, a, b) == Some(EdgeRecords.ToDict(outs[a][b]))
  {
    forall a, b | a in outs && b in outs[a]
      ensures LinkEntry(JObj(LinkRows(outs, SortedKeys(outs.Keys))), a, b) == Some(EdgeRecords.ToDict(outs[a][b]))
    {
      LinkEntryAt(outs, a, b);
    }
  }

  /**
   * What `to_dict` promises: `modeCount` is `get_mc()`, `edgeCount` is
   * `e_size()`, `nodes` has one entry per vertex holding that node's record,
   * and `links[src][dest]` holds the record of the stored edge, so its weight.
   */
  lemma DocContents(g: GraphState)
    ensures var m := Doc(g).members;
            Get(m, "modeCount") == Some(JNum(g.modeCount as real)) &&
            Get(m, "edgeCount") == Some(JNum(g.edgeCount as real)) &&
            Get(m, "nodes") == Some(JObj(NodeRows(g.nodes, SortedKeys(g.nodes.Keys)))) &&
            Get(m, "links") == Some(JObj(LinkRows(g.outs, SortedKeys(g.outs.Keys))))
    ensures var nodes := JObj(NodeRows(g.nodes, SortedKeys(g.nodes.Keys)));
            |nodes.members| == |g.nodes| &&
            forall k :: k in g.nodes ==> Get(nodes.members, Decimal(k)) == Some(NodeRecords.ToDict(g.nodes[k]))
    ensures var links := JObj(LinkRows(g.outs, SortedKeys(g.outs.Keys)));
            forall a, b :: a in g.outs && b in g.outs[a] ==>
              LinkEntry(links, a, b) == Some(EdgeRecords.ToDict(g.outs[a][b]))
  {
    DocMembers(g);
    NodesEntry(g.nodes);
    LinksEntry(g.outs);
  }

  /** `links[a][b]` of a document, when both levels are objects. */
  function LinkEntry(links: Json, a: int, b: int): Option<Json>
  {
    if !links.JObj? then None
    else
      var row := Get(links.members, Decimal(a));
      if row.Some? && row.value.JObj? then Get(row.value.members, Decimal(b)) else None
  }

  // ---------------------------------------------------------------------------
  // Reading a document: `from_dict`

  /** Python's `for x in j`: a list gives its items, a dict its member names, a string its characters. */
  function Iterate(j: Json): (r: Result<seq<Json>, DocError>)
    ensures r.Ok? <==> j.JArr? || j.JObj? || j.JStr?
    ensures j.JArr? ==> r == Ok(j.items)
    ensures j.JObj? ==> |r.value| == |j.members| &&
                        forall i :: 0 <= i < |j.members| ==> r.value[i] == JStr(j.members[i].0)
  {
    match j
    case JArr(items) => Ok(items)
    case JObj(ms) => Ok(seq(|ms|, i requires 0 <= i < |ms| => JStr(ms[i].0)))
    case JStr(s) => Ok(seq(|s|, i requires 0 <= i < |s| => JStr([s[i]])))
    case _ => Err(WrongType)
  }

  /** `nodes.values() if isinstance(nodes, dict) else nodes`. */
  function NodeItems(j: Json): (r: Result<seq<Json>, DocError>)
    ensures j.JObj? ==> r == Ok(Values(j.members))
    ensures !j.JObj? ==> r == Iterate(j)
  {
    if j.JObj? then Ok(Values(j.members)) else Iterate(j)
  }

  /** The `links` schema: the values of every inner dict, in order; an inner value that is not a dict fails. */
  function Flatten(rows: seq<(string, Json)>): (r: Result<seq<Json>, DocError>)
    ensures r.Err? <==> exists i :: 0 <= i < |rows| && !rows[i].1.JObj?
    ensures r.Err? ==> r.error == WrongType
  {
    if rows == [] then Ok([])
    else if !rows[0].1.JObj? then Err(WrongType)
    else
      var rest := Flatten(rows[1..]);
      assert (exists i :: 0 <= i < |rows| && !rows[i].1.JObj?) <==>
             (exists i :: 0 <= i < |rows[1..]| && !rows[1..][i].1.JObj?) by {
        if exists i :: 0 <= i < |rows| && !rows[i].1.JObj? {
          var i :| 0 <= i < |rows| && !rows[i].1.JObj?;
          assert rows[1..][i - 1] == rows[i];
        }
      }
      if rest.Err? then rest else Ok(Values(rows[0].1.members) + rest.value)
  }

  /** `for l in edges.values(): actual_edges += l.values()`; only a dict has `values`. */
  function LinkItems(j: Json): (r: Result<seq<Json>, DocError>)
    ensures !j.JObj? ==> r == Err(WrongType)
  {
    if j.JObj? then Flatten(j.members) else Err(WrongType)
  }

  /** `Node.from_dict` on every item of the node list. */
  function DecodeNodes(items: seq<Json>): (ns: seq<Result<Node, DocError>>)
    ensures |ns| == |items| && forall i :: 0 <= i < |items| ==> ns[i] == NodeRecords.FromDict(items[i])
  {
    seq(|items|, i requires 0 <= i < |items| => NodeRecords.FromDict(items[i]))
  }

  /**
   * The node loop over the decoded items: each node goes through
   * `__add_node_by_instance`; the first item that fails to decode ends it.
   * Decoding is pure, so decoding every item first gives what the interleaved
   * loop gives.
   */
  function ReplayNodes(g: GraphState, ns: seq<Result<Node, DocError>>): (r: Result<GraphState, DocError>)
    ensures r.Ok? && KeysAgree(g) ==> KeysAgree(r.value)
    ensures r.Ok? ==> r.value.edgeCount == g.edgeCount
    ensures r.Err? <==> exists i :: 0 <= i < |ns| && ns[i].Err?
    decreases |ns|
  {
    if ns == [] then Ok(g)
    else
      match ns[0]
      case Err(e) => Err(e)
      case Ok(n) =>
        var r := ReplayNodes(AddNodeByInstanceF(g, n), ns[1..]);
        assert (exists i :: 0 <= i < |ns| && ns[i].Err?) <==> (exists i :: 0 <= i < |ns[1..]| && ns[1..][i].Err?) by {
          if exists i :: 0 <= i < |ns| && ns[i].Err? {
            var i :| 0 <= i < |ns| && ns[i].Err?;
            assert ns[1..][i - 1] == ns[i];
          }
        }
        r
  }

  /** `Edge.from_dict` on every item of the edge list. */
  function DecodeEdges(items: seq<Json>): (es: seq<Result<Edge, DocError>>)
    ensures |es| == |items|
  {
    if items == [] then []
    else [EdgeRecords.FromDict(items[0])] + DecodeEdges(items[1..])
  }

  /** Each decoded edge is `Edge.from_dict` of the item at the same position. */
  lemma {:induction false} DecodeEdgesAt(items: seq<Json>)
    ensures forall i :: 0 <= i < |items| ==> DecodeEdges(items)[i] == EdgeRecords.FromDict(items[i])
    decreases |items|
  {
    if items != [] {
      DecodeEdgesAt(items[1..]);
      var es := DecodeEdges(items);
      forall i | 0 <= i < |items|
        ensures es[i] == EdgeRecords.FromDict(items[i])
      {
        if i > 0 {
          assert items[1..][i - 1] == items[i];
        }
      }
    }
  }

  /**
   * The edge loop over the decoded items: each edge goes through
   * `__add_edge_by_instance`, which fails on an endpoint without a link
   * container; the first failure, of decoding or of adding, ends it. Decoding
   * is pure, so decoding every item first gives what the interleaved loop gives.
   */
  function ReplayEdges(g: GraphState, es: seq<Result<Edge, DocError>>): (r: Result<GraphState, DocError>)
    requires KeysAgree(g)
    ensures r.Ok? ==> KeysAgree(r.value) && r.value.nodes == g.nodes
    decreases |es|
  {
    if es == [] then Ok(g)
    else
      match es[0]
      case Err(e) => Err(e)
      case Ok(e) =>
        if e.src !in g.nodes || e.dest !in g.nodes then Err(UnknownEndpoint)
        else ReplayEdges(AddEdgeByInstanceF(g, e), es[1..])
  }

  /** `data.get('modeCount')`: `None` leaves the replayed counter, an integer replaces it. */
  function ModeCountOf(v: Option<Json>): (r: Result<Option<int>, DocError>)
    ensures v.None? ==> r == Ok(None)
    ensures v.Some? ==> (r.Ok? <==> IntOf(v.value).Some?)
    ensures r.Ok? && v.Some? ==> r.value == IntOf(v.value)
  {
    match v
    case None => Ok(None)
    case Some(j) => if IntOf(j).Some? then Ok(IntOf(j)) else Err(WrongType)
  }

  /** `data.get("nodes") or data.get("Nodes")`. */
  function NodeCollection(m: seq<(string, Json)>): Option<Json>
  {
    OrElse(Get(m, "nodes"), Get(m, "Nodes"))
  }

  /** `data.get("links") or data.get("Edges")`. */
  function EdgeCollection(m: seq<(string, Json)>): Option<Json>
  {
    OrElse(Get(m, "links"), Get(m, "Edges"))
  }

  predicate IsNone(v: Option<Json>)
  {
    v.None? || v.value == JNull
  }

  /** The edge items: flattened under the `links` schema, iterated under the `Edges` one. */
  function EdgeItems(m: seq<(string, Json)>, edges: Json): Result<seq<Json>, DocError>
  {
    if HasKey(m, "links") then LinkItems(edges) else Iterate(edges)
  }

  /** `from_dict`: the state it builds, or why it raises. */
  function Load(data: Json): (r: Result<GraphState, DocError>)
    ensures !data.JObj? ==> r == Err(WrongType)
    ensures data.JObj? && (IsNone(NodeCollection(data.members)) || IsNone(EdgeCollection(data.members))) ==>
            r == Err(MalformedGraph)
    ensures r.Ok? ==> KeysAgree(r.value)
    ensures r.Ok? && GetValue(data.members, "modeCount").Some? ==>
            IntOf(GetValue(data.members, "modeCount").value) == Some(r.value.modeCount)
  {
    if !data.JObj? then Err(WrongType)
    else
      var m := data.members;
      var nodes := NodeCollection(m);
      var edges := EdgeCollection(m);
      if IsNone(nodes) || IsNone(edges) then Err(MalformedGraph)
      else
        match NodeItems(nodes.value)
        case Err(e) => Err(e)
        case Ok(nodeItems) =>
          match ReplayNodes(Empty, DecodeNodes(nodeItems))
          case Err(e) => Err(e)
          case Ok(g1) =>
            match EdgeItems(m, edges.value)
            case Err(e) => Err(e)
            case Ok(edgeItems) =>
              match ReplayEdges(g1, DecodeEdges(edgeItems))
              case Err(e) => Err(e)
              case Ok(g2) =>
                match ModeCountOf(GetValue(m, "modeCount"))
                case Err(e) => Err(e)
                case Ok(mc) => Ok(if mc.Some? then g2.(modeCount := mc.value) else g2)
  }

  /** A document without either collection is malformed. */
  lemma MissingCollectionRejected(m: seq<(string, Json)>)
    requires (!HasKey(m, "nodes") && !HasKey(m, "Nodes")) || (!HasKey(m, "links") && !HasKey(m, "Edges"))
    ensures Load(JObj(m)) == Err(MalformedGraph)
  {
  }

  /**
   * A store without nodes writes empty `nodes` and `links` dicts, both falsy,
   * so `from_dict` falls through to the absent `Nodes` and raises.
   */
  lemma EmptyStoreRejected(g: GraphState)
    requires KeysAgree(g) && g.nodes == map[]
    ensures Load(Doc(g)) == Err(MalformedGraph)
  {
    DocMembers(g);
    assert g.outs.Keys == {};
    assert !Truthy(JObj(NodeRows(g.nodes, SortedKeys(g.nodes.Keys))));
    assert !HasKey(Doc(g).members, "Nodes");
  }

  // ---------------------------------------------------------------------------
  // Loading what `to_dict` wrote

  /** The nodes of `S` with empty link containers: the store while the node list is replayed. */
  function NodesOnly(g: GraphState, S: set<int>, mc: int): GraphState
    requires S <= g.nodes.Keys
  {
    GraphState(map k | k in S :: g.nodes[k], map k | k in S :: map[], map k | k in S :: map[], 0, mc)
  }

  lemma NodeStep(g: GraphState, S: set<int>, mc: int, k: int)
    requires KeysAgree(g) && S <= g.nodes.Keys && k in g.nodes && k !in S
    ensures AddNodeByInstanceF(NodesOnly(g, S, mc), g.nodes[k]) == NodesOnly(g, S + {k}, mc + 1)
  {
    var p := NodesOnly(g, S, mc);
    var q := NodesOnly(g, S + {k}, mc + 1);
    var r := AddNodeByInstanceF(p, g.nodes[k]);
    assert g.nodes[k].key == k;
    assert r.nodes == q.nodes;
    assert r.outs == q.outs;
    assert r.ins == q.ins;
  }

  /** What replaying the node results `ns` needs: they are the nodes `ks`, in order, none loaded yet. */
  ghost predicate NodesReady(g: GraphState, ks: seq<int>, ns: seq<Result<Node, DocError>>, S: set<int>)
  {
    KeysAgree(g) && S <= g.nodes.Keys && Ascending(ks) && |ns| == |ks| &&
    (forall i :: 0 <= i < |ks| ==> ks[i] in g.nodes && ks[i] !in S) &&
    (forall i :: 0 <= i < |ks| ==> ns[i] == Ok(g.nodes[ks[i]]))
  }

  /** Replaying the nodes `ks`, none of them loaded yet, loads exactly those nodes. */
  lemma {:induction false} ReplayNodesFresh(g: GraphState, ks: seq<int>, ns: seq<Result<Node, DocError>>,
                                            S: set<int>, mc: int, S2: set<int>, mc2: int)
    requires NodesReady(g, ks, ns, S)
    requires S2 == S + Elems(ks) && mc2 == mc + |ks|
    ensures S2 <= g.nodes.Keys
    ensures ReplayNodes(NodesOnly(g, S, mc), ns) == Ok(NodesOnly(g, S2, mc2))
    decreases |ks|
  {
    if ks == [] {
      assert S2 == S;
    } else {
      var S', mc' := S + {ks[0]}, mc + 1;
      NodesTail(g, ks, ns, S);
      ElemsTail(ks);
      ReplayNodesFresh(g, ks[1..], ns[1..], S', mc', S2, mc2);
      NodeHead(g, S, mc, ks[0], ns, ns[1..], S', mc');
    }
  }

  /** What `ReplayNodesFresh` needs of the remaining nodes once the first is loaded. */
  lemma NodesTail(g: GraphState, ks: seq<int>, ns: seq<Result<Node, DocError>>, S: set<int>)
    requires NodesReady(g, ks, ns, S) && ks != []
    ensures NodesReady(g, ks[1..], ns[1..], S + {ks[0]})
    ensures ks[0] in g.nodes && ks[0] !in S && ns[0] == Ok(g.nodes[ks[0]])
  {
    forall i | 0 <= i < |ks[1..]|
      ensures ks[1..][i] !in S + {ks[0]}
    {
      assert ks[0] < ks[i + 1];
    }
  }

  /** Loading the first node moves the replay from `S` to `S + {k}`. */
  lemma NodeHead(g: GraphState, S: set<int>, mc: int, k: int,
                 ns: seq<Result<Node, DocError>>, ns': seq<Result<Node, DocError>>, S': set<int>, mc': int)
    requires KeysAgree(g) && S <= g.nodes.Keys && k in g.nodes && k !in S
    requires ns != [] && ns[0] == Ok(g.nodes[k]) && ns' == ns[1..] && S' == S + {k} && mc' == mc + 1
    ensures ReplayNodes(NodesOnly(g, S, mc), ns) == ReplayNodes(NodesOnly(g, S', mc'), ns')
  {
    NodeStep(g, S, mc, k);
  }

  function Elems(ks: seq<int>): set<int>
  {
    set k | k in ks
  }

  lemma ElemsTail(ks: seq<int>)
    requires ks != []
    ensures Elems(ks) == {ks[0]} + Elems(ks[1..])
  {
    forall x | x in ks
      ensures x == ks[0] || x in ks[1..]
    {
      var i :| 0 <= i < |ks| && ks[i] == x;
      if i > 0 {
        assert ks[1..][i - 1] == x;
      }
    }
  }

  /** Edges `(a, b)` of `g` whose source is in `D`. */
  function PairsFrom(g: GraphState, D: set<int>): set<(int, int)>
  {
    set a, b | a in D && a in g.outs && b in g.outs[a] :: (a, b)
  }

  /** All nodes, and of the edges only the pairs in `P`: the store while the edge list is replayed. */
  function Partial(g: GraphState, P: set<(int, int)>, mc: int): (r: GraphState)
    ensures KeysAgree(g) ==> KeysAgree(r)
  {
    GraphState(g.nodes,
               map a | a in g.outs :: (map b | b in g.outs[a] && (a, b) in P :: g.outs[a][b]),
               map b | b in g.ins :: (map a | a in g.ins[b] && (a, b) in P :: g.ins[b][a]),
               |P|, mc)
  }

  lemma PartialNone(g: GraphState, mc: int)
    requires KeysAgree(g)
    ensures Partial(g, {}, mc) == NodesOnly(g, g.nodes.Keys, mc)
  {
    var p := Partial(g, {}, mc);
    var q := NodesOnly(g, g.nodes.Keys, mc);
    assert p.nodes == q.nodes;
    assert p.outs == q.outs;
    assert p.ins == q.ins;
  }

  lemma PartialAll(g: GraphState)
    requires Wf(g)
    ensures Partial(g, EdgePairs(g.outs), g.modeCount) == g
  {
    var p := Partial(g, EdgePairs(g.outs), g.modeCount);
    PartialAllOuts(g, p);
    PartialAllIns(g, p);
  }

  lemma PartialAllOuts(g: GraphState, p: GraphState)
    requires p == Partial(g, EdgePairs(g.outs), g.modeCount)
    ensures p.outs == g.outs
  {
    var P := EdgePairs(g.outs);
    forall a | a in g.outs
      ensures p.outs[a] == g.outs[a]
    {
      assert forall b :: b in g.outs[a] ==> (a, b) in P;
    }
  }

  lemma PartialAllIns(g: GraphState, p: GraphState)
    requires Mirrored(g.outs, g.ins) && p == Partial(g, EdgePairs(g.outs), g.modeCount)
    ensures p.ins == g.ins
  {
    var P := EdgePairs(g.outs);
    forall b | b in g.ins
      ensures p.ins[b] == g.ins[b]
    {
      forall a | a in g.ins[b]
        ensures (a, b) in P
      {
        assert a in g.outs && b in g.outs[a];
      }
      assert p.ins[b] == map a | a in g.ins[b] && (a, b) in P :: g.ins[b][a];
    }
  }

  lemma PartialOutsStep(g: GraphState, P: set<(int, int)>, mc: int, a: int, b: int)
    requires a in g.outs && b in g.outs[a]
    ensures var p := Partial(g, P, mc);
            a in p.outs &&
            Partial(g, P + {(a, b)}, mc + 1).outs == p.outs[a := p.outs[a][b := g.outs[a][b]]]
  {
    var p := Partial(g, P, mc);
    var q := Partial(g, P + {(a, b)}, mc + 1);
    PartialOutsRow(g, P, mc, a, b, p, q);
    forall x | x in g.outs && x != a
      ensures q.outs[x] == p.outs[x]
    {
      PartialOutsOther(g, P, mc, a, b, p, q, x);
    }
  }

  lemma PartialOutsRow(g: GraphState, P: set<(int, int)>, mc: int, a: int, b: int, p: GraphState, q: GraphState)
    requires a in g.outs && b in g.outs[a]
    requires p == Partial(g, P, mc) && q == Partial(g, P + {(a, b)}, mc + 1)
    ensures a in p.outs && a in q.outs && q.outs[a] == p.outs[a][b := g.outs[a][b]]
  {
  }

  lemma PartialOutsOther(g: GraphState, P: set<(int, int)>, mc: int, a: int, b: int, p: GraphState, q: GraphState, x: int)
    requires p == Partial(g, P, mc) && q == Partial(g, P + {(a, b)}, mc + 1)
    requires x in g.outs && x != a
    ensures x in p.outs && x in q.outs && q.outs[x] == p.outs[x]
  {
    assert forall y :: (x, y) in P + {(a, b)} <==> (x, y) in P;
  }

  lemma PartialInsStep(g: GraphState, P: set<(int, int)>, mc: int, a: int, b: int)
    requires b in g.ins && a in g.ins[b]
    ensures var p := Partial(g, P, mc);
            b in p.ins &&
            Partial(g, P + {(a, b)}, mc + 1).ins == p.ins[b := p.ins[b][a := g.ins[b][a]]]
  {
    var p := Partial(g, P, mc);
    var q := Partial(g, P + {(a, b)}, mc + 1);
    PartialInsRow(g, P, mc, a, b, p, q);
    forall y | y in g.ins && y != b
      ensures q.ins[y] == p.ins[y]
    {
      PartialInsOther(g, P, mc, a, b, p, q, y);
    }
  }

  lemma PartialInsRow(g: GraphState, P: set<(int, int)>, mc: int, a: int, b: int, p: GraphState, q: GraphState)
    requires b in g.ins && a in g.ins[b]
    requires p == Partial(g, P, mc) && q == Partial(g, P + {(a, b)}, mc + 1)
    ensures b in p.ins && b in q.ins && q.ins[b] == p.ins[b][a := g.ins[b][a]]
  {
  }

  lemma PartialInsOther(g: GraphState, P: set<(int, int)>, mc: int, a: int, b: int, p: GraphState, q: GraphState, y: int)
    requires p == Partial(g, P, mc) && q == Partial(g, P + {(a, b)}, mc + 1)
    requires y in g.ins && y != b
    ensures y in p.ins && y in q.ins && q.ins[y] == p.ins[y]
  {
    assert forall x :: (x, y) in P + {(a, b)} <==> (x, y) in P;
  }

  /** The stored edge from `a` to `b` knows its endpoints, is no self-loop, and has its reverse entry. */
  ghost predicate EdgeReady(g: GraphState, a: int, b: int)
  {
    a in g.outs && b in g.outs[a] && g.outs[a][b].src == a && g.outs[a][b].dest == b && a != b &&
    b in g.ins && a in g.ins[b] && g.ins[b][a] == g.outs[a][b]
  }

  ghost predicate RowReady(g: GraphState, a: int)
    requires a in g.outs
  {
    forall b :: b in g.outs[a] ==> EdgeReady(g, a, b)
  }

  lemma WfRowReady(g: GraphState, a: int)
    requires Wf(g) && a in g.outs
    ensures RowReady(g, a)
  {
  }

  lemma EdgeStep(g: GraphState, P: set<(int, int)>, mc: int, a: int, b: int)
    requires KeysAgree(g) && EdgeReady(g, a, b) && (a, b) !in P
    ensures var e := g.outs[a][b];
            e.src in g.nodes && e.dest in g.nodes &&
            AddEdgeByInstanceF(Partial(g, P, mc), e) == Partial(g, P + {(a, b)}, mc + 1)
  {
    var e := g.outs[a][b];
    var p := Partial(g, P, mc);
    assert b !in p.outs[a];
    assert |P + {(a, b)}| == |P| + 1;
    AddEdgeByInstanceAccepted(p, e);
    PartialOutsStep(g, P, mc, a, b);
    PartialInsStep(g, P, mc, a, b);
  }

  /** Replaying `a`'s outgoing edges to `ds`, none of them loaded yet, adds exactly those pairs. */
  lemma {:induction false} ReplayRow(g: GraphState, a: int, ds: seq<int>, es: seq<Result<Edge, DocError>>,
                                     P: set<(int, int)>, mc: int, mc2: int)
    requires KeysAgree(g) && a in g.outs && RowReady(g, a) && Ascending(ds) && |es| == |ds|
    requires forall j :: 0 <= j < |ds| ==> ds[j] in g.outs[a] && (a, ds[j]) !in P
    requires forall j :: 0 <= j < |ds| ==> es[j] == Ok(g.outs[a][ds[j]])
    requires mc2 == mc + |ds|
    ensures ReplayEdges(Partial(g, P, mc), es) == Ok(Partial(g, P + RowPairs(a, ds), mc2))
    decreases |ds|
  {
    if ds == [] {
      assert P + RowPairs(a, ds) == P;
    } else {
      var b, ds', es' := ds[0], ds[1..], es[1..];
      var P', mc' := P + {(a, b)}, mc + 1;
      RowTail(g, a, ds, es, P);
      ReplayRow(g, a, ds', es', P', mc', mc2);
      RowHead(g, P, mc, a, b, es, es', P', mc');
      RowPairsCons(P, a, ds);
    }
  }

  /** What `ReplayRow` needs of the rest of the row once its first edge is loaded. */
  lemma RowTail(g: GraphState, a: int, ds: seq<int>, es: seq<Result<Edge, DocError>>, P: set<(int, int)>)
    requires a in g.outs && Ascending(ds) && |es| == |ds| && ds != []
    requires forall j :: 0 <= j < |ds| ==> ds[j] in g.outs[a] && (a, ds[j]) !in P
    requires forall j :: 0 <= j < |ds| ==> es[j] == Ok(g.outs[a][ds[j]])
    ensures Ascending(ds[1..]) && |es[1..]| == |ds[1..]|
    ensures forall j :: 0 <= j < |ds[1..]| ==> ds[1..][j] in g.outs[a] && (a, ds[1..][j]) !in P + {(a, ds[0])}
    ensures forall j :: 0 <= j < |ds[1..]| ==> es[1..][j] == Ok(g.outs[a][ds[1..][j]])
  {
    forall j | 0 <= j < |ds[1..]|
      ensures (a, ds[1..][j]) !in P + {(a, ds[0])}
    {
      assert ds[0] < ds[j + 1];
    }
  }

  /** Loading the first edge of a row moves the replay from `P` to `P + {(a, b)}`. */
  lemma RowHead(g: GraphState, P: set<(int, int)>, mc: int, a: int, b: int,
                es: seq<Result<Edge, DocError>>, es': seq<Result<Edge, DocError>>, P': set<(int, int)>, mc': int)
    requires KeysAgree(g) && EdgeReady(g, a, b) && (a, b) !in P
    requires es != [] && es[0] == Ok(g.outs[a][b]) && es' == es[1..] && P' == P + {(a, b)} && mc' == mc + 1
    ensures ReplayEdges(Partial(g, P, mc), es) == ReplayEdges(Partial(g, P', mc'), es')
  {
    EdgeStep(g, P, mc, a, b);
    ReplayHead(Partial(g, P, mc), es, g.outs[a][b]);
  }

  /** One accepted edge: the replay goes on from the store with that edge added. */
  lemma ReplayHead(p: GraphState, es: seq<Result<Edge, DocError>>, e: Edge)
    requires KeysAgree(p) && es != [] && es[0] == Ok(e) && e.src in p.nodes && e.dest in p.nodes
    ensures ReplayEdges(p, es) == ReplayEdges(AddEdgeByInstanceF(p, e), es[1..])
  {
  }

  lemma RowPairsCons(P: set<(int, int)>, a: int, ds: seq<int>)
    requires ds != []
    ensures (P + {(a, ds[0])}) + RowPairs(a, ds[1..]) == P + RowPairs(a, ds)
  {
  }

  /** The pairs `(a, d)` for the `d` of `ds`. */
  function RowPairs(a: int, ds: seq<int>): (r: set<(int, int)>)
    ensures forall d :: (a, d) in r <==> d in ds
    ensures forall p :: p in r ==> p.0 == a
  {
    if ds == [] then {} else {(a, ds[0])} + RowPairs(a, ds[1..])
  }

  // ---------------------------------------------------------------------------
  // The `links` level

  /** The edge items of one link container, in the order `to_dict` writes them. */
  function RowItems(row: map<int, Edge>): seq<Json>
  {
    Values(EdgeRows(row, SortedKeys(row.Keys)))
  }

  /** The edge items of the containers `ks`, one container after the other. */
  function LinksItems(outs: Adjacency, ks: seq<int>): seq<Json>
    requires forall k :: k in ks ==> k in outs
  {
    if ks == [] then []
    else
      var a := ks[0];
      assert a in ks;
      assert a in outs;
      RowItems(outs[a]) + LinksItems(outs, ks[1..])
  }

  /** The pairs stored in the containers `ks`. */
  function LinksPairs(outs: Adjacency, ks: seq<int>): (r: set<(int, int)>)
    requires forall k :: k in ks ==> k in outs
    ensures forall a, b :: (a, b) in r <==> a in ks && b in outs[a]
  {
    if ks == [] then {}
    else
      var a, rest := ks[0], LinksPairs(outs, ks[1..]);
      LinksPairsStep(outs, ks, rest);
      RowPairs(a, SortedKeys(outs[a].Keys)) + rest
  }

  lemma LinksPairsStep(outs: Adjacency, ks: seq<int>, rest: set<(int, int)>)
    requires ks != [] && forall k :: k in ks ==> k in outs
    requires forall x, b :: (x, b) in rest <==> x in ks[1..] && b in outs[x]
    ensures var r := RowPairs(ks[0], SortedKeys(outs[ks[0]].Keys)) + rest;
            forall x, b :: (x, b) in r <==> x in ks && b in outs[x]
  {
    var a := ks[0];
    var r := RowPairs(a, SortedKeys(outs[a].Keys)) + rest;
    forall x, b
      ensures (x, b) in r <==> x in ks && b in outs[x]
    {
      if x in ks && x != a {
        var i :| 0 <= i < |ks| && ks[i] == x;
        assert ks[1..][i - 1] == x;
      }
    }
  }

  /** Flattening the `links` dict `to_dict` writes yields the edge items container by container. */
  lemma {:induction false} FlattenLinkRows(outs: Adjacency, ks: seq<int>)
    requires forall k :: k in ks ==> k in outs
    ensures Flatten(LinkRows(outs, ks)) == Ok(LinksItems(outs, ks))
    decreases |ks|
  {
    if ks != [] {
      var rows := LinkRows(outs, ks);
      assert rows[1..] == LinkRows(outs, ks[1..]);
      FlattenLinkRows(outs, ks[1..]);
      assert rows[0].1 == LinkInfo(outs[ks[0]]);
    }
  }

  lemma {:induction false} DecodeAppend(xs: seq<Json>, ys: seq<Json>)
    ensures DecodeEdges(xs + ys) == DecodeEdges(xs) + DecodeEdges(ys)
  {
    if xs == [] {
      assert xs + ys == ys;
    } else {
      var x, xs' := xs[0], xs[1..];
      assert (xs + ys)[0] == x && (xs + ys)[1..] == xs' + ys;
      DecodeAppend(xs', ys);
    }
  }

  /** A replay that succeeds on a prefix goes on from the store it reached. */
  lemma {:induction false} ReplayAppend(p: GraphState, xs: seq<Result<Edge, DocError>>, ys: seq<Result<Edge, DocError>>)
    requires KeysAgree(p) && ReplayEdges(p, xs).Ok?
    ensures ReplayEdges(p, xs + ys) == ReplayEdges(ReplayEdges(p, xs).value, ys)
    decreases |xs|
  {
    if xs != [] {
      ReplayOkHead(p, xs);
      var zs, e := xs + ys, xs[0].value;
      assert zs[0] == xs[0];
      assert zs[1..] == xs[1..] + ys;
      ReplayHead(p, zs, e);
      ReplayAppend(AddEdgeByInstanceF(p, e), xs[1..], ys);
    } else {
      assert xs + ys == ys;
    }
  }

  /** A replay that succeeds accepted its first item. */
  lemma ReplayOkHead(p: GraphState, xs: seq<Result<Edge, DocError>>)
    requires KeysAgree(p) && xs != [] && ReplayEdges(p, xs).Ok?
    ensures xs[0].Ok? && xs[0].value.src in p.nodes && xs[0].value.dest in p.nodes
    ensures ReplayEdges(p, xs) == ReplayEdges(AddEdgeByInstanceF(p, xs[0].value), xs[1..])
  {
  }

  /** The records `to_dict` writes for a container decode back to its edges. */
  lemma RowDecodes(row: map<int, Edge>, ds: seq<int>)
    requires forall d :: d in ds ==> d in row
    ensures var es := DecodeEdges(Values(EdgeRows(row, ds)));
            |es| == |ds| && forall j :: 0 <= j < |ds| ==> es[j] == Ok(row[ds[j]])
  {
    var es := DecodeEdges(Values(EdgeRows(row, ds)));
    forall j | 0 <= j < |ds|
      ensures es[j] == Ok(row[ds[j]])
    {
      RowItemDecodes(row, ds, j);
    }
  }

  lemma RowItemDecodes(row: map<int, Edge>, ds: seq<int>, j: int)
    requires forall d :: d in ds ==> d in row
    requires 0 <= j < |ds|
    ensures ds[j] in row && DecodeEdges(Values(EdgeRows(row, ds)))[j] == Ok(row[ds[j]])
  {
    var items := Values(EdgeRows(row, ds));
    DecodeEdgesAt(items);
    assert ds[j] in ds;
    assert items[j] == EdgeRecords.ToDict(row[ds[j]]);
    EdgeRecords.RoundTrip(row[ds[j]]);
  }

  /** After container `ks[0]`, no pair loaded so far starts at a later container. */
  lemma LinksTail(P: set<(int, int)>, a: int, ds: seq<int>, ks: seq<int>)
    requires Ascending(ks) && ks != [] && ks[0] == a
    requires forall p :: p in P ==> p.0 !in ks
    ensures forall p :: p in P + RowPairs(a, ds) ==> p.0 !in ks[1..]
  {
    forall i | 0 <= i < |ks[1..]|
      ensures ks[1..][i] != a
    {
      assert ks[0] < ks[i + 1];
    }
  }

  /** The row to `ks[0]` is unloaded and ready for the replay. */
  lemma RowFresh(g: GraphState, P: set<(int, int)>, ks: seq<int>)
    requires ks != [] && ks[0] in g.outs
    requires forall p :: p in P ==> p.0 !in ks
    ensures var ds := SortedKeys(g.outs[ks[0]].Keys);
            Ascending(ds) && forall j :: 0 <= j < |ds| ==> ds[j] in g.outs[ks[0]] && (ks[0], ds[j]) !in P
  {
  }

  /** The edges of one container, in the order `to_dict` writes them. */
  function RowEdges(row: map<int, Edge>): seq<Result<Edge, DocError>>
  {
    var ds := SortedKeys(row.Keys);
    seq(|ds|, j requires 0 <= j < |ds| => Ok(row[ds[j]]))
  }

  /** The edges of the containers `ks`, as the replay receives them once decoded. */
  function LinksEdges(outs: Adjacency, ks: seq<int>): seq<Result<Edge, DocError>>
    requires forall k :: k in ks ==> k in outs
  {
    if ks == [] then []
    else
      var a := ks[0];
      assert a in ks;
      assert a in outs;
      RowEdges(outs[a]) + LinksEdges(outs, ks[1..])
  }

  /** The records `to_dict` writes for a container decode back to its edges. */
  lemma DecodeRow(row: map<int, Edge>)
    ensures DecodeEdges(RowItems(row)) == RowEdges(row)
  {
    var ds := SortedKeys(row.Keys);
    RowDecodes(row, ds);
  }

  /** The items `to_dict` writes under `links` decode to those edges. */
  lemma {:induction false} DecodeLinks(outs: Adjacency, ks: seq<int>)
    requires forall k :: k in ks ==> k in outs
    ensures DecodeEdges(LinksItems(outs, ks)) == LinksEdges(outs, ks)
    decreases |ks|
  {
    if ks != [] {
      var a := ks[0];
      var X, Y := RowItems(outs[a]), LinksItems(outs, ks[1..]);
      assert LinksItems(outs, ks) == X + Y;
      DecodeAppend(X, Y);
      DecodeRow(outs[a]);
      DecodeLinks(outs, ks[1..]);
    }
  }

  /** Replaying one container's edges, none of them loaded yet, adds its pairs. */
  lemma RowFreshReplay(g: GraphState, ks: seq<int>, P: set<(int, int)>, mc: int, P1: set<(int, int)>, mid: int)
    requires KeysAgree(g) && ks != [] && ks[0] in g.outs
    requires RowReady(g, ks[0]) && forall p :: p in P ==> p.0 !in ks
    requires var ds := SortedKeys(g.outs[ks[0]].Keys); P1 == P + RowPairs(ks[0], ds) && mid == mc + |ds|
    ensures ReplayEdges(Partial(g, P, mc), RowEdges(g.outs[ks[0]])) == Ok(Partial(g, P1, mid))
  {
    var a := ks[0];
    var ds := SortedKeys(g.outs[a].Keys);
    RowFresh(g, P, ks);
    RowEdgesAt(g.outs[a]);
    ReplayRow(g, a, ds, RowEdges(g.outs[a]), P, mc, mid);
  }

  lemma RowEdgesAt(row: map<int, Edge>)
    ensures var ds, es := SortedKeys(row.Keys), RowEdges(row);
            |es| == |ds| && forall j :: 0 <= j < |ds| ==> es[j] == Ok(row[ds[j]])
  {
  }

  /** Replaying the first container's edges moves the replay on to the remaining containers. */
  lemma LinksHead(g: GraphState, ks: seq<int>, P: set<(int, int)>, mc: int, P1: set<(int, int)>) returns (mid: int)
    requires KeysAgree(g) && ks != [] && forall k :: k in ks ==> k in g.outs
    requires RowReady(g, ks[0]) && forall p :: p in P ==> p.0 !in ks
    requires P1 == P + RowPairs(ks[0], SortedKeys(g.outs[ks[0]].Keys))
    ensures ReplayEdges(Partial(g, P, mc), LinksEdges(g.outs, ks)) ==
            ReplayEdges(Partial(g, P1, mid), LinksEdges(g.outs, ks[1..]))
  {
    mid := mc + |SortedKeys(g.outs[ks[0]].Keys)|;
    var ex, ey := RowEdges(g.outs[ks[0]]), LinksEdges(g.outs, ks[1..]);
    assert LinksEdges(g.outs, ks) == ex + ey;
    RowFreshReplay(g, ks, P, mc, P1, mid);
    ReplayAppend(Partial(g, P, mc), ex, ey);
  }

  /** What replaying the containers `ks` needs: each ready, none of their pairs loaded yet. */
  ghost predicate LinksReady(g: GraphState, ks: seq<int>, P: set<(int, int)>)
  {
    KeysAgree(g) && Ascending(ks) &&
    (forall k :: k in ks ==> k in g.outs && RowReady(g, k)) &&
    (forall p :: p in P ==> p.0 !in ks)
  }

  /** Replaying the containers `ks` from the pairs `P` succeeds and adds exactly their pairs. */
  ghost predicate LinksLoaded(g: GraphState, ks: seq<int>, P: set<(int, int)>, mc: int)
    requires KeysAgree(g) && forall k :: k in ks ==> k in g.outs
  {
    var r := ReplayEdges(Partial(g, P, mc), LinksEdges(g.outs, ks));
    r.Ok? && r.value == Partial(g, P + LinksPairs(g.outs, ks), r.value.modeCount)
  }

  /**
   * Replaying the edges of the containers `ks`, none of them loaded yet, adds
   * exactly their pairs (the replayed counter is replaced by the document's).
   */
  lemma {:induction false} ReplayLinks(g: GraphState, ks: seq<int>, P: set<(int, int)>, mc: int)
    requires LinksReady(g, ks, P)
    ensures LinksLoaded(g, ks, P, mc)
    decreases |ks|
  {
    if ks == [] {
      LinksNone(g, P, mc);
    } else {
      var P1 := P + RowPairs(ks[0], SortedKeys(g.outs[ks[0]].Keys));
      var mid := LinksHead(g, ks, P, mc, P1);
      LinksTailReady(g, ks, P, P1);
      ReplayLinks(g, ks[1..], P1, mid);
      LinksStep(g, ks, P, mc, P1, mid);
    }
  }

  lemma LinksNone(g: GraphState, P: set<(int, int)>, mc: int)
    requires KeysAgree(g)
    ensures LinksLoaded(g, [], P, mc)
  {
    assert P + LinksPairs(g.outs, []) == P;
  }

  /** What `ReplayLinks` needs of the remaining containers once the first is loaded. */
  lemma LinksTailReady(g: GraphState, ks: seq<int>, P: set<(int, int)>, P1: set<(int, int)>)
    requires LinksReady(g, ks, P) && ks != []
    requires P1 == P + RowPairs(ks[0], SortedKeys(g.outs[ks[0]].Keys))
    ensures LinksReady(g, ks[1..], P1)
  {
    LinksTail(P, ks[0], SortedKeys(g.outs[ks[0]].Keys), ks);
  }

  /** The first container's replay followed by the rest's gives the pairs of all of them. */
  lemma LinksStep(g: GraphState, ks: seq<int>, P: set<(int, int)>, mc: int, P1: set<(int, int)>, mid: int)
    requires KeysAgree(g) && ks != [] && forall k :: k in ks ==> k in g.outs
    requires P1 == P + RowPairs(ks[0], SortedKeys(g.outs[ks[0]].Keys))
    requires ReplayEdges(Partial(g, P, mc), LinksEdges(g.outs, ks)) ==
             ReplayEdges(Partial(g, P1, mid), LinksEdges(g.outs, ks[1..]))
    requires LinksLoaded(g, ks[1..], P1, mid)
    ensures LinksLoaded(g, ks, P, mc)
  {
    LinksPairsCons(g.outs, ks, P, P1);
  }

  lemma LinksPairsCons(outs: Adjacency, ks: seq<int>, P: set<(int, int)>, P1: set<(int, int)>)
    requires ks != [] && forall k :: k in ks ==> k in outs
    requires P1 == P + RowPairs(ks[0], SortedKeys(outs[ks[0]].Keys))
    ensures P1 + LinksPairs(outs, ks[1..]) == P + LinksPairs(outs, ks)
  {
  }

  // ---------------------------------------------------------------------------
  // The round trip

  /** Every container listed: the loaded pairs are all the stored edges. */
  lemma LinksAll(g: GraphState, ks: seq<int>)
    requires forall k :: k in ks <==> k in g.outs
    ensures LinksPairs(g.outs, ks) == EdgePairs(g.outs)
  {
    var L, E := LinksPairs(g.outs, ks), EdgePairs(g.outs);
    forall p | p in L
      ensures p in E
    {
      var a, b := p.0, p.1;
      assert (a, b) in L;
      assert a in g.outs && b in g.outs[a];
    }
    forall p | p in E
      ensures p in L
    {
      var a, b :| a in g.outs && b in g.outs[a] && p == (a, b);
      assert a in ks;
    }
  }

  /** The records `to_dict` writes under `nodes` decode back to the nodes. */
  lemma NodeDecodes(nodes: map<int, Node>, ks: seq<int>)
    requires forall k :: k in ks ==> k in nodes
    ensures var ns := DecodeNodes(Values(NodeRows(nodes, ks)));
            |ns| == |ks| && forall i :: 0 <= i < |ks| ==> ns[i] == Ok(nodes[ks[i]])
  {
    var items := Values(NodeRows(nodes, ks));
    forall i | 0 <= i < |ks|
      ensures NodeRecords.FromDict(items[i]) == Ok(nodes[ks[i]])
    {
      NodeRecords.RoundTrip(nodes[ks[i]]);
    }
  }

  lemma NodesOnlyNone(g: GraphState)
    ensures NodesOnly(g, {}, 0) == Empty
  {
    var e := NodesOnly(g, {}, 0);
    assert e.nodes == map[];
    assert e.outs == map[];
    assert e.ins == map[];
  }

  lemma ElemsSorted(s: set<int>)
    ensures Elems(SortedKeys(s)) == s
  {
  }

  /** The node list `to_dict` writes loads every node, with empty link containers. */
  lemma NodesLoaded(g: GraphState, ks: seq<int>, n: int)
    requires KeysAgree(g) && ks == SortedKeys(g.nodes.Keys) && n == |ks|
    ensures ReplayNodes(Empty, DecodeNodes(Values(NodeRows(g.nodes, ks)))) == Ok(Partial(g, {}, n))
  {
    var ns := DecodeNodes(Values(NodeRows(g.nodes, ks)));
    NodeDecodes(g.nodes, ks);
    NodesReplayed(g, ks, ns, n);
    PartialNone(g, n);
  }

  lemma NodesReplayed(g: GraphState, ks: seq<int>, ns: seq<Result<Node, DocError>>, n: int)
    requires KeysAgree(g) && ks == SortedKeys(g.nodes.Keys) && n == |ks| && |ns| == |ks|
    requires forall i :: 0 <= i < |ks| ==> ns[i] == Ok(g.nodes[ks[i]])
    ensures ReplayNodes(Empty, ns) == Ok(NodesOnly(g, g.nodes.Keys, n))
  {
    NodesSortedReady(g, ks, ns);
    ReplayNodesFresh(g, ks, ns, {}, 0, g.nodes.Keys, n);
    NodesOnlyNone(g);
  }

  lemma NodesSortedReady(g: GraphState, ks: seq<int>, ns: seq<Result<Node, DocError>>)
    requires KeysAgree(g) && ks == SortedKeys(g.nodes.Keys) && |ns| == |ks|
    requires forall i :: 0 <= i < |ks| ==> ns[i] == Ok(g.nodes[ks[i]])
    ensures NodesReady(g, ks, ns, {}) && g.nodes.Keys == {} + Elems(ks)
  {
    ElemsSorted(g.nodes.Keys);
    var E := Elems(ks);
    assert {} + E == E;
    forall i | 0 <= i < |ks|
      ensures ks[i] in g.nodes
    {
      assert ks[i] in ks;
    }
  }

  lemma RowsReady(g: GraphState, ks: seq<int>)
    requires Wf(g) && ks == SortedKeys(g.outs.Keys)
    ensures KeysAgree(g) && Ascending(ks) && forall k :: k in ks <==> k in g.outs
    ensures forall k :: k in ks ==> RowReady(g, k)
  {
    forall k | k in ks
      ensures RowReady(g, k)
    {
      WfRowReady(g, k);
    }
  }

  /** The edge items `to_dict` writes under `links` replay every stored edge. */
  lemma EdgesReplayed(g: GraphState, ks: seq<int>, n: int)
    requires KeysAgree(g) && Ascending(ks) && forall k :: k in ks <==> k in g.outs
    requires forall k :: k in ks ==> RowReady(g, k)
    ensures var r := ReplayEdges(Partial(g, {}, n), LinksEdges(g.outs, ks));
            r.Ok? && r.value == Partial(g, EdgePairs(g.outs), r.value.modeCount)
  {
    ReplayLinks(g, ks, {}, n);
    LinksAll(g, ks);
    assert {} + LinksPairs(g.outs, ks) == EdgePairs(g.outs);
  }

  /** ... and once the document's counter is applied, the store is the one that was written. */
  lemma EdgesLoaded(g: GraphState, ks: seq<int>, n: int)
    requires Wf(g) && ks == SortedKeys(g.outs.Keys)
    ensures var r := ReplayEdges(Partial(g, {}, n), DecodeEdges(LinksItems(g.outs, ks)));
            r.Ok? && r.value.(modeCount := g.modeCount) == g
  {
    RowsReady(g, ks);
    DecodeLinks(g.outs, ks);
    EdgesReplayed(g, ks, n);
    PartialAll(g);
  }

  lemma NodesNonEmpty(nodes: map<int, Node>)
    requires nodes != map[]
    ensures nodes.Keys != {}
  {
    if nodes.Keys == {} {
      NoKeysEmpty(nodes);
    }
  }

  lemma NoKeysEmpty(nodes: map<int, Node>)
    requires nodes.Keys == {}
    ensures nodes == map[]
  {
  }

  lemma SortedNonEmpty(s: set<int>)
    requires s != {}
    ensures SortedKeys(s) != []
  {
    NonEmptyHasMember(s);
    var k :| k in s;
    assert k in SortedKeys(s);
  }

  /** A member holding a truthy value is the one `or` picks. */
  lemma TruthyFirst(m: seq<(string, Json)>, name: string, other: string, v: Json)
    requires Get(m, name) == Some(v) && Truthy(v)
    ensures OrElse(Get(m, name), Get(m, other)) == Some(v)
  {
  }

  /** A non-empty store writes a non-empty, hence truthy, `nodes` dict, which `from_dict` takes. */
  lemma DocNodes(g: GraphState)
    requires g.nodes != map[]
    ensures NodeCollection(Doc(g).members) == Some(JObj(NodeRows(g.nodes, SortedKeys(g.nodes.Keys))))
  {
    var v := JObj(NodeRows(g.nodes, SortedKeys(g.nodes.Keys)));
    NodesTruthy(g.nodes);
    DocMembers(g);
    TruthyFirst(Doc(g).members, "nodes", "Nodes", v);
  }

  lemma NodesTruthy(nodes: map<int, Node>)
    requires nodes != map[]
    ensures Truthy(JObj(NodeRows(nodes, SortedKeys(nodes.Keys))))
  {
    NodesNonEmpty(nodes);
    SortedNonEmpty(nodes.Keys);
  }

  /** ... and, every node having a container, a truthy `links` dict. */
  lemma DocLinks(g: GraphState)
    requires KeysAgree(g) && g.nodes != map[]
    ensures EdgeCollection(Doc(g).members) == Some(JObj(LinkRows(g.outs, SortedKeys(g.outs.Keys))))
    ensures HasKey(Doc(g).members, "links")
  {
    var v := JObj(LinkRows(g.outs, SortedKeys(g.outs.Keys)));
    LinksTruthy(g);
    DocMembers(g);
    TruthyFirst(Doc(g).members, "links", "Edges", v);
  }

  lemma LinksTruthy(g: GraphState)
    requires KeysAgree(g) && g.nodes != map[]
    ensures Truthy(JObj(LinkRows(g.outs, SortedKeys(g.outs.Keys))))
  {
    NodesNonEmpty(g.nodes);
    SortedNonEmpty(g.outs.Keys);
  }

  /** `from_dict` on a `links` document whose every step succeeds. */
  lemma LoadSucceeds(m: seq<(string, Json)>, nodes: Json, links: Json, nodeItems: seq<Json>, g1: GraphState,
                     edgeItems: seq<Json>, g2: GraphState, mc: int)
    requires NodeCollection(m) == Some(nodes) && EdgeCollection(m) == Some(links) && HasKey(m, "links")
    requires nodes.JObj? && links.JObj? && nodeItems == Values(nodes.members)
    requires ReplayNodes(Empty, DecodeNodes(nodeItems)) == Ok(g1) && KeysAgree(g1)
    requires LinkItems(links) == Ok(edgeItems) && ReplayEdges(g1, DecodeEdges(edgeItems)) == Ok(g2)
    requires GetValue(m, "modeCount") == Some(JNum(mc as real))
    ensures Load(JObj(m)) == Ok(g2.(modeCount := mc))
  {
    assert !IsNone(NodeCollection(m)) && !IsNone(EdgeCollection(m));
    assert NodeItems(nodes) == Ok(nodeItems);
    assert EdgeItems(m, links) == Ok(edgeItems);
    IntOfNum(mc);
    assert ModeCountOf(GetValue(m, "modeCount")) == Ok(Some(mc));
  }

  /** What `to_dict` writes, `from_dict` reads back to the same store, unless the store has no nodes. */
  lemma RoundTrip(g: GraphState)
    requires Wf(g) && g.nodes != map[]
    ensures Load(Doc(g)) == Ok(g)
  {
    var ks := SortedKeys(g.nodes.Keys);
    assert SortedKeys(g.outs.Keys) == ks;
    var m := Doc(g).members;
    var nodes, links := JObj(NodeRows(g.nodes, ks)), JObj(LinkRows(g.outs, ks));
    DocNodes(g);
    DocLinks(g);
    DocMembers(g);
    var g1 := Partial(g, {}, |ks|);
    NodesLoaded(g, ks, |ks|);
    FlattenLinkRows(g.outs, ks);
    EdgesLoaded(g, ks, |ks|);
    var g2 := ReplayEdges(g1, DecodeEdges(LinksItems(g.outs, ks))).value;
    LoadSucceeds(m, nodes, links, Values(nodes.members), g1, LinksItems(g.outs, ks), g2, g.modeCount);
    assert Doc(g) == JObj(m);
  }

  // ---------------------------------------------------------------------------
  // `to_dict` and `from_dict` on the mutable store

  lemma NodeRowsSnoc(nodes: map<int, Node>, ks: seq<int>, k: int)
    requires forall x :: x in ks ==> x in nodes
    requires k in nodes
    ensures NodeRows(nodes, ks + [k]) == NodeRows(nodes, ks) + [(Decimal(k), NodeRecords.ToDict(nodes[k]))]
  {
    var a, b := NodeRows(nodes, ks + [k]), NodeRows(nodes, ks);
    forall j | 0 <= j < |b|
      ensures a[j] == b[j]
    {
      assert (ks + [k])[j] == ks[j];
    }
    assert a[|b|] == (Decimal(k), NodeRecords.ToDict(nodes[k]));
  }

  /** The loop over `__nodes`: one member per node, in ascending id order. */
  method NodeRowsOf(nodes: map<int, Node>, ks: seq<int>) returns (rows: seq<(string, Json)>)
    requires forall k :: k in ks ==> k in nodes
    ensures rows == NodeRows(nodes, ks)
  {
    rows := [];
    for i := 0 to |ks|
      invariant rows == NodeRows(nodes, ks[..i])
    {
      assert ks[i] in ks && ks[..i + 1] == ks[..i] + [ks[i]];
      NodeRowsSnoc(nodes, ks[..i], ks[i]);
      rows := rows + [(Decimal(ks[i]), NodeRecords.ToDict(nodes[ks[i]]))];
    }
    assert ks[..|ks|] == ks;
  }

  lemma EdgeRowsSnoc(row: map<int, Edge>, ds: seq<int>, d: int)
    requires forall x :: x in ds ==> x in row
    requires d in row
    ensures EdgeRows(row, ds + [d]) == EdgeRows(row, ds) + [(Decimal(d), EdgeRecords.ToDict(row[d]))]
  {
    var a, b := EdgeRows(row, ds + [d]), EdgeRows(row, ds);
    forall j | 0 <= j < |b|
      ensures a[j] == b[j]
    {
      assert (ds + [d])[j] == ds[j];
    }
    assert a[|b|] == (Decimal(d), EdgeRecords.ToDict(row[d]));
  }

  /** The inner loop over `out_links.items()`: one member per outgoing edge. */
  method EdgeRowsOf(row: map<int, Edge>, ds: seq<int>) returns (rows: seq<(string, Json)>)
    requires forall d :: d in ds ==> d in row
    ensures rows == EdgeRows(row, ds)
  {
    rows := [];
    for j := 0 to |ds|
      invariant rows == EdgeRows(row, ds[..j])
    {
      assert ds[j] in ds && ds[..j + 1] == ds[..j] + [ds[j]];
      EdgeRowsSnoc(row, ds[..j], ds[j]);
      rows := rows + [(Decimal(ds[j]), EdgeRecords.ToDict(row[ds[j]]))];
    }
    assert ds[..|ds|] == ds;
  }

  /** The outer loop over `__links`: one `link_info` dict per link container. */
  lemma LinkRowsSnoc(outs: Adjacency, ks: seq<int>, k: int)
    requires forall x :: x in ks ==> x in outs
    requires k in outs
    ensures LinkRows(outs, ks + [k]) == LinkRows(outs, ks) + [(Decimal(k), LinkInfo(outs[k]))]
  {
    var a, b := LinkRows(outs, ks + [k]), LinkRows(outs, ks);
    forall j | 0 <= j < |b|
      ensures a[j] == b[j]
    {
      assert (ks + [k])[j] == ks[j];
    }
    assert a[|b|] == (Decimal(k), LinkInfo(outs[k]));
  }

  method LinkRowsOf(outs: Adjacency, ks: seq<int>) returns (rows: seq<(string, Json)>)
    requires forall k :: k in ks ==> k in outs
    ensures rows == LinkRows(outs, ks)
  {
    rows := [];
    for i := 0 to |ks|
      invariant rows == LinkRows(outs, ks[..i])
    {
      var k := ks[i];
      assert k in ks && ks[..i + 1] == ks[..i] + [k];
      var info := EdgeRowsOf(outs[k], SortedKeys(outs[k].Keys));
      assert JObj(info) == LinkInfo(outs[k]);
      LinkRowsSnoc(outs, ks[..i], k);
      rows := rows + [(Decimal(k), JObj(info))];
    }
    assert ks[..|ks|] == ks;
  }

  /** `to_dict`: the counters, then the `links` and `nodes` dicts filled by the loops. */
  method ToDict(g: DiGraph) returns (doc: Json)
    ensures doc == Doc(g.State())
  {
    var links := LinkRowsOf(g.outs, SortedKeys(g.outs.Keys));
    var nodes := NodeRowsOf(g.nodes, SortedKeys(g.nodes.Keys));
    doc := JObj([("modeCount", JNum(g.modeCount as real)),
                 ("edgeCount", JNum(g.edgeCount as real)),
                 ("links", JObj(links)),
                 ("nodes", JObj(nodes))]);
  }

  /** `acc` followed by the items of `r`, or the error of `r`. */
  function Prefixed(acc: seq<Json>, r: Result<seq<Json>, DocError>): Result<seq<Json>, DocError>
  {
    if r.Ok? then Ok(acc + r.value) else r
  }

  lemma FlattenStep(rows: seq<(string, Json)>, i: int, acc: seq<Json>)
    requires 0 <= i < |rows| && rows[i].1.JObj?
    ensures Prefixed(acc, Flatten(rows[i..])) == Prefixed(acc + Values(rows[i].1.members), Flatten(rows[i + 1..]))
  {
    var t, v, rest := rows[i..], Values(rows[i].1.members), Flatten(rows[i + 1..]);
    assert t[0] == rows[i] && t[1..] == rows[i + 1..];
    assert Flatten(t) == if rest.Err? then rest else Ok(v + rest.value);
    if rest.Ok? {
      assert acc + (v + rest.value) == (acc + v) + rest.value;
    }
  }

  /** The `links` flattening loop: `actual_edges += l.values()` for every inner dict. */
  method FlattenLinks(links: Json) returns (r: Result<seq<Json>, DocError>)
    ensures r == LinkItems(links)
  {
    if !links.JObj? {
      return Err(WrongType);
    }
    var rows := links.members;
    var acc: seq<Json> := [];
    assert rows[0..] == rows;
    assert Flatten(rows).Ok? ==> [] + Flatten(rows).value == Flatten(rows).value;
    for i := 0 to |rows|
      invariant Flatten(rows) == Prefixed(acc, Flatten(rows[i..]))
    {
      if !rows[i].1.JObj? {
        assert rows[i..][0] == rows[i];
        return Err(WrongType);
      }
      FlattenStep(rows, i, acc);
      acc := acc + Values(rows[i].1.members);
    }
    assert rows[|rows|..] == [] && acc + [] == acc;
    return Ok(acc);
  }

  lemma ReplayNodesStep(g: GraphState, ns: seq<Result<Node, DocError>>, i: int)
    requires 0 <= i < |ns|
    ensures ReplayNodes(g, ns[i..]) ==
            if ns[i].Err? then Err(ns[i].error) else ReplayNodes(AddNodeByInstanceF(g, ns[i].value), ns[i + 1..])
  {
    assert ns[i..][0] == ns[i] && ns[i..][1..] == ns[i + 1..];
  }

  /** The node loop of `from_dict`: decode each item and add it by instance, stopping at the first failure. */
  method AddNodes(g: DiGraph, items: seq<Json>) returns (err: Option<DocError>)
    requires g.Valid()
    modifies g
    ensures g.Valid()
    ensures var r := ReplayNodes(old(g.State()), DecodeNodes(items));
            (err.None? <==> r.Ok?) && (r.Ok? ==> g.State() == r.value) && (r.Err? ==> err == Some(r.error))
  {
    ghost var ns := DecodeNodes(items);
    for i := 0 to |items|
      invariant g.Valid()
      invariant ReplayNodes(old(g.State()), ns) == ReplayNodes(g.State(), ns[i..])
    {
      var n := NodeRecords.FromDict(items[i]);
      ReplayNodesStep(g.State(), ns, i);
      if n.Err? {
        return Some(n.error);
      }
      g.AddNodeByInstance(n.value);
    }
    assert ns[|items|..] == [];
    return None;
  }

  lemma ReplayEdgesStep(g: GraphState, es: seq<Result<Edge, DocError>>, i: int)
    requires KeysAgree(g) && 0 <= i < |es|
    ensures ReplayEdges(g, es[i..]) ==
            if es[i].Err? then Err(es[i].error)
            else if es[i].value.src !in g.nodes || es[i].value.dest !in g.nodes then Err(UnknownEndpoint)
            else ReplayEdges(AddEdgeByInstanceF(g, es[i].value), es[i + 1..])
  {
    assert es[i..][0] == es[i] && es[i..][1..] == es[i + 1..];
  }

  /** The edge loop of `from_dict`: decode each item and add it by instance, stopping at the first failure. */
  method AddEdges(g: DiGraph, items: seq<Json>) returns (err: Option<DocError>)
    requires g.Valid()
    modifies g
    ensures g.Valid()
    ensures var r := ReplayEdges(old(g.State()), DecodeEdges(items));
            (err.None? <==> r.Ok?) && (r.Ok? ==> g.State() == r.value) && (r.Err? ==> err == Some(r.error))
  {
    ghost var es := DecodeEdges(items);
    DecodeEdgesAt(items);
    for i := 0 to |items|
      invariant g.Valid()
      invariant ReplayEdges(old(g.State()), es) == ReplayEdges(g.State(), es[i..])
    {
      var e := EdgeRecords.FromDict(items[i]);
      ReplayEdgesStep(g.State(), es, i);
      if e.Err? {
        return Some(e.error);
      }
      if e.value.src !in g.nodes || e.value.dest !in g.nodes {
        return Some(UnknownEndpoint);
      }
      g.AddEdgeByInstance(e.value);
    }
    assert es[|items|..] == [];
    return None;
  }

  /** `from_dict`: a fresh store with the document's nodes and edges, or the error it raises. */
  method FromDict(data: Json) returns (r: Result<DiGraph, DocError>)
    ensures r.Ok? <==> Load(data).Ok?
    ensures r.Err? ==> r.error == Load(data).error
    ensures r.Ok? ==> fresh(r.value) && r.value.Valid() && r.value.State() == Load(data).value
  {
    var g := new DiGraph();
    if !data.JObj? {
      return Err(WrongType);
    }
    var m := data.members;
    var nodes, edges := NodeCollection(m), EdgeCollection(m);
    if IsNone(nodes) || IsNone(edges) {
      return Err(MalformedGraph);
    }
    var nodeItems := NodeItems(nodes.value);
    if nodeItems.Err? {
      return Err(nodeItems.error);
    }
    var err := AddNodes(g, nodeItems.value);
    if err.Some? {
      return Err(err.value);
    }
    var edgeItems;
    if HasKey(m, "links") {
      edgeItems := FlattenLinks(edges.value);
    } else {
      edgeItems := Iterate(edges.value);
    }
    if edgeItems.Err? {
      return Err(edgeItems.error);
    }
    err := AddEdges(g, edgeItems.value);
    if err.Some? {
      return Err(err.value);
    }
    var mc := ModeCountOf(GetValue(m, "modeCount"));
    if mc.Err? {
      return Err(mc.error);
    }
    if mc.value.Some? {
      g.SetModeCount(mc.value.value);
    }
    return Ok(g);
  }
}
