/**
 * Walks along stored edges: the paths `shortest_path` returns and the
 * reachability it decides (src/GraphAlgo.py:74-166).
 */
module Paths {
  import opened Graph
  import opened NodeRecords

  /** `s` holds only nodes and every out-neighbour of its members: a search kept inside `s` only looks up nodes. */
  ghost predicate ClosedRegion(nodes: map<int, Node>, outs: Adjacency, s: set<int>)
  {
    s <= nodes.Keys && forall u, v :: u in s && u in outs && v in outs[u] ==> v in s
  }

  /**
   * The roots are nodes, and every edge leaving a node reachable from one of
   * them ends at a node: each lookup of a neighbour that a search from the
   * roots can make finds a node. Edges elsewhere may dangle.
   */
  ghost predicate SafeFrom(nodes: map<int, Node>, outs: Adjacency, roots: set<int>)
  {
    roots <= nodes.Keys &&
    forall r, u, v :: r in roots && Reaches(outs, r, u) && u in outs && v in outs[u] ==> v in nodes
  }

  /** The nodes reachable from a root. */
  ghost function Region(nodes: map<int, Node>, outs: Adjacency, roots: set<int>): set<int>
  {
    set u | u in nodes && exists r :: r in roots && Reaches(outs, r, u)
  }

  /** Safe roots lie in a closed region: the nodes reachable from them. */
  lemma RegionClosed(nodes: map<int, Node>, outs: Adjacency, roots: set<int>)
    requires SafeFrom(nodes, outs, roots)
    ensures roots <= Region(nodes, outs, roots) && ClosedRegion(nodes, outs, Region(nodes, outs, roots))
  {
    var s := Region(nodes, outs, roots);
    forall r | r in roots
      ensures r in s
    {
      assert IsPath(outs, [r]) && [r][0] == r && Last([r]) == r;
    }
    forall u, v | u in s && u in outs && v in outs[u]
      ensures v in s
    {
      RegionStep(nodes, outs, roots, u, v);
    }
  }

  lemma RegionStep(nodes: map<int, Node>, outs: Adjacency, roots: set<int>, u: int, v: int)
    requires SafeFrom(nodes, outs, roots)
    requires u in Region(nodes, outs, roots) && u in outs && v in outs[u]
    ensures v in Region(nodes, outs, roots)
  {
    var r :| r in roots && Reaches(outs, r, u);
    var p :| IsPath(outs, p) && p[0] == r && Last(p) == u;
    Append(outs, p, v);
    assert Reaches(outs, r, v);
    assert v in nodes;
  }

  /** Everything in the region of roots drawn from `{a}` is reachable from `a`. */
  lemma RegionOfOne(nodes: map<int, Node>, outs: Adjacency, roots: set<int>, a: int, s: set<int>)
    requires roots <= {a} && s <= Region(nodes, outs, roots)
    ensures forall v :: v in s ==> Reaches(outs, a, v)
  {
    forall v | v in s
      ensures Reaches(outs, a, v)
    {
      var r :| r in roots && Reaches(outs, r, v);
    }
  }

  /** `p` is a non-empty list of ids in which each id after the first is an out-neighbour of the one before. */
  predicate IsPath(outs: Adjacency, p: seq<int>)
  {
    |p| >= 1 && forall i :: 0 <= i < |p| - 1 ==> p[i] in outs && p[i + 1] in outs[p[i]]
  }

  function Last(p: seq<int>): int
    requires |p| >= 1
  {
    p[|p| - 1]
  }

  /** Extending a path by an edge out of its last id gives a path. */
  lemma Append(outs: Adjacency, p: seq<int>, v: int)
    requires IsPath(outs, p) && Last(p) in outs && v in outs[Last(p)]
    ensures IsPath(outs, p + [v]) && (p + [v])[0] == p[0] && Last(p + [v]) == v
  {
    var q := p + [v];
    forall i | 0 <= i < |q| - 1
      ensures q[i] in outs && q[i + 1] in outs[q[i]]
    {
      assert q[i] == p[i];
    }
  }

  /** The sum of the weights of the edges a path follows. */
  function PathWeight(outs: Adjacency, p: seq<int>): real
    requires IsPath(outs, p)
    decreases |p|
  {
    if |p| == 1 then 0.0
    else
      assert IsPath(outs, p[1..]) by {
        forall i | 0 <= i < |p| - 2
          ensures p[1..][i] in outs && p[1..][i + 1] in outs[p[1..][i]]
        {
          assert p[1..][i] == p[i + 1] && p[1..][i + 1] == p[i + 2];
        }
      }
      outs[p[0]][p[1]].weight + PathWeight(outs, p[1..])
  }

  /** Some path leads from `a` to `b`; every id reaches itself. */
  ghost predicate Reaches(outs: Adjacency, a: int, b: int)
  {
    exists p :: IsPath(outs, p) && p[0] == a && Last(p) == b
  }

  /** Putting an edge `a -> p[0]` in front of a path gives a path, one edge heavier. */
  lemma Prepend(outs: Adjacency, a: int, p: seq<int>)
    requires IsPath(outs, p) && a in outs && p[0] in outs[a]
    ensures IsPath(outs, [a] + p) && Last([a] + p) == Last(p)
    ensures PathWeight(outs, [a] + p) == outs[a][p[0]].weight + PathWeight(outs, p)
  {
    var q := [a] + p;
    assert q[1..] == p;
    forall i | 0 <= i < |q| - 1
      ensures q[i] in outs && q[i + 1] in outs[q[i]]
    {
      if i > 0 {
        assert q[i] == p[i - 1] && q[i + 1] == p[i];
      }
    }
  }

  /** A set that holds `p[0]` and is closed under stored edges holds every id on `p`. */
  lemma {:induction false} ClosedHoldsPath(outs: Adjacency, s: set<int>, p: seq<int>)
    requires IsPath(outs, p) && p[0] in s
    requires forall u, v :: u in s && u in outs && v in outs[u] ==> v in s
    ensures Last(p) in s
    decreases |p|
  {
    if |p| > 1 {
      var q := p[..|p| - 1];
      assert IsPath(outs, q) by {
        forall i | 0 <= i < |q| - 1
          ensures q[i] in outs && q[i + 1] in outs[q[i]]
        {
          assert q[i] == p[i] && q[i + 1] == p[i + 1];
        }
      }
      ClosedHoldsPath(outs, s, q);
      var i := |p| - 2;
      assert Last(q) == p[i] && p[i] in outs && p[i + 1] in outs[p[i]];
    }
  }

  /** Everything reachable from a member of an edge-closed set is in the set. */
  lemma ClosedHoldsReachable(outs: Adjacency, s: set<int>, a: int, b: int)
    requires a in s && Reaches(outs, a, b)
    requires forall u, v :: u in s && u in outs && v in outs[u] ==> v in s
    ensures b in s
  {
    var p :| IsPath(outs, p) && p[0] == a && Last(p) == b;
    ClosedHoldsPath(outs, s, p);
  }
}
