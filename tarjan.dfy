/**
 * The bookkeeping of `__tarjan` and `__tarjan_DFS` (src/GraphAlgo.py:200-260):
 * the `seen_stack`, the `components` list, the `node_id_to_lowlink` map and
 * the `tag` each reached node is given, and what holds of them between two
 * steps of the search. The recursive search itself is `GraphAlgo.TarjanDfs`.
 */
module Tarjan {
  import opened NodeRecords
  import opened IdSets

  /** The ids listed in `s`. */
  function Elems(s: seq<int>): set<int>
  {
    set x | x in s
  }

  /** No id is listed twice. */
  predicate NoDup(s: seq<int>)
  {
    forall i, j :: 0 <= i < j < |s| ==> s[i] != s[j]
  }

  /** The components one after the other. */
  function Flatten(comps: seq<seq<int>>): seq<int>
  {
    if comps == [] then [] else Flatten(comps[..|comps| - 1]) + comps[|comps| - 1]
  }

  /** The nodes still tagged `NotVisited`: the ones a search may yet start from or descend into. */
  function ZeroTags(n: map<int, Node>): set<int>
  {
    set v | v in n && n[v].tag == NotVisited
  }

  /** Every id of `keys` is listed in exactly one component, and only once there; nothing else is listed. */
  ghost predicate Partition(comps: seq<seq<int>>, keys: set<int>)
  {
    (forall i :: 0 <= i < |comps| ==> NoDup(comps[i])) &&
    (forall v :: v in keys <==> exists i :: 0 <= i < |comps| && v in comps[i]) &&
    (forall i, j, v :: 0 <= i < j < |comps| && v in comps[i] ==> v !in comps[j])
  }

  // ---------------------------------------------------------------------------
  // What holds between two steps of the search

  /** The search has reached exactly `seen`: those nodes had tag 0 and now have tag `Visited`; no other node changed. */
  ghost predicate Retagged(n0: map<int, Node>, n: map<int, Node>, seen: set<int>)
  {
    n.Keys == n0.Keys && seen <= n0.Keys &&
    forall v :: v in n0 ==>
      (v in seen ==> n0[v].tag == NotVisited && n[v] == n0[v].(tag := Visited)) &&
      (v !in seen ==> n[v] == n0[v])
  }

  /**
   * Every reached node is on the stack or in exactly one finished component,
   * once, and has a low-link value.
   */
  ghost predicate Placed(seen: set<int>, stack: seq<int>, comps: seq<seq<int>>, low: map<int, int>)
  {
    NoDup(stack) && NoDup(Flatten(comps)) && Elems(stack) !! Elems(Flatten(comps)) &&
    Elems(stack) + Elems(Flatten(comps)) == seen && low.Keys == seen
  }

  /** Every node on the stack has a low-link value of at least `floor`. */
  ghost predicate LowAbove(stack: seq<int>, low: map<int, int>, floor: int)
  {
    forall w :: w in stack ==> w in low && low[w] >= floor
  }

  /** Everything pushed above the first `|stack|` entries was reached after `seen`. */
  ghost predicate PushedSince(stack: seq<int>, stack2: seq<int>, seen: set<int>)
  {
    forall i :: |stack| <= i < |stack2| ==> stack2[i] !in seen
  }

  // ---------------------------------------------------------------------------
  // Lemmas

  lemma ElemsAppend(a: seq<int>, b: seq<int>)
    ensures Elems(a + b) == Elems(a) + Elems(b)
  {
    assert forall x :: x in a + b <==> x in a || x in b;
  }

  /** A list without repeats is two lists without repeats that share nothing, and back. */
  lemma NoDupAppend(a: seq<int>, b: seq<int>)
    ensures NoDup(a + b) <==> NoDup(a) && NoDup(b) && Elems(a) !! Elems(b)
  {
    var s := a + b;
    if NoDup(s) {
      forall i, j | 0 <= i < j < |a|
        ensures a[i] != a[j]
      {
        assert s[i] == a[i] && s[j] == a[j];
      }
      forall i, j | 0 <= i < j < |b|
        ensures b[i] != b[j]
      {
        assert s[|a| + i] == b[i] && s[|a| + j] == b[j];
      }
      forall i, j | 0 <= i < |a| && 0 <= j < |b|
        ensures a[i] != b[j]
      {
        assert s[i] == a[i] && s[|a| + j] == b[j];
      }
    }
    if NoDup(a) && NoDup(b) && Elems(a) !! Elems(b) {
      forall i, j | 0 <= i < j < |s|
        ensures s[i] != s[j]
      {
        if j < |a| {
          assert s[i] == a[i] && s[j] == a[j];
        } else if i >= |a| {
          assert s[i] == b[i - |a|] && s[j] == b[j - |a|];
        } else {
          assert s[i] == a[i] && s[j] == b[j - |a|];
          assert s[i] in Elems(a) && s[j] in Elems(b);
        }
      }
    }
  }

  lemma FlattenSnoc(comps: seq<seq<int>>, c: seq<int>)
    ensures Flatten(comps + [c]) == Flatten(comps) + c
  {
    assert (comps + [c])[..|comps|] == comps;
  }

  /**
   * A list of components whose concatenation lists every id of `keys` once
   * and nothing else is a partition of `keys`.
   */
  lemma {:induction false} FlattenPartition(comps: seq<seq<int>>, keys: set<int>)
    requires NoDup(Flatten(comps)) && Elems(Flatten(comps)) == keys
    ensures Partition(comps, keys)
    decreases |comps|
  {
    if comps != [] {
      var init, last := comps[..|comps| - 1], comps[|comps| - 1];
      assert comps == init + [last];
      FlattenSnoc(init, last);
      NoDupAppend(Flatten(init), last);
      ElemsAppend(Flatten(init), last);
      FlattenPartition(init, Elems(Flatten(init)));
      forall v | v in keys
        ensures exists i :: 0 <= i < |comps| && v in comps[i]
      {
        if v !in Elems(Flatten(init)) {
          assert v in comps[|comps| - 1];
        } else {
          var i :| 0 <= i < |init| && v in init[i];
          assert v in comps[i];
        }
      }
      forall v, i | 0 <= i < |comps| && v in comps[i]
        ensures v in keys
      {
        if i < |init| {
          assert v in init[i];
        }
      }
      forall i, j, v | 0 <= i < j < |comps| && v in comps[i]
        ensures v !in comps[j]
      {
        assert v in init[i];
        if j < |init| {
          assert comps[j] == init[j];
        } else {
          assert v in Elems(Flatten(init));
          assert comps[j] == last;
        }
      }
    }
  }

  /** Under `Retagged`, the nodes still at tag 0 are the ones that were at 0 and are not reached. */
  lemma ZeroTagsRetagged(n0: map<int, Node>, n: map<int, Node>, seen: set<int>)
    requires Retagged(n0, n, seen)
    ensures ZeroTags(n) == ZeroTags(n0) - seen
  {
    forall v
      ensures v in ZeroTags(n) <==> v in ZeroTags(n0) && v !in seen
    {
      if v in n0 && v in seen {
        assert n[v].tag == Visited;
      }
    }
  }

  /** Reaching more nodes leaves no more at tag 0. */
  lemma ZeroTagsShrink(n0: map<int, Node>, n1: map<int, Node>, s1: set<int>, n2: map<int, Node>, s2: set<int>)
    requires Retagged(n0, n1, s1) && Retagged(n0, n2, s2) && s1 <= s2
    ensures |ZeroTags(n2)| <= |ZeroTags(n1)|
  {
    ZeroTagsRetagged(n0, n1, s1);
    ZeroTagsRetagged(n0, n2, s2);
    SubsetCard(ZeroTags(n2), ZeroTags(n1));
  }

  /** Tagging a node at tag 0 leaves fewer at tag 0. */
  lemma ZeroTagsFewer(n: map<int, Node>, v: int)
    requires v in n && n[v].tag == NotVisited
    ensures ZeroTags(n[v := n[v].(tag := Visited)]) < ZeroTags(n)
    ensures |ZeroTags(n[v := n[v].(tag := Visited)])| < |ZeroTags(n)|
  {
    assert ZeroTags(n[v := n[v].(tag := Visited)]) == ZeroTags(n) - {v};
  }

  /**
   * The first lines of `__tarjan_DFS`: tag the node, push it, give it the
   * next low-link value. The node joins the reached set.
   */
  lemma EnterKeeps(n0: map<int, Node>, n: map<int, Node>, seen: set<int>, stack: seq<int>,
                   comps: seq<seq<int>>, low: map<int, int>, floor: int, v: int, c: int)
    requires Retagged(n0, n, seen) && Placed(seen, stack, comps, low) && LowAbove(stack, low, floor)
    requires v in n && n[v].tag == NotVisited && floor <= c
    ensures v !in seen
    ensures Retagged(n0, n[v := n[v].(tag := Visited)], seen + {v})
    ensures Placed(seen + {v}, stack + [v], comps, low[v := c])
    ensures LowAbove(stack + [v], low[v := c], floor)
  {
    assert v !in seen;
    ElemsAppend(stack, [v]);
    assert Elems([v]) == {v};
    NoDupAppend(stack, [v]);
  }

  /** A search started when every tag was 0 and that tagged every node has reached every node. */
  lemma RetaggedAll(n0: map<int, Node>, n: map<int, Node>, seen: set<int>)
    requires Retagged(n0, n, seen)
    requires forall v :: v in n ==> n[v].tag != NotVisited
    ensures seen == ZeroTags(n0)
  {
    forall v | v in ZeroTags(n0)
      ensures v in seen
    {
      assert v in n && n[v].tag != NotVisited;
    }
    forall v | v in seen
      ensures v in ZeroTags(n0)
    {
      assert v in n0 && n0[v].tag == NotVisited;
    }
  }

  /** Taking over the low-link value of `u`, which is on the stack, for `v` keeps every node placed. */
  lemma LowerKeeps(seen: set<int>, stack: seq<int>, comps: seq<seq<int>>, low: map<int, int>, floor: int,
                   v: int, u: int)
    requires Placed(seen, stack, comps, low) && LowAbove(stack, low, floor)
    requires v in low && u in stack
    ensures Placed(seen, stack, comps, low[v := low[u]]) && LowAbove(stack, low[v := low[u]], floor)
  {
  }

  /** Two searches one after the other push only nodes neither had reached. */
  lemma PushedSinceTrans(stack: seq<int>, stack1: seq<int>, stack2: seq<int>, seen: set<int>, seen1: set<int>)
    requires stack <= stack1 <= stack2 && seen <= seen1
    requires PushedSince(stack, stack1, seen) && PushedSince(stack1, stack2, seen1)
    ensures PushedSince(stack, stack2, seen)
  {
    forall i | |stack| <= i < |stack2|
      ensures stack2[i] !in seen
    {
      if i < |stack1| {
        assert stack2[i] == stack1[i];
      }
    }
  }

  /** Low-link values kept by two steps in a row are kept by both together. */
  lemma LowKeptTrans(low: map<int, int>, low1: map<int, int>, low2: map<int, int>, v: int)
    requires low.Keys <= low1.Keys <= low2.Keys
    requires forall w :: w in low && w != v ==> low1[w] == low[w]
    requires forall w :: w in low1 && w != v ==> low2[w] == low1[w]
    ensures forall w :: w in low && w != v ==> low2[w] == low[w]
  {
    forall w | w in low && w != v
      ensures low2[w] == low[w]
    {
      assert w in low1;
    }
  }

  /** What was pushed since `seen` holds no node of `seen`. */
  lemma PushedAbove(stack: seq<int>, stack2: seq<int>, seen: set<int>)
    requires stack <= stack2 && PushedSince(stack, stack2, seen)
    ensures forall w :: w in seen ==> w !in stack2[|stack|..]
  {
    forall w | w in stack2[|stack|..]
      ensures w !in seen
    {
      var k :| 0 <= k < |stack2| - |stack| && stack2[|stack|..][k] == w;
      assert stack2[|stack| + k] == w;
    }
  }

  /** Popping the top of the stack from position `base` up into a new component keeps every node placed once. */
  lemma PopComponentKeeps(seen: set<int>, stack: seq<int>, comps: seq<seq<int>>, low: map<int, int>,
                 low2: map<int, int>, base: nat, floor: int)
    requires Placed(seen, stack, comps, low) && LowAbove(stack, low, floor) && base <= |stack|
    requires low2.Keys == low.Keys
    requires forall w :: w in low && w !in stack[base..] ==> low2[w] == low[w]
    ensures Placed(seen, stack[..base], comps + [stack[base..]], low2)
    ensures LowAbove(stack[..base], low2, floor)
  {
    var lower, upper := stack[..base], stack[base..];
    assert stack == lower + upper;
    NoDupAppend(lower, upper);
    ElemsAppend(lower, upper);
    FlattenSnoc(comps, upper);
    ElemsAppend(Flatten(comps), upper);
    NoDupAppend(Flatten(comps), upper);
    forall w | w in lower
      ensures w in low2 && low2[w] >= floor
    {
      assert w in Elems(lower) && w !in Elems(upper);
    }
  }

  /**
   * The `if is_root:` block: pop ids off `seen_stack` until the root `v`
   * (at position `base`) comes off, giving each the root's low-link value,
   * and append them as one component in the order they were pushed (the
   * source appends them as popped and then reverses the list).
   */
  method PopComponent(v: int, comps: seq<seq<int>>, low: map<int, int>, stack: seq<int>, ghost base: nat)
    returns (comps2: seq<seq<int>>, low2: map<int, int>, stack2: seq<int>)
    requires base < |stack| && stack[base] == v && NoDup(stack)
    requires v in low && forall w :: w in stack ==> w in low
    ensures stack2 == stack[..base] && comps2 == comps + [stack[base..]]
    ensures low2.Keys == low.Keys
    ensures forall w :: w in low ==> low2[w] == if w in stack[base..] then low[v] else low[w]
  {
    var scc: seq<int> := [];
    stack2, low2 := stack, low;
    while true
      invariant base < |stack2| <= |stack| && stack2 == stack[..|stack2|]
      invariant scc == stack[|stack2|..]
      invariant low2.Keys == low.Keys
      invariant forall w :: w in low ==> low2[w] == if w in scc then low[v] else low[w]
      decreases |stack2|
    {
      var top := stack2[|stack2| - 1];
      assert v !in scc by {
        assert forall k :: |stack2| <= k < |stack| ==> stack[k] != stack[base];
      }
      stack2 := stack2[..|stack2| - 1];
      assert stack[|stack2|..] == [top] + scc;
      scc := [top] + scc;
      low2 := low2[top := low2[v]];
      if top == v {
        assert |stack2| == base;
        break;
      }
    }
    comps2 := comps + [scc];
  }
}
