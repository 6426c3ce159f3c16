/**
 * An abstract JSON value, as Python holds a document after `json.loads`: an
 * object is its list of members in order, with distinct names.
 */
module Json {
  import opened Wrappers

  datatype Json =
    | JNull
    | JBool(b: bool)
    | JNum(n: real)
    | JStr(s: string)
    | JArr(items: seq<Json>)
    | JObj(members: seq<(string, Json)>)

  /** `name in d` for a dict `d`. */
  predicate HasKey(members: seq<(string, Json)>, name: string)
  {
    exists i :: 0 <= i < |members| && members[i].0 == name
  }

  /** `d.get(name)`: the value of the first member called `name`, if any. */
  function Get(members: seq<(string, Json)>, name: string): (r: Option<Json>)
    ensures r.Some? <==> HasKey(members, name)
    ensures r.Some? ==> exists i :: 0 <= i < |members| && members[i] == (name, r.value)
  {
    if members == [] then None
    else if members[0].0 == name then Some(members[0].1)
    else
      var r := Get(members[1..], name);
      assert r.Some? ==> exists i :: 0 <= i < |members[1..]| && members[1..][i] == (name, r.value);
      assert HasKey(members[1..], name) ==> HasKey(members, name) by {
        if HasKey(members[1..], name) {
          var i :| 0 <= i < |members[1..]| && members[1..][i].0 == name;
          assert members[i + 1].0 == name;
        }
      }
      r
  }

  /** `dict.values()`. */
  function Values(members: seq<(string, Json)>): (vs: seq<Json>)
    ensures |vs| == |members|
    ensures forall i :: 0 <= i < |members| ==> vs[i] == members[i].1
  {
    if members == [] then [] else [members[0].1] + Values(members[1..])
  }

  /** Python truthiness: `None`, `False`, zero, and empty strings, lists and dicts are false. */
  predicate Truthy(j: Json)
  {
    match j
    case JNull => false
    case JBool(b) => b
    case JNum(n) => n != 0.0
    case JStr(s) => s != ""
    case JArr(items) => items != []
    case JObj(members) => members != []
  }

  /** Python's `a or b` where both operands come from `dict.get`, with `None` for an absent key. */
  function OrElse(a: Option<Json>, b: Option<Json>): (r: Option<Json>)
    ensures a.Some? && Truthy(a.value) ==> r == a
    ensures !(a.Some? && Truthy(a.value)) ==> r == b
  {
    if a.Some? && Truthy(a.value) then a else b
  }

  /** Member lists with pairwise distinct names, as every Python dict has. */
  predicate DistinctNames(members: seq<(string, Json)>)
  {
    forall i, j :: 0 <= i < j < |members| ==> members[i].0 != members[j].0
  }

  lemma GetDistinct(members: seq<(string, Json)>, i: nat)
    requires DistinctNames(members) && i < |members|
    ensures Get(members, members[i].0) == Some(members[i].1)
  {
    if i > 0 {
      assert members[0].0 != members[i].0;
      assert members[1..][i - 1] == members[i];
      GetDistinct(members[1..], i - 1);
    }
  }

  /** Adding a member under a new name: the names stay distinct and `get` finds the new value. */
  lemma GetSnoc(members: seq<(string, Json)>, name: string, v: Json)
    requires !HasKey(members, name)
    ensures DistinctNames(members) ==> DistinctNames(members + [(name, v)])
    ensures Get(members + [(name, v)], name) == Some(v)
  {
    GetLast(members, name, v);
  }

  lemma {:induction false} GetLast(members: seq<(string, Json)>, name: string, v: Json)
    requires !HasKey(members, name)
    ensures Get(members + [(name, v)], name) == Some(v)
    decreases |members|
  {
    if members != [] {
      var m := members + [(name, v)];
      assert m[0] == members[0] && m[1..] == members[1..] + [(name, v)];
      assert members[0].0 != name;
      GetLast(members[1..], name, v);
    }
  }

  /** Adding a member leaves `get` of every other name as it was. */
  lemma {:induction false} GetSnocOther(members: seq<(string, Json)>, name: string, v: Json, other: string)
    requires other != name
    ensures Get(members + [(name, v)], other) == Get(members, other)
    ensures HasKey(members + [(name, v)], other) == HasKey(members, other)
    decreases |members|
  {
    var m := members + [(name, v)];
    if members == [] {
      assert m == [(name, v)];
    } else {
      assert m[0] == members[0] && m[1..] == members[1..] + [(name, v)];
      GetSnocOther(members[1..], name, v, other);
    }
  }

  /** `d.get(name)` seen through `is None`: an absent member and an explicit `null` both read as `None`. */
  function GetValue(members: seq<(string, Json)>, name: string): (r: Option<Json>)
    ensures r.Some? <==> HasKey(members, name) && Get(members, name).value != JNull
    ensures r.Some? ==> r == Get(members, name)
  {
    match Get(members, name)
    case Some(JNull) => None
    case other => other
  }

  /** The ways a document can be rejected: Python's `ValueError`s and the type errors of foreign values. */
  datatype DocError =
    | MalformedGraph       // neither node nor edge collection, or a collection of the wrong shape
    | MissingNodeId        // a node document with neither `id` nor `key`
    | MalformedPosition    // a position that is not three coordinates
    | MissingEndpoint      // an edge document without `src` or `dest`
    | MissingWeight        // an edge document without `weight` and without `w`
    | UnknownEndpoint      // an edge whose endpoint is not a node of the graph
    | WrongType            // a member whose JSON type the loader cannot use

  predicate IsInteger(n: real) { n.Floor as real == n }

  /** A JSON number used where the source expects an integer. */
  function IntOf(j: Json): (r: Option<int>)
    ensures r.Some? <==> j.JNum? && IsInteger(j.n)
    ensures r.Some? ==> r.value as real == j.n
  {
    if j.JNum? && IsInteger(j.n) then Some(j.n.Floor) else None
  }

  lemma IntOfNum(i: int)
    ensures IntOf(JNum(i as real)) == Some(i)
  {
  }
}
