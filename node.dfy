/** `Node`: a graph vertex, its dict form, and the class-wide id counter (src/Node.py). */
module NodeRecords {
  import opened Wrappers
  import opened Json
  import opened Location
  import Text

  /** The value of `tag` when no algorithm is using the node. */
  const NotVisited: int := 0
  /** The `tag` the graph algorithms give a node they have reached, and one `shortest_path` has queued. */
  const Visited: int := 1
  const Queued: int := 2

  datatype Node = Node(key: int, info: string, tag: int, weight: real, pos: Option<Point>)

  /** `Node(key, geo)` with an explicit key: empty info, tag 0, weight 0. */
  function NewNode(key: int, geo: Option<Point>): (n: Node)
    ensures n.key == key && n.pos == geo
    ensures n.info == "" && n.tag == NotVisited && n.weight == 0.0
  {
    Node(key, "", NotVisited, 0.0, geo)
  }

  /** The class attribute `Node.__node_counter`, shared by every node built without a key. */
  class NodeIds {
    var counter: int

    constructor ()
      ensures counter == 0
    {
      counter := 0;
    }

    /** `__get_next_node_id`: hands out the counter and advances it. */
    method NextNodeId() returns (id: int)
      modifies this
      ensures id == old(counter) && counter == old(counter) + 1
    {
      id := counter;
      counter := counter + 1;
    }

    /** `Node(key, geo)`: a missing key is taken from the counter, which then advances. */
    method Create(key: Option<int>, geo: Option<Point>) returns (n: Node)
      modifies this
      ensures key.Some? ==> n == NewNode(key.value, geo) && counter == old(counter)
      ensures key.None? ==> n == NewNode(old(counter), geo) && counter == old(counter) + 1
    {
      if key.Some? {
        n := NewNode(key.value, geo);
      } else {
        var id := NextNodeId();
        n := NewNode(id, geo);
      }
    }
  }

  /** Two nodes built without keys get distinct, increasing ids. */
  method AutoIdsIncrease(ids: NodeIds) returns (a: Node, b: Node)
    modifies ids
    ensures a.key < b.key
    ensures a.key == old(ids.counter) && b.key == old(ids.counter) + 1
  {
    a := ids.Create(None, None);
    b := ids.Create(None, None);
  }

  /** Python's `int(x)` on a float: truncation toward zero. */
  function Truncate(r: real): (i: int)
    ensures r >= 0.0 ==> i == r.Floor
    ensures r < 0.0 ==> i == -((-r).Floor)
  {
    if r >= 0.0 then r.Floor else -((-r).Floor)
  }

  /** `int(node_id)` on a JSON value. */
  function IdOf(j: Json): (r: Result<int, DocError>)
    ensures j.JNum? ==> r == Ok(Truncate(j.n))
    ensures j.JStr? && Text.ParseInt(j.s).Some? ==> r == Ok(Text.ParseInt(j.s).value)
  {
    match j
    case JNum(n) => Ok(Truncate(n))
    case JStr(s) => if Text.ParseInt(s).Some? then Ok(Text.ParseInt(s).value) else Err(WrongType)
    case JBool(b) => Ok(if b then 1 else 0)
    case _ => Err(WrongType)
  }

  /** One coordinate of a dict position, as `float("{}".format(v))` reads it. */
  function CoordinateOf(j: Json): (r: Result<real, DocError>)
    ensures j.JNum? ==> r == Ok(j.n)
  {
    match j
    case JNum(n) => Ok(n)
    case JStr(s) => if Text.ParseReal(s).Some? then Ok(Text.ParseReal(s).value) else Err(WrongType)
    case _ => Err(WrongType)
  }

  /** The three comma-separated coordinates of a position string. */
  function PointOfText(s: string): (r: Result<Point, DocError>)
    ensures r.Ok? ==> |Text.Split(s, ',')| == 3
  {
    var parts := Text.Split(s, ',');
    if |parts| != 3 then Err(MalformedPosition)
    else
      var x, y, z := Text.ParseReal(parts[0]), Text.ParseReal(parts[1]), Text.ParseReal(parts[2]);
      if x.Some? && y.Some? && z.Some? then Ok(Point(x.value, y.value, z.value)) else Err(WrongType)
  }

  /**
   * The position member of a node document: a dict needs `x`, `y` and `z`; a
   * non-empty string is split on commas; a false value means "no position".
   */
  function PositionOf(pos: Option<Json>): (r: Result<Option<Point>, DocError>)
    ensures pos.None? ==> r == Ok(None)
    ensures pos.Some? && pos.value.JObj? &&
            !(HasKey(pos.value.members, "x") && HasKey(pos.value.members, "y") && HasKey(pos.value.members, "z")) ==>
              r == Err(MalformedPosition)
    ensures pos.Some? && !pos.value.JObj? && !Truthy(pos.value) ==> r == Ok(None)
    ensures r.Ok? && r.value.Some? ==> pos.Some? && Truthy(pos.value)
  {
    match pos
    case None => Ok(None)
    case Some(j) =>
      if j.JObj? then PositionOfDict(j.members)
      else if !Truthy(j) then Ok(None)
      else if j.JStr? then PositionOfString(j.s)
      else Err(WrongType)
  }

  /** A dict position: `x`, `y` and `z` must all be present and readable as coordinates. */
  function PositionOfDict(m: seq<(string, Json)>): (r: Result<Option<Point>, DocError>)
    ensures !(HasKey(m, "x") && HasKey(m, "y") && HasKey(m, "z")) ==> r == Err(MalformedPosition)
    ensures r.Ok? ==> m != [] && r.value.Some?
  {
    if !(HasKey(m, "x") && HasKey(m, "y") && HasKey(m, "z")) then Err(MalformedPosition)
    else
      match (CoordinateOf(Get(m, "x").value), CoordinateOf(Get(m, "y").value), CoordinateOf(Get(m, "z").value))
      case (Ok(x), Ok(y), Ok(z)) => Ok(Some(Point(x, y, z)))
      case _ => Err(WrongType)
  }

  /** A non-empty string position: three comma-separated coordinates. */
  function PositionOfString(s: string): (r: Result<Option<Point>, DocError>)
    ensures r.Ok? ==> r.value.Some? && |Text.Split(s, ',')| == 3
  {
    match PointOfText(s)
    case Ok(p) => Ok(Some(p))
    case Err(e) => Err(e)
  }

  /** The id member of a node document: `id`, else `key`. */
  function IdMember(m: seq<(string, Json)>): Option<Json>
  {
    if GetValue(m, "id").Some? then GetValue(m, "id") else GetValue(m, "key")
  }

  /** The position member of a node document: `pos`, else `geoLocation`. */
  function PositionMember(m: seq<(string, Json)>): Option<Json>
  {
    if GetValue(m, "pos").Some? then GetValue(m, "pos") else GetValue(m, "geoLocation")
  }

  function OptReal(v: Option<Json>): Result<Option<real>, DocError>
  {
    match v
    case None => Ok(None)
    case Some(j) => if j.JNum? then Ok(Some(j.n)) else Err(WrongType)
  }

  function OptInt(v: Option<Json>): Result<Option<int>, DocError>
  {
    match v
    case None => Ok(None)
    case Some(j) => if IntOf(j).Some? then Ok(Some(IntOf(j).value)) else Err(WrongType)
  }

  function OptString(v: Option<Json>): Result<Option<string>, DocError>
  {
    match v
    case None => Ok(None)
    case Some(j) => if j.JStr? then Ok(Some(j.s)) else Err(WrongType)
  }

  /** `Node.from_dict`. */
  function FromDict(data: Json): (r: Result<Node, DocError>)
    ensures data.JObj? && !HasKey(data.members, "id") && !HasKey(data.members, "key") ==>
              r == Err(MissingNodeId)
    ensures r.Ok? ==> data.JObj? && IdMember(data.members).Some? &&
                      IdOf(IdMember(data.members).value) == Ok(r.value.key)
    ensures r.Ok? ==> PositionOf(PositionMember(data.members)) == Ok(r.value.pos)
    ensures r.Ok? && GetValue(data.members, "weight").Some? ==>
              GetValue(data.members, "weight") == Some(JNum(r.value.weight))
    ensures r.Ok? && GetValue(data.members, "weight").None? ==> r.value.weight == 0.0
    ensures r.Ok? && GetValue(data.members, "info").Some? ==>
              GetValue(data.members, "info") == Some(JStr(r.value.info))
    ensures r.Ok? && GetValue(data.members, "info").None? ==> r.value.info == ""
    ensures r.Ok? && GetValue(data.members, "tag").Some? ==>
              GetValue(data.members, "tag") == Some(JNum(r.value.tag as real))
    ensures r.Ok? && GetValue(data.members, "tag").None? ==> r.value.tag == NotVisited
  {
    if !data.JObj? then Err(WrongType)
    else
      var m := data.members;
      if !HasKey(m, "id") && !HasKey(m, "key") then Err(MissingNodeId)
      else
        var id := IdMember(m);
        if id.None? then Err(WrongType)
        else match (IdOf(id.value), PositionOf(PositionMember(m)))
          case (Ok(key), Ok(pos)) =>
            (match (OptReal(GetValue(m, "weight")), OptInt(GetValue(m, "tag")), OptString(GetValue(m, "info")))
             case (Ok(weight), Ok(tag), Ok(info)) =>
               var n := NewNode(key, pos);
               Ok(n.(weight := if weight.Some? then weight.value else n.weight,
                     tag := if tag.Some? then tag.value else n.tag,
                     info := if info.Some? then info.value else n.info))
             case _ => Err(WrongType))
          case (Err(e), _) => Err(e)
          case (_, Err(e)) => Err(e)
  }

  /**
   * Loading succeeds exactly when the id (`id`, else `key`) is present and
   * integral, the position (`pos`, else `geoLocation`) is absent or loads,
   * and each of `weight`, `tag` and `info` is null, absent or of its own
   * type; members may be present or absent in any combination.
   */
  lemma FromDictOk(m: seq<(string, Json)>)
    ensures FromDict(JObj(m)).Ok? <==>
              IdMember(m).Some? && IdOf(IdMember(m).value).Ok? && PositionOf(PositionMember(m)).Ok? &&
              (GetValue(m, "weight").Some? ==> GetValue(m, "weight").value.JNum?) &&
              (GetValue(m, "tag").Some? ==> IntOf(GetValue(m, "tag").value).Some?) &&
              (GetValue(m, "info").Some? ==> GetValue(m, "info").value.JStr?)
  {
  }

  function PointToDict(p: Point): (j: Json)
    ensures j.JObj? && DistinctNames(j.members)
  {
    var m := [("x", JNum(p.x)), ("y", JNum(p.y)), ("z", JNum(p.z))];
    assert DistinctNames(m);
    JObj(m)
  }

  /** `Node.to_dict`: key, weight, info and tag, and `geoLocation` only when a position is set. */
  function ToDict(n: Node): (j: Json)
    ensures j.JObj? && DistinctNames(j.members)
    ensures Get(j.members, "key") == Some(JNum(n.key as real))
    ensures Get(j.members, "weight") == Some(JNum(n.weight))
    ensures Get(j.members, "info") == Some(JStr(n.info))
    ensures Get(j.members, "tag") == Some(JNum(n.tag as real))
    ensures HasKey(j.members, "geoLocation") <==> n.pos.Some?
    ensures n.pos.Some? ==> Get(j.members, "geoLocation") == Some(PointToDict(n.pos.value))
    ensures !HasKey(j.members, "id") && !HasKey(j.members, "pos")
  {
    var m := [("key", JNum(n.key as real)), ("weight", JNum(n.weight)), ("info", JStr(n.info)),
              ("tag", JNum(n.tag as real))]
             + (if n.pos.Some? then [("geoLocation", PointToDict(n.pos.value))] else []);
    ToDictMembers(n, m);
    JObj(m)
  }

  lemma ToDictMembers(n: Node, m: seq<(string, Json)>)
    requires m == [("key", JNum(n.key as real)), ("weight", JNum(n.weight)), ("info", JStr(n.info)),
                   ("tag", JNum(n.tag as real))]
                  + (if n.pos.Some? then [("geoLocation", PointToDict(n.pos.value))] else [])
    ensures DistinctNames(m)
    ensures Get(m, "key") == Some(JNum(n.key as real))
    ensures Get(m, "weight") == Some(JNum(n.weight))
    ensures Get(m, "info") == Some(JStr(n.info))
    ensures Get(m, "tag") == Some(JNum(n.tag as real))
    ensures HasKey(m, "geoLocation") <==> n.pos.Some?
    ensures n.pos.Some? ==> Get(m, "geoLocation") == Some(PointToDict(n.pos.value))
    ensures !HasKey(m, "id") && !HasKey(m, "pos")
  {
    var base := [("key", JNum(n.key as real)), ("weight", JNum(n.weight)), ("info", JStr(n.info)),
                 ("tag", JNum(n.tag as real))];
    BaseMembers(base, n);
    if n.pos.Some? {
      var geo := PointToDict(n.pos.value);
      assert m == base + [("geoLocation", geo)];
      GetSnoc(base, "geoLocation", geo);
      GetSnocOther(base, "geoLocation", geo, "key");
      GetSnocOther(base, "geoLocation", geo, "weight");
      GetSnocOther(base, "geoLocation", geo, "info");
      GetSnocOther(base, "geoLocation", geo, "tag");
      GetSnocOther(base, "geoLocation", geo, "id");
      GetSnocOther(base, "geoLocation", geo, "pos");
    } else {
      assert m == base;
    }
  }

  lemma BaseMembers(base: seq<(string, Json)>, n: Node)
    requires base == [("key", JNum(n.key as real)), ("weight", JNum(n.weight)), ("info", JStr(n.info)),
                      ("tag", JNum(n.tag as real))]
    ensures DistinctNames(base)
    ensures Get(base, "key") == Some(JNum(n.key as real))
    ensures Get(base, "weight") == Some(JNum(n.weight))
    ensures Get(base, "info") == Some(JStr(n.info))
    ensures Get(base, "tag") == Some(JNum(n.tag as real))
    ensures !HasKey(base, "geoLocation") && !HasKey(base, "id") && !HasKey(base, "pos")
  {
    assert DistinctNames(base);
    GetDistinct(base, 0); GetDistinct(base, 1); GetDistinct(base, 2); GetDistinct(base, 3);
    assert forall j :: 0 <= j < |base| ==> base[j].0 != "geoLocation" && base[j].0 != "id" && base[j].0 != "pos";
  }

  lemma PositionRoundTrip(p: Point)
    ensures PositionOf(Some(PointToDict(p))) == Ok(Some(p))
  {
    var pm := PointToDict(p).members;
    GetDistinct(pm, 0); GetDistinct(pm, 1); GetDistinct(pm, 2);
    assert HasKey(pm, "x") && HasKey(pm, "y") && HasKey(pm, "z");
  }

  /** Loading what `to_dict` wrote gives back the same node: key, weight, info, tag and position. */
  lemma RoundTrip(n: Node)
    ensures FromDict(ToDict(n)) == Ok(n)
  {
    var m := ToDict(n).members;
    assert HasKey(m, "key");
    assert IdMember(m) == Some(JNum(n.key as real));
    assert IdOf(IdMember(m).value) == Ok(n.key);
    if n.pos.Some? {
      assert PositionMember(m) == Some(PointToDict(n.pos.value));
      PositionRoundTrip(n.pos.value);
    } else {
      assert PositionMember(m) == None;
    }
    assert PositionOf(PositionMember(m)) == Ok(n.pos);
    assert OptReal(GetValue(m, "weight")) == Ok(Some(n.weight));
    IntOfNum(n.tag);
    assert OptInt(GetValue(m, "tag")) == Ok(Some(n.tag));
    assert OptString(GetValue(m, "info")) == Ok(Some(n.info));
  }

  /** A record whose id and position members load, with no weight, tag or info: the defaults fill in the rest. */
  lemma FromDictDefaults(m: seq<(string, Json)>, key: int, pos: Option<Point>)
    requires IdMember(m) == Some(JNum(key as real)) && PositionOf(PositionMember(m)) == Ok(pos)
    requires !HasKey(m, "weight") && !HasKey(m, "tag") && !HasKey(m, "info")
    ensures FromDict(JObj(m)) == Ok(NewNode(key, pos))
  {
    assert HasKey(m, "id") || HasKey(m, "key");
    TruncateInt(key);
    assert GetValue(m, "weight") == None && GetValue(m, "tag") == None && GetValue(m, "info") == None;
  }

  /** A record carrying id, position, weight, info and tag loads with exactly those values. */
  lemma FromDictValues(m: seq<(string, Json)>, key: int, pos: Option<Point>, w: real, info: string, tag: int)
    requires IdMember(m) == Some(JNum(key as real)) && PositionOf(PositionMember(m)) == Ok(pos)
    requires GetValue(m, "weight") == Some(JNum(w))
    requires GetValue(m, "info") == Some(JStr(info)) && GetValue(m, "tag") == Some(JNum(tag as real))
    ensures FromDict(JObj(m)) == Ok(Node(key, info, tag, w, pos))
  {
    assert HasKey(m, "id") || HasKey(m, "key");
    TruncateInt(key);
    IntOfNum(tag);
  }

  /**
   * `{'id': 1, 'pos': "1.0,2.0,3.0", 'weight': 123, 'info': "amazinginfo", 'tag': 4655}`
   * from the unit tests: every value is kept and the position string is read as a point.
   */
  lemma ValuesExample()
    ensures FromDict(JObj([("id", JNum(1.0)), ("pos", JStr("1.0,2.0,3.0")), ("weight", JNum(123.0)),
                           ("info", JStr("amazinginfo")), ("tag", JNum(4655.0))]))
              == Ok(Node(1, "amazinginfo", 4655, 123.0, Some(Point(1.0, 2.0, 3.0))))
  {
    var m := [("id", JNum(1.0)), ("pos", JStr("1.0,2.0,3.0")), ("weight", JNum(123.0)),
              ("info", JStr("amazinginfo")), ("tag", JNum(4655.0))];
    ValuesMembers(m);
    PointTextExample();
    FromDictValues(m, 1, Some(Point(1.0, 2.0, 3.0)), 123.0, "amazinginfo", 4655);
  }

  lemma ValuesMembers(m: seq<(string, Json)>)
    requires m == [("id", JNum(1.0)), ("pos", JStr("1.0,2.0,3.0")), ("weight", JNum(123.0)),
                   ("info", JStr("amazinginfo")), ("tag", JNum(4655.0))]
    ensures IdMember(m) == Some(JNum(1.0)) && PositionMember(m) == Some(JStr("1.0,2.0,3.0"))
    ensures GetValue(m, "weight") == Some(JNum(123.0))
    ensures GetValue(m, "info") == Some(JStr("amazinginfo")) && GetValue(m, "tag") == Some(JNum(4655.0))
  {
    ValuesGets(m);
  }

  lemma ValuesGets(m: seq<(string, Json)>)
    requires m == [("id", JNum(1.0)), ("pos", JStr("1.0,2.0,3.0")), ("weight", JNum(123.0)),
                   ("info", JStr("amazinginfo")), ("tag", JNum(4655.0))]
    ensures Get(m, "id") == Some(JNum(1.0)) && Get(m, "pos") == Some(JStr("1.0,2.0,3.0"))
    ensures Get(m, "weight") == Some(JNum(123.0))
    ensures Get(m, "info") == Some(JStr("amazinginfo")) && Get(m, "tag") == Some(JNum(4655.0))
  {
    ValuesDistinct(m);
    GetDistinct(m, 0); GetDistinct(m, 1); GetDistinct(m, 2); GetDistinct(m, 3); GetDistinct(m, 4);
  }

  lemma ValuesDistinct(m: seq<(string, Json)>)
    requires m == [("id", JNum(1.0)), ("pos", JStr("1.0,2.0,3.0")), ("weight", JNum(123.0)),
                   ("info", JStr("amazinginfo")), ("tag", JNum(4655.0))]
    ensures DistinctNames(m)
  {
  }

  /** The position string of the unit test names the point (1, 2, 3). */
  lemma PointTextExample()
    ensures PositionOf(Some(JStr("1.0,2.0,3.0"))) == Ok(Some(Point(1.0, 2.0, 3.0)))
  {
    PointTextParts();
    Text.ParseOneDecimal('1');
    Text.ParseOneDecimal('2');
    Text.ParseOneDecimal('3');
    PointOfParts("1.0,2.0,3.0", ['1', '.', '0'], ['2', '.', '0'], ['3', '.', '0'], 1.0, 2.0, 3.0);
  }

  /** A string of three readable comma-separated coordinates is the position they name. */
  lemma PointOfParts(s: string, a: string, b: string, c: string, x: real, y: real, z: real)
    requires s != [] && Text.Split(s, ',') == [a, b, c]
    requires Text.ParseReal(a) == Some(x) && Text.ParseReal(b) == Some(y) && Text.ParseReal(c) == Some(z)
    ensures PositionOf(Some(JStr(s))) == Ok(Some(Point(x, y, z)))
  {
    var parts := Text.Split(s, ',');
    assert parts[0] == a && parts[1] == b && parts[2] == c;
    assert PointOfText(s) == Ok(Point(x, y, z));
    assert Truthy(JStr(s));
  }

  lemma PointTextParts()
    ensures Text.Split("1.0,2.0,3.0", ',') == [['1', '.', '0'], ['2', '.', '0'], ['3', '.', '0']]
  {
    var a, b, c := ['1', '.', '0'], ['2', '.', '0'], ['3', '.', '0'];
    assert "1.0,2.0,3.0" == a + [','] + b + [','] + c;
    Text.SplitThree("1.0,2.0,3.0", a, b, c, ',');
  }

  lemma TruncateInt(i: int)
    ensures Truncate(i as real) == i
  {
  }

  /** `{'id': 1}` from the unit tests: every optional field takes its default. */
  lemma DefaultsExample()
    ensures FromDict(JObj([("id", JNum(1.0))])) == Ok(Node(1, "", 0, 0.0, None))
  {
    var m := [("id", JNum(1.0))];
    assert m[0].0 == "id";
    assert forall i :: 0 <= i < |m| ==> m[i].0 != "key" && m[i].0 != "pos" && m[i].0 != "geoLocation";
    assert forall i :: 0 <= i < |m| ==> m[i].0 != "weight" && m[i].0 != "tag" && m[i].0 != "info";
    FromDictDefaults(m, 1, None);
  }

  /** `id` takes precedence over `key`. */
  lemma IdBeforeKey(i: int, k: int)
    ensures FromDict(JObj([("key", JNum(k as real)), ("id", JNum(i as real))])).Ok?
    ensures FromDict(JObj([("key", JNum(k as real)), ("id", JNum(i as real))])).value.key == i
  {
    var m := [("key", JNum(k as real)), ("id", JNum(i as real))];
    IdBeforeKeyMembers(m, i, k);
    FromDictDefaults(m, i, None);
  }

  lemma IdBeforeKeyMembers(m: seq<(string, Json)>, i: int, k: int)
    requires m == [("key", JNum(k as real)), ("id", JNum(i as real))]
    ensures IdMember(m) == Some(JNum(i as real)) && PositionMember(m) == None
    ensures !HasKey(m, "weight") && !HasKey(m, "tag") && !HasKey(m, "info")
  {
    assert DistinctNames(m);
    GetDistinct(m, 1);
    assert forall j :: 0 <= j < |m| ==> m[j].0 != "pos" && m[j].0 != "geoLocation";
    assert forall j :: 0 <= j < |m| ==> m[j].0 != "weight" && m[j].0 != "tag" && m[j].0 != "info";
  }

  /** `pos` takes precedence over `geoLocation`. */
  lemma PosBeforeGeoLocation(p: Point, q: Point)
    ensures FromDict(JObj([("id", JNum(0.0)), ("geoLocation", PointToDict(q)), ("pos", PointToDict(p))])).Ok?
    ensures FromDict(JObj([("id", JNum(0.0)), ("geoLocation", PointToDict(q)), ("pos", PointToDict(p))])).value.pos
              == Some(p)
  {
    var m := [("id", JNum(0.0)), ("geoLocation", PointToDict(q)), ("pos", PointToDict(p))];
    PosBeforeGeoLocationMembers(m, p, q);
    PositionRoundTrip(p);
    FromDictDefaults(m, 0, Some(p));
  }

  lemma PosBeforeGeoLocationMembers(m: seq<(string, Json)>, p: Point, q: Point)
    requires m == [("id", JNum(0.0)), ("geoLocation", PointToDict(q)), ("pos", PointToDict(p))]
    ensures IdMember(m) == Some(JNum(0.0)) && PositionMember(m) == Some(PointToDict(p))
    ensures !HasKey(m, "weight") && !HasKey(m, "tag") && !HasKey(m, "info")
  {
    assert DistinctNames(m);
    GetDistinct(m, 0); GetDistinct(m, 2);
    assert forall j :: 0 <= j < |m| ==> m[j].0 != "weight" && m[j].0 != "tag" && m[j].0 != "info";
  }
}
