/** `Edge`: a directed weighted arc and its dict form (src/Edge.py). */
module EdgeRecords {
  import opened Wrappers
  import opened Json

  /** `Edge.INVALID_ENTRY`, the default of `src`, `dest` and `tag`. */
  const InvalidEntry: int := -1

  datatype Edge = Edge(src: int, dest: int, weight: real, info: string, tag: int)

  /** `Edge(src, dest, weight, info, tag)` where every argument may be `None`. */
  function NewEdge(src: Option<int>, dest: Option<int>, weight: Option<real>,
                   info: Option<string>, tag: Option<int>): (e: Edge)
    ensures src.Some? ==> e.src == src.value
    ensures dest.Some? ==> e.dest == dest.value
    ensures weight.Some? ==> e.weight == weight.value
    ensures info.Some? ==> e.info == info.value
    ensures tag.Some? ==> e.tag == tag.value
  {
    Edge(if src.Some? then src.value else InvalidEntry,
         if dest.Some? then dest.value else InvalidEntry,
         if weight.Some? then weight.value else 0.0,
         if info.Some? then info.value else "",
         if tag.Some? then tag.value else InvalidEntry)
  }

  /** `Edge()` with no arguments: endpoints and tag invalid, weight 0, empty info. */
  lemma NewEdgeDefaults()
    ensures NewEdge(None, None, None, None, None) == Edge(InvalidEntry, InvalidEntry, 0.0, "", InvalidEntry)
  {
  }

  /** An optional integer member: `None` stays `None`, an integral number is used, anything else is rejected. */
  function OptInt(v: Option<Json>): Result<Option<int>, DocError>
  {
    match v
    case None => Ok(None)
    case Some(j) => if IntOf(j).Some? then Ok(Some(IntOf(j).value)) else Err(WrongType)
  }

  function OptString(v: Option<Json>): Result<Option<string>, DocError>
  {
    match v
    case None => Ok(None)
    case Some(j) => if j.JStr? then Ok(Some(j.s)) else Err(WrongType)
  }

  /** `Edge.from_dict`. */
  function FromDict(data: Json): (r: Result<Edge, DocError>)
    ensures data.JObj? && !(HasKey(data.members, "src") && HasKey(data.members, "dest")) ==>
              r == Err(MissingEndpoint)
    ensures data.JObj? && HasKey(data.members, "src") && HasKey(data.members, "dest") &&
            GetValue(data.members, "weight").None? && GetValue(data.members, "w").None? ==>
              r == Err(MissingWeight)
    ensures r.Ok? ==> data.JObj?
    ensures r.Ok? && GetValue(data.members, "weight").Some? ==>
              GetValue(data.members, "weight") == Some(JNum(r.value.weight))
    ensures r.Ok? && GetValue(data.members, "weight").None? ==>
              GetValue(data.members, "w") == Some(JNum(r.value.weight))
    ensures r.Ok? && GetValue(data.members, "src").Some? ==>
              GetValue(data.members, "src") == Some(JNum(r.value.src as real))
    ensures r.Ok? && GetValue(data.members, "src").None? ==> r.value.src == InvalidEntry
    ensures r.Ok? && GetValue(data.members, "dest").Some? ==>
              GetValue(data.members, "dest") == Some(JNum(r.value.dest as real))
    ensures r.Ok? && GetValue(data.members, "dest").None? ==> r.value.dest == InvalidEntry
    ensures r.Ok? && GetValue(data.members, "info").Some? ==>
              GetValue(data.members, "info") == Some(JStr(r.value.info))
    ensures r.Ok? && GetValue(data.members, "info").None? ==> r.value.info == ""
    ensures r.Ok? && GetValue(data.members, "tag").Some? ==>
              GetValue(data.members, "tag") == Some(JNum(r.value.tag as real))
    ensures r.Ok? && GetValue(data.members, "tag").None? ==> r.value.tag == InvalidEntry
  {
    if !data.JObj? then Err(WrongType)
    else
      var m := data.members;
      if !HasKey(m, "src") || !HasKey(m, "dest") then Err(MissingEndpoint)
      else
        var weight := if GetValue(m, "weight").Some? then GetValue(m, "weight") else GetValue(m, "w");
        if weight.None? then Err(MissingWeight)
        else if !weight.value.JNum? then Err(WrongType)
        else match (OptInt(GetValue(m, "src")), OptInt(GetValue(m, "dest")),
                    OptString(GetValue(m, "info")), OptInt(GetValue(m, "tag")))
          case (Ok(src), Ok(dest), Ok(info), Ok(tag)) =>
            Ok(NewEdge(src, dest, Some(weight.value.n), info, tag))
          case _ => Err(WrongType)
  }

  /** `Edge.to_dict`: exactly src, dest, weight, info and tag. */
  function ToDict(e: Edge): (j: Json)
    ensures j.JObj? && DistinctNames(j.members)
    ensures Get(j.members, "src") == Some(JNum(e.src as real))
    ensures Get(j.members, "dest") == Some(JNum(e.dest as real))
    ensures Get(j.members, "weight") == Some(JNum(e.weight))
    ensures Get(j.members, "info") == Some(JStr(e.info))
    ensures Get(j.members, "tag") == Some(JNum(e.tag as real))
    ensures |j.members| == 5
  {
    var m := [("src", JNum(e.src as real)), ("dest", JNum(e.dest as real)), ("weight", JNum(e.weight)),
              ("info", JStr(e.info)), ("tag", JNum(e.tag as real))];
    assert DistinctNames(m);
    GetDistinct(m, 0); GetDistinct(m, 1); GetDistinct(m, 2); GetDistinct(m, 3); GetDistinct(m, 4);
    JObj(m)
  }

  /** Loading what `to_dict` wrote gives back the same edge, field by field. */
  lemma RoundTrip(e: Edge)
    ensures FromDict(ToDict(e)) == Ok(e)
  {
    var m := ToDict(e).members;
    assert GetValue(m, "src") == Some(JNum(e.src as real)) && GetValue(m, "dest") == Some(JNum(e.dest as real));
    assert GetValue(m, "weight") == Some(JNum(e.weight));
    assert GetValue(m, "info") == Some(JStr(e.info)) && GetValue(m, "tag") == Some(JNum(e.tag as real));
    FromDictValues(m, e.src, e.dest, e.weight, e.info, e.tag);
  }

  /**
   * A record with integral endpoints, a usable weight (`weight` or, when that
   * is absent or null, `w`) and no `info` or `tag` loads with the defaults.
   */
  lemma FromDictDefaults(m: seq<(string, Json)>, src: int, dest: int, w: real)
    requires Get(m, "src") == Some(JNum(src as real)) && Get(m, "dest") == Some(JNum(dest as real))
    requires GetValue(m, "weight") == Some(JNum(w)) ||
             (GetValue(m, "weight").None? && GetValue(m, "w") == Some(JNum(w)))
    requires !HasKey(m, "info") && !HasKey(m, "tag")
    ensures FromDict(JObj(m)) == Ok(Edge(src, dest, w, "", InvalidEntry))
  {
    IntOfNum(src);
    IntOfNum(dest);
  }

  /** A record carrying all five members loads with exactly those values. */
  lemma FromDictValues(m: seq<(string, Json)>, src: int, dest: int, w: real, info: string, tag: int)
    requires GetValue(m, "src") == Some(JNum(src as real)) && GetValue(m, "dest") == Some(JNum(dest as real))
    requires GetValue(m, "weight") == Some(JNum(w))
    requires GetValue(m, "info") == Some(JStr(info)) && GetValue(m, "tag") == Some(JNum(tag as real))
    ensures FromDict(JObj(m)) == Ok(Edge(src, dest, w, info, tag))
  {
    IntOfNum(src);
    IntOfNum(dest);
    IntOfNum(tag);
  }

  /**
   * Loading succeeds exactly when `src` and `dest` are present, the weight
   * (`weight`, else `w`) is a number, and each of `src`, `dest`, `info` and
   * `tag` is null, absent or of its own type; members may be present or
   * absent in any combination.
   */
  lemma FromDictOk(m: seq<(string, Json)>)
    ensures FromDict(JObj(m)).Ok? <==>
              HasKey(m, "src") && HasKey(m, "dest") &&
              (GetValue(m, "weight").Some? || GetValue(m, "w").Some?) &&
              (if GetValue(m, "weight").Some? then GetValue(m, "weight") else GetValue(m, "w")).value.JNum? &&
              (GetValue(m, "src").Some? ==> IntOf(GetValue(m, "src").value).Some?) &&
              (GetValue(m, "dest").Some? ==> IntOf(GetValue(m, "dest").value).Some?) &&
              (GetValue(m, "info").Some? ==> GetValue(m, "info").value.JStr?) &&
              (GetValue(m, "tag").Some? ==> IntOf(GetValue(m, "tag").value).Some?)
  {
  }

  /** `{'src': 1, 'dest': 2, 'weight': 3, 'info': "yuri", 'tag': 4655}` from the unit tests: every value is kept. */
  lemma ValuesExample()
    ensures FromDict(JObj([("src", JNum(1.0)), ("dest", JNum(2.0)), ("weight", JNum(3.0)),
                           ("info", JStr("yuri")), ("tag", JNum(4655.0))]))
              == Ok(Edge(1, 2, 3.0, "yuri", 4655))
  {
    var m := [("src", JNum(1.0)), ("dest", JNum(2.0)), ("weight", JNum(3.0)),
              ("info", JStr("yuri")), ("tag", JNum(4655.0))];
    ValuesMembers(m);
    FromDictValues(m, 1, 2, 3.0, "yuri", 4655);
  }

  lemma ValuesMembers(m: seq<(string, Json)>)
    requires m == [("src", JNum(1.0)), ("dest", JNum(2.0)), ("weight", JNum(3.0)),
                   ("info", JStr("yuri")), ("tag", JNum(4655.0))]
    ensures GetValue(m, "src") == Some(JNum(1.0)) && GetValue(m, "dest") == Some(JNum(2.0))
    ensures GetValue(m, "weight") == Some(JNum(3.0))
    ensures GetValue(m, "info") == Some(JStr("yuri")) && GetValue(m, "tag") == Some(JNum(4655.0))
  {
    assert DistinctNames(m);
    GetDistinct(m, 0); GetDistinct(m, 1); GetDistinct(m, 2); GetDistinct(m, 3); GetDistinct(m, 4);
  }

  /** `{'src': 1, 'dest': 2, 'w': 3}` from the unit tests: the short weight name, defaults for the rest. */
  lemma ShortWeightExample()
    ensures FromDict(JObj([("src", JNum(1.0)), ("dest", JNum(2.0)), ("w", JNum(3.0))]))
              == Ok(Edge(1, 2, 3.0, "", InvalidEntry))
  {
    var m := [("src", JNum(1.0)), ("dest", JNum(2.0)), ("w", JNum(3.0))];
    ShortWeightMembers(m);
    FromDictDefaults(m, 1, 2, 3.0);
  }

  lemma ShortWeightMembers(m: seq<(string, Json)>)
    requires m == [("src", JNum(1.0)), ("dest", JNum(2.0)), ("w", JNum(3.0))]
    ensures Get(m, "src") == Some(JNum(1.0)) && Get(m, "dest") == Some(JNum(2.0))
    ensures GetValue(m, "weight").None? && GetValue(m, "w") == Some(JNum(3.0))
    ensures !HasKey(m, "info") && !HasKey(m, "tag")
  {
    assert DistinctNames(m);
    GetDistinct(m, 0); GetDistinct(m, 1); GetDistinct(m, 2);
    assert forall i :: 0 <= i < |m| ==> m[i].0 != "weight" && m[i].0 != "info" && m[i].0 != "tag";
  }

  /** An explicit weight of 0 is kept, not replaced by `w`: the test is `is None`, not truthiness. */
  lemma ZeroWeightKept(w: real)
    ensures FromDict(JObj([("src", JNum(1.0)), ("dest", JNum(2.0)), ("weight", JNum(0.0)), ("w", JNum(w))]))
              == Ok(Edge(1, 2, 0.0, "", InvalidEntry))
  {
    var m := [("src", JNum(1.0)), ("dest", JNum(2.0)), ("weight", JNum(0.0)), ("w", JNum(w))];
    ZeroWeightMembers(m, w);
    FromDictDefaults(m, 1, 2, 0.0);
  }

  lemma ZeroWeightMembers(m: seq<(string, Json)>, w: real)
    requires m == [("src", JNum(1.0)), ("dest", JNum(2.0)), ("weight", JNum(0.0)), ("w", JNum(w))]
    ensures Get(m, "src") == Some(JNum(1.0)) && Get(m, "dest") == Some(JNum(2.0))
    ensures GetValue(m, "weight") == Some(JNum(0.0))
    ensures !HasKey(m, "info") && !HasKey(m, "tag")
  {
    assert DistinctNames(m);
    GetDistinct(m, 0); GetDistinct(m, 1); GetDistinct(m, 2);
    assert forall i :: 0 <= i < |m| ==> m[i].0 != "info" && m[i].0 != "tag";
  }
}
