/**
 * The bounding box `__get_current_world_range` computes from the positioned
 * nodes (src/GraphAlgo.py:350-388), stated as a property of the coordinates.
 */
module WorldRange {
  import opened Wrappers
  import opened Location
  import opened NodeRecords

  /** The x coordinates of the positioned nodes among `ids`. */
  function Xs(n: map<int, Node>, ids: set<int>): set<real>
  {
    set v | v in ids && v in n && n[v].pos.Some? :: n[v].pos.value.x
  }

  /** The y coordinates of the positioned nodes among `ids`. */
  function Ys(n: map<int, Node>, ids: set<int>): set<real>
  {
    set v | v in ids && v in n && n[v].pos.Some? :: n[v].pos.value.y
  }

  /** `lo` and `hi` are the least and the greatest of the coordinates `cs`. */
  ghost predicate Extremes(cs: set<real>, lo: real, hi: real)
  {
    lo in cs && hi in cs && forall c :: c in cs ==> lo <= c <= hi
  }

  /**
   * The axis built from the coordinates `cs`: from their least to their
   * greatest value, except that when all of them are one value `a` the axis
   * runs between `a` and 0.
   */
  ghost predicate Spans(cs: set<real>, rg: Range)
  {
    exists lo, hi :: Extremes(cs, lo, hi) &&
      if lo < hi then rg == Range(lo, hi)
      else if lo < 0.0 then rg == Range(lo, 0.0)
      else rg == Range(0.0, hi)
  }

  /** The axis contains every coordinate, and its ends are in order. */
  lemma SpansContains(cs: set<real>, rg: Range)
    requires Spans(cs, rg)
    ensures rg.min <= rg.max
    ensures forall c :: c in cs ==> rg.min <= c <= rg.max
  {
  }

  /** With at least two distinct coordinates the axis runs exactly from the least to the greatest. */
  lemma SpansSpread(cs: set<real>, rg: Range, a: real, b: real)
    requires Spans(cs, rg) && a in cs && b in cs && a != b
    ensures rg.min < rg.max && rg.min in cs && rg.max in cs
  {
  }

  /** When every coordinate is one value `a`, the axis is widened to reach 0, and has a length unless `a` is 0. */
  lemma SpansSingle(rg: Range, a: real)
    requires Spans({a}, rg)
    ensures rg.min <= 0.0 <= rg.max && rg.min <= a <= rg.max
    ensures a != 0.0 <==> rg.Length() != 0.0
  {
  }

  /** Adding the position of node `v` to the ones already scanned. */
  lemma XsStep(n: map<int, Node>, done: set<int>, v: int)
    requires v in n
    ensures n[v].pos.None? ==> Xs(n, done + {v}) == Xs(n, done) && Ys(n, done + {v}) == Ys(n, done)
    ensures n[v].pos.Some? ==> Xs(n, done + {v}) == Xs(n, done) + {n[v].pos.value.x} &&
                               Ys(n, done + {v}) == Ys(n, done) + {n[v].pos.value.y}
  {
  }

  /** Adding a coordinate moves an end of the interval only when it lies outside. */
  lemma ExtremesAdd(cs: set<real>, lo: real, hi: real, c: real)
    requires Extremes(cs, lo, hi)
    ensures Extremes(cs + {c}, if c < lo then c else lo, if c > hi then c else hi)
  {
  }
}
