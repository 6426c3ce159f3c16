/** Points in space and the affine interval maps `Range` and `Range2D` of `src/location`. */
module Location {

  /** `GeoLocation`: a point with three real coordinates. */
  datatype Point = Point(x: real, y: real, z: real)

  /** `Range(min, max)`: a closed interval, mapped affinely onto [0, 1]. */
  datatype Range = Range(min: real, max: real)
  {
    function Length(): (l: real)
      ensures min + l == max
    {
      max - min
    }

    /** `get_ratio`: where `v` lies relative to the interval; Python divides by `length`. */
    function GetRatio(v: real): (r: real)
      requires Length() != 0.0
      ensures r * Length() == v - min
    {
      (v - min) / Length()
    }

    /** `from_ratio`: the point at fraction `r` of the way from `min` to `max`. */
    function FromRatio(r: real): (v: real)
      ensures r == 0.0 ==> v == min
      ensures r == 1.0 ==> v == max
    {
      min + r * Length()
    }
  }

  lemma RatioRoundTrip(rg: Range, r: real)
    requires rg.Length() != 0.0
    ensures rg.GetRatio(rg.FromRatio(r)) == r
  {
  }

  lemma ValueRoundTrip(rg: Range, v: real)
    requires rg.Length() != 0.0
    ensures rg.FromRatio(rg.GetRatio(v)) == v
  {
  }

  /** Inside a proper interval, ratios lie in [0, 1]. */
  lemma RatioInUnitInterval(rg: Range, v: real)
    requires rg.min < rg.max && rg.min <= v <= rg.max
    ensures 0.0 <= rg.GetRatio(v) <= 1.0
  {
    var l, r := rg.Length(), rg.GetRatio(v);
    assert r == (v - rg.min) / l;
    assert 0.0 <= v - rg.min <= l;
    DivBounds(v - rg.min, l);
  }

  lemma DivBounds(a: real, l: real)
    requires l > 0.0 && 0.0 <= a <= l
    ensures 0.0 <= a / l <= 1.0
  {
    var q := a / l;
    assert q * l == a;
  }

  /** `Range(2, 4)` from the unit tests: length 2, `get_ratio(3) == 0.5`, `from_ratio(0.5) == 3`. */
  lemma RangeExample()
    ensures Range(2.0, 4.0).Length() == 2.0
    ensures Range(2.0, 4.0).GetRatio(3.0) == 0.5
    ensures Range(2.0, 4.0).FromRatio(0.5) == 3.0
  {
  }

  /** `Range2D`: one interval per horizontal axis. */
  datatype Range2D = Range2D(xRange: Range, yRange: Range)
  {
    /** `get_ratio`: x and y through their intervals, z set to 0. */
    function GetRatio(p: Point): (q: Point)
      requires xRange.Length() != 0.0 && yRange.Length() != 0.0
      ensures q.z == 0.0
      ensures xRange.FromRatio(q.x) == p.x && yRange.FromRatio(q.y) == p.y
    {
      Point(xRange.GetRatio(p.x), yRange.GetRatio(p.y), 0.0)
    }

    /** `from_ratio`: x and y from their intervals, z set to 0. */
    function FromRatio(p: Point): (q: Point)
      ensures q.z == 0.0
      ensures xRange.Length() != 0.0 ==> xRange.GetRatio(q.x) == p.x
      ensures yRange.Length() != 0.0 ==> yRange.GetRatio(q.y) == p.y
    {
      Point(xRange.FromRatio(p.x), yRange.FromRatio(p.y), 0.0)
    }
  }

  /** Both directions of the map undo each other on x and y; z always comes back as 0. */
  lemma Range2DRoundTrip(rg: Range2D, p: Point)
    requires rg.xRange.Length() != 0.0 && rg.yRange.Length() != 0.0
    ensures rg.GetRatio(rg.FromRatio(p)) == Point(p.x, p.y, 0.0)
    ensures rg.FromRatio(rg.GetRatio(p)) == Point(p.x, p.y, 0.0)
  {
  }

  /** The z coordinate of the input never affects either map. */
  lemma Range2DIgnoresZ(rg: Range2D, p: Point, z: real)
    ensures rg.FromRatio(p.(z := z)) == rg.FromRatio(p)
    ensures rg.xRange.Length() != 0.0 && rg.yRange.Length() != 0.0 ==>
              rg.GetRatio(p.(z := z)) == rg.GetRatio(p)
  {
  }

  /** `Range2D(Range(0,2), Range(0,2))` from the unit tests. */
  lemma Range2DExample()
    ensures Range2D(Range(0.0, 2.0), Range(0.0, 2.0)).GetRatio(Point(1.0, 1.0, 0.0)) == Point(0.5, 0.5, 0.0)
    ensures Range2D(Range(0.0, 2.0), Range(0.0, 2.0)).FromRatio(Point(0.5, 0.5, 0.0)) == Point(1.0, 1.0, 0.0)
  {
    var rg := Range(0.0, 2.0);
    assert rg.Length() == 2.0;
    assert rg.GetRatio(1.0) == 0.5;
    assert rg.FromRatio(0.5) == 1.0;
  }
}
