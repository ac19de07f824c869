/** The dependency-free geometry of the simple path kernel: `Point`, `Contour`
    and `Path`, their dictionary form (`to_dict` / `from_dict`), and the
    `Path` queries (`is_empty`, `get_bounds`) and transforms (`translate`,
    `scale`). Paths are values: no operation changes a path, and `translate`
    and `scale` build new ones. */
module Geometry {
  import opened Json

  /** A point: coordinates, a segment type ("line" unless stated) and a smooth flag. */
  datatype Point = Point(x: real, y: real, pointType: string, smooth: bool)

  datatype Contour = Contour(points: seq<Point>, isClosed: bool)

  datatype Path = Path(contours: seq<Contour>)

  /** The dictionary `get_bounds` returns. */
  datatype Bounds = Bounds(xMin: real, yMin: real, xMax: real, yMax: real, width: real, height: real)

  /** The keys `Point.to_dict` may write. */
  const PointKeys: set<string> := {"x", "y", "type", "smooth"}

  // ---------------------------------------------------------------------------
  // Dictionary form

  /** `Point.to_dict`: the coordinates always, "type" and "smooth" only when
      they differ from their defaults. */
  function PointToDict(p: Point): (d: Value)
    ensures d.Obj? && d.fields.Keys <= PointKeys
    ensures "x" in d.fields && d.fields["x"] == Num(p.x)
    ensures "y" in d.fields && d.fields["y"] == Num(p.y)
    ensures "type" in d.fields <==> p.pointType != "line"
    ensures "type" in d.fields ==> d.fields["type"] == Str(p.pointType)
    ensures "smooth" in d.fields <==> p.smooth
    ensures "smooth" in d.fields ==> d.fields["smooth"] == Bool(true)
  {
    var coords := map["x" := Num(p.x), "y" := Num(p.y)];
    var typed := if p.pointType != "line" then coords["type" := Str(p.pointType)] else coords;
    Obj(if p.smooth then typed["smooth" := Bool(true)] else typed)
  }

  /** `Point.from_dict`: every key it does not find takes its default
      (0, 0, "line", false); keys it does not know are ignored. */
  function PointFromDict(v: Value): (r: Result<Point>)
    ensures !v.Obj? ==> r == Err(NotADict)
    ensures v.Obj? && r.Ok? ==>
              && Get(v.fields, "x", Num(0.0)) == Num(r.value.x)
              && Get(v.fields, "y", Num(0.0)) == Num(r.value.y)
              && Get(v.fields, "type", Str("line")) == Str(r.value.pointType)
              && Get(v.fields, "smooth", Bool(false)) == Bool(r.value.smooth)
    ensures v.Obj? ==> (r.Ok? <==> && Get(v.fields, "x", Num(0.0)).Num?
                                   && Get(v.fields, "y", Num(0.0)).Num?
                                   && Get(v.fields, "type", Str("line")).Str?
                                   && Get(v.fields, "smooth", Bool(false)).Bool?)
  {
    match v
    case Obj(m) =>
      var x := Get(m, "x", Num(0.0));
      var y := Get(m, "y", Num(0.0));
      var t := Get(m, "type", Str("line"));
      var s := Get(m, "smooth", Bool(false));
      if !x.Num? then Err(WrongType("x"))
      else if !y.Num? then Err(WrongType("y"))
      else if !t.Str? then Err(WrongType("type"))
      else if !s.Bool? then Err(WrongType("smooth"))
      else Ok(Point(x.n, y.n, t.s, s.b))
    case _ => Err(NotADict)
  }

  /** `Contour.to_dict`. */
  function ContourToDict(c: Contour): (d: Value)
    ensures d.Obj? && d.fields.Keys == {"points", "isClosed"}
    ensures d.fields["isClosed"] == Bool(c.isClosed)
    ensures d.fields["points"].Arr? && |d.fields["points"].items| == |c.points|
    ensures forall i :: 0 <= i < |c.points| ==> d.fields["points"].items[i] == PointToDict(c.points[i])
  {
    Obj(map["points" := Arr(EncodeEach(c.points, PointToDict)), "isClosed" := Bool(c.isClosed)])
  }

  /** `Contour.from_dict`: a missing "points" is an empty list, a missing
      "isClosed" is false. */
  function ContourFromDict(v: Value): (r: Result<Contour>)
    ensures !v.Obj? ==> r == Err(NotADict)
    ensures v.Obj? && "points" !in v.fields && r.Ok? ==> r.value.points == []
    ensures v.Obj? && "isClosed" !in v.fields && r.Ok? ==> !r.value.isClosed
    ensures v == Obj(map[]) ==> r == Ok(Contour([], false))
    ensures r.Ok? ==> v.Obj? && Elements(Get(v.fields, "points", Arr([]))).Ok? &&
                      DecodeEach(Elements(Get(v.fields, "points", Arr([]))).value, PointFromDict) == Ok(r.value.points)
    ensures r.Ok? ==> Get(v.fields, "isClosed", Bool(false)) == Bool(r.value.isClosed)
    ensures v.Obj? ==> (r.Ok? <==> && Elements(Get(v.fields, "points", Arr([]))).Ok?
                                   && DecodeEach(Elements(Get(v.fields, "points", Arr([]))).value, PointFromDict).Ok?
                                   && Get(v.fields, "isClosed", Bool(false)).Bool?)
  {
    match v
    case Obj(m) =>
      var items := Elements(Get(m, "points", Arr([])));
      if items.Err? then Err(items.error)
      else
        var points := DecodeEach(items.value, PointFromDict);
        if points.Err? then Err(points.error)
        else
          var closed := Get(m, "isClosed", Bool(false));
          if !closed.Bool? then Err(WrongType("isClosed"))
          else Ok(Contour(points.value, closed.b))
    case _ => Err(NotADict)
  }

  /** `Path.to_dict`. */
  function PathToDict(p: Path): (d: Value)
    ensures d.Obj? && d.fields.Keys == {"contours"}
    ensures d.fields["contours"].Arr? && |d.fields["contours"].items| == |p.contours|
    ensures forall i :: 0 <= i < |p.contours| ==> d.fields["contours"].items[i] == ContourToDict(p.contours[i])
  {
    Obj(map["contours" := Arr(EncodeEach(p.contours, ContourToDict))])
  }

  /** `Path.from_dict`: a missing "contours" is an empty list. */
  function PathFromDict(v: Value): (r: Result<Path>)
    ensures !v.Obj? ==> r == Err(NotADict)
    ensures v.Obj? && "contours" !in v.fields ==> r == Ok(Path([]))
    ensures r.Ok? ==> v.Obj? && Elements(Get(v.fields, "contours", Arr([]))).Ok? &&
                      DecodeEach(Elements(Get(v.fields, "contours", Arr([]))).value, ContourFromDict) == Ok(r.value.contours)
    ensures v.Obj? ==> (r.Ok? <==> && Elements(Get(v.fields, "contours", Arr([]))).Ok?
                                   && DecodeEach(Elements(Get(v.fields, "contours", Arr([]))).value, ContourFromDict).Ok?)
  {
    match v
    case Obj(m) =>
      var items := Elements(Get(m, "contours", Arr([])));
      if items.Err? then Err(items.error)
      else
        var contours := DecodeEach(items.value, ContourFromDict);
        if contours.Err? then Err(contours.error)
        else Ok(Path(contours.value))
    case _ => Err(NotADict)
  }

  /** A point survives the trip through its dictionary unchanged: "type" and
      "smooth" are left out exactly when they hold the values `from_dict`
      fills in. */
  lemma PointRoundTrip(p: Point)
    ensures PointFromDict(PointToDict(p)) == Ok(p)
  {
  }

  /** A contour survives the trip: same points in the same order, same flag. */
  lemma ContourRoundTrip(c: Contour)
    ensures ContourFromDict(ContourToDict(c)) == Ok(c)
  {
    forall i | 0 <= i < |c.points|
      ensures PointFromDict(PointToDict(c.points[i])) == Ok(c.points[i])
    {
      PointRoundTrip(c.points[i]);
    }
    DecodeEncodeEach(c.points, PointToDict, PointFromDict);
  }

  /** A path survives the trip: same contours, in order. */
  lemma PathRoundTrip(p: Path)
    ensures PathFromDict(PathToDict(p)) == Ok(p)
  {
    forall i | 0 <= i < |p.contours|
      ensures ContourFromDict(ContourToDict(p.contours[i])) == Ok(p.contours[i])
    {
      ContourRoundTrip(p.contours[i]);
    }
    DecodeEncodeEach(p.contours, ContourToDict, ContourFromDict);
  }

  /** Decoding keeps only what `to_dict` can write: a dictionary and its
      restriction to the four point keys decode to the same point. */
  lemma PointFromDictIgnoresOtherKeys(m: map<string, Value>)
    ensures PointFromDict(Obj(m)) == PointFromDict(Obj(map k | k in m && k in PointKeys :: m[k]))
  {
  }

  // ---------------------------------------------------------------------------
  // Queries

  /** Contour `i`, point `j` exists in `p`. */
  predicate IsPointIndex(p: Path, i: int, j: int)
  {
    0 <= i < |p.contours| && 0 <= j < |p.contours[i].points|
  }

  /** `Path.is_empty`: no contours, or no contour has a point; either way the
      path has no point at all. */
  predicate IsEmpty(p: Path): (r: bool)
    ensures r <==> forall i, j :: !IsPointIndex(p, i, j)
  {
    assert forall i | 0 <= i < |p.contours| && |p.contours[i].points| != 0 :: IsPointIndex(p, i, 0);
    |p.contours| == 0 || forall i :: 0 <= i < |p.contours| ==> |p.contours[i].points| == 0
  }

  datatype Axis = X | Y

  function Coord(pt: Point, axis: Axis): real
  {
    match axis
    case X => pt.x
    case Y => pt.y
  }

  /** Point (k, l) of `p` comes before position (i, j) of a contour-by-contour,
      point-by-point scan; (|p.contours|, 0) is past every point. */
  predicate Before(p: Path, k: int, l: int, i: int, j: int)
  {
    IsPointIndex(p, k, l) && (k < i || (k == i && l < j))
  }

  /** `v` is the least `axis` coordinate of the points before (i, j), and
      point `at` has it. */
  ghost predicate IsLeast(p: Path, axis: Axis, v: real, at: (int, int), i: int, j: int)
  {
    && Before(p, at.0, at.1, i, j) && Coord(p.contours[at.0].points[at.1], axis) == v
    && forall k, l | Before(p, k, l, i, j) :: v <= Coord(p.contours[k].points[l], axis)
  }

  /** `v` is the greatest `axis` coordinate of the points before (i, j), and
      point `at` has it. */
  ghost predicate IsGreatest(p: Path, axis: Axis, v: real, at: (int, int), i: int, j: int)
  {
    && Before(p, at.0, at.1, i, j) && Coord(p.contours[at.0].points[at.1], axis) == v
    && forall k, l | Before(p, k, l, i, j) :: Coord(p.contours[k].points[l], axis) <= v
  }

  /** `v` is the minimum of the `axis` coordinates of all points of `p`. */
  ghost predicate IsMinimum(p: Path, axis: Axis, v: real)
  {
    exists i, j :: IsLeast(p, axis, v, (i, j), |p.contours|, 0)
  }

  /** `v` is the maximum of the `axis` coordinates of all points of `p`. */
  ghost predicate IsMaximum(p: Path, axis: Axis, v: real)
  {
    exists i, j :: IsGreatest(p, axis, v, (i, j), |p.contours|, 0)
  }

  /** `b` is the tight bounding box of the points of `p`: each extreme is the
      minimum or maximum of its coordinate over all points, so it encloses
      every point and is attained by one; width and height are the spans. */
  ghost predicate IsBoundingBox(b: Bounds, p: Path)
  {
    && IsMinimum(p, X, b.xMin) && IsMaximum(p, X, b.xMax)
    && IsMinimum(p, Y, b.yMin) && IsMaximum(p, Y, b.yMax)
    && b.width == b.xMax - b.xMin
    && b.height == b.yMax - b.yMin
  }

  /** What `get_bounds` may return for `p`: nothing for an empty path, the
      tight bounding box otherwise. */
  ghost predicate IsBoundsOf(r: Option<Bounds>, p: Path)
  {
    (r.None? <==> IsEmpty(p)) && (r.Some? ==> IsBoundingBox(r.value, p))
  }

  /** A bounding box encloses every point of its path, and its width and
      height are not negative. */
  lemma BoundingBoxEncloses(b: Bounds, p: Path)
    requires IsBoundingBox(b, p)
    ensures forall i, j | IsPointIndex(p, i, j) ::
              b.xMin <= p.contours[i].points[j].x <= b.xMax && b.yMin <= p.contours[i].points[j].y <= b.yMax
    ensures b.width >= 0.0 && b.height >= 0.0
  {
    var i1, j1 :| IsLeast(p, X, b.xMin, (i1, j1), |p.contours|, 0);
    var i2, j2 :| IsGreatest(p, X, b.xMax, (i2, j2), |p.contours|, 0);
    var i3, j3 :| IsLeast(p, Y, b.yMin, (i3, j3), |p.contours|, 0);
    var i4, j4 :| IsGreatest(p, Y, b.yMax, (i4, j4), |p.contours|, 0);
    forall i, j | IsPointIndex(p, i, j)
      ensures b.xMin <= p.contours[i].points[j].x <= b.xMax && b.yMin <= p.contours[i].points[j].y <= b.yMax
    {
      assert b.xMin <= Coord(p.contours[i].points[j], X) <= b.xMax;
      assert b.yMin <= Coord(p.contours[i].points[j], Y) <= b.yMax;
    }
    assert b.xMin <= Coord(p.contours[i1].points[j1], X) <= b.xMax;
    assert b.yMin <= Coord(p.contours[i3].points[j3], Y) <= b.yMax;
  }

  /** The minimum of a coordinate is not above its maximum. */
  lemma ExtremesOrdered(p: Path, axis: Axis, lo: real, hi: real)
    requires IsMinimum(p, axis, lo) && IsMaximum(p, axis, hi)
    ensures lo <= hi
  {
    var i, j :| IsLeast(p, axis, lo, (i, j), |p.contours|, 0);
    var k, l :| IsGreatest(p, axis, hi, (k, l), |p.contours|, 0);
    assert Coord(p.contours[i].points[j], axis) <= hi;
  }

  lemma MinimumUnique(p: Path, axis: Axis, a: real, b: real)
    requires IsMinimum(p, axis, a) && IsMinimum(p, axis, b)
    ensures a == b
  {
    var i1, j1 :| IsLeast(p, axis, a, (i1, j1), |p.contours|, 0);
    var i2, j2 :| IsLeast(p, axis, b, (i2, j2), |p.contours|, 0);
    assert a <= Coord(p.contours[i2].points[j2], axis);
    assert b <= Coord(p.contours[i1].points[j1], axis);
  }

  lemma MaximumUnique(p: Path, axis: Axis, a: real, b: real)
    requires IsMaximum(p, axis, a) && IsMaximum(p, axis, b)
    ensures a == b
  {
    var i1, j1 :| IsGreatest(p, axis, a, (i1, j1), |p.contours|, 0);
    var i2, j2 :| IsGreatest(p, axis, b, (i2, j2), |p.contours|, 0);
    assert Coord(p.contours[i2].points[j2], axis) <= a;
    assert Coord(p.contours[i1].points[j1], axis) <= b;
  }

  /** The tight bounding box is unique, so every result of `get_bounds` for a
      path is the same. */
  lemma BoundsUnique(p: Path, r1: Option<Bounds>, r2: Option<Bounds>)
    requires IsBoundsOf(r1, p) && IsBoundsOf(r2, p)
    ensures r1 == r2
  {
    if r1.Some? {
      var a, b := r1.value, r2.value;
      MinimumUnique(p, X, a.xMin, b.xMin);
      MaximumUnique(p, X, a.xMax, b.xMax);
      MinimumUnique(p, Y, a.yMin, b.yMin);
      MaximumUnique(p, Y, a.yMax, b.yMax);
    }
  }

  /** Python's `min` and `max` of two numbers. */
  function Min(a: real, b: real): real { if b < a then b else a }

  function Max(a: real, b: real): real { if b > a then b else a }

  /** The points where the scan found its four running extremes. */
  datatype Witnesses = Witnesses(minX: (int, int), minY: (int, int), maxX: (int, int), maxY: (int, int))

  /** The state of the scan in `get_bounds` on reaching point (i, j): with
      `seen` false no point has been visited yet (the running values are still
      Python's infinities); otherwise the running values are the extremes of
      the points visited so far, attained at `w`. */
  ghost predicate Scanned(p: Path, i: int, j: int, seen: bool,
                          minX: real, minY: real, maxX: real, maxY: real, w: Witnesses)
  {
    && 0 <= i <= |p.contours|
    && (!seen ==> j == 0 && forall k :: 0 <= k < i ==> |p.contours[k].points| == 0)
    && (seen ==> IsLeast(p, X, minX, w.minX, i, j) && IsGreatest(p, X, maxX, w.maxX, i, j))
    && (seen ==> IsLeast(p, Y, minY, w.minY, i, j) && IsGreatest(p, Y, maxY, w.maxY, i, j))
  }

  /** Where the extremes are attained once point `pt` = (i, j) is visited. */
  ghost function NextWitnesses(pt: Point, i: int, j: int, seen: bool,
                               minX: real, minY: real, maxX: real, maxY: real, w: Witnesses): Witnesses
  {
    if !seen then Witnesses((i, j), (i, j), (i, j), (i, j))
    else Witnesses(if pt.x < minX then (i, j) else w.minX, if pt.y < minY then (i, j) else w.minY,
                   if pt.x > maxX then (i, j) else w.maxX, if pt.y > maxY then (i, j) else w.maxY)
  }

  /** Visiting point (i, j): the first point starts every running value, a
      later one updates them with Python's `min` and `max`. */
  lemma ScanStep(p: Path, i: int, j: int, seen: bool,
                 minX: real, minY: real, maxX: real, maxY: real, w: Witnesses)
    requires IsPointIndex(p, i, j)
    requires Scanned(p, i, j, seen, minX, minY, maxX, maxY, w)
    ensures var pt := p.contours[i].points[j];
            Scanned(p, i, j + 1, true,
                    if seen then Min(minX, pt.x) else pt.x, if seen then Min(minY, pt.y) else pt.y,
                    if seen then Max(maxX, pt.x) else pt.x, if seen then Max(maxY, pt.y) else pt.y,
                    NextWitnesses(pt, i, j, seen, minX, minY, maxX, maxY, w))
  {
    var pt := p.contours[i].points[j];
    var w' := NextWitnesses(pt, i, j, seen, minX, minY, maxX, maxY, w);
    if seen {
      LeastStep(p, i, j, X, minX, w.minX);
      GreatestStep(p, i, j, X, maxX, w.maxX);
      LeastStep(p, i, j, Y, minY, w.minY);
      GreatestStep(p, i, j, Y, maxY, w.maxY);
    } else {
      FirstPointStep(p, i, j, X, seen, minX, minY, maxX, maxY, w);
      FirstPointStep(p, i, j, Y, seen, minX, minY, maxX, maxY, w);
    }
  }

  /** The running extremes after the first point, (i, j), are its coordinates. */
  lemma FirstPointStep(p: Path, i: int, j: int, axis: Axis, seen: bool,
                       minX: real, minY: real, maxX: real, maxY: real, w: Witnesses)
    requires IsPointIndex(p, i, j) && !seen
    requires Scanned(p, i, j, seen, minX, minY, maxX, maxY, w)
    ensures IsLeast(p, axis, Coord(p.contours[i].points[j], axis), (i, j), i, j + 1)
    ensures IsGreatest(p, axis, Coord(p.contours[i].points[j], axis), (i, j), i, j + 1)
  {
  }

  /** Visiting point (i, j) updates a running minimum with Python's `min`. */
  lemma LeastStep(p: Path, i: int, j: int, axis: Axis, v: real, at: (int, int))
    requires IsPointIndex(p, i, j)
    requires IsLeast(p, axis, v, at, i, j)
    ensures var c := Coord(p.contours[i].points[j], axis);
            IsLeast(p, axis, Min(v, c), if c < v then (i, j) else at, i, j + 1)
  {
  }

  /** Visiting point (i, j) updates a running maximum with Python's `max`. */
  lemma GreatestStep(p: Path, i: int, j: int, axis: Axis, v: real, at: (int, int))
    requires IsPointIndex(p, i, j)
    requires IsGreatest(p, axis, v, at, i, j)
    ensures var c := Coord(p.contours[i].points[j], axis);
            IsGreatest(p, axis, Max(v, c), if c > v then (i, j) else at, i, j + 1)
  {
  }

  /** Finishing contour i is starting contour i + 1. */
  lemma NextContour(p: Path, i: int, seen: bool,
                    minX: real, minY: real, maxX: real, maxY: real, w: Witnesses)
    requires 0 <= i < |p.contours|
    requires Scanned(p, i, |p.contours[i].points|, seen, minX, minY, maxX, maxY, w)
    ensures Scanned(p, i + 1, 0, seen, minX, minY, maxX, maxY, w)
  {
  }

  /** Once every contour of a non-empty path is scanned, a point has been
      seen and the running values are the bounding box. */
  lemma ScanComplete(p: Path, seen: bool,
                     minX: real, minY: real, maxX: real, maxY: real, w: Witnesses)
    requires !IsEmpty(p)
    requires Scanned(p, |p.contours|, 0, seen, minX, minY, maxX, maxY, w)
    ensures seen && IsBoundingBox(Bounds(minX, minY, maxX, maxY, maxX - minX, maxY - minY), p)
  {
    assert IsLeast(p, X, minX, (w.minX.0, w.minX.1), |p.contours|, 0);
    assert IsGreatest(p, X, maxX, (w.maxX.0, w.maxX.1), |p.contours|, 0);
    assert IsLeast(p, Y, minY, (w.minY.0, w.minY.1), |p.contours|, 0);
    assert IsGreatest(p, Y, maxY, (w.maxY.0, w.maxY.1), |p.contours|, 0);
  }

  /** `Path.get_bounds`: `None` for an empty path, otherwise the running
      minima and maxima over every point of every contour. */
  method GetBounds(p: Path) returns (r: Option<Bounds>)
    ensures IsBoundsOf(r, p)
  {
    if IsEmpty(p) {
      return None;
    }
    // `seen` is false while the running values are still Python's infinities
    var seen := false;
    var minX, minY, maxX, maxY := 0.0, 0.0, 0.0, 0.0;
    ghost var w := Witnesses((0, 0), (0, 0), (0, 0), (0, 0));
    for i := 0 to |p.contours|
      invariant Scanned(p, i, 0, seen, minX, minY, maxX, maxY, w)
    {
      var contour := p.contours[i];
      for j := 0 to |contour.points|
        invariant Scanned(p, i, j, seen, minX, minY, maxX, maxY, w)
      {
        var point := contour.points[j];
        ScanStep(p, i, j, seen, minX, minY, maxX, maxY, w);
        w := NextWitnesses(point, i, j, seen, minX, minY, maxX, maxY, w);
        if !seen {
          minX, minY, maxX, maxY := point.x, point.y, point.x, point.y;
          seen := true;
        } else {
          minX := Min(minX, point.x);
          minY := Min(minY, point.y);
          maxX := Max(maxX, point.x);
          maxY := Max(maxY, point.y);
        }
      }
      NextContour(p, i, seen, minX, minY, maxX, maxY, w);
    }
    ScanComplete(p, seen, minX, minY, maxX, maxY, w);
    r := Some(Bounds(minX, minY, maxX, maxY, maxX - minX, maxY - minY));
  }

  // ---------------------------------------------------------------------------
  // Transforms

  /** What `translate` and `scale` do to one point; type and smooth flag are kept. */
  datatype Transform = Translation(dx: real, dy: real) | Scaling(sx: real, sy: real)

  function Apply(t: Transform, pt: Point): Point
  {
    match t
    case Translation(dx, dy) => pt.(x := pt.x + dx, y := pt.y + dy)
    case Scaling(sx, sy) => pt.(x := pt.x * sx, y := pt.y * sy)
  }

  /** `d` is `c` with `t` applied to every point: same number of points, same
      order, same closed flag. */
  predicate ContourTransformed(c: Contour, d: Contour, t: Transform)
  {
    && d.isClosed == c.isClosed
    && |d.points| == |c.points|
    && forall j :: 0 <= j < |c.points| ==> d.points[j] == Apply(t, c.points[j])
  }

  /** `q` is `p` with `t` applied to every point and nothing else changed. */
  predicate Transformed(p: Path, q: Path, t: Transform)
  {
    |q.contours| == |p.contours| &&
    forall i :: 0 <= i < |p.contours| ==> ContourTransformed(p.contours[i], q.contours[i], t)
  }

  /** `Path.translate`: a new path, every point moved by (dx, dy). */
  method Translate(p: Path, dx: real, dy: real) returns (q: Path)
    ensures Transformed(p, q, Translation(dx, dy))
  {
    var newContours: seq<Contour> := [];
    for i := 0 to |p.contours|
      invariant |newContours| == i
      invariant forall k :: 0 <= k < i ==> ContourTransformed(p.contours[k], newContours[k], Translation(dx, dy))
    {
      var contour := p.contours[i];
      var newPoints: seq<Point> := [];
      for j := 0 to |contour.points|
        invariant |newPoints| == j
        invariant forall l :: 0 <= l < j ==> newPoints[l] == Apply(Translation(dx, dy), contour.points[l])
      {
        var point := contour.points[j];
        var newPoint := Point(point.x + dx, point.y + dy, point.pointType, point.smooth);
        newPoints := newPoints + [newPoint];
      }
      newContours := newContours + [Contour(newPoints, contour.isClosed)];
    }
    q := Path(newContours);
  }

  /** `Path.scale`: a new path, every point scaled by (sx, sy). */
  method Scale(p: Path, sx: real, sy: real) returns (q: Path)
    ensures Transformed(p, q, Scaling(sx, sy))
  {
    var newContours: seq<Contour> := [];
    for i := 0 to |p.contours|
      invariant |newContours| == i
      invariant forall k :: 0 <= k < i ==> ContourTransformed(p.contours[k], newContours[k], Scaling(sx, sy))
    {
      var contour := p.contours[i];
      var newPoints: seq<Point> := [];
      for j := 0 to |contour.points|
        invariant |newPoints| == j
        invariant forall l :: 0 <= l < j ==> newPoints[l] == Apply(Scaling(sx, sy), contour.points[l])
      {
        var point := contour.points[j];
        var newPoint := Point(point.x * sx, point.y * sy, point.pointType, point.smooth);
        newPoints := newPoints + [newPoint];
      }
      newContours := newContours + [Contour(newPoints, contour.isClosed)];
    }
    q := Path(newContours);
  }

  /** `translate(0, 0)` and `scale(1, 1)` give back the same path. */
  lemma IdentityTransform(p: Path, q: Path, t: Transform)
    requires t == Translation(0.0, 0.0) || t == Scaling(1.0, 1.0)
    requires Transformed(p, q, t)
    ensures q == p
  {
    forall i | 0 <= i < |p.contours|
      ensures q.contours[i] == p.contours[i]
    {
      var c, d := p.contours[i], q.contours[i];
      assert ContourTransformed(c, d, t);
      forall j | 0 <= j < |c.points| ensures d.points[j] == c.points[j] {
        assert d.points[j] == Apply(t, c.points[j]);
      }
      assert d.points == c.points;
    }
    assert q.contours == p.contours;
  }

  /** Two translations in a row are one translation by the summed offsets. */
  lemma TranslationsCompose(p: Path, q: Path, r: Path, dx1: real, dy1: real, dx2: real, dy2: real)
    requires Transformed(p, q, Translation(dx1, dy1))
    requires Transformed(q, r, Translation(dx2, dy2))
    ensures Transformed(p, r, Translation(dx1 + dx2, dy1 + dy2))
  {
    forall i | 0 <= i < |p.contours|
      ensures ContourTransformed(p.contours[i], r.contours[i], Translation(dx1 + dx2, dy1 + dy2))
    {
      assert ContourTransformed(p.contours[i], q.contours[i], Translation(dx1, dy1));
      assert ContourTransformed(q.contours[i], r.contours[i], Translation(dx2, dy2));
    }
  }

  /** A transformed path is empty exactly when the original is. */
  lemma TransformKeepsEmptiness(p: Path, q: Path, t: Transform)
    requires Transformed(p, q, t)
    ensures IsEmpty(q) <==> IsEmpty(p)
  {
    forall i | 0 <= i < |p.contours| ensures |q.contours[i].points| == |p.contours[i].points| {
      assert ContourTransformed(p.contours[i], q.contours[i], t);
    }
  }

  /** What a transform does to one coordinate. */
  function AxisImage(t: Transform, axis: Axis, c: real): real
  {
    match (t, axis)
    case (Translation(dx, _), X) => c + dx
    case (Translation(_, dy), Y) => c + dy
    case (Scaling(sx, _), X) => c * sx
    case (Scaling(_, sy), Y) => c * sy
  }

  /** The transform turns the order of `axis` coordinates around: a negative scale factor. */
  predicate Reverses(t: Transform, axis: Axis)
  {
    t.Scaling? && (if axis == X then t.sx < 0.0 else t.sy < 0.0)
  }

  lemma AxisImageOrder(t: Transform, axis: Axis, a: real, b: real)
    requires a <= b
    ensures if Reverses(t, axis) then AxisImage(t, axis, b) <= AxisImage(t, axis, a)
            else AxisImage(t, axis, a) <= AxisImage(t, axis, b)
  {
    if t.Scaling? {
      var s := if axis == X then t.sx else t.sy;
      assert b * s - a * s == (b - a) * s;
    }
  }

  /** A transform moves each coordinate of a point by its `AxisImage`. */
  lemma CoordImage(t: Transform, pt: Point, axis: Axis)
    ensures Coord(Apply(t, pt), axis) == AxisImage(t, axis, Coord(pt, axis))
  {
  }

  /** The extremes of a transformed path are the images of the original's
      extremes, swapped where the transform reverses the axis. */
  lemma TransformedExtremes(p: Path, q: Path, t: Transform, axis: Axis, lo: real, hi: real)
    requires Transformed(p, q, t)
    requires IsMinimum(p, axis, lo) && IsMaximum(p, axis, hi)
    ensures var lo', hi' := AxisImage(t, axis, lo), AxisImage(t, axis, hi);
            if Reverses(t, axis) then IsMinimum(q, axis, hi') && IsMaximum(q, axis, lo')
            else IsMinimum(q, axis, lo') && IsMaximum(q, axis, hi')
  {
    var i1, j1 :| IsLeast(p, axis, lo, (i1, j1), |p.contours|, 0);
    var i2, j2 :| IsGreatest(p, axis, hi, (i2, j2), |p.contours|, 0);
    var lo', hi' := AxisImage(t, axis, lo), AxisImage(t, axis, hi);
    forall k, l | Before(q, k, l, |q.contours|, 0)
      ensures var c := Coord(q.contours[k].points[l], axis);
              if Reverses(t, axis) then hi' <= c <= lo' else lo' <= c <= hi'
    {
      assert ContourTransformed(p.contours[k], q.contours[k], t);
      var pt := p.contours[k].points[l];
      assert Before(p, k, l, |p.contours|, 0);
      CoordImage(t, pt, axis);
      AxisImageOrder(t, axis, lo, Coord(pt, axis));
      AxisImageOrder(t, axis, Coord(pt, axis), hi);
    }
    assert ContourTransformed(p.contours[i1], q.contours[i1], t);
    assert ContourTransformed(p.contours[i2], q.contours[i2], t);
    CoordImage(t, p.contours[i1].points[j1], axis);
    CoordImage(t, p.contours[i2].points[j2], axis);
    if Reverses(t, axis) {
      assert IsLeast(q, axis, hi', (i2, j2), |q.contours|, 0);
      assert IsGreatest(q, axis, lo', (i1, j1), |q.contours|, 0);
    } else {
      assert IsLeast(q, axis, lo', (i1, j1), |q.contours|, 0);
      assert IsGreatest(q, axis, hi', (i2, j2), |q.contours|, 0);
    }
  }

  /** Translating a path translates its bounding box; width and height stay. */
  lemma TranslatedBounds(p: Path, q: Path, dx: real, dy: real, b: Bounds)
    requires Transformed(p, q, Translation(dx, dy))
    requires IsBoundingBox(b, p)
    ensures IsBoundingBox(Bounds(b.xMin + dx, b.yMin + dy, b.xMax + dx, b.yMax + dy, b.width, b.height), q)
  {
    TransformedExtremes(p, q, Translation(dx, dy), X, b.xMin, b.xMax);
    TransformedExtremes(p, q, Translation(dx, dy), Y, b.yMin, b.yMax);
  }

  function Abs(a: real): real { if a < 0.0 then -a else a }

  /** Scaling one axis by `s`: the new extremes are the smaller and the larger
      of the scaled old ones, and the span scales by |s|. */
  lemma ScaledAxis(p: Path, q: Path, t: Transform, axis: Axis, lo: real, hi: real, span: real, s: real)
    requires t.Scaling? && s == (if axis == X then t.sx else t.sy)
    requires Transformed(p, q, t)
    requires IsMinimum(p, axis, lo) && IsMaximum(p, axis, hi) && span == hi - lo
    ensures IsMinimum(q, axis, Min(lo * s, hi * s)) && IsMaximum(q, axis, Max(lo * s, hi * s))
    ensures Max(lo * s, hi * s) - Min(lo * s, hi * s) == span * Abs(s)
  {
    ExtremesOrdered(p, axis, lo, hi);
    assert AxisImage(t, axis, lo) == lo * s && AxisImage(t, axis, hi) == hi * s;
    assert Reverses(t, axis) <==> s < 0.0;
    TransformedExtremes(p, q, t, axis, lo, hi);
    ScaledSpan(lo, hi, span, s);
  }

  /** The arithmetic of scaling an interval [lo, hi] by `s`. */
  lemma ScaledSpan(lo: real, hi: real, span: real, s: real)
    requires lo <= hi && span == hi - lo
    ensures s < 0.0 ==> Min(lo * s, hi * s) == hi * s && Max(lo * s, hi * s) == lo * s
    ensures s >= 0.0 ==> Min(lo * s, hi * s) == lo * s && Max(lo * s, hi * s) == hi * s
    ensures Max(lo * s, hi * s) - Min(lo * s, hi * s) == span * Abs(s)
  {
    var d := span;
    assert hi * s - lo * s == d * s;
    if s < 0.0 {
      assert d * s <= 0.0;
      assert lo * s - hi * s == d * -s;
    } else {
      assert d * s >= 0.0;
    }
  }
}
