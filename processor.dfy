/** `SimpleFontraWASMProcessor`: the five path operations it offers on an
    already-decoded JSON path dictionary. Each one decodes the path with
    `Path.from_dict` and reports an exception raised along the way as
    `{"success": false, "error": ...}`, modelled as `Err`; `Ok` is the
    `{"success": true, ...}` answer. The processor's only state is its
    version string, which never changes. */
module Processor {
  import opened Json
  import opened Geometry

  /** `self.version`. */
  const Version: string := "1.0.0-simple"

  /** The "stats" dictionary of `path_validate`. */
  datatype Stats = Stats(totalContours: nat, closedContours: nat, openContours: nat,
                         totalPoints: nat, isEmpty: bool)

  /** A successful `path_validate` answer. */
  datatype Validation = Validation(valid: bool, stats: Stats)

  /** The "info" dictionary of `path_info`. */
  datatype Info = Info(bounds: Option<Bounds>, stats: Stats, version: string)

  // ---------------------------------------------------------------------------
  // Counting

  /** `sum(len(c.points) for c in contours)`. */
  function TotalPoints(cs: seq<Contour>): (n: nat)
    ensures n == 0 <==> forall i :: 0 <= i < |cs| ==> |cs[i].points| == 0
    ensures forall i :: 0 <= i < |cs| ==> |cs[i].points| <= n
  {
    if cs == [] then 0
    else
      assert forall i :: 1 <= i < |cs| ==> cs[i] == cs[1..][i - 1];
      |cs[0].points| + TotalPoints(cs[1..])
  }

  /** `sum(1 for c in contours if c.is_closed)`. */
  function ClosedCount(cs: seq<Contour>): (n: nat)
    ensures n <= |cs|
    ensures n == 0 <==> forall i :: 0 <= i < |cs| ==> !cs[i].isClosed
    ensures n == |cs| <==> forall i :: 0 <= i < |cs| ==> cs[i].isClosed
  {
    if cs == [] then 0
    else
      assert forall i :: 1 <= i < |cs| ==> cs[i] == cs[1..][i - 1];
      (if cs[0].isClosed then 1 else 0) + ClosedCount(cs[1..])
  }

  /** The number of contours that are not closed, counted directly. */
  function OpenCount(cs: seq<Contour>): nat
  {
    if cs == [] then 0 else (if cs[0].isClosed then 0 else 1) + OpenCount(cs[1..])
  }

  /** Every contour is either closed or open. */
  lemma {:induction false} ClosedOpenPartition(cs: seq<Contour>)
    ensures ClosedCount(cs) + OpenCount(cs) == |cs|
  {
    if cs != [] {
      ClosedOpenPartition(cs[1..]);
    }
  }

  /** The point count of a concatenation is the sum of the parts' counts. */
  lemma {:induction false} TotalPointsAppend(a: seq<Contour>, b: seq<Contour>)
    ensures TotalPoints(a + b) == TotalPoints(a) + TotalPoints(b)
  {
    if a == [] {
      assert a + b == b;
    } else {
      assert (a + b)[1..] == a[1..] + b;
      TotalPointsAppend(a[1..], b);
    }
  }

  /** The closed count of a concatenation is the sum of the parts' counts. */
  lemma {:induction false} ClosedCountAppend(a: seq<Contour>, b: seq<Contour>)
    ensures ClosedCount(a + b) == ClosedCount(a) + ClosedCount(b)
  {
    if a == [] {
      assert a + b == b;
    } else {
      assert (a + b)[1..] == a[1..] + b;
      ClosedCountAppend(a[1..], b);
    }
  }

  /** The statistics `path_validate` reports for a decoded path. */
  function StatsOf(p: Path): (s: Stats)
    ensures s.totalContours == |p.contours|
    ensures s.closedContours + s.openContours == s.totalContours
    ensures s.openContours == OpenCount(p.contours)
    ensures s.totalPoints == TotalPoints(p.contours)
    ensures s.isEmpty == IsEmpty(p)
    ensures s.isEmpty <==> s.totalPoints == 0
  {
    ClosedOpenPartition(p.contours);
    var closed := ClosedCount(p.contours);
    Stats(|p.contours|, closed, |p.contours| - closed, TotalPoints(p.contours), IsEmpty(p))
  }

  /** Contours transformed one by one have the same counts. */
  lemma {:induction false} TransformedCounts(cs: seq<Contour>, ds: seq<Contour>, t: Transform)
    requires |ds| == |cs| && forall i :: 0 <= i < |cs| ==> ContourTransformed(cs[i], ds[i], t)
    ensures TotalPoints(ds) == TotalPoints(cs) && ClosedCount(ds) == ClosedCount(cs)
  {
    if cs != [] {
      assert forall i :: 0 <= i < |cs| - 1 ==> cs[1..][i] == cs[i + 1] && ds[1..][i] == ds[i + 1];
      TransformedCounts(cs[1..], ds[1..], t);
    }
  }

  /** `translate` and `scale` change coordinates only, so a transformed path
      has the statistics of the original. */
  lemma TransformPreservesStats(p: Path, q: Path, t: Transform)
    requires Transformed(p, q, t)
    ensures StatsOf(q) == StatsOf(p)
  {
    TransformedCounts(p.contours, q.contours, t);
    TransformKeepsEmptiness(p, q, t);
  }

  // ---------------------------------------------------------------------------
  // Operations

  /** `path_validate`: the statistics of the decoded path, always valid. */
  function PathValidate(data: Value): (r: Result<Validation>)
    ensures r.Err? <==> PathFromDict(data).Err?
    ensures r.Err? ==> r.error == PathFromDict(data).error
    ensures r.Ok? ==> r.value.valid && r.value.stats == StatsOf(PathFromDict(data).value)
  {
    var path := PathFromDict(data);
    if path.Err? then Err(path.error)
    else Ok(Validation(true, StatsOf(path.value)))
  }

  /** `path_bounds`: the bounding box of the decoded path, `None` when it has
      no point. */
  method PathBounds(data: Value) returns (r: Result<Option<Bounds>>)
    ensures r.Err? <==> PathFromDict(data).Err?
    ensures r.Err? ==> r.error == PathFromDict(data).error
    ensures r.Ok? ==> IsBoundsOf(r.value, PathFromDict(data).value)
  {
    var path := PathFromDict(data);
    if path.Err? {
      return Err(path.error);
    }
    var bounds := GetBounds(path.value);
    r := Ok(bounds);
  }

  /** `path_translate`: the dictionary of the decoded path moved by (dx, dy).
      It decodes to exactly the moved path and has the same statistics. */
  method PathTranslate(data: Value, dx: real, dy: real) returns (r: Result<Value>)
    ensures r.Err? <==> PathFromDict(data).Err?
    ensures r.Err? ==> r.error == PathFromDict(data).error
    ensures r.Ok? ==> PathFromDict(r.value).Ok? &&
                      Transformed(PathFromDict(data).value, PathFromDict(r.value).value, Translation(dx, dy))
    ensures r.Ok? ==> PathValidate(r.value) == PathValidate(data)
    ensures r.Ok? ==> r.value == PathToDict(PathFromDict(r.value).value)
  {
    var path := PathFromDict(data);
    if path.Err? {
      return Err(path.error);
    }
    var result := Translate(path.value, dx, dy);
    PathRoundTrip(result);
    TransformPreservesStats(path.value, result, Translation(dx, dy));
    r := Ok(PathToDict(result));
  }

  /** `path_scale`: the dictionary of the decoded path scaled by (sx, sy).
      It decodes to exactly the scaled path and has the same statistics. */
  method PathScale(data: Value, sx: real, sy: real) returns (r: Result<Value>)
    ensures r.Err? <==> PathFromDict(data).Err?
    ensures r.Err? ==> r.error == PathFromDict(data).error
    ensures r.Ok? ==> PathFromDict(r.value).Ok? &&
                      Transformed(PathFromDict(data).value, PathFromDict(r.value).value, Scaling(sx, sy))
    ensures r.Ok? ==> PathValidate(r.value) == PathValidate(data)
    ensures r.Ok? ==> r.value == PathToDict(PathFromDict(r.value).value)
  {
    var path := PathFromDict(data);
    if path.Err? {
      return Err(path.error);
    }
    var result := Scale(path.value, sx, sy);
    PathRoundTrip(result);
    TransformPreservesStats(path.value, result, Scaling(sx, sy));
    r := Ok(PathToDict(result));
  }

  /** `path_info`: the bounds `path_bounds` reports, the statistics
      `path_validate` reports, and the processor's version. */
  method PathInfo(data: Value) returns (r: Result<Info>)
    ensures r.Err? <==> PathFromDict(data).Err?
    ensures r.Err? ==> r.error == PathFromDict(data).error
    ensures r.Ok? ==> IsBoundsOf(r.value.bounds, PathFromDict(data).value)
    ensures r.Ok? ==> PathValidate(data) == Ok(Validation(true, r.value.stats))
    ensures r.Ok? ==> r.value.version == Version
  {
    var path := PathFromDict(data);
    if path.Err? {
      return Err(path.error);
    }
    var validation := PathValidate(data);
    var bounds := GetBounds(path.value);
    r := Ok(Info(bounds, validation.value.stats, Version));
  }

  /** On a path that decodes, `path_info` and `path_bounds` agree on the bounds:
      the requires are what the `ensures` of `PathInfo` and `PathBounds` give
      for their answers, and `BoundsUnique` joins them. */
  lemma InfoAgreesWithBounds(data: Value, info: Result<Info>, bounds: Result<Option<Bounds>>)
    requires PathFromDict(data).Ok?
    requires info.Ok? && IsBoundsOf(info.value.bounds, PathFromDict(data).value)
    requires bounds.Ok? && IsBoundsOf(bounds.value, PathFromDict(data).value)
    ensures info.value.bounds == bounds.value
  {
    BoundsUnique(PathFromDict(data).value, info.value.bounds, bounds.value);
  }
}
