# Simple path kernel of the Fontra WebAssembly core

This project models the dependency-free path kernel of Fontra's WebAssembly
core (`src-js/webapp/fontra_wasm_core_simple.py`) and proves properties of it.

The kernel has three parts:

- **Geometry.** A `Path` is a list of `Contour`s, and a `Contour` is a list of
  `Point`s plus a closed flag. A `Point` has coordinates, a segment type and a
  smooth flag.
  - Each of the three has a dictionary form. `to_dict` writes it. `from_dict`
    reads it back and fills in a default for every missing key.
  - A path answers `is_empty` and `get_bounds`.
  - A path can be moved with `translate` or resized with `scale`. Both build a
    new path.
- **The processor**, `SimpleFontraWASMProcessor`. It offers `path_bounds`,
  `path_translate`, `path_scale`, `path_validate` and `path_info` on a
  decoded JSON path dictionary. An exception raised while decoding is
  reported as an error answer.
- **The decoded-JSON layer** that both of them read and write.

There are three modules:

- `Json` (`json.dfy`): the JSON values `json.loads` produces, and the
  `Result` and `Option` wrappers. It also says how Python's `for` loop and
  list comprehension behave when they decode a list of dictionaries.
- `Geometry` (`geometry.dfy`): the data model, the dictionary form, the
  queries and the transforms.
  - `get_bounds` is a method whose nested loops keep running minima and
    maxima. It is proved to return the tight bounding box.
  - `translate` and `scale` are methods whose nested loops build the new
    contour and point lists. They are proved to move every point and change
    nothing else.
  - Paths are values, so no operation can change the path it was given.
- `Processor` (`processor.dfy`): the five processor operations and the
  statistics of `path_validate`. The processor's one field is its version
  string, which never changes, so it is a constant here.

Coordinates are real numbers. A Python exception becomes `Err`:

- `NotADict` is the `AttributeError` from calling `.get` on something that
  is not a dictionary.
- `NotIterable` is the `TypeError` from iterating `None`, a boolean or a
  number.
- `WrongType(key)` is a field whose JSON type differs from the one the
  class declares (see "Left out").

## Model

| member | source | states |
|---|---|---|
| Json.Elements | src-js/webapp/fontra_wasm_core_simple.py:54 | iterating a list visits its items. An empty string or dict visits nothing. A non-empty string or dict fails with `NotADict`, because its elements are strings and `.get` on them raises. `None`, a boolean or a number fails with `NotIterable`. |
| Json.DecodeEach | src-js/webapp/fontra_wasm_core_simple.py:70 | the comprehension succeeds iff every element decodes. It then yields exactly the decoded elements, in order. Otherwise the first element that fails decides the error. |
| Json.DecodeEncodeEach | src-js/webapp/fontra_wasm_core_simple.py:63-71 | if each element survives its encode/decode round trip, then encoding a whole list and decoding it gives the same list back. |
| Geometry.PointToDict | src-js/webapp/fontra_wasm_core_simple.py:22-28 | "x" and "y" always hold the coordinates. "type" is written, holding the point's type, exactly when the type is not "line". "smooth" is written, holding true, exactly when the flag is true. No other key is written. |
| Geometry.PointFromDict | src-js/webapp/fontra_wasm_core_simple.py:30-37 | a non-dictionary fails with `NotADict`. Otherwise each field is the dictionary's value or its default (0, 0, "line", false), and decoding succeeds exactly when those values have the declared types. |
| Geometry.ContourToDict | src-js/webapp/fontra_wasm_core_simple.py:46-50 | the keys are exactly "points" and "isClosed". "isClosed" holds the flag and is written even when it is false. "points" holds each point's dictionary, in order. |
| Geometry.ContourFromDict | src-js/webapp/fontra_wasm_core_simple.py:52-55 | a non-dictionary fails with `NotADict`. A missing "points" gives no points and a missing "isClosed" gives false, so `{}` decodes to an empty open contour. Decoding succeeds exactly when "points" (or its default) can be iterated, every element decodes as a point, and "isClosed" (or its default) is a boolean. The points are then the decoded elements, in order, and the flag is the "isClosed" value. |
| Geometry.PathToDict | src-js/webapp/fontra_wasm_core_simple.py:63-66 | the only key is "contours". It holds each contour's dictionary, in order. |
| Geometry.PathFromDict | src-js/webapp/fontra_wasm_core_simple.py:68-71 | a non-dictionary fails with `NotADict`. A dictionary without "contours" decodes to the empty path. Decoding a dictionary succeeds exactly when "contours" (or its default) can be iterated and every element decodes as a contour. The contours are then the decoded elements, in order. |
| Geometry.PointRoundTrip | src-js/webapp/fontra_wasm_core_simple.py:22-37 | `Point.from_dict(p.to_dict())` is `p`: same x, y, type and smooth flag. |
| Geometry.ContourRoundTrip | src-js/webapp/fontra_wasm_core_simple.py:46-55 | `Contour.from_dict(c.to_dict())` is `c`: same points in the same order, same closed flag. |
| Geometry.PathRoundTrip | src-js/webapp/fontra_wasm_core_simple.py:63-71 | `Path.from_dict(p.to_dict())` is `p`: same contours, in order. |
| Geometry.PointFromDictIgnoresOtherKeys | src-js/webapp/fontra_wasm_core_simple.py:30-37 | keys other than x, y, type and smooth do not affect the decoded point. |
| Geometry.IsEmpty | src-js/webapp/fontra_wasm_core_simple.py:73-74 | `is_empty` holds exactly when the path has no point at all, whether it has no contours or only empty ones. |
| Geometry.ScanStep | src-js/webapp/fontra_wasm_core_simple.py:84-89 | visiting one more point keeps the scan invariant. The first point sets all four running values. A later point updates them with `min` and `max`, and each stays the extreme of the points visited so far and is attained by one of them. |
| Geometry.ScanComplete | src-js/webapp/fontra_wasm_core_simple.py:84-98 | after scanning every contour of a non-empty path, a point has been seen, so no infinity sentinel survives. The running values, with their differences as width and height, form the bounding box. |
| Geometry.GetBounds | src-js/webapp/fontra_wasm_core_simple.py:76-98 | returns `None` exactly when the path is empty. Otherwise each of xMin, yMin, xMax and yMax is the minimum or maximum of its coordinate over all points and is attained by a point, width is xMax - xMin and height is yMax - yMin. |
| Geometry.BoundingBoxEncloses | src-js/webapp/fontra_wasm_core_simple.py:84-98 | every point lies inside the bounding box, and width and height are not negative. |
| Geometry.ExtremesOrdered | src-js/webapp/fontra_wasm_core_simple.py:91-98 | the minimum of a coordinate is at most its maximum. |
| Geometry.BoundsUnique | src-js/webapp/fontra_wasm_core_simple.py:76-98 | two results that both satisfy the `get_bounds` contract are equal, so the contract fixes the answer. |
| Geometry.Translate | src-js/webapp/fontra_wasm_core_simple.py:100-115 | the new path has the same number of contours and of points per contour. Every closed flag, type and smooth flag is kept, and each point (x, y) becomes (x + dx, y + dy). |
| Geometry.Scale | src-js/webapp/fontra_wasm_core_simple.py:117-132 | the structure is kept as by `translate`, and each point (x, y) becomes (x * sx, y * sy). |
| Geometry.IdentityTransform | src-js/webapp/fontra_wasm_core_simple.py:100-132 | `translate(0, 0)` and `scale(1, 1)` give back a path equal to the original. |
| Geometry.TranslationsCompose | src-js/webapp/fontra_wasm_core_simple.py:100-115 | translating by (dx1, dy1) and then by (dx2, dy2) is translating by (dx1 + dx2, dy1 + dy2). |
| Geometry.TransformKeepsEmptiness | src-js/webapp/fontra_wasm_core_simple.py:100-132 | a translated or scaled path is empty exactly when the original is. |
| Geometry.TransformedExtremes | src-js/webapp/fontra_wasm_core_simple.py:100-132 | the extremes of a transformed path are the transformed extremes of the original. A negative scale factor swaps minimum and maximum on its axis. |
| Geometry.TranslatedBounds | src-js/webapp/fontra_wasm_core_simple.py:100-115 | the bounding box of a translated path is the original box moved by (dx, dy), with the same width and height. |
| Geometry.ScaledAxis | src-js/webapp/fontra_wasm_core_simple.py:117-132 | on each axis of a scaled path, the new minimum and maximum are the smaller and the larger of the scaled old extremes. The span is multiplied by the absolute value of the factor. |
| Processor.TotalPoints | src-js/webapp/fontra_wasm_core_simple.py:263 | the point total is 0 exactly when every contour is empty, and it is at least the point count of each contour. |
| Processor.TotalPointsAppend | src-js/webapp/fontra_wasm_core_simple.py:263 | the point total of two contour lists joined together is the sum of their totals. |
| Processor.ClosedCount | src-js/webapp/fontra_wasm_core_simple.py:264 | the closed count is at most the number of contours. It is 0 exactly when no contour is closed, and equal to the number of contours exactly when all are. |
| Processor.ClosedCountAppend | src-js/webapp/fontra_wasm_core_simple.py:264 | the closed count of two contour lists joined together is the sum of their counts. |
| Processor.ClosedOpenPartition | src-js/webapp/fontra_wasm_core_simple.py:264-265 | the closed contours and the open contours, each counted directly, together are all contours. |
| Processor.StatsOf | src-js/webapp/fontra_wasm_core_simple.py:263-277 | closed_contours + open_contours == total_contours, which is the number of contours. open_contours is the number of contours that are not closed, and total_points is the summed point count. is_empty agrees with `is_empty()` and holds exactly when total_points is 0. |
| Processor.TransformedCounts | src-js/webapp/fontra_wasm_core_simple.py:263-264 | contours transformed point by point have the same point total and closed count. |
| Processor.TransformPreservesStats | src-js/webapp/fontra_wasm_core_simple.py:100-132 | a translated or scaled path has the same `path_validate` statistics as the original. |
| Processor.PathValidate | src-js/webapp/fontra_wasm_core_simple.py:246-280 | fails exactly when the path does not decode, with the decoding error. On success `valid` is true and the stats are those of the decoded path. |
| Processor.PathBounds | src-js/webapp/fontra_wasm_core_simple.py:159-184 | fails exactly when the path does not decode, with the decoding error. On success it reports the `get_bounds` result of the decoded path. |
| Processor.PathTranslate | src-js/webapp/fontra_wasm_core_simple.py:186-214 | fails exactly when the path does not decode. On success the returned dictionary is exactly the `to_dict` form of the translated path, and it has the same `path_validate` answer as the input. |
| Processor.PathScale | src-js/webapp/fontra_wasm_core_simple.py:216-244 | fails exactly when the path does not decode. On success the returned dictionary is exactly the `to_dict` form of the scaled path, and it has the same `path_validate` answer as the input. |
| Processor.PathInfo | src-js/webapp/fontra_wasm_core_simple.py:282-314 | fails exactly when the path does not decode, with the decoding error. On success its bounds satisfy the `get_bounds` contract for the path, its stats are what `path_validate` reports, and its version is "1.0.0-simple". |
| Processor.InfoAgreesWithBounds | src-js/webapp/fontra_wasm_core_simple.py:296-304 | for a path that decodes, `path_info` and `path_bounds` report the same bounds. |

## Left out

- The JSON text layer is not modelled: `json.loads` of a string argument inside each processor operation, and the `wasm_*` functions that `json.dumps` the answers. Input and output are decoded JSON values.
- The text of an error answer (`str(e)`) is not modelled. An error answer carries only the kind of exception.
- Float semantics are not modelled: coordinates are exact reals, so rounding, NaN and overflow are out of scope. The `float('inf')` starting values of `get_bounds` become a "no point seen yet" flag, and `GetBounds` proves that the flag is set before the result is built.
- Geometry.PointFromDict: Python copies any JSON value into a field. The model decodes only when "x" and "y" are numbers, "type" is a string and "smooth" is a boolean, and it reports anything else as `WrongType`. A JSON boolean in "x" or "y" is also refused, although Python treats it as the number 0 or 1.
- Geometry.ContourFromDict: Python keeps any "isClosed" value. `path_validate` counts it by its truth, and `Contour.to_dict` writes it back as it was. The model reports a non-boolean as `WrongType`.
- Processor.PathValidate: never reads a point's fields, so Python succeeds on a path whose fields have other JSON types. The model reports `Err(WrongType(...))` for such a path.
- Processor.PathBounds: reads only "x" and "y", so Python succeeds when "type", "smooth" or "isClosed" has another JSON type, or when a coordinate is a boolean. The model reports `Err(WrongType(...))` there.
- Processor.PathInfo: reads the path the way `path_validate` and `path_bounds` do, so the model reports `Err(WrongType(...))` in the same cases where Python succeeds.
- Processor.PathTranslate: Python copies "type", "smooth" and "isClosed" of any JSON type through to its answer, and accepts boolean coordinates. The model reports `Err(WrongType(...))` for such a path.
- Processor.PathScale: Python copies "type", "smooth" and "isClosed" of any JSON type through to its answer, and accepts boolean coordinates. The model reports `Err(WrongType(...))` for such a path.
- Key order in the dictionaries is not modelled, because a dictionary is a map. Python's distinction between `0` and `0.0` is not modelled either.
- `get_info` is not modelled. It returns a constant capability dictionary.
- The `__main__` test harness is not modelled, because it is console output.
- `path_info` reads `validation.get("stats", {})`. The `{}` fallback cannot be reached once the path has decoded, so the model reads the stats directly.
- `fontra_wasm_core.py` is not modelled. Every one of its operations delegates to `fontra.core.pathops` and `skia-pathops`.
- The font storage engine, its schema and the backend selection lie outside this path kernel and are not modelled.
