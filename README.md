# Coverage waypoint planner: a Dafny model of its exact core

The planner turns a mission polygon into a zigzag ("boustrophedon", lawnmower)
flight path for aerial photography. This project models the parts of
`waypoint_generator/utils.py` that are combinatorial or exact arithmetic, and
proves what they guarantee:

- **Bounding box** (`BoundingBox`): `get_bounding_box` takes the minimum and
  maximum latitude and longitude over the vertices and builds a closed
  five-corner rectangle, starting at (min-lat, max-lon) and going through
  (max-lat, max-lon), (max-lat, min-lon) and (min-lat, min-lon) back to the
  start. The model proves that the box encloses every vertex, touches the
  polygon on all four sides, and is the only closed rectangle that does both. It
  also proves that the box depends only on the set of vertices.
- **Sweep spacing** (`SweepSpacing`): the overlap distance, step between
  passes and first-pass offset of both sweep generators, over exact reals.
  `FOV * (overlap / FOV)` is exactly the overlap, so the "percentage" is really a
  distance in metres. The sweep advances exactly when the overlap is smaller
  than the footprint. The horizontal and vertical formulas agree.
- **Zigzag merge** (`Boustrophedon`): `generate_all_points` is modelled as a
  method with the same nested loops and the same `reverse` flag. It is proved
  equal to a specification function `Zigzag` that has one block per longitude,
  with latitudes forward in even blocks and backward in odd ones. Lemmas give
  the path's length, the closed-form index formula, the reversal between
  neighbouring blocks, and continuity across block boundaries.
- **Angle conversion** (`AngleConversion`): `decimal_to_dms` and
  `dms_to_decimal` over exact reals. Python's `int()` on the non-negative
  magnitude is `.Floor`. The model proves the component bounds, the round trip
  for non-negative angles and for normalised DMS values, and an exact
  characterisation of the failing negative round trip.

Coordinates and angles are exact `real`s; points are `Geo.Point`. The
exceptions the code raises are explicit `Geo.Result` failures:

- An empty polygon makes `min()` raise. The handler at line 29 then calls the
  logger object itself, which raises again, so the `return []` at line 30 is
  never reached and the failure reaches the caller. The model returns
  `Err(EmptyPolygon)`.
- An empty latitude sweep makes the indexing at lines 153-154 raise. The model
  returns `Err(EmptyLatitudeList)`.
- A zero footprint makes the division at line 55 (and line 101) raise. The model
  returns `Err(ZeroFootprint)`.

Behaviour of the code that the model keeps as written:

- The merge emits the latitudes in the order the latitude sweep produced them,
  not sorted.
- The merge detects the last latitude with exact equality, not with a tolerance.
  Because `last_lat` is taken from the list itself, the flag is set on every
  forward pass and cleared on every backward pass. The direction therefore
  alternates strictly, whatever the values are.
- The DMS round trip holds only for non-negative angles and for whole negative
  degrees (see Findings).

## Model

| member | source | states |
|---|---|---|
| `BoundingBox.Min` | waypoint_generator/utils.py:12-14 | the minimum of a non-empty sequence is at most every element and equals one of them |
| `BoundingBox.Max` | waypoint_generator/utils.py:13-15 | the maximum of a non-empty sequence is at least every element and equals one of them |
| `BoundingBox.GetBoundingBox` | waypoint_generator/utils.py:10-30 | fails exactly on an empty polygon. Otherwise it gives five points forming a closed rectangle: the last equals the first; the corners are (min-lat,max-lon), (max-lat,max-lon), (max-lat,min-lon), (min-lat,min-lon), with min/max taken over the vertices; min ≤ max on both axes. Every vertex lies inside and each side touches a vertex |
| `BoundingBox.BoxIsUnique` | waypoint_generator/utils.py:12-24 | any closed rectangle that encloses the polygon and touches it on all four sides is exactly the computed box |
| `BoundingBox.BoxDependsOnlyOnVertices` | waypoint_generator/utils.py:12-15 | polygons with the same set of vertices get the same box (or both fail), whatever the order, repetition or closing vertex |
| `SweepSpacing.HorizontalSpacing` | waypoint_generator/utils.py:54-57 | fails exactly when the footprint is zero. Otherwise the overlap distance equals the given overlap, and step + overlap = footprint. The sweep advances (step > 0) iff overlap < footprint |
| `SweepSpacing.VerticalSpacing` | waypoint_generator/utils.py:100-103 | the same guarantees for the latitude sweep's vertical footprint |
| `SweepSpacing.AxesAgree` | waypoint_generator/utils.py:100-103 | the vertical formulas give exactly the horizontal ones for equal inputs |
| `SweepSpacing.StartMoveClosedForm` | waypoint_generator/utils.py:57 | the first-pass offset is −footprint/2 when overlap ≤ footprint/2, and 2·overlap − 3/2·footprint otherwise |
| `SweepSpacing.StartMoveBounded` | waypoint_generator/utils.py:55-57 | for 0 ≤ overlap < footprint: 0 < step ≤ footprint, and the offset lies in [−footprint/2, footprint/2) |
| `AngleConversion.DecimalToDms` | waypoint_generator/utils.py:130-142 | 0 ≤ minutes < 60 and 0 ≤ seconds < 60; \|degrees\| = floor(\|x\|). Degrees are negative iff x ≤ −1, so in (−1, 0) the sign is lost |
| `AngleConversion.DmsToDecimal` | waypoint_generator/utils.py:33-34 | the result exceeds the degrees by (60·minutes + seconds)/3600; for minutes in [0,60) and seconds in [0,60) it lies in [degrees, degrees+1), so its whole-degree part is the degrees (the inverse direction is `RoundTripFromDms`) |
| `AngleConversion.RoundTripNonNegative` | waypoint_generator/utils.py:130-142 | for x ≥ 0, converting to DMS and back gives exactly x |
| `AngleConversion.RoundTripFromDms` | waypoint_generator/utils.py:33-34 | a DMS value with degrees ≥ 0, minutes in [0,60) and seconds in [0,60) converts to decimal and back unchanged |
| `AngleConversion.RoundTripNegative` | waypoint_generator/utils.py:139-140 | for x < 0 the round trip gives x + 2·frac(\|x\|) |
| `AngleConversion.RoundTripExactly` | waypoint_generator/utils.py:131-142 | the round trip returns x iff x ≥ 0 or x is a whole number |
| `AngleConversion.NegativeRoundTripFails` | waypoint_generator/utils.py:139-142 | −1.5 converts to (−1, 30, 0) and back to −0.5; −0.5 converts to (0, 30, 0) and back to +0.5 |
| `AngleConversion.DecimalToSignedDms` | waypoint_generator/utils.py:130-142 | corrected conversion: the sign flag is set iff x < 0, and the components have the same bounds and magnitudes as the original conversion |
| `AngleConversion.SignedRoundTrip` | waypoint_generator/utils.py:33-34 | with the sign applied to the whole magnitude, the round trip returns x for every angle |
| `Boustrophedon.ZigzagLength` | waypoint_generator/utils.py:156-166 | the path has \|latitudes\| × \|longitudes\| points |
| `Boustrophedon.ZigzagAt` | waypoint_generator/utils.py:156-166 | the point at index k·n + j lies on longitude k, at latitude j when k is even and latitude n−1−j when k is odd |
| `Boustrophedon.ZigzagContinuous` | waypoint_generator/utils.py:160-166 | the last point of block k and the first point of block k+1 (indices (k+1)·n − 1 and (k+1)·n) have the same latitude |
| `Boustrophedon.ZigzagAlternates` | waypoint_generator/utils.py:157-166 | the point at index (k+1)·n + j has the latitude of the point at index k·n + (n−1−j): neighbouring blocks visit the latitudes in opposite orders |
| `Boustrophedon.GenerateAllPoints` | waypoint_generator/utils.py:145-168 | fails exactly when the latitude sweep is empty. Otherwise the nested loops with the `reverse` flag build exactly `Zigzag(latitudes, longitudes)`, with \|vertical\| × \|horizontal\| points |

## Left out

- `horizontal_move_point` / `vertical_move_point` (utils.py:37-48, 83-94): spherical forward geodesic with `asin`, `atan2`, `sin` and `cos` on floats. Transcendental functions are outside what the verifier reasons about.
- The sweep loops of `generate_horizontal_waypoints` / `generate_vertical_waypoints` (utils.py:60-80, 106-127): their progress and termination depend on the geodesic moves. Only their spacing arithmetic is modelled. The repeated min/max at lines 61-64 and 107-110 is the same computation as `BoundingBox.GetBoundingBox`.
- `calculate_fov`, `calculate_coverage`, `get_fov` (utils.py:211-234): `atan`/`tan` of floats with a fixed camera profile. Footprints enter the model as plain parameters.
- `plot_waypoints` (utils.py:171-207): visualisation only. Its closing of the caller's polygon does not change the box, by `BoundingBox.BoxDependsOnlyOnVertices`.
- `waypoint_generator/views.py`: HTTP handling, authentication, validation, persistence and responses are not part of this model.
- Logging calls: dropped. Their only modelled effect is the failing handler of `get_bounding_box`, which becomes `Err(EmptyPolygon)`.
- Floating point: all arithmetic is over exact reals. In IEEE doubles, `FOV * (p / FOV)` and the DMS round trip are equal to the exact results only up to rounding.
- The unused `fast_lat` (utils.py:153) matters only through the failure it raises on an empty list.
- `GenerateAllPoints` works on Dafny sequences. Python's list appends become sequence concatenations, and nothing else can observe the list while it is being built.

## Findings

| source | as written | input that shows it | evidently intended | confidence | as-written member | corrected member |
|---|---|---|---|---|---|---|
| waypoint_generator/utils.py:33-34, 139-142 | the sign is kept only on the degrees, and `dms_to_decimal` adds minutes and seconds positively; for −1 < x < 0 the degrees are 0 and the sign is lost | −1.5 → (−1, 30, 0.0) → −0.5; −0.5 → (0, 30, 0.0) → 0.5 | converting to DMS and back returns the angle for negative inputs too | not executed; high (exact-real proof) | `AngleConversion.NegativeRoundTripFails` | `AngleConversion.SignedRoundTrip` |
