/** Values shared by the planner's components: geographic points, and the
    explicit failure results that stand for the exceptions the planner raises. */
module Geo {

  /** A waypoint or polygon vertex, in decimal degrees. */
  datatype Point = Point(latitude: real, longitude: real)

  /** Why a planner operation failed. */
  datatype Error =
    | EmptyPolygon       // min()/max() over no vertices, then the failing error handler
    | EmptyLatitudeList  // indexing the first and last latitude of an empty list
    | ZeroFootprint      // dividing the overlap by a footprint of zero metres

  datatype Result<T> = Ok(value: T) | Err(error: Error)

  /** The latitude of every point, in order. */
  function Latitudes(points: seq<Point>): seq<real>
  {
    seq(|points|, i requires 0 <= i < |points| => points[i].latitude)
  }

  /** The longitude of every point, in order. */
  function Longitudes(points: seq<Point>): seq<real>
  {
    seq(|points|, i requires 0 <= i < |points| => points[i].longitude)
  }

  function Abs(x: real): real
  {
    if x < 0.0 then -x else x
  }
}
