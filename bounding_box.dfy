/** The axis-aligned bounding rectangle of a mission polygon. */
module BoundingBox {
  import opened Geo

  /** The smallest value of a non-empty sequence, as Python's min() yields it. */
  function Min(xs: seq<real>): (m: real)
    requires |xs| > 0
    ensures forall i :: 0 <= i < |xs| ==> m <= xs[i]
    ensures exists i :: 0 <= i < |xs| && xs[i] == m
    decreases |xs|
  {
    if |xs| == 1 then xs[0]
    else
      var rest := Min(xs[1..]);
      if rest < xs[0] then rest else xs[0]
  }

  /** The largest value of a non-empty sequence, as Python's max() yields it. */
  function Max(xs: seq<real>): (m: real)
    requires |xs| > 0
    ensures forall i :: 0 <= i < |xs| ==> xs[i] <= m
    ensures exists i :: 0 <= i < |xs| && xs[i] == m
    decreases |xs|
  {
    if |xs| == 1 then xs[0]
    else
      var rest := Max(xs[1..]);
      if xs[0] < rest then rest else xs[0]
  }

  /** Five corners, closed (last = first), in the order
      (min-lat, max-lon), (max-lat, max-lon), (max-lat, min-lon), (min-lat, min-lon),
      with min-lat <= max-lat and min-lon <= max-lon. */
  predicate ClosedRectangle(box: seq<Point>)
  {
    |box| == 5 && box[4] == box[0] &&
    box[0].latitude == box[3].latitude && box[1].latitude == box[2].latitude &&
    box[0].longitude == box[1].longitude && box[2].longitude == box[3].longitude &&
    box[0].latitude <= box[1].latitude && box[2].longitude <= box[1].longitude
  }

  /** Every vertex lies inside the rectangle. */
  predicate Encloses(box: seq<Point>, polygon: seq<Point>)
    requires |box| == 5
  {
    forall i :: 0 <= i < |polygon| ==>
      box[0].latitude <= polygon[i].latitude <= box[1].latitude &&
      box[2].longitude <= polygon[i].longitude <= box[1].longitude
  }

  /** Each of the four sides of the rectangle touches some vertex. */
  predicate Tight(box: seq<Point>, polygon: seq<Point>)
    requires |box| == 5
  {
    (exists i :: 0 <= i < |polygon| && polygon[i].latitude == box[0].latitude) &&
    (exists i :: 0 <= i < |polygon| && polygon[i].latitude == box[1].latitude) &&
    (exists i :: 0 <= i < |polygon| && polygon[i].longitude == box[2].longitude) &&
    (exists i :: 0 <= i < |polygon| && polygon[i].longitude == box[1].longitude)
  }

  /** The bounding box of a polygon; an empty polygon is a failure, because
      min() of no vertices raises and the handler itself raises again. */
  function GetBoundingBox(polygon: seq<Point>): (r: Result<seq<Point>>)
    ensures r.Err? <==> |polygon| == 0
    ensures r.Err? ==> r.error == EmptyPolygon
    ensures r.Ok? ==> ClosedRectangle(r.value)
    ensures r.Ok? ==>
      var minLat, maxLat := Min(Latitudes(polygon)), Max(Latitudes(polygon));
      var minLon, maxLon := Min(Longitudes(polygon)), Max(Longitudes(polygon));
      r.value == [Point(minLat, maxLon), Point(maxLat, maxLon), Point(maxLat, minLon),
                  Point(minLat, minLon), Point(minLat, maxLon)]
    ensures r.Ok? ==> Encloses(r.value, polygon) && Tight(r.value, polygon)
  {
    if |polygon| == 0 then Err(EmptyPolygon)
    else
      var lats, lons := Latitudes(polygon), Longitudes(polygon);
      var minLat, maxLat := Min(lats), Max(lats);
      var minLon, maxLon := Min(lons), Max(lons);
      assert forall i :: 0 <= i < |polygon| ==>
        lats[i] == polygon[i].latitude && lons[i] == polygon[i].longitude;
      Ok([Point(minLat, maxLon), Point(maxLat, maxLon), Point(maxLat, minLon),
          Point(minLat, minLon), Point(minLat, maxLon)])
  }

  /** The three properties pin the box down: any closed rectangle that
      encloses the polygon and touches it on every side is the computed one. */
  lemma BoxIsUnique(polygon: seq<Point>, box: seq<Point>)
    requires ClosedRectangle(box) && Encloses(box, polygon) && Tight(box, polygon)
    ensures GetBoundingBox(polygon) == Ok(box)
  {
    var r := GetBoundingBox(polygon);
    assert r.Ok? by {
      var i :| 0 <= i < |polygon| && polygon[i].latitude == box[0].latitude;
    }
    var b := r.value;
    var i0 :| 0 <= i0 < |polygon| && polygon[i0].latitude == box[0].latitude;
    var i1 :| 0 <= i1 < |polygon| && polygon[i1].latitude == box[1].latitude;
    var i2 :| 0 <= i2 < |polygon| && polygon[i2].longitude == box[2].longitude;
    var i3 :| 0 <= i3 < |polygon| && polygon[i3].longitude == box[1].longitude;
    var j0 :| 0 <= j0 < |polygon| && polygon[j0].latitude == b[0].latitude;
    var j1 :| 0 <= j1 < |polygon| && polygon[j1].latitude == b[1].latitude;
    var j2 :| 0 <= j2 < |polygon| && polygon[j2].longitude == b[2].longitude;
    var j3 :| 0 <= j3 < |polygon| && polygon[j3].longitude == b[1].longitude;
    assert b[0].latitude == box[0].latitude;
    assert b[1].latitude == box[1].latitude;
    assert b[2].longitude == box[2].longitude;
    assert b[1].longitude == box[1].longitude;
    assert b == box;
  }

  /** The box depends only on the set of vertices, not on their order,
      repetition or whether the polygon is explicitly closed. */
  lemma BoxDependsOnlyOnVertices(p: seq<Point>, q: seq<Point>)
    requires forall x :: x in p <==> x in q
    ensures GetBoundingBox(p) == GetBoundingBox(q)
  {
    if |p| > 0 { assert p[0] in q; }
    if |q| > 0 { assert q[0] in p; }
    var r := GetBoundingBox(p);
    if r.Ok? {
      var box := r.value;
      forall i | 0 <= i < |q|
        ensures box[0].latitude <= q[i].latitude <= box[1].latitude
        ensures box[2].longitude <= q[i].longitude <= box[1].longitude
      {
        assert q[i] in p;
      }
      assert Tight(box, q) by {
        var i0 :| 0 <= i0 < |p| && p[i0].latitude == box[0].latitude;
        var i1 :| 0 <= i1 < |p| && p[i1].latitude == box[1].latitude;
        var i2 :| 0 <= i2 < |p| && p[i2].longitude == box[2].longitude;
        var i3 :| 0 <= i3 < |p| && p[i3].longitude == box[1].longitude;
        assert p[i0] in q && p[i1] in q && p[i2] in q && p[i3] in q;
      }
      BoxIsUnique(q, box);
    }
  }
}
