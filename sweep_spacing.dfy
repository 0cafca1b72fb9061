/** The spacing arithmetic of the two sweep-line generators: how far apart
    consecutive passes are, and how far the first pass is offset from the
    bounding box's (min-lat, max-lon) corner. Distances are in metres. */
module SweepSpacing {
  import opened Geo

  datatype Spacing = Spacing(overlapDistance: real, moveDistance: real, startMove: real)

  /** The sweep steps forward only when the step between passes is positive;
      otherwise the sweep loop cannot reach its boundary. */
  predicate Advances(s: Spacing)
  {
    s.moveDistance > 0.0
  }

  /** Spacing of the longitude sweep from the horizontal footprint. The overlap
      is divided by the footprint, so a zero footprint is a failure. */
  function HorizontalSpacing(coverageHorizontal: real, overlappingPercentage: real): (r: Result<Spacing>)
    ensures r.Err? <==> coverageHorizontal == 0.0
    ensures r.Err? ==> r.error == ZeroFootprint
    ensures r.Ok? ==> r.value.overlapDistance == overlappingPercentage
    ensures r.Ok? ==> r.value.moveDistance + overlappingPercentage == coverageHorizontal
    ensures r.Ok? ==> (Advances(r.value) <==> overlappingPercentage < coverageHorizontal)
  {
    var fov := coverageHorizontal;
    if fov == 0.0 then Err(ZeroFootprint)
    else
      var overlapDistance := fov * (overlappingPercentage / fov);
      var moveDistance := fov - overlapDistance;
      Ok(Spacing(overlapDistance, moveDistance, -(moveDistance - Abs(fov / 2.0 - overlapDistance))))
  }

  /** Spacing of the latitude sweep from the vertical footprint; written out
      separately, as the generator does. */
  function VerticalSpacing(coverageVertical: real, overlappingPercentage: real): (r: Result<Spacing>)
    ensures r.Err? <==> coverageVertical == 0.0
    ensures r.Err? ==> r.error == ZeroFootprint
    ensures r.Ok? ==> r.value.overlapDistance == overlappingPercentage
    ensures r.Ok? ==> r.value.moveDistance + overlappingPercentage == coverageVertical
    ensures r.Ok? ==> (Advances(r.value) <==> overlappingPercentage < coverageVertical)
  {
    var fov := coverageVertical;
    if fov == 0.0 then Err(ZeroFootprint)
    else
      var overlapDistance := fov * (overlappingPercentage / fov);
      var moveDistance := fov - overlapDistance;
      Ok(Spacing(overlapDistance, moveDistance, -(moveDistance - Abs((fov / 2.0) - overlapDistance))))
  }

  /** The two axes compute the same spacing from the same inputs. */
  lemma AxesAgree(footprint: real, overlappingPercentage: real)
    ensures HorizontalSpacing(footprint, overlappingPercentage) == VerticalSpacing(footprint, overlappingPercentage)
  {
  }

  /** The first-pass offset in closed form: half a footprint back while the
      overlap is at most half the footprint, and 2*overlap - 3/2 footprint beyond. */
  lemma StartMoveClosedForm(footprint: real, overlappingPercentage: real)
    requires footprint != 0.0
    ensures HorizontalSpacing(footprint, overlappingPercentage).value.startMove ==
      if overlappingPercentage <= footprint / 2.0 then -footprint / 2.0
      else 2.0 * overlappingPercentage - 3.0 * footprint / 2.0
  {
  }

  /** With a positive footprint and an overlap in [0, footprint), the sweep
      advances by at most one footprint and the first pass is offset from the
      corner by at most half a footprint. */
  lemma StartMoveBounded(footprint: real, overlappingPercentage: real)
    requires 0.0 <= overlappingPercentage < footprint
    ensures var s := HorizontalSpacing(footprint, overlappingPercentage).value;
      -footprint / 2.0 <= s.startMove < footprint / 2.0 && 0.0 < s.moveDistance <= footprint
  {
    StartMoveClosedForm(footprint, overlappingPercentage);
  }
}
