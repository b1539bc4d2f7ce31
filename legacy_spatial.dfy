/**
 * The older shared store client's spatial filter: a fixed `$near` query around
 * a point, with no shape check and no minimum distance.
 */
module LegacyMongo {
  import opened Wrappers
  import opened Bson
  import SpatialQuery
  import CrumbDb

  const MaxDistance := 100
  const SpatialIndexKey := "location"

  /** spatialFilter: `{location: {$near: {$geometry: point, $maxDistance: 100}}}`. */
  function SpatialFilter(point: SpatialQuery.Point): (r: seq<Elem>)
    ensures Keys(r) == ["location"] && r[0].value.Doc? && Keys(r[0].value.elems) == ["$near"]
  {
    [Elem(SpatialIndexKey, Doc([Elem("$near", Doc([
      Elem("$geometry", SpatialQuery.EncodePoint(point)),
      Elem("$maxDistance", Int(MaxDistance))]))]))]
  }

  /** The filter has one key, `location`, holding one `$near` envelope: the point, then the bound. */
  lemma FilterShape(point: SpatialQuery.Point)
    ensures var f := SpatialFilter(point);
            Keys(f) == ["location"] && f[0].value.Doc? &&
            Keys(f[0].value.elems) == ["$near"] && f[0].value.elems[0].value.Doc? &&
            var envelope := f[0].value.elems[0].value.elems;
            Keys(envelope) == ["$geometry", "$maxDistance"] &&
            Lookup(envelope, "$minDistance") == None &&
            Lookup(envelope, "$maxDistance") == Some(Int(100)) &&
            SpatialQuery.DecodeGeometry(envelope) == Some(SpatialQuery.GeometryOp(point, 100, 0))
  {
    var envelope := SpatialFilter(point)[0].value.elems[0].value.elems;
    var g := SpatialQuery.GeometryOp(point, 100, 0);
    assert SpatialQuery.EncodeGeometry(g) == envelope;
    SpatialQuery.GeometryRoundTrip(g);
  }

  /**
   * For a shape the crumb service's builder supports, the filter is exactly the
   * `near` command that builder makes with bounds 100 and 0.
   */
  lemma AgreesWithBuilder(point: SpatialQuery.Point)
    requires SpatialQuery.SupportedShape(point.shapeType)
    ensures var r := SpatialQuery.NewSpatialQueryCommand(SpatialQuery.OpNear, point.shapeType, point.coordinates, 100, 0);
            r.Ok? && SpatialQuery.EncodeCommand(r.command) == SpatialFilter(point)
  {
    var g := SpatialQuery.GeometryOp(point, 100, 0);
    assert SpatialQuery.EncodeGeometry(g) ==
           [Elem("$geometry", SpatialQuery.EncodePoint(point)), Elem("$maxDistance", Int(MaxDistance))];
  }

  /** The point goes in unchecked: a shape the builder refuses still yields a filter around it. */
  lemma NoShapeCheck(point: SpatialQuery.Point)
    requires !SpatialQuery.SupportedShape(point.shapeType)
    ensures SpatialQuery.NewSpatialQueryCommand(SpatialQuery.OpNear, point.shapeType, point.coordinates, 100, 0)
            == SpatialQuery.ShapeErr(point.shapeType)
    ensures SpatialFilter(point)[0].value.elems[0].value.elems[0] == Elem("$geometry", SpatialQuery.EncodePoint(point))
  {
  }

  /** The crumb service's spatial query sends the same filter as this client for the same coordinates. */
  lemma AgreesWithCrumbQuery(pointType: string, coordinates: seq<real>)
    ensures CrumbDb.SpatialQueryFilter(pointType, coordinates) ==
            Some(SpatialFilter(SpatialQuery.Point(SpatialQuery.PointTypePoint, coordinates)))
  {
  }
}
