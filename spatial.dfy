/**
 * The crumb service's spatial query builder: a closed table of four operators
 * and three shape tags (the GeoJSON type names of section 3.1 of RFC 7946),
 * the nested command it builds, and the document the driver encodes from it.
 */
module SpatialQuery {
  import opened Wrappers
  import opened Bson

  const PointTypePolygon := "Polygon"
  const PointTypeMultiPolygon := "MultiPolygon"
  /** Declared as POINT_TYPE_MULTI_POINT; its value is the single-point tag. */
  const PointTypePoint := "Point"

  const OpGeoIntersects := "geoIntersects"
  const OpGeoWithin := "geoWithin"
  const OpNear := "near"
  const OpNearSphere := "nearSphere"

  predicate SupportedShape(pointType: string) {
    pointType == PointTypePolygon || pointType == PointTypeMultiPolygon || pointType == PointTypePoint
  }

  predicate SupportedOp(opType: string) {
    opType == OpGeoIntersects || opType == OpGeoWithin || opType == OpNear || opType == OpNearSphere
  }

  /** A shape: its type tag and its coordinates, which are only copied. */
  datatype Point = Point(shapeType: string, coordinates: seq<real>)

  /** The operand of every spatial operator; a bound of 0 is left out when encoded. */
  datatype GeometryOp = GeometryOp(geometry: Point, maxDistance: int, minDistance: int)

  /** The four single-field operator envelopes. */
  datatype Envelope =
    | GeoIntersectsOp(op: GeometryOp)
    | GeoWithinOp(op: GeometryOp)
    | NearOp(op: GeometryOp)
    | NearSphereOp(op: GeometryOp)
  {
    /** The operator name the envelope stands for. */
    function OpType(): string {
      match this
      case GeoIntersectsOp(_) => OpGeoIntersects
      case GeoWithinOp(_) => OpGeoWithin
      case NearOp(_) => OpNear
      case NearSphereOp(_) => OpNearSphere
    }

    function Key(): string {
      match this
      case GeoIntersectsOp(_) => "$geoIntersects"
      case GeoWithinOp(_) => "$geoWithin"
      case NearOp(_) => "$near"
      case NearSphereOp(_) => "$nearSphere"
    }
  }

  /** What the builder hands back: the envelope under `location`, or the bare envelope. */
  datatype Command =
    | SpatialQueryCommand(envelope: Envelope)
    | Bare(envelope: Envelope)

  /** The builder's outcome; an error carries no command. */
  datatype BuildResult =
    | Ok(command: Command)
    | ShapeErr(pointType: string)  // "point type %v not allowed"
    | OpErr(opType: string)        // "op type %v not supported"

  /** NewSpatialQueryCommand: the shape switch first, then the operator switch. */
  function NewSpatialQueryCommand(opType: string, pointType: string, coordinates: seq<real>,
                                  maxDistance: int, minDistance: int): (r: BuildResult)
    ensures r.ShapeErr? <==> !SupportedShape(pointType) || (pointType == PointTypePoint && opType == OpGeoWithin)
    ensures r.ShapeErr? ==> r.pointType == pointType
    ensures r.OpErr? <==> SupportedShape(pointType) && !SupportedOp(opType)
    ensures r.OpErr? ==> r.opType == opType
    ensures r.Ok? ==> r.command.envelope.op.geometry == Point(pointType, coordinates)
    ensures r.Ok? ==> r.command.envelope.OpType() == opType
  {
    var unbounded := GeometryOp(Point(pointType, coordinates), 0, 0);
    if pointType != PointTypePolygon && pointType != PointTypeMultiPolygon && pointType != PointTypePoint then
      ShapeErr(pointType)
    else if pointType == PointTypePoint && opType == OpGeoWithin then
      ShapeErr(pointType)
    else if opType == OpGeoIntersects then
      Ok(SpatialQueryCommand(GeoIntersectsOp(unbounded)))
    else if opType == OpGeoWithin then
      Ok(SpatialQueryCommand(GeoWithinOp(unbounded)))
    else if opType == OpNear then
      Ok(SpatialQueryCommand(NearOp(unbounded.(maxDistance := maxDistance, minDistance := minDistance))))
    else if opType == OpNearSphere then
      Ok(Bare(NearSphereOp(unbounded.(maxDistance := maxDistance, minDistance := minDistance))))
    else
      OpErr(opType)
  }

  /** The operator/shape pairs the builder accepts, written out as a table. */
  const Compatible: set<(string, string)> := {
    (OpGeoIntersects, PointTypePolygon), (OpGeoIntersects, PointTypeMultiPolygon), (OpGeoIntersects, PointTypePoint),
    (OpGeoWithin, PointTypePolygon), (OpGeoWithin, PointTypeMultiPolygon),
    (OpNear, PointTypePolygon), (OpNear, PointTypeMultiPolygon), (OpNear, PointTypePoint),
    (OpNearSphere, PointTypePolygon), (OpNearSphere, PointTypeMultiPolygon), (OpNearSphere, PointTypePoint)
  }

  /** The builder succeeds on exactly the pairs of the table. */
  lemma SucceedsExactlyOnTable(opType: string, pointType: string, coordinates: seq<real>, maxDistance: int, minDistance: int)
    ensures NewSpatialQueryCommand(opType, pointType, coordinates, maxDistance, minDistance).Ok? <==>
            (opType, pointType) in Compatible
  {
  }

  /** With a bad shape and a bad operator, the shape error wins. */
  lemma ShapeCheckedFirst(opType: string, pointType: string, coordinates: seq<real>, maxDistance: int, minDistance: int)
    requires !SupportedShape(pointType) && !SupportedOp(opType)
    ensures NewSpatialQueryCommand(opType, pointType, coordinates, maxDistance, minDistance) == ShapeErr(pointType)
  {
  }

  /** Only near and nearSphere carry the distance bounds; the other two keep them at 0. */
  lemma BoundsOnlyForNear(opType: string, pointType: string, coordinates: seq<real>, maxDistance: int, minDistance: int)
    requires NewSpatialQueryCommand(opType, pointType, coordinates, maxDistance, minDistance).Ok?
    ensures var g := NewSpatialQueryCommand(opType, pointType, coordinates, maxDistance, minDistance).command.envelope.op;
            if opType == OpNear || opType == OpNearSphere
            then g.maxDistance == maxDistance && g.minDistance == minDistance
            else g.maxDistance == 0 && g.minDistance == 0
  {
  }

  /** nearSphere comes back bare; the other three are wrapped under `location`. */
  lemma NearSphereIsBare(opType: string, pointType: string, coordinates: seq<real>, maxDistance: int, minDistance: int)
    requires NewSpatialQueryCommand(opType, pointType, coordinates, maxDistance, minDistance).Ok?
    ensures NewSpatialQueryCommand(opType, pointType, coordinates, maxDistance, minDistance).command.Bare? <==>
            opType == OpNearSphere
  {
  }

  // ---------------------------------------------------------------------------
  // The driver's encoding of the command structs, field by field in declaration order.

  function EncodePoint(p: Point): Value {
    Doc([Elem("type", Str(p.shapeType)), Elem("coordinates", Floats(p.coordinates))])
  }

  /** `$geometry`, then `$maxDistance` and `$minDistance`, each left out when 0 (omitempty). */
  function EncodeGeometry(g: GeometryOp): (r: seq<Elem>)
    ensures 1 <= |r| <= 3 && r[0] == Elem("$geometry", EncodePoint(g.geometry))
  {
    [Elem("$geometry", EncodePoint(g.geometry))]
    + (if g.maxDistance != 0 then [Elem("$maxDistance", Int(g.maxDistance))] else [])
    + (if g.minDistance != 0 then [Elem("$minDistance", Int(g.minDistance))] else [])
  }

  function EncodeEnvelope(e: Envelope): seq<Elem> {
    [Elem(e.Key(), Doc(EncodeGeometry(e.op)))]
  }

  /** One element: `location` around the envelope, or the bare envelope under its operator key. */
  function EncodeCommand(c: Command): (r: seq<Elem>)
    ensures |r| == 1 && r[0].key == if c.SpatialQueryCommand? then "location" else c.envelope.Key()
  {
    match c
    case SpatialQueryCommand(e) => [Elem("location", Doc(EncodeEnvelope(e)))]
    case Bare(e) => EncodeEnvelope(e)
  }

  /** Reading an operand back, as a field lookup (Raw.Lookup) reads it: an absent bound is 0. */
  function DecodeGeometry(elems: seq<Elem>): Option<GeometryOp> {
    match Lookup(elems, "$geometry")
    case Some(Doc(p)) =>
      (match (Lookup(p, "type"), Lookup(p, "coordinates"))
       case (Some(Str(t)), Some(Floats(c))) =>
         var maxDistance := match Lookup(elems, "$maxDistance") case Some(Int(n)) => n case _ => 0;
         var minDistance := match Lookup(elems, "$minDistance") case Some(Int(n)) => n case _ => 0;
         Some(GeometryOp(Point(t, c), maxDistance, minDistance))
       case _ => None)
    case _ => None
  }

  /** Leaving a zero bound out loses nothing: decoding restores it. */
  lemma GeometryRoundTrip(g: GeometryOp)
    ensures DecodeGeometry(EncodeGeometry(g)) == Some(g)
  {
    var e := EncodeGeometry(g);
    var p := EncodePoint(g.geometry).elems;
    assert Lookup(e, "$geometry") == Some(EncodePoint(g.geometry));
    assert Lookup(p, "type") == Some(Str(g.geometry.shapeType));
    assert Lookup(p, "coordinates") == Some(Floats(g.geometry.coordinates));
    var ge := Elem("$geometry", EncodePoint(g.geometry));
    var mx := Elem("$maxDistance", Int(g.maxDistance));
    var mn := Elem("$minDistance", Int(g.minDistance));
    if g.maxDistance != 0 && g.minDistance != 0 {
      assert e == [ge, mx, mn] && e[1..] == [mx, mn] && e[1..][1..] == [mn];
      assert Lookup(e, "$maxDistance") == Some(mx.value);
      assert Lookup(e[1..], "$minDistance") == Lookup([mn], "$minDistance") == Some(mn.value);
    } else if g.maxDistance != 0 {
      assert e == [ge, mx] && e[1..] == [mx] && e[1..][1..] == [];
      assert Lookup(e, "$maxDistance") == Some(mx.value);
      assert Lookup(e, "$minDistance") == None;
    } else if g.minDistance != 0 {
      assert e == [ge, mn] && e[1..] == [mn] && e[1..][1..] == [];
      assert Lookup(e, "$maxDistance") == None;
      assert Lookup(e, "$minDistance") == Some(mn.value);
    } else {
      assert e == [ge] && e[1..] == [];
      assert Lookup(e, "$maxDistance") == None && Lookup(e, "$minDistance") == None;
    }
  }

  /** An encoded operand starts with `$geometry` and holds a bound exactly when it is not 0. */
  lemma EncodedBounds(g: GeometryOp)
    ensures Keys(EncodeGeometry(g))[0] == "$geometry"
    ensures "$maxDistance" in Keys(EncodeGeometry(g)) <==> g.maxDistance != 0
    ensures "$minDistance" in Keys(EncodeGeometry(g)) <==> g.minDistance != 0
  {
    var head := [Elem("$geometry", EncodePoint(g.geometry))];
    var mx := if g.maxDistance != 0 then [Elem("$maxDistance", Int(g.maxDistance))] else [];
    var mn := if g.minDistance != 0 then [Elem("$minDistance", Int(g.minDistance))] else [];
    KeysConcat(head, mx);
    KeysConcat(head + mx, mn);
    assert Keys(EncodeGeometry(g)) == Keys(head) + Keys(mx) + Keys(mn);
  }

  /** The encoded command's shape: one `location` key holding one `$op` key, or `$nearSphere` alone. */
  lemma EncodedShape(opType: string, pointType: string, coordinates: seq<real>, maxDistance: int, minDistance: int)
    requires NewSpatialQueryCommand(opType, pointType, coordinates, maxDistance, minDistance).Ok?
    ensures var c := NewSpatialQueryCommand(opType, pointType, coordinates, maxDistance, minDistance).command;
            var d := EncodeCommand(c);
            if opType == OpNearSphere then Keys(d) == ["$nearSphere"]
            else Keys(d) == ["location"] && d[0].value.Doc? && Keys(d[0].value.elems) == ["$" + opType]
  {
    var c := NewSpatialQueryCommand(opType, pointType, coordinates, maxDistance, minDistance).command;
    assert c.envelope.Key() == "$" + opType;
  }

  /** geoWithin and geoIntersects never encode a distance bound. */
  lemma NoBoundsEncodedForContainment(opType: string, pointType: string, coordinates: seq<real>, maxDistance: int, minDistance: int)
    requires NewSpatialQueryCommand(opType, pointType, coordinates, maxDistance, minDistance).Ok?
    requires opType == OpGeoWithin || opType == OpGeoIntersects
    ensures var g := EncodeGeometry(NewSpatialQueryCommand(opType, pointType, coordinates, maxDistance, minDistance).command.envelope.op);
            "$maxDistance" !in Keys(g) && "$minDistance" !in Keys(g)
  {
    EncodedBounds(NewSpatialQueryCommand(opType, pointType, coordinates, maxDistance, minDistance).command.envelope.op);
  }

  /** A near query with bounds 100 and 0, as the crumb service issues it: the 0 bound is absent. */
  lemma NearPointScenario()
    ensures var r := NewSpatialQueryCommand(OpNear, PointTypePoint, [-122.66, 45.69], 100, 0);
            r.Ok? && EncodeCommand(r.command) ==
            [Elem("location", Doc([Elem("$near", Doc([
              Elem("$geometry", Doc([Elem("type", Str("Point")), Elem("coordinates", Floats([-122.66, 45.69]))])),
              Elem("$maxDistance", Int(100))]))]))]
  {
    var g := GeometryOp(Point("Point", [-122.66, 45.69]), 100, 0);
    assert EncodeGeometry(g) == [Elem("$geometry", EncodePoint(g.geometry)), Elem("$maxDistance", Int(100))];
  }

  /** A containment query over a polygon: no distance key, whatever bounds are passed. */
  lemma WithinPolygonScenario(coordinates: seq<real>, maxDistance: int, minDistance: int)
    ensures var r := NewSpatialQueryCommand(OpGeoWithin, PointTypePolygon, coordinates, maxDistance, minDistance);
            r.Ok? && EncodeCommand(r.command) ==
            [Elem("location", Doc([Elem("$geoWithin", Doc([
              Elem("$geometry", Doc([Elem("type", Str("Polygon")), Elem("coordinates", Floats(coordinates))]))]))]))]
  {
    var g := GeometryOp(Point("Polygon", coordinates), 0, 0);
    assert EncodeGeometry(g) == [Elem("$geometry", EncodePoint(g.geometry))];
  }
}
