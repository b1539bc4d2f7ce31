/**
 * The crumb service's document-store facade: the filter and `$set` builders,
 * and the insert, update, delete and spatial-query calls over one collection.
 */
module CrumbDb {
  import opened Wrappers
  import opened Bson
  import opened ObjectIds
  import opened DocStore
  import SpatialQuery
  import UpdateOperators

  const MaxDistance := 100
  const MinDistance := 0

  /** filter: a fresh filter document holding exactly the given terms. */
  method MakeFilter(searchParams: map<string, Value>) returns (m: DocStore.Filter)
    ensures m == searchParams
  {
    m := map[];
    var rest := searchParams.Keys;
    while rest != {}
      invariant rest <= searchParams.Keys
      invariant m == searchParams - rest
      decreases rest
    {
      var k :| k in rest;
      m := m[k := searchParams[k]];
      rest := rest - {k};
    }
  }

  /** Appending an element under a new key keeps the keys distinct and adds that one field. */
  lemma AppendFresh(elems: seq<Elem>, e: Elem)
    requires DistinctKeys(elems) && forall i :: 0 <= i < |elems| ==> elems[i].key != e.key
    ensures DistinctKeys(elems + [e])
    ensures ToMap(elems + [e]) == ToMap(elems)[e.key := e.value]
  {
    assert (elems + [e])[..|elems + [e]| - 1] == elems;
  }

  /**
   * createUpdateSetCommand: one `$set` element whose value is an ordered document
   * with one element per item, in the map's iteration order (which is unspecified).
   */
  method CreateUpdateSetCommand(items: map<string, Value>) returns (cmd: seq<Elem>)
    ensures |cmd| == 1 && cmd[0].key == UpdateOperators.UpdateOp.Set.Key() && cmd[0].value.Doc?
    ensures DistinctKeys(cmd[0].value.elems) && |cmd[0].value.elems| == |items|
    ensures ToMap(cmd[0].value.elems) == items
    ensures SetFieldsOf(cmd) == Some(items)
  {
    var elems: seq<Elem> := [];
    var rest := items.Keys;
    while rest != {}
      invariant rest <= items.Keys
      invariant DistinctKeys(elems)
      invariant forall i :: 0 <= i < |elems| ==> elems[i].key !in rest
      invariant ToMap(elems) == items - rest
      invariant |elems| + |rest| == |items|
      decreases rest
    {
      var k :| k in rest;
      AppendFresh(elems, Elem(k, items[k]));
      assert items - (rest - {k}) == (items - rest)[k := items[k]];
      elems, rest := elems + [Elem(k, items[k])], rest - {k};
    }
    assert items - rest == items;
    cmd := [Elem("$set", Doc(elems))];
  }

  /** The filter SpaitalQuery hands to Find: its point-type argument is not used. */
  function SpatialQueryFilter(pointType: string, coordinates: seq<real>): (r: Option<seq<Elem>>)
    ensures r == Some([Elem("location", Doc([Elem("$near", Doc([
                  Elem("$geometry", SpatialQuery.EncodePoint(SpatialQuery.Point(SpatialQuery.PointTypePoint, coordinates))),
                  Elem("$maxDistance", Int(MaxDistance))]))]))])
  {
    var built := SpatialQuery.NewSpatialQueryCommand(SpatialQuery.OpNear, SpatialQuery.PointTypePoint,
                                                     coordinates, MaxDistance, MinDistance);
    match built
    case Ok(c) =>
      assert SpatialQuery.EncodeGeometry(c.envelope.op) ==
             [Elem("$geometry", SpatialQuery.EncodePoint(c.envelope.op.geometry)), Elem("$maxDistance", Int(MaxDistance))];
      Some(SpatialQuery.EncodeCommand(c))
    case _ => None
  }

  class MongoDB {
    const coll: Collection

    constructor (coll: Collection)
      ensures this.coll == coll
    {
      this.coll := coll;
    }

    /**
     * InsertRecord: the new record's id in the driver's String form,
     * `ObjectID("<hex>")`, which no id parser accepts. The document is stored
     * even when its `_id` is not an ObjectID; the call then still fails.
     */
    method InsertRecord(doc: Doc, generated: ObjectId, fault: bool) returns (id: string, err: Option<Error>)
      modifies coll
      ensures coll.roundTrips == old(coll.roundTrips) + 1
      ensures var inserted := InsertedId(doc, generated);
              if fault then err == Some(Driver(Unreachable)) && id == "" && coll.docs == old(coll.docs)
              else if inserted in old(coll.docs) then err == Some(Driver(DuplicateKey)) && id == "" && coll.docs == old(coll.docs)
              else coll.docs == old(coll.docs)[inserted := doc - {IdField}] &&
                   if inserted.Oid? then err == None && id == DriverString(inserted.id)
                   else err == Some(NoObjectId) && id == ""
      ensures err == None ==> FromHex(id) == None
    {
      var r := coll.InsertOne(doc, generated, fault);
      match r
      case Fail(e) =>
        id, err := "", Some(Driver(e));
      case Ok(v) =>
        if v.Oid? {
          id, err := DriverString(v.id), None;
          DriverStringIsNotHex(v.id);
        } else {
          id, err := "", Some(NoObjectId);
        }
    }

    /**
     * InsertRecord as evidently intended: the new record's id as its 24 hex
     * digits, which Update and Delete accept.
     */
    method InsertRecordHex(doc: Doc, generated: ObjectId, fault: bool) returns (id: string, err: Option<Error>)
      modifies coll
      ensures coll.roundTrips == old(coll.roundTrips) + 1
      ensures var inserted := InsertedId(doc, generated);
              if fault then err == Some(Driver(Unreachable)) && id == "" && coll.docs == old(coll.docs)
              else if inserted in old(coll.docs) then err == Some(Driver(DuplicateKey)) && id == "" && coll.docs == old(coll.docs)
              else coll.docs == old(coll.docs)[inserted := doc - {IdField}] &&
                   if inserted.Oid? then err == None && id == Hex(inserted.id)
                   else err == Some(NoObjectId) && id == ""
      ensures err == None ==> FromHex(id).Some? && Oid(FromHex(id).value) in coll.docs
    {
      var r := coll.InsertOne(doc, generated, fault);
      match r
      case Fail(e) =>
        id, err := "", Some(Driver(e));
      case Ok(v) =>
        if v.Oid? {
          id, err := Hex(v.id), None;
          HexRoundTrip(v.id);
        } else {
          id, err := "", Some(NoObjectId);
        }
    }

    /**
     * Update: `$set` the items on the record with this id; zero matches is
     * "document not found", and the store's refusal to change `_id` is passed on.
     */
    method Update(id: string, items: map<string, Value>, fault: bool) returns (err: Option<Error>)
      modifies coll
      ensures !IsObjectIdHex(id) ==> err == Some(InvalidId) && unchanged(coll)
      ensures IsObjectIdHex(id) ==>
                coll.roundTrips == old(coll.roundTrips) + 1 &&
                var key := Oid(FromHex(id).value);
                if fault then err == Some(Driver(Unreachable)) && coll.docs == old(coll.docs)
                else if key !in old(coll.docs) then err == Some(NotFound) && coll.docs == old(coll.docs)
                else if ChangesId(key, items) then err == Some(Driver(ImmutableId)) && coll.docs == old(coll.docs)
                else err == None && coll.docs == old(coll.docs)[key := old(coll.docs)[key] + (items - {IdField})]
    {
      var setCommand := CreateUpdateSetCommand(items);
      var objectId := FromHex(id);
      if objectId.None? {
        return Some(InvalidId);
      }
      var r := coll.UpdateById(Oid(objectId.value), setCommand, fault);
      match r
      case Fail(e) =>
        err := Some(Driver(e));
      case Ok(matched) =>
        err := if matched == 0 then Some(NotFound) else None;
    }

    /** Delete: remove the record with this id; zero deletions is "document not found". */
    method Delete(id: string, fault: bool) returns (err: Option<Error>)
      modifies coll
      ensures !IsObjectIdHex(id) ==> err == Some(InvalidId) && unchanged(coll)
      ensures IsObjectIdHex(id) ==>
                coll.roundTrips == old(coll.roundTrips) + 1 &&
                var key := Oid(FromHex(id).value);
                if fault then err == Some(Driver(Unreachable)) && coll.docs == old(coll.docs)
                else if key in old(coll.docs) then err == None && coll.docs == old(coll.docs) - {key}
                else err == Some(NotFound) && coll.docs == old(coll.docs)
    {
      var objectId := FromHex(id);
      if objectId.None? {
        return Some(InvalidId);
      }
      var filter := MakeFilter(map[IdField := Oid(objectId.value)]);
      forall k | k in coll.docs
        ensures Matches(k, coll.docs[k], filter) <==> k == Oid(objectId.value)
      {
        IdFilterMatchesOnlyItsKey(k, coll.docs[k], Oid(objectId.value));
      }
      var r, target := coll.DeleteOne(filter, fault);
      match r
      case Fail(e) =>
        err := Some(Driver(e));
      case Ok(deleted) =>
        err := if deleted == 0 then Some(NotFound) else None;
    }
  }

  /**
   * As written, a record inserted through the facade can never be deleted by
   * the id it returned: Delete refuses that id and the record stays.
   */
  method AsWrittenInsertThenDelete(db: MongoDB, doc: Doc, generated: ObjectId)
    returns (insertErr: Option<Error>, deleteErr: Option<Error>)
    modifies db.coll
    ensures insertErr == None ==>
              deleteErr == Some(InvalidId) && InsertedId(doc, generated) in db.coll.docs &&
              db.coll.docs == old(db.coll.docs)[InsertedId(doc, generated) := doc - {IdField}]
  {
    var id;
    id, insertErr := db.InsertRecord(doc, generated, false);
    deleteErr := None;
    if insertErr == None {
      deleteErr := db.Delete(id, false);
    }
  }

  /** With the corrected insert, a record can be deleted by the id it returned. */
  method InsertThenDelete(db: MongoDB, doc: Doc, generated: ObjectId) returns (insertErr: Option<Error>, deleteErr: Option<Error>)
    modifies db.coll
    ensures insertErr == None ==> deleteErr == None && db.coll.docs == old(db.coll.docs)
  {
    var id;
    ghost var before := db.coll.docs;
    id, insertErr := db.InsertRecordHex(doc, generated, false);
    deleteErr := None;
    if insertErr == None {
      var key := InsertedId(doc, generated);
      HexRoundTrip(key.id);
      deleteErr := db.Delete(id, false);
      assert db.coll.docs == before[key := doc - {IdField}] - {key};
      assert db.coll.docs == before;
    }
  }
}
