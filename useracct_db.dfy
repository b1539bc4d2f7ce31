/**
 * The user-account service's document-store facade. Unlike the crumb service's,
 * it selects documents by an arbitrary equality filter, and its Update and
 * Delete succeed whether or not a document matched.
 */
module UserAcctDb {
  import opened Wrappers
  import opened Bson
  import opened ObjectIds
  import opened DocStore
  import CrumbDb

  /** A mutable filter map (bson.M), which the filter helper writes into. */
  class BsonM {
    var entries: map<string, Value>

    constructor ()
      ensures entries == map[]
    {
      entries := map[];
    }
  }

  /**
   * filter: writes every search parameter into bsonMap and returns it; a key
   * already present is overwritten and every other key is kept.
   */
  method FilterInto(bsonMap: BsonM, searchParams: map<string, Value>) returns (r: BsonM)
    modifies bsonMap
    ensures r == bsonMap
    ensures bsonMap.entries == old(bsonMap.entries) + searchParams
  {
    var rest := searchParams.Keys;
    while rest != {}
      invariant rest <= searchParams.Keys
      invariant bsonMap.entries == old(bsonMap.entries) + (searchParams - rest)
      decreases rest
    {
      var k :| k in rest;
      bsonMap.entries := bsonMap.entries[k := searchParams[k]];
      rest := rest - {k};
    }
    assert searchParams - rest == searchParams;
    r := bsonMap;
  }

  /** The filter every facade call builds: its parameters merged into an empty map. */
  method NewFilter(filterParams: map<string, Value>) returns (filter: DocStore.Filter)
    ensures filter == filterParams
  {
    var empty := new BsonM();
    var merged := FilterInto(empty, filterParams);
    filter := merged.entries;
  }

  class MongoDB {
    const coll: Collection

    constructor (coll: Collection)
      ensures this.coll == coll
    {
      this.coll := coll;
    }

    /**
     * Create: the new record's id in the driver's String form, `ObjectID("<hex>")`.
     * The document is stored even when its `_id` is not an ObjectID; the call
     * then still fails.
     */
    method Create(doc: Doc, generated: ObjectId, fault: bool) returns (id: string, err: Option<Error>)
      modifies coll
      ensures coll.roundTrips == old(coll.roundTrips) + 1
      ensures var inserted := InsertedId(doc, generated);
              if fault then err == Some(Driver(Unreachable)) && id == "" && coll.docs == old(coll.docs)
              else if inserted in old(coll.docs) then err == Some(Driver(DuplicateKey)) && id == "" && coll.docs == old(coll.docs)
              else coll.docs == old(coll.docs)[inserted := doc - {IdField}] &&
                   if inserted.Oid? then err == None && id == DriverString(inserted.id)
                   else err == Some(NoObjectId) && id == ""
      ensures err == None ==> FromHex(id) == None
    {
      var r := coll.InsertOne(doc, generated, fault);
      match r
      case Fail(e) =>
        id, err := "", Some(Driver(e));
      case Ok(v) =>
        if v.Oid? {
          id, err := DriverString(v.id), None;
          DriverStringIsNotHex(v.id);
        } else {
          id, err := "", Some(NoObjectId);
        }
    }

    /** Get: one document matching the filter, with its `_id`; no match is the driver's NoDocuments. */
    method Get(filterParams: map<string, Value>, fault: bool) returns (doc: Option<Doc>, err: Option<Error>, ghost target: Value)
      modifies coll`roundTrips
      ensures coll.roundTrips == old(coll.roundTrips) + 1
      ensures if fault then doc == None && err == Some(Driver(Unreachable))
              else if !AnyMatch(coll.docs, filterParams) then doc == None && err == Some(Driver(NoDocuments))
              else err == None && target in coll.docs && Matches(target, coll.docs[target], filterParams) &&
                   doc == Some(coll.docs[target][IdField := target])
    {
      var filter := NewFilter(filterParams);
      var r;
      r, target := coll.FindOne(filter, fault);
      match r
      case Fail(e) =>
        doc, err := None, Some(Driver(e));
      case Ok(d) =>
        doc, err := Some(d), None;
    }

    /**
     * Update: `$set` the items on one matching document; no match is still a
     * success, and the store's refusal to change `_id` is passed on.
     */
    method Update(filterParams: map<string, Value>, items: map<string, Value>, fault: bool) returns (err: Option<Error>, ghost target: Value)
      modifies coll
      ensures coll.roundTrips == old(coll.roundTrips) + 1
      ensures if fault then err == Some(Driver(Unreachable)) && coll.docs == old(coll.docs)
              else if !AnyMatch(old(coll.docs), filterParams) then err == None && coll.docs == old(coll.docs)
              else target in old(coll.docs) && Matches(target, old(coll.docs)[target], filterParams) &&
                   if ChangesId(target, items) then err == Some(Driver(ImmutableId)) && coll.docs == old(coll.docs)
                   else err == None && coll.docs == old(coll.docs)[target := old(coll.docs)[target] + (items - {IdField})]
    {
      var filter := NewFilter(filterParams);
      var updateItems := CrumbDb.CreateUpdateSetCommand(items);
      var r;
      r, target := coll.UpdateOne(filter, updateItems, fault);
      match r
      case Fail(e) =>
        err := Some(Driver(e));
      case Ok(_) =>
        err := None;
    }

    /** Delete: remove one matching document; deleting nothing is still a success. */
    method Delete(filterParams: map<string, Value>, fault: bool) returns (err: Option<Error>, ghost target: Value)
      modifies coll
      ensures coll.roundTrips == old(coll.roundTrips) + 1
      ensures if fault then err == Some(Driver(Unreachable)) && coll.docs == old(coll.docs)
              else if !AnyMatch(old(coll.docs), filterParams) then err == None && coll.docs == old(coll.docs)
              else err == None && target in old(coll.docs) && Matches(target, old(coll.docs)[target], filterParams) &&
                   coll.docs == old(coll.docs) - {target}
    {
      var filter := NewFilter(filterParams);
      var r;
      r, target := coll.DeleteOne(filter, fault);
      match r
      case Fail(e) =>
        err := Some(Driver(e));
      case Ok(_) =>
        err := None;
    }

    /** DocumentExist: whether any document matches the filter. */
    method DocumentExist(filterParams: map<string, Value>, fault: bool) returns (exist: bool, err: Option<Error>)
      modifies coll`roundTrips
      ensures coll.roundTrips == old(coll.roundTrips) + 1
      ensures if fault then !exist && err == Some(Driver(Unreachable))
              else err == None && (exist <==> AnyMatch(coll.docs, filterParams))
    {
      var filter := NewFilter(filterParams);
      var r := coll.Exists(filter, fault);
      match r
      case Fail(e) =>
        exist, err := false, Some(Driver(e));
      case Ok(b) =>
        exist, err := b, None;
    }
  }
}
