/**
 * The document collection the driver talks to, reduced to what the facades
 * observe: documents keyed by their `_id`, equality filters, `$set` updates,
 * and the matched and deleted counts. Whether a round trip fails, and which
 * ObjectID the driver generates for a document without `_id`, are parameters.
 */
module DocStore {
  import opened Wrappers
  import opened Bson

  type Doc = map<string, Value>
  type Filter = map<string, Value>

  const IdField := "_id"

  /** What the driver reports when a call does not go through. */
  datatype DriverError =
    | Unreachable   // the round trip itself failed
    | DuplicateKey  // an insert whose `_id` is already taken
    | NoDocuments   // a find-one that matched nothing
    | NotAnUpdate   // an update document that is not a single `$set`
    | ImmutableId   // a `$set` that would give a stored document another `_id`

  datatype Result<T> = Ok(value: T) | Fail(error: DriverError)

  /** The facades' error taxonomy. */
  datatype Error =
    | InvalidId              // the id is not an ObjectID hex string
    | NotFound               // "document not found": the round trip matched nothing
    | NoObjectId             // "failed to get objectID": the inserted id is of another type
    | Driver(cause: DriverError)

  /** Every term of an equality filter holds; the `_id` term compares against the key. */
  predicate Matches(id: Value, doc: Doc, filter: Filter) {
    forall k :: k in filter ==> if k == IdField then id == filter[k] else k in doc && doc[k] == filter[k]
  }

  predicate AnyMatch(docs: map<Value, Doc>, filter: Filter) {
    exists id :: id in docs && Matches(id, docs[id], filter)
  }

  /** An `{_id: x}` filter matches the document stored under x and no other. */
  lemma IdFilterMatchesOnlyItsKey(id: Value, doc: Doc, x: Value)
    ensures Matches(id, doc, map[IdField := x]) <==> id == x
  {
    assert IdField in map[IdField := x];
  }

  /** The `_id` an insert gives a document: its own, or the one the driver generates. */
  function InsertedId(doc: Doc, generated: ObjectId): Value {
    if IdField in doc then doc[IdField] else Oid(generated)
  }

  /** The fields a one-key `$set` update document assigns; any other shape is refused. */
  function SetFieldsOf(update: seq<Elem>): Option<Doc> {
    if |update| == 1 && update[0].key == "$set" && update[0].value.Doc?
    then Some(ToMap(update[0].value.elems))
    else None
  }

  /** A `$set` of these fields would change the `_id` of the document stored under id. */
  predicate ChangesId(id: Value, fields: Doc) {
    IdField in fields && fields[IdField] != id
  }

  class Collection {
    var docs: map<Value, Doc>
    /** How many calls have reached the store. */
    ghost var roundTrips: nat

    constructor ()
      ensures docs == map[] && roundTrips == 0
    {
      docs := map[];
      roundTrips := 0;
    }

    method InsertOne(doc: Doc, generated: ObjectId, fault: bool) returns (r: Result<Value>)
      modifies this
      ensures roundTrips == old(roundTrips) + 1
      ensures var id := InsertedId(doc, generated);
              if fault then r == Fail(Unreachable) && docs == old(docs)
              else if id in old(docs) then r == Fail(DuplicateKey) && docs == old(docs)
              else r == Ok(id) && docs == old(docs)[id := doc - {IdField}]
    {
      roundTrips := roundTrips + 1;
      var id := InsertedId(doc, generated);
      if fault {
        r := Fail(Unreachable);
      } else if id in docs {
        r := Fail(DuplicateKey);
      } else {
        docs := docs[id := doc - {IdField}];
        r := Ok(id);
      }
    }

    /**
     * UpdateByID: the result is the matched count. A `$set` of `_id` to another
     * value is refused; to the same value it changes nothing.
     */
    method UpdateById(id: Value, update: seq<Elem>, fault: bool) returns (r: Result<nat>)
      modifies this
      ensures roundTrips == old(roundTrips) + 1
      ensures if fault then r == Fail(Unreachable) && docs == old(docs)
              else if SetFieldsOf(update).None? then r == Fail(NotAnUpdate) && docs == old(docs)
              else if id !in old(docs) then r == Ok(0) && docs == old(docs)
              else if ChangesId(id, SetFieldsOf(update).value) then r == Fail(ImmutableId) && docs == old(docs)
              else r == Ok(1) && docs == old(docs)[id := old(docs)[id] + (SetFieldsOf(update).value - {IdField})]
    {
      roundTrips := roundTrips + 1;
      var fields := SetFieldsOf(update);
      if fault {
        r := Fail(Unreachable);
      } else if fields.None? {
        r := Fail(NotAnUpdate);
      } else if id !in docs {
        r := Ok(0);
      } else if ChangesId(id, fields.value) {
        r := Fail(ImmutableId);
      } else {
        docs := docs[id := docs[id] + (fields.value - {IdField})];
        r := Ok(1);
      }
    }

    /**
     * UpdateOne: updates one matching document, the one named by target; the
     * result is the matched count. The `_id` rule is UpdateByID's.
     */
    method UpdateOne(filter: Filter, update: seq<Elem>, fault: bool) returns (r: Result<nat>, ghost target: Value)
      modifies this
      ensures roundTrips == old(roundTrips) + 1
      ensures if fault then r == Fail(Unreachable) && docs == old(docs)
              else if SetFieldsOf(update).None? then r == Fail(NotAnUpdate) && docs == old(docs)
              else if !AnyMatch(old(docs), filter) then r == Ok(0) && docs == old(docs)
              else target in old(docs) && Matches(target, old(docs)[target], filter) &&
                   if ChangesId(target, SetFieldsOf(update).value) then r == Fail(ImmutableId) && docs == old(docs)
                   else r == Ok(1) && docs == old(docs)[target := old(docs)[target] + (SetFieldsOf(update).value - {IdField})]
    {
      roundTrips := roundTrips + 1;
      target := Null;
      var fields := SetFieldsOf(update);
      if fault {
        r := Fail(Unreachable);
      } else if fields.None? {
        r := Fail(NotAnUpdate);
      } else if AnyMatch(docs, filter) {
        var id :| id in docs && Matches(id, docs[id], filter);
        target := id;
        if ChangesId(id, fields.value) {
          r := Fail(ImmutableId);
        } else {
          docs := docs[id := docs[id] + (fields.value - {IdField})];
          r := Ok(1);
        }
      } else {
        r := Ok(0);
      }
    }

    /** DeleteOne: removes one matching document, the one named by target; the result is the deleted count. */
    method DeleteOne(filter: Filter, fault: bool) returns (r: Result<nat>, ghost target: Value)
      modifies this
      ensures roundTrips == old(roundTrips) + 1
      ensures if fault then r == Fail(Unreachable) && docs == old(docs)
              else if !AnyMatch(old(docs), filter) then r == Ok(0) && docs == old(docs)
              else r == Ok(1) && target in old(docs) && Matches(target, old(docs)[target], filter) &&
                   docs == old(docs) - {target}
    {
      roundTrips := roundTrips + 1;
      target := Null;
      if fault {
        r := Fail(Unreachable);
      } else if AnyMatch(docs, filter) {
        var id :| id in docs && Matches(id, docs[id], filter);
        docs := docs - {id};
        r, target := Ok(1), id;
      } else {
        r := Ok(0);
      }
    }

    /** FindOne followed by Decode: one matching document, with its `_id`, or NoDocuments. */
    method FindOne(filter: Filter, fault: bool) returns (r: Result<Doc>, ghost target: Value)
      modifies this`roundTrips
      ensures roundTrips == old(roundTrips) + 1
      ensures if fault then r == Fail(Unreachable)
              else if !AnyMatch(docs, filter) then r == Fail(NoDocuments)
              else r.Ok? && target in docs && Matches(target, docs[target], filter) &&
                   r.value == docs[target][IdField := target]
    {
      roundTrips := roundTrips + 1;
      target := Null;
      if fault {
        r := Fail(Unreachable);
      } else if AnyMatch(docs, filter) {
        var id :| id in docs && Matches(id, docs[id], filter);
        r, target := Ok(docs[id][IdField := id]), id;
      } else {
        r := Fail(NoDocuments);
      }
    }

    /** A count with limit one: does any document match? */
    method Exists(filter: Filter, fault: bool) returns (r: Result<bool>)
      modifies this`roundTrips
      ensures roundTrips == old(roundTrips) + 1
      ensures r == if fault then Fail(Unreachable) else Ok(AnyMatch(docs, filter))
    {
      roundTrips := roundTrips + 1;
      if fault {
        r := Fail(Unreachable);
      } else {
        r := Ok(AnyMatch(docs, filter));
      }
    }
  }
}
