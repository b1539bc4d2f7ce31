# Horus document-store command builders, in Dafny

Horus is a set of Go micro-services (crumbs, followers, user accounts) that keep
their data in MongoDB. This project models the part of them that decides what is
sent to the database and how its answers are reported:

- the crumb service's spatial query builder `NewSpatialQueryCommand`, a closed
  table of four geo operators (`geoIntersects`, `geoWithin`, `near`,
  `nearSphere`) and three GeoJSON shape tags (`Polygon`, `MultiPolygon`,
  `Point`), and the ordered document it encodes to (module `SpatialQuery`);
- the filter and `$set` builders and the insert, update, delete and spatial-query
  facades of the crumb service (`CrumbDb`) and of the user-account service
  (`UserAcctDb`), over one abstract collection (`DocStore`);
- the older shared client's fixed `$near` filter (`LegacyMongo`);
- the nine update-operator wrappers of the follower and user-account services,
  with the effects their doc comments promise, over documents with integer
  fields (`UpdateOperators`);
- the user-account request handlers `Create`, `GetUser`, `UpdatePassword` and
  `Delete`, with their validation, duplicate-email check and 400/500/200 status
  mapping (`UserRoutes`).

Documents are a small value tree (`Bson.Value`) whose documents keep their keys
in order. Object identifiers are 12 bytes; `ObjectIds` models the driver's hex
parsing (exactly 24 hexadecimal digits, either case) and printing.

The collection is a class holding a map from `_id` to document. Whether a round
trip to the server fails (`fault`), which ObjectID the driver generates for a
document without `_id` (`generated`), and the clock (`now`) are parameters. A
ghost counter `roundTrips` records how many calls reached the store, so that
"fails before any store call" can be stated as `unchanged(coll)`. As the server
does, the store refuses a `$set` that would give a stored document another
`_id` (`ImmutableId`), and the `_id` is never kept inside a document's body.

The user-account `createUpdateSetCommand` (user_acct_service/pkg/mongodb/mongodb.go:156-162)
is the same code as the crumb service's; both are modelled by
`CrumbDb.CreateUpdateSetCommand`. The route handlers call the user-account
facade, including `DocumentExist`, which appears only in the client interface
(user_acct_service/pkg/interfaces/dbclient.go:17). The interface's `Update`
takes an `updateType` argument that the concrete `Update`
(user_acct_service/pkg/mongodb/mongodb.go:123) lacks; the model follows the
concrete method, which always issues `$set`, the operator the route asks for.

Two consequences of the code are kept as they are: a near query built with
minimum distance 0 carries no `$minDistance` key (the field is `omitempty`), and
the `near` command is wrapped under `location` while `nearSphere` is not.

## Model

| member | source | states |
|---|---|---|
| ObjectIds.FromHex | crumbdb_service/pkg/mongodb/mongodb.go:208-211 | an id parses exactly when it is 24 hexadecimal digits |
| ObjectIds.DecodeString | crumbdb_service/pkg/mongodb/mongodb.go:208 | hex decoding succeeds exactly on even-length all-hex input and halves the length |
| ObjectIds.EncodeHex | crumbdb_service/pkg/mongodb/mongodb.go:135 | hex encoding doubles the length and writes only lower-case digits |
| ObjectIds.DecodeOfEncode | crumbdb_service/pkg/mongodb/mongodb.go:208 | decoding the hex form of any bytes gives the bytes back |
| ObjectIds.EncodeOfDecode | crumbdb_service/pkg/mongodb/mongodb.go:208 | encoding what was decoded from lower-case hex gives the text back |
| ObjectIds.HexRoundTrip | crumbdb_service/pkg/mongodb/mongodb.go:135 | the hex form of an id is valid and parses back to the same id |
| ObjectIds.FromHexRoundTrip | crumbdb_service/pkg/mongodb/mongodb.go:208-211 | a lower-case id text that parses is reproduced by printing the parsed id |
| ObjectIds.DriverStringIsNotHex | crumbdb_service/pkg/mongodb/mongodb.go:135 | the driver's `ObjectID("...")` form is 36 characters and never parses as an id |
| Bson.Lookup | crumbdb_service/pkg/mongodb/operators.go:59-63 | a key is found in an ordered document exactly when it is one of its keys |
| Bson.LookupIsFirstMatch | crumbdb_service/pkg/mongodb/operators.go:59-63 | a value found under a key is that of the first element carrying the key (the field map, by contrast, keeps the last) |
| Bson.KeysConcat | crumbdb_service/pkg/mongodb/operators.go:59-63 | the keys of two concatenated documents are the two key lists concatenated |
| DocStore.IdFilterMatchesOnlyItsKey | crumbdb_service/pkg/mongodb/mongodb.go:234 | an `{_id: x}` filter matches the document stored under x and no other |
| SpatialQuery.NewSpatialQueryCommand | crumbdb_service/pkg/mongodb/operators.go:65-113 | shape error exactly for an unknown shape or Point with geoWithin; operator error exactly for a known shape with an unknown operator; on success the geometry is the input shape and coordinates and the envelope is the requested operator |
| SpatialQuery.SucceedsExactlyOnTable | crumbdb_service/pkg/mongodb/operators.go:70-109 | the builder succeeds exactly on the eleven operator/shape pairs of the compatibility table |
| SpatialQuery.ShapeCheckedFirst | crumbdb_service/pkg/mongodb/operators.go:70-85 | a bad shape with a bad operator yields the shape error |
| SpatialQuery.BoundsOnlyForNear | crumbdb_service/pkg/mongodb/operators.go:87-104 | near and nearSphere carry the given bounds; geoWithin and geoIntersects carry zero bounds |
| SpatialQuery.NearSphereIsBare | crumbdb_service/pkg/mongodb/operators.go:88-112 | a successful command lacks the `location` wrapper exactly when the operator is nearSphere |
| SpatialQuery.EncodeGeometry | crumbdb_service/pkg/mongodb/operators.go:54-63 | the operand encodes `$geometry` first and at most two bounds after it; EncodedBounds proves each bound appears exactly when nonzero (`omitempty`) |
| SpatialQuery.EncodeCommand | crumbdb_service/pkg/mongodb/operators.go:16-44 | a command encodes to one element: `location` around the envelope, or the bare envelope under its operator key; EncodedShape gives the full shape |
| SpatialQuery.GeometryRoundTrip | crumbdb_service/pkg/mongodb/operators.go:54-63 | decoding an encoded geometry gives it back, so omitting zero bounds loses nothing |
| SpatialQuery.EncodedBounds | crumbdb_service/pkg/mongodb/operators.go:59-63 | `$geometry` comes first; `$maxDistance` and `$minDistance` appear exactly when nonzero |
| SpatialQuery.EncodedShape | crumbdb_service/pkg/mongodb/operators.go:87-112 | the encoded command is `{location: {$op: ...}}`, or `{$nearSphere: ...}` with no wrapper |
| SpatialQuery.NoBoundsEncodedForContainment | crumbdb_service/pkg/mongodb/operators.go:88-95 | geoWithin and geoIntersects commands encode with `$geometry` only |
| SpatialQuery.NearPointScenario | crumbdb_service/pkg/mongodb/mongodb.go:141 | a near query around a point with bounds 100 and 0 encodes to location/$near with `$maxDistance` 100 only |
| SpatialQuery.WithinPolygonScenario | crumbdb_service/pkg/mongodb/operators.go:72-95 | a geoWithin polygon query encodes to location/$geoWithin with the polygon and no bounds, whatever bounds were passed |
| CrumbDb.MakeFilter | crumbdb_service/pkg/mongodb/mongodb.go:247-253 | the filter map has exactly the keys and values of the search parameters |
| CrumbDb.CreateUpdateSetCommand | crumbdb_service/pkg/mongodb/mongodb.go:255-261 | one `$set` key whose document has one element per item, distinct keys, and reads back as exactly the items |
| CrumbDb.SpatialQueryFilter | crumbdb_service/pkg/mongodb/mongodb.go:138-144 | whatever point type is passed, the query is near/Point around the coordinates with only `$maxDistance` 100 |
| CrumbDb.MongoDB.InsertRecord | crumbdb_service/pkg/mongodb/mongodb.go:120-136 | store failure gives an error and no id; a non-ObjectID inserted id gives an error and `""` though the document is stored; otherwise the driver's `ObjectID("<hex>")` text of the stored key, which never parses as an id |
| CrumbDb.MongoDB.InsertRecordHex | crumbdb_service/pkg/mongodb/mongodb.go:120-136 | the corrected insert: the same outcomes, but the returned id is the 24-digit hex form, which parses to the stored key |
| CrumbDb.MongoDB.Update | crumbdb_service/pkg/mongodb/mongodb.go:202-224 | an invalid id fails before any store call; otherwise "document not found" exactly when no document has that id, the store's error when the items would change its `_id`, else the items are merged into it |
| CrumbDb.MongoDB.Delete | crumbdb_service/pkg/mongodb/mongodb.go:226-245 | an invalid id fails before any store call; otherwise "document not found" exactly when no document has that id, else exactly that document is removed |
| CrumbDb.AsWrittenInsertThenDelete | crumbdb_service/pkg/mongodb/mongodb.go:120-245 | as written, deleting by the id an insert returned is refused as an invalid id and the record stays stored |
| CrumbDb.InsertThenDelete | crumbdb_service/pkg/mongodb/mongodb.go:120-245 | with the corrected insert, a record inserted without error is deleted without error by the id returned, leaving the collection as before |
| UserAcctDb.FilterInto | user_acct_service/pkg/mongodb/mongodb.go:149-154 | the map afterwards is the old map overwritten by the parameters: later writes win, other keys kept |
| UserAcctDb.NewFilter | user_acct_service/pkg/mongodb/mongodb.go:111 | merged into an empty map, the filter is exactly the parameters |
| UserAcctDb.MongoDB.Create | user_acct_service/pkg/mongodb/mongodb.go:92-106 | `""` and an error on store failure or a non-ObjectID inserted id; otherwise the driver's `ObjectID("<hex>")` text of the inserted id, which never parses as an id |
| UserAcctDb.MongoDB.Get | user_acct_service/pkg/mongodb/mongodb.go:108-121 | a matching document with its `_id`, or the driver's no-documents error, or the round-trip error; the store is not changed |
| UserAcctDb.MongoDB.Update | user_acct_service/pkg/mongodb/mongodb.go:123-133 | success whenever the store call succeeds, even with no match; the store's error when the items would change the matched document's `_id`; otherwise one matching document gets the items merged in |
| UserAcctDb.MongoDB.Delete | user_acct_service/pkg/mongodb/mongodb.go:135-147 | success whenever the store call succeeds, even when nothing was deleted; one matching document is removed |
| UserAcctDb.MongoDB.DocumentExist | user_acct_service/pkg/interfaces/dbclient.go:16-17 | true exactly when some document matches the filter; an error when the store fails |
| UpdateOperators.FromKeyOfKey | user_acct_service/pkg/mongodb/operators.go:4-39 | every operator is recognised by its own key |
| UpdateOperators.UpdateOp.Key | follower_service/pkg/mongodb/operators.go:4-47 | defined as the nine-tag table (`$currentDate` … `$unset`, the same in user_acct_service/pkg/mongodb/operators.go:4-39); every key is a `$` name, and FromKeyOfKey and KeysDistinct prove the keys pairwise distinct |
| UpdateOperators.FromKey | user_acct_service/pkg/mongodb/operators.go:5-38 | a key that is recognised is that operator's key |
| UpdateOperators.KeysDistinct | follower_service/pkg/mongodb/operators.go:4-47 | two operators have the same key exactly when they are the same operator |
| UpdateOperators.Encode | user_acct_service/pkg/mongodb/operators.go:4-39 | a wrapper encodes to a one-key document under its operator's key and decodes back with the payload unchanged |
| UpdateOperators.Decode | user_acct_service/pkg/mongodb/operators.go:4-39 | a document reads as a wrapper exactly when it has one element whose key is in the table; the wrapper carries that key's operator and that element's value (converse: EncodeOfDecode) |
| UpdateOperators.EncodeOfDecode | user_acct_service/pkg/mongodb/operators.go:4-39 | any one-key document under an operator key is the encoding of the wrapper it decodes to |
| UpdateOperators.ApplyCurrentDate | follower_service/pkg/mongodb/operators.go:3-6 | the named fields are set to the current time, the others unchanged |
| UpdateOperators.ApplyInc | follower_service/pkg/mongodb/operators.go:8-11 | each named field grows by its amount (from 0 when absent), the others unchanged |
| UpdateOperators.ApplyMax | follower_service/pkg/mongodb/operators.go:13-16 | each named field is at least the bound and the old value, and is one of them; the others unchanged |
| UpdateOperators.ApplyMin | follower_service/pkg/mongodb/operators.go:18-21 | each named field is at most the bound and the old value, and is one of them; the others unchanged |
| UpdateOperators.ApplyMul | follower_service/pkg/mongodb/operators.go:23-26 | each named field is multiplied by its factor, an absent one becomes 0; the others unchanged |
| UpdateOperators.ApplyRename | follower_service/pkg/mongodb/operators.go:28-31 | refused when the names are equal; otherwise the value moves to the new name and the old name is gone |
| UpdateOperators.ApplySet | follower_service/pkg/mongodb/operators.go:33-36 | each named field takes the given value, the others unchanged |
| UpdateOperators.ApplySetOnInsert | follower_service/pkg/mongodb/operators.go:38-42 | no effect unless the update inserts, where it acts as `$set` |
| UpdateOperators.ApplyUnset | follower_service/pkg/mongodb/operators.go:44-47 | the named fields are removed, the others unchanged |
| UpdateOperators.Apply | follower_service/pkg/mongodb/operators.go:3-47 | over unbounded integer fields, an update fails only for a rename onto the same name |
| UpdateOperators.MaxMinAreExtrema | follower_service/pkg/mongodb/operators.go:13-21 | on a present field, `$max` gives the larger and `$min` the smaller of old and new |
| UpdateOperators.SetIdempotent | follower_service/pkg/mongodb/operators.go:33-36 | `$set` applied twice equals applied once |
| UpdateOperators.MaxIdempotent | follower_service/pkg/mongodb/operators.go:13-16 | `$max` applied twice equals applied once |
| UpdateOperators.MinIdempotent | follower_service/pkg/mongodb/operators.go:18-21 | `$min` applied twice equals applied once |
| UpdateOperators.UnsetIdempotent | follower_service/pkg/mongodb/operators.go:44-47 | `$unset` applied twice equals applied once |
| UpdateOperators.IncAdds | follower_service/pkg/mongodb/operators.go:8-11 | two increments equal one increment by the summed amounts |
| UpdateOperators.RenameBack | follower_service/pkg/mongodb/operators.go:28-31 | renaming to a free name and back restores the document |
| UpdateOperators.UnsetAfterSet | follower_service/pkg/mongodb/operators.go:33-47 | unsetting after setting removes the set fields; unsetting a superset of them undoes the set |
| UpdateOperators.SetOnInsertOnUpdate | follower_service/pkg/mongodb/operators.go:38-42 | `$setOnInsert` leaves an existing document as it was |
| LegacyMongo.SpatialFilter | pkg/mogodb/mongodb.go:149-158 | defined as the fixed `$near` literal; its one key is `location` holding one `$near` key; FilterShape and AgreesWithBuilder prove the rest |
| LegacyMongo.FilterShape | pkg/mogodb/mongodb.go:149-158 | one `location` key holding one `$near` envelope of `$geometry` then `$maxDistance` 100, no `$minDistance`, decoding to the point with bounds 100 and 0 |
| LegacyMongo.AgreesWithBuilder | pkg/mogodb/mongodb.go:111-117 | for a supported shape, the filter passed to Find equals the builder's near command with bounds 100 and 0 |
| LegacyMongo.NoShapeCheck | pkg/mogodb/mongodb.go:149-153 | a shape the builder refuses still gets a filter around the point unchanged |
| LegacyMongo.AgreesWithCrumbQuery | pkg/mogodb/mongodb.go:149-158 | the crumb service's spatial query sends this filter for a Point at the same coordinates |
| UserRoutes.ToUser | user_acct_service/internal/routes/routes.go:140-152 | each of the four message fields is the text stored under its name, or "" when that field is absent or not text; ToUserOfUserDoc proves a stored user reads back |
| UserRoutes.ToUserOfUserDoc | user_acct_service/internal/routes/routes.go:140-152 | a user read back from its stored document, with or without `_id`, is the same user |
| UserRoutes.EmailFilterMatches | user_acct_service/internal/routes/routes.go:52 | a document matches the email filter exactly when its email field is that address |
| UserRoutes.InsertKeepsUnique | user_acct_service/internal/routes/routes.go:51-63 | inserting a user whose email no document has keeps emails unique |
| UserRoutes.UpdateKeepsUnique | user_acct_service/internal/routes/routes.go:106-108 | an update not touching `email` keeps emails unique |
| UserRoutes.Route.Create | user_acct_service/internal/routes/routes.go:41-69 | invalid user: error, no store call; email taken: "exists" error, no insert; otherwise the driver's `ObjectID("<hex>")` text of the new id and the stored user; emails stay unique |
| UserRoutes.Route.GetUser | user_acct_service/internal/routes/routes.go:71-93 | invalid request: error, no store call; store failure or no match: no user; otherwise a stored user with the requested email |
| UserRoutes.Route.UpdatePassword | user_acct_service/internal/routes/routes.go:95-116 | 400 on invalid request with no store call, 500 on store failure, otherwise 200 with the password of one matching user replaced, or nothing changed when none matches; emails stay unique |
| UserRoutes.Route.Delete | user_acct_service/internal/routes/routes.go:118-138 | 400 on invalid request with no store call, 500 on store failure, otherwise 200 with one matching user removed, or nothing when none matches; emails stay unique |

## Left out

- UpdateOperators.Apply: fields are unbounded integers, so `UpdateOperators.ApplyInc` and `UpdateOperators.ApplyMul` never overflow; the server's 32- and 64-bit numeric types and its refusal of an `$inc` or `$mul` that overflows them are not modelled.
- UserRoutes.Route.Create: the email check (DocumentExist, routes.go:52-53) and the insert (routes.go:62-63) are two separate store calls and no unique index on email exists, so emails stay unique only for requests that do not interleave; the model runs one request at a time.
- Connecting, pinging, disconnecting and creating the spatial index: these are calls into the driver; the model has one collection and no database or collection names.
- The driver's evaluation of geo filters: `SpaitalQuery` in both clients and `Find` results are not modelled; only the filter each sends is.
- `FindAll`, `FindOne` of the crumb service and the older client's `InsertRecord` (`InsertMany`): outside the modelled core.
- BSON marshalling and unmarshalling: `toUser` is modelled as reading four text fields, so its unmarshal errors (a field of another type) are not modelled; `UserRoutes.Route.GetUser` therefore never reports them.
- The validator's tag rules: each request type has an abstract validity predicate.
- gRPC wiring, configuration loading, health checks, metrics and logging.
- Coordinates are an opaque sequence of reals that is only copied; no geometry is computed.
- A nil slice versus an empty one in encoded documents is not distinguished.
- Concurrency between requests: every call is one atomic step on the collection.
- `UpdateOperators.ApplyRename`: one (from, to) pair rather than a document of renames.
- `UpdateOperators.ApplyCurrentDate`: the date is an integer parameter; Date versus Timestamp is not modelled.
- `UpdateOperators.ApplyMul`: integer fields only; floating-point factors are not modelled.
- `CrumbDb.CreateUpdateSetCommand`: the order of the `$set` elements follows map iteration, which Go leaves unspecified; the contract states distinct keys and contents, not order.

## Findings

| source | as written | input that shows it | evidently intended | confidence | as-written member | corrected member |
|---|---|---|---|---|---|---|
| crumbdb_service/pkg/mongodb/mongodb.go:135 | the new record's id is returned as `objId.String()`, the driver's `ObjectID("<hex>")` form | any insert whose id is an ObjectID: the returned 36-character text is refused by `ObjectIDFromHex` in `Update` and `Delete` | return `objId.Hex()`, 24 hex digits that `Update` and `Delete` accept (the same applies to user_acct_service/pkg/mongodb/mongodb.go:105) | high, not executed | CrumbDb.AsWrittenInsertThenDelete | CrumbDb.InsertThenDelete |
