/**
 * The user-account service's request handlers: validate the request, consult
 * the store, and map the outcome to an id, a user, or a status code. The
 * validator is an abstract predicate per request type.
 */
module UserRoutes {
  import opened Wrappers
  import opened Bson
  import opened ObjectIds
  import opened DocStore
  import UserAcctDb

  const StatusOK := 200
  const StatusBadRequest := 400
  const StatusInternalServerError := 500

  datatype User = User(id: string, email: string, username: string, password: string)
  datatype UserRequest = UserRequest(email: string)
  datatype PasswordRequest = PasswordRequest(email: string, password: string)

  /** What a handler reports besides the store's own errors. */
  datatype RouteError =
    | Validation                 // the request failed its validation rules
    | EmailExists                // "user with email address exists"
    | Database(cause: Error)

  /** A user as the store keeps it: one text field per message field, and no `_id` of its own. */
  function UserDoc(u: User): Doc {
    map["id" := Str(u.id), "email" := Str(u.email), "username" := Str(u.username), "password" := Str(u.password)]
  }

  function TextField(doc: Doc, key: string): string {
    if key in doc && doc[key].Str? then doc[key].s else ""
  }

  /** s is what a read of the text field key gives: the text stored there, or "" for an absent or non-text field. */
  predicate ReadsField(doc: Doc, key: string, s: string) {
    (key in doc && doc[key].Str? ==> s == doc[key].s) && (key !in doc || !doc[key].Str? ==> s == "")
  }

  /** toUser: the message fields read back out of a stored document. */
  function ToUser(doc: Doc): (r: User)
    ensures ReadsField(doc, "id", r.id) && ReadsField(doc, "email", r.email)
    ensures ReadsField(doc, "username", r.username) && ReadsField(doc, "password", r.password)
  {
    User(TextField(doc, "id"), TextField(doc, "email"), TextField(doc, "username"), TextField(doc, "password"))
  }

  function EmailFilter(email: string): DocStore.Filter {
    map["email" := Str(email)]
  }

  /** No two stored documents carry the same email. */
  ghost predicate UniqueEmails(docs: map<Value, Doc>) {
    forall a, b ::
      (a in docs && b in docs && "email" in docs[a] && "email" in docs[b] && docs[a]["email"] == docs[b]["email"])
      ==> a == b
  }

  lemma ToUserOfUserDoc(u: User, id: Value)
    ensures ToUser(UserDoc(u)) == u
    ensures ToUser(UserDoc(u)[IdField := id]) == u
  {
    assert UserDoc(u)[IdField := id]["email"] == Str(u.email);
  }

  /** A document matches the email filter exactly when its email field is that address. */
  lemma EmailFilterMatches(id: Value, doc: Doc, email: string)
    ensures Matches(id, doc, EmailFilter(email)) <==> "email" in doc && doc["email"] == Str(email)
  {
    assert "email" in EmailFilter(email);
  }

  /** Inserting a user whose email no stored document has keeps the emails unique. */
  lemma InsertKeepsUnique(docs: map<Value, Doc>, key: Value, u: User)
    requires UniqueEmails(docs) && key !in docs && !AnyMatch(docs, EmailFilter(u.email))
    ensures UniqueEmails(docs[key := UserDoc(u)])
  {
    forall b | b in docs
      ensures !("email" in docs[b] && docs[b]["email"] == Str(u.email))
    {
      EmailFilterMatches(b, docs[b], u.email);
    }
  }

  /** An update that leaves the email field alone keeps the emails unique. */
  lemma UpdateKeepsUnique(docs: map<Value, Doc>, key: Value, items: Doc)
    requires UniqueEmails(docs) && key in docs && "email" !in items
    ensures UniqueEmails(docs[key := docs[key] + items])
  {
    var next := docs[key := docs[key] + items];
    assert forall k :: k in next ==> ("email" in next[k] <==> "email" in docs[k]);
    assert forall k :: k in next && "email" in next[k] ==> next[k]["email"] == docs[k]["email"];
  }

  class Route {
    const db: UserAcctDb.MongoDB
    const validUser: User -> bool
    const validUserRequest: UserRequest -> bool
    const validPasswordRequest: PasswordRequest -> bool

    constructor (db: UserAcctDb.MongoDB, validUser: User -> bool, validUserRequest: UserRequest -> bool,
                 validPasswordRequest: PasswordRequest -> bool)
      ensures this.db == db && this.validUser == validUser
      ensures this.validUserRequest == validUserRequest && this.validPasswordRequest == validPasswordRequest
    {
      this.db := db;
      this.validUser := validUser;
      this.validUserRequest := validUserRequest;
      this.validPasswordRequest := validPasswordRequest;
    }

    /**
     * Create: a valid user whose email is not yet stored is inserted, and the
     * store's id for it is returned; the store generates the `_id`.
     */
    method Create(user: User, generated: ObjectId, existFault: bool, createFault: bool)
      returns (id: Option<string>, err: Option<RouteError>)
      modifies db.coll
      ensures !validUser(user) ==> id == None && err == Some(Validation) && unchanged(db.coll)
      ensures validUser(user) ==>
                var docs := old(db.coll.docs);
                var key := Oid(generated);
                if existFault then id == None && err == Some(Database(Driver(Unreachable))) && db.coll.docs == docs
                else if AnyMatch(docs, EmailFilter(user.email)) then id == None && err == Some(EmailExists) && db.coll.docs == docs
                else if createFault then id == None && err == Some(Database(Driver(Unreachable))) && db.coll.docs == docs
                else if key in docs then id == None && err == Some(Database(Driver(DuplicateKey))) && db.coll.docs == docs
                else id == Some(DriverString(generated)) && err == None && db.coll.docs == docs[key := UserDoc(user)]
      ensures err == None <==> id.Some?
      ensures UniqueEmails(old(db.coll.docs)) ==> UniqueEmails(db.coll.docs)
    {
      if !validUser(user) {
        return None, Some(Validation);
      }
      var exist, existErr := db.DocumentExist(EmailFilter(user.email), existFault);
      if existErr.Some? {
        return None, Some(Database(existErr.value));
      }
      if exist {
        return None, Some(EmailExists);
      }
      ghost var before := db.coll.docs;
      var doc := UserDoc(user);
      assert InsertedId(doc, generated) == Oid(generated);
      assert doc - {IdField} == doc;
      var value, createErr := db.Create(doc, generated, createFault);
      if createErr.Some? {
        return None, Some(Database(createErr.value));
      }
      id, err := Some(value), None;
      if UniqueEmails(before) {
        InsertKeepsUnique(before, Oid(generated), user);
      }
    }

    /** GetUser: the stored user with the requested email. */
    method GetUser(req: UserRequest, fault: bool) returns (user: Option<User>, err: Option<RouteError>)
      modifies db.coll`roundTrips
      ensures db.coll.docs == old(db.coll.docs)
      ensures !validUserRequest(req) ==> user == None && err == Some(Validation) && unchanged(db.coll)
      ensures validUserRequest(req) ==>
                if fault then user == None && err == Some(Database(Driver(Unreachable)))
                else if !AnyMatch(db.coll.docs, EmailFilter(req.email)) then user == None && err == Some(Database(Driver(NoDocuments)))
                else err == None && user.Some? && user.value.email == req.email &&
                     exists t :: t in db.coll.docs && ToUser(db.coll.docs[t]) == user.value
      ensures err == None <==> user.Some?
    {
      if !validUserRequest(req) {
        return None, Some(Validation);
      }
      var res, getErr, target := db.Get(EmailFilter(req.email), fault);
      if getErr.Some? {
        return None, Some(Database(getErr.value));
      }
      var doc := res.value;
      EmailFilterMatches(target, db.coll.docs[target], req.email);
      assert doc == db.coll.docs[target][IdField := target];
      assert doc["email"] == Str(req.email);
      assert ToUser(doc) == ToUser(db.coll.docs[target]);
      user, err := Some(ToUser(doc)), None;
    }

    /** UpdatePassword: 400 for an invalid request, 500 when the store fails, else 200, match or not. */
    method UpdatePassword(req: PasswordRequest, fault: bool) returns (status: int, err: Option<RouteError>)
      modifies db.coll
      ensures !validPasswordRequest(req) ==> status == StatusBadRequest && err == Some(Validation) && unchanged(db.coll)
      ensures validPasswordRequest(req) ==>
                var docs := old(db.coll.docs);
                if fault then status == StatusInternalServerError && err == Some(Database(Driver(Unreachable))) && db.coll.docs == docs
                else status == StatusOK && err == None &&
                     if !AnyMatch(docs, EmailFilter(req.email)) then db.coll.docs == docs
                     else exists t :: t in docs && Matches(t, docs[t], EmailFilter(req.email)) &&
                                      db.coll.docs == docs[t := docs[t] + map["password" := Str(req.password)]]
      ensures status == StatusOK <==> err == None
      ensures UniqueEmails(old(db.coll.docs)) ==> UniqueEmails(db.coll.docs)
    {
      if !validPasswordRequest(req) {
        status, err := StatusBadRequest, Some(Validation);
        return;
      }
      ghost var before := db.coll.docs;
      var items := map["password" := Str(req.password)];
      assert IdField !in items && items - {IdField} == items;
      var updateErr, target := db.Update(EmailFilter(req.email), items, fault);
      if updateErr.Some? {
        status, err := StatusInternalServerError, Some(Database(updateErr.value));
        return;
      }
      status, err := StatusOK, None;
      if AnyMatch(before, EmailFilter(req.email)) && UniqueEmails(before) {
        UpdateKeepsUnique(before, target, items);
      }
    }

    /** Delete: 400 for an invalid request, 500 when the store fails, else 200, deleted or not. */
    method Delete(req: UserRequest, fault: bool) returns (status: int, err: Option<RouteError>)
      modifies db.coll
      ensures !validUserRequest(req) ==> status == StatusBadRequest && err == Some(Validation) && unchanged(db.coll)
      ensures validUserRequest(req) ==>
                var docs := old(db.coll.docs);
                if fault then status == StatusInternalServerError && err == Some(Database(Driver(Unreachable))) && db.coll.docs == docs
                else status == StatusOK && err == None &&
                     if !AnyMatch(docs, EmailFilter(req.email)) then db.coll.docs == docs
                     else exists t :: t in docs && Matches(t, docs[t], EmailFilter(req.email)) && db.coll.docs == docs - {t}
      ensures status == StatusOK <==> err == None
      ensures UniqueEmails(old(db.coll.docs)) ==> UniqueEmails(db.coll.docs)
    {
      if !validUserRequest(req) {
        status, err := StatusBadRequest, Some(Validation);
        return;
      }
      var deleteErr, target := db.Delete(EmailFilter(req.email), fault);
      if deleteErr.Some? {
        status, err := StatusInternalServerError, Some(Database(deleteErr.value));
        return;
      }
      status, err := StatusOK, None;
    }
  }
}
