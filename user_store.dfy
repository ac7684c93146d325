/**
 * The user repository (`findByEmail`, `findById`, `create`) and the document
 * `save` the service calls, over an in-memory collection. `create` and `save`
 * enforce the schema as the database does: a missing required field is a
 * validation error, a second user with the same email or the same Google id
 * is a duplicate-key error, and neither error writes anything.
 */
module UserStore {
  import opened Wrappers
  import opened UserModel

  /** The collection: records by id, and the id the next `create` assigns. */
  datatype Db = Db(users: map<UserId, User>, nextId: UserId)

  datatype StoreError = ValidationFailed | DuplicateKey

  /** Every record sits under its own id, ids below `nextId` are the used ones,
      and the schema's constraints hold. */
  ghost predicate Consistent(db: Db)
  {
    && (forall id :: id in db.users ==> db.users[id].id == id && id < db.nextId)
    && SchemaHolds(db.users)
  }

  predicate EmailTaken(users: map<UserId, User>, email: string)
  {
    exists id :: id in users && users[id].email == email
  }

  /** Would storing `u` put a second record on one of the unique indexes? */
  predicate Clashes(users: map<UserId, User>, u: User)
  {
    exists id :: id in users && id != u.id &&
      (users[id].email == u.email || (u.googleId.Some? && users[id].googleId == u.googleId))
  }

  /** `findOne({ email })`. */
  ghost function ByEmail(users: map<UserId, User>, email: string): (r: Option<User>)
    ensures r.None? <==> !EmailTaken(users, email)
    ensures r.Some? ==> r.value.email == email && r.value in users.Values
  {
    if EmailTaken(users, email) then
      var id :| id in users && users[id].email == email;
      Some(users[id])
    else
      None
  }

  /** With unique emails, the lookup by a user's email finds that user. */
  lemma ByEmailFinds(users: map<UserId, User>, id: UserId)
    requires EmailsUnique(users) && id in users
    ensures ByEmail(users, users[id].email) == Some(users[id])
  {
    var found := ByEmail(users, users[id].email);
    var j :| j in users && users[j] == found.value;
  }

  /** `create(data)`: validation, then the unique indexes, then the insert under a fresh id. */
  function CreateSpec(db: Db, d: Draft, now: nat): (Result<User, StoreError>, Db)
  {
    var u := NewRecord(db.nextId, d, now);
    if !HasRequiredFields(u) then (Err(ValidationFailed), db)
    else if Clashes(db.users, u) then (Err(DuplicateKey), db)
    else (Ok(u), Db(db.users[u.id := u], db.nextId + 1))
  }

  /** `doc.save()` of a document read from the store: `createdAt` is immutable and
      `updatedAt` is set to the save time; validation and indexes as for `create`. */
  function SaveSpec(db: Db, u: User, now: nat): (Result<User, StoreError>, Db)
    requires u.id in db.users
  {
    var saved := u.(createdAt := db.users[u.id].createdAt, updatedAt := now);
    if !HasRequiredFields(saved) then (Err(ValidationFailed), db)
    else if Clashes(db.users, saved) then (Err(DuplicateKey), db)
    else (Ok(saved), db.(users := db.users[u.id := saved]))
  }

  /** Writing a record that clashes with no other keeps the schema's constraints. */
  lemma WriteWithoutClash(users: map<UserId, User>, u: User)
    requires SchemaHolds(users) && HasRequiredFields(u) && !Clashes(users, u)
    ensures SchemaHolds(users[u.id := u])
  {
    var m := users[u.id := u];
    forall id | id in m && id != u.id
      ensures m[id] == users[id]
      ensures m[id].email != u.email
      ensures u.googleId.Some? ==> m[id].googleId != u.googleId
    {
    }
    forall i, j | i in m && j in m && m[i].email == m[j].email
      ensures i == j
    {
      if i != u.id && j != u.id {
        assert users[i].email == users[j].email;
      }
    }
    forall i, j | i in m && j in m && m[i].googleId.Some? && m[i].googleId == m[j].googleId
      ensures i == j
    {
      if i != u.id && j != u.id {
        assert users[i].googleId == users[j].googleId;
      }
    }
  }

  /** `create` on a consistent store keeps it consistent; on success it adds
      exactly the new record under an id not used before, and on failure it
      writes nothing. */
  lemma CreateKeepsConsistent(db: Db, d: Draft, now: nat)
    requires Consistent(db)
    ensures var (r, db') := CreateSpec(db, d, now);
      && Consistent(db')
      && (r.Err? ==> db' == db)
      && (r.Ok? ==> r.value.id !in db.users && db'.users == db.users[r.value.id := r.value]
                    && |db'.users| == |db.users| + 1)
  {
    var u := NewRecord(db.nextId, d, now);
    if HasRequiredFields(u) && !Clashes(db.users, u) {
      WriteWithoutClash(db.users, u);
    }
  }

  /** `save` keeps a consistent store consistent, never adds or removes a
      record, and on failure writes nothing. */
  lemma SaveKeepsConsistent(db: Db, u: User, now: nat)
    requires Consistent(db) && u.id in db.users && db.users[u.id].id == u.id
    ensures var (r, db') := SaveSpec(db, u, now);
      && Consistent(db')
      && db'.users.Keys == db.users.Keys && db'.nextId == db.nextId
      && (r.Err? ==> db' == db)
      && (r.Ok? ==> db'.users == db.users[u.id := r.value])
  {
    var saved := u.(createdAt := db.users[u.id].createdAt, updatedAt := now);
    if HasRequiredFields(saved) && !Clashes(db.users, saved) {
      WriteWithoutClash(db.users, saved);
    }
  }

  /** The repository: the collection held as a map from id to record. */
  class UserRepository {
    var users: map<UserId, User>
    var nextId: UserId

    ghost function State(): Db
      reads this
    {
      Db(users, nextId)
    }

    ghost predicate Valid()
      reads this
    {
      Consistent(State())
    }

    constructor ()
      ensures Valid() && users == map[] && nextId == 0
    {
      users := map[];
      nextId := 0;
    }

    method FindByEmail(email: string) returns (u: Option<User>)
      requires Valid()
      ensures u == ByEmail(users, email)
      ensures u.Some? ==> u.value.id in users && users[u.value.id] == u.value
    {
      if exists id :: id in users && users[id].email == email {
        var id :| id in users && users[id].email == email;
        ByEmailFinds(users, id);
        u := Some(users[id]);
      } else {
        u := None;
      }
    }

    method FindById(id: UserId) returns (u: Option<User>)
      ensures u.Some? <==> id in users
      ensures u.Some? ==> u.value == users[id]
    {
      u := if id in users then Some(users[id]) else None;
    }

    method Create(d: Draft, now: nat) returns (r: Result<User, StoreError>)
      requires Valid()
      modifies this
      ensures Valid()
      ensures (r, State()) == CreateSpec(old(State()), d, now)
    {
      CreateKeepsConsistent(State(), d, now);
      var u := NewRecord(nextId, d, now);
      if !HasRequiredFields(u) {
        return Err(ValidationFailed);
      }
      if Clashes(users, u) {
        return Err(DuplicateKey);
      }
      users := users[u.id := u];
      nextId := nextId + 1;
      r := Ok(u);
    }

    method Save(u: User, now: nat) returns (r: Result<User, StoreError>)
      requires Valid() && u.id in users
      modifies this
      ensures Valid()
      ensures (r, State()) == SaveSpec(old(State()), u, now)
    {
      SaveKeepsConsistent(State(), u, now);
      var saved := u.(createdAt := users[u.id].createdAt, updatedAt := now);
      if !HasRequiredFields(saved) {
        return Err(ValidationFailed);
      }
      if Clashes(users, saved) {
        return Err(DuplicateKey);
      }
      users := users[u.id := saved];
      r := Ok(saved);
    }
  }
}
