/**
 * The user record (`UserDocument`), the schema's constraints on the users
 * collection, and the record's `comparePassword` method.
 */
module UserModel {
  import opened Wrappers
  import Bcrypt

  /** The document id the store assigns at creation. */
  type UserId = nat

  /** The `authProvider` enum: `'local' | 'google'`. */
  datatype Provider = Local | Google

  /** A stored user. `createdAt` and `updatedAt` are the schema's timestamps. */
  datatype User = User(
    id: UserId,
    name: string,
    email: string,
    passwordHash: Option<Bcrypt.Digest>,
    authProvider: Provider,
    googleId: Option<string>,
    createdAt: nat,
    updatedAt: nat)

  /** What a caller hands to `create` (a `Partial<UserDocument>`): no id, no timestamps. */
  datatype Draft = Draft(
    name: string,
    email: string,
    passwordHash: Option<Bcrypt.Digest>,
    authProvider: Option<Provider>,
    googleId: Option<string>)

  /** `comparePassword`: false, never an error, when there is no password hash;
      otherwise the hasher's comparison against the stored hash. */
  function ComparePassword(u: User, candidate: string): (ok: bool)
    ensures u.passwordHash.None? ==> !ok
    ensures u.passwordHash.Some? ==> (ok <==> Bcrypt.Compare(candidate, u.passwordHash.value))
  {
    match u.passwordHash
    case None => false
    case Some(h) => Bcrypt.Compare(candidate, h)
  }

  /** A user whose stored hash was made from `password` accepts exactly that password. */
  lemma ComparePasswordAcceptsOnlyHashedPassword(u: User, password: string, salt: nat, candidate: string)
    requires u.passwordHash == Some(Bcrypt.Hash(password, salt))
    ensures ComparePassword(u, candidate) <==> candidate == password
  {
  }

  /** The record `create` stores: the schema default `'local'` for a missing
      provider, both timestamps set to the creation time. */
  function NewRecord(id: UserId, d: Draft, now: nat): (u: User)
    ensures u.id == id && u.name == d.name && u.email == d.email
    ensures u.passwordHash == d.passwordHash && u.googleId == d.googleId
    ensures d.authProvider.None? ==> u.authProvider == Local
    ensures d.authProvider.Some? ==> u.authProvider == d.authProvider.value
    ensures u.createdAt == now && u.updatedAt == now
  {
    User(id, d.name, d.email, d.passwordHash,
         if d.authProvider.Some? then d.authProvider.value else Local,
         d.googleId, now, now)
  }

  /** `required: true` on `name` and `email`: mongoose rejects an empty string too. */
  predicate HasRequiredFields(u: User)
  {
    u.name != "" && u.email != ""
  }

  /** The unique index on `email`. */
  ghost predicate EmailsUnique(users: map<UserId, User>)
  {
    forall i, j :: i in users && j in users && users[i].email == users[j].email ==> i == j
  }

  /** The sparse unique index on `googleId`: unique among the users that have one. */
  ghost predicate GoogleIdsUnique(users: map<UserId, User>)
  {
    forall i, j ::
      i in users && j in users && users[i].googleId.Some? && users[i].googleId == users[j].googleId ==> i == j
  }

  /** Every constraint the schema puts on the collection. */
  ghost predicate SchemaHolds(users: map<UserId, User>)
  {
    && (forall i :: i in users ==> HasRequiredFields(users[i]))
    && EmailsUnique(users)
    && GoogleIdsUnique(users)
  }
}
