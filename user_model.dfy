/** The credential store: the `User` schema and its collection `users_credentials`. */
module UserModel {
  import opened Wrappers
  import opened Strings
  import opened Ids

  /** A stored user. `isAdmin` is `None` on a document written without the field. */
  datatype User = User(id: string, email: string, passwordHash: string, isAdmin: Option<bool>,
                       createdAt: nat, updatedAt: nat)

  /** What the schema guarantees of every stored user: required, lower-cased, trimmed e-mail and a hash. */
  predicate WellFormed(u: User) {
    && u.email != ""
    && IsNormalEmail(u.email)
    && u.passwordHash != ""
    && IsObjectId(u.id)
  }

  /** `toSafeObject()`: the user as the API shows it. The type has no room for the hash. */
  datatype SafeUser = SafeUser(id: string, email: string, isAdmin: bool, createdAt: nat, updatedAt: nat)

  function ToSafeObject(u: User): (r: SafeUser)
    ensures r.id == u.id && r.email == u.email
    ensures r.createdAt == u.createdAt && r.updatedAt == u.updatedAt
    ensures r.isAdmin <==> u.isAdmin == Some(true)
    ensures u.isAdmin.None? ==> !r.isAdmin
  {
    SafeUser(u.id, u.email, u.isAdmin.GetOr(false), u.createdAt, u.updatedAt)
  }

  /** A row of the admin user listing, `select('-passwordHash')`: every stored field but the hash. */
  datatype UserRow = UserRow(id: string, email: string, isAdmin: Option<bool>, createdAt: nat, updatedAt: nat)

  function ListingRow(u: User): (r: UserRow)
    ensures r.id == u.id && r.email == u.email && r.isAdmin == u.isAdmin
    ensures r.createdAt == u.createdAt && r.updatedAt == u.updatedAt
  {
    UserRow(u.id, u.email, u.isAdmin, u.createdAt, u.updatedAt)
  }

  /** The users listing, in the order the store returns them, without any password hash. */
  function ListUsers(users: seq<User>): (rows: seq<UserRow>)
    ensures |rows| == |users|
    ensures forall i :: 0 <= i < |users| ==> rows[i] == ListingRow(users[i])
  {
    seq(|users|, i requires 0 <= i < |users| => ListingRow(users[i]))
  }

  /** The collection as a map from `_id` to document. */
  type Users = map<string, User>

  /** The collection's invariant: keys are the ids, documents are well formed, e-mails are unique. */
  ghost predicate UsersInv(users: Users) {
    && (forall id :: id in users ==> users[id].id == id && WellFormed(users[id]))
    && (forall a, b :: a in users && b in users && users[a].email == users[b].email ==> a == b)
  }

  predicate EmailTaken(users: Users, email: string) {
    exists id :: id in users && users[id].email == email
  }

  /** The user holding e-mail `email`, unique by the collection's invariant. */
  function UserByEmail(users: Users, email: string): (r: Option<User>)
    requires UsersInv(users)
    ensures r.Some? <==> EmailTaken(users, email)
    ensures r.Some? ==> r.value.id in users && users[r.value.id] == r.value && r.value.email == email
  {
    if EmailTaken(users, email) then
      var id :| id in users && users[id].email == email;
      Some(users[id])
    else None
  }

  /** `User.create(...)`'s outcome: the new collection and document, or why the insert failed. */
  datatype InsertOutcome = Inserted(users: Users, user: User) | ValidationFailed | DuplicateKey

  /**
   * `User.create({ email, passwordHash })` with id `id`: the setters normalise the e-mail, the
   * defaults make `isAdmin` false, the `required` validators refuse an empty e-mail or hash,
   * and the unique indexes on `_id` and `email` refuse a duplicate.
   */
  function InsertUser(users: Users, id: string, email: string, passwordHash: string, now: nat): (r: InsertOutcome)
    requires IsObjectId(id)
    ensures r.ValidationFailed? <==> NormalizeEmail(email) == "" || passwordHash == ""
    ensures r.DuplicateKey? <==> !r.ValidationFailed? && (id in users || EmailTaken(users, NormalizeEmail(email)))
    ensures r.Inserted? ==> r.user.id == id && r.user.email == NormalizeEmail(email)
    ensures r.Inserted? ==> r.user.passwordHash == passwordHash && r.user.isAdmin == Some(false)
    ensures r.Inserted? ==> r.user.createdAt == now == r.user.updatedAt
    ensures r.Inserted? ==> r.users == users[id := r.user] && id !in users
  {
    var e := NormalizeEmail(email);
    if e == "" || passwordHash == "" then ValidationFailed
    else if id in users || EmailTaken(users, e) then DuplicateKey
    else
      var u := User(id, e, passwordHash, Some(false), now, now);
      Inserted(users[id := u], u)
  }

  /** Inserting keeps the collection's invariant. */
  lemma InsertUserKeepsInv(users: Users, id: string, email: string, passwordHash: string, now: nat)
    requires IsObjectId(id) && UsersInv(users)
    ensures var r := InsertUser(users, id, email, passwordHash, now);
            r.Inserted? ==> UsersInv(r.users)
  {
    var r := InsertUser(users, id, email, passwordHash, now);
    if r.Inserted? {
      var e := NormalizeEmail(email);
      var n := r.users;
      NormalizeEmailIdempotent(email);
      assert WellFormed(r.user);
      forall a | a in n ensures n[a].id == a && WellFormed(n[a]) {
        if a != id { assert n[a] == users[a]; }
      }
      assert forall a :: a in users ==> users[a].email != e;
      forall a, b | a in n && b in n && n[a].email == n[b].email ensures a == b {
        assert a != id ==> n[a] == users[a];
        assert b != id ==> n[b] == users[b];
      }
    }
  }

  /** The collection `users_credentials`, updated in place by the route handlers. */
  class UserCollection {
    var docs: Users

    ghost predicate Valid()
      reads this
    {
      UsersInv(docs)
    }

    constructor ()
      ensures Valid() && docs == map[]
    {
      docs := map[];
    }

    /** `User.findOne({ email })`; the schema setters normalise the filter. */
    method FindByEmail(email: string) returns (found: Option<User>)
      requires Valid()
      ensures found.Some? <==> EmailTaken(docs, NormalizeEmail(email))
      ensures found.Some? ==> found.value.id in docs && docs[found.value.id] == found.value
      ensures found.Some? ==> found.value.email == NormalizeEmail(email)
      ensures found == UserByEmail(docs, NormalizeEmail(email))
    {
      var e := NormalizeEmail(email);
      found := UserByEmail(docs, e);
    }

    /** `User.findById(id)` for an id that has already been cast. */
    function FindById(id: string): (found: Option<User>)
      reads this
      ensures found.Some? <==> id in docs
      ensures found.Some? ==> found.value == docs[id]
    {
      if id in docs then Some(docs[id]) else None
    }

    /** `User.create(...)`. */
    method Create(id: string, email: string, passwordHash: string, now: nat) returns (r: InsertOutcome)
      requires Valid() && IsObjectId(id)
      modifies this
      ensures Valid()
      ensures r == InsertUser(old(docs), id, email, passwordHash, now)
      ensures docs == if r.Inserted? then r.users else old(docs)
    {
      r := InsertUser(docs, id, email, passwordHash, now);
      InsertUserKeepsInv(docs, id, email, passwordHash, now);
      if r.Inserted? {
        docs := r.users;
      }
    }

    /** `User.findByIdAndDelete(id)`: removes that user, if present, and nothing else. */
    method DeleteById(id: string)
      requires Valid()
      modifies this
      ensures Valid()
      ensures docs == old(docs) - {id}
    {
      docs := docs - {id};
    }
  }
}
