/** The MongoDB-driver user store: a lazily opened, module-wide connection and
    the `users` collection, with every failure but `addUser`'s reported as an
    empty answer. */
module MongoOperations {
  import opened Wrappers
  import opened Seqs
  import opened Environment
  import opened UserRecords

  const DatabaseName := "certificate_system"
  const UriNotSetMessage := "MONGODB_URI environment variable is not set"

  /** A `MongoClient` made for a connection string. */
  datatype Client = Client(uri: string)
  /** A database handle. */
  datatype Db = Db(name: string)

  datatype ConnectError = UriNotSet | ConnectFailed

  function ErrorMessage(e: ConnectError): (m: string)
    ensures e.UriNotSet? ==> m == UriNotSetMessage
  {
    match e
    case UriNotSet => UriNotSetMessage
    case ConnectFailed => "connect failed"
  }

  class MongoUsers {
    /** The module-level `client` and `db` variables. */
    var client: Option<Client>
    var db: Option<Db>
    /** `process.env.MONGODB_URI`. */
    var uri: Option<string>
    /** The `users` collection, in natural order. */
    var users: seq<UserData>

    /** A database handle is only ever held together with its client, and it
        is always the application's database. */
    predicate Valid()
      reads this
    {
      db.Some? ==> client.Some? && db.value == Db(DatabaseName)
    }

    constructor (uri: Option<string>, users: seq<UserData>)
      ensures Valid()
      ensures client == None && db == None && this.uri == uri && this.users == users
    {
      client := None;
      db := None;
      this.uri := uri;
      this.users := users;
    }

    /** Whether a connection attempt, with the server reachable or not as
        `serverUp` says, ends with a database handle. */
    predicate WillConnect(serverUp: bool)
      reads this
    {
      db.Some? || (Truthy(uri) && serverUp)
    }

    /** `connectToMongoDB`: reuses an open handle; refuses when the URI is
        unset; otherwise makes a client (kept even when connecting fails) and,
        once connected, opens `certificate_system`. */
    method Connect(serverUp: bool) returns (r: Result<Db, ConnectError>)
      requires Valid()
      modifies this`client, this`db
      ensures Valid()
      ensures users == old(users) && uri == old(uri)
      ensures old(WillConnect(serverUp)) ==> r == Ok(Db(DatabaseName)) && db == Some(r.value)
      ensures old(db).Some? ==> client == old(client)
      ensures old(db).None? && !Truthy(uri) ==>
                r == Err(UriNotSet) && client == old(client) && db == None
      ensures old(db).None? && Truthy(uri) ==> client == Some(Client(uri.value))
      ensures old(db).None? && Truthy(uri) && !serverUp ==> r == Err(ConnectFailed) && db == None
    {
      if db.Some? {
        return Ok(db.value);
      }
      if !Truthy(uri) {
        return Err(UriNotSet);
      }
      client := Some(Client(uri.value));
      if !serverUp {
        return Err(ConnectFailed);
      }
      db := Some(Db(DatabaseName));
      r := Ok(db.value);
    }

    /** `getAllUsers`: the whole collection, or `[]` when no connection can be made. */
    method GetAllUsers(serverUp: bool) returns (r: seq<UserData>)
      requires Valid()
      modifies this`client, this`db
      ensures Valid()
      ensures users == old(users) && uri == old(uri)
      ensures old(WillConnect(serverUp)) ==> r == users && db.Some?
      ensures !old(WillConnect(serverUp)) ==> r == [] && db.None?
    {
      var connection := Connect(serverUp);
      if connection.Err? {
        return [];
      }
      r := users;
    }

    /** `addUser`: inserts a new record, with no check for an existing email or
        mobile number; a connection failure is passed on to the caller. */
    method AddUser(input: NewUserInput, d: Draws, serverUp: bool)
      returns (r: Result<UserData, ConnectError>)
      requires Valid() && ValidDraws(d)
      modifies this`client, this`db, this`users
      ensures Valid()
      ensures uri == old(uri)
      ensures old(WillConnect(serverUp)) ==>
                r == Ok(NewUser(input, d)) && users == old(users) + [r.value]
      ensures !old(WillConnect(serverUp)) ==> r.Err? && users == old(users)
    {
      ghost var willConnect := WillConnect(serverUp);
      var connection := Connect(serverUp);
      if connection.Err? {
        assert !willConnect;
        return Err(connection.error);
      }
      assert willConnect;
      var newUser := NewUser(input, d);
      users := users + [newUser];
      r := Ok(newUser);
    }

    /** `findUser`: the first record whose mobile number or email is
        `identifier`; `None` also when no connection can be made. */
    method FindUser(identifier: string, serverUp: bool) returns (r: Option<UserData>)
      requires Valid()
      modifies this`client, this`db
      ensures Valid()
      ensures users == old(users) && uri == old(uri)
      ensures old(WillConnect(serverUp)) ==> r == Find(users, MatchesIdentifier(identifier))
      ensures !old(WillConnect(serverUp)) ==> r.None?
    {
      var connection := Connect(serverUp);
      if connection.Err? {
        return None;
      }
      r := Find(users, MatchesIdentifier(identifier));
    }

    /** `updateUser`: `$set`s `updates` and a fresh `updatedAt` on the first
        record with id `id` and returns it as updated; `None` when there is no
        such record or no connection. */
    method UpdateUser(id: string, updates: UserPatch, now: string, serverUp: bool)
      returns (r: Option<UserData>)
      requires Valid()
      modifies this`client, this`db, this`users
      ensures Valid()
      ensures uri == old(uri)
      ensures old(WillConnect(serverUp)) ==>
                r == UpdateUsers(old(users), id, updates, now).0
                && users == UpdateUsers(old(users), id, updates, now).1
      ensures !old(WillConnect(serverUp)) ==> r.None? && users == old(users)
    {
      var connection := Connect(serverUp);
      if connection.Err? {
        return None;
      }
      var updateData := Combine(updates, EmptyPatch.(updatedAt := Some(now)));
      var index := FindIndex(users, HasId(id));
      if index.None? {
        return None;
      }
      var i := index.value;
      MergeSetsUpdatedAt(users[i], updates, now);
      users := users[i := Merge(users[i], updateData)];
      r := Some(users[i]);
    }

    /** `closeMongoDB`: forgets the client and the database handle, if a client exists. */
    method Close()
      requires Valid()
      modifies this`client, this`db
      ensures Valid()
      ensures users == old(users) && uri == old(uri)
      ensures old(client).Some? ==> client == None && db == None
      ensures old(client).None? ==> client == old(client) && db == old(db)
    {
      if client.Some? {
        client := None;
        db := None;
      }
    }
  }

  /** `$set` of `{...updates, updatedAt: now}` on a record is the shared update. */
  lemma MergeSetsUpdatedAt(u: UserData, updates: UserPatch, now: string)
    ensures Merge(u, Combine(updates, EmptyPatch.(updatedAt := Some(now)))) == Updated(u, updates, now)
  {
  }
}
