/** The user record shared by the JSON-file store, the MongoDB-driver store,
    the profile-update route and the admin dashboard, and the JSON files the
    stores read. */
module UserRecords {
  import opened Wrappers
  import opened Strings
  import opened Seqs
  import opened Identifiers

  datatype Title = Mr | Ms

  /** A stored user. `None` stands for an optional field that is absent. */
  datatype UserData = UserData(
    id: string,
    name: string,
    title: Title,
    fatherHusbandName: string,
    mobileNo: string,
    emailId: string,
    dateOfBirth: string,
    passoutPercentage: real,
    state: string,
    address: string,
    courseName: string,
    experience: string,
    collegeName: string,
    photoUrl: Option<string>,
    qrCodeUrl: Option<string>,
    registrationNumber: Option<string>,
    createdAt: string,
    updatedAt: string
  )

  /** `Partial<UserData>`: the keys an update object carries. */
  datatype UserPatch = UserPatch(
    id: Option<string>,
    name: Option<string>,
    title: Option<Title>,
    fatherHusbandName: Option<string>,
    mobileNo: Option<string>,
    emailId: Option<string>,
    dateOfBirth: Option<string>,
    passoutPercentage: Option<real>,
    state: Option<string>,
    address: Option<string>,
    courseName: Option<string>,
    experience: Option<string>,
    collegeName: Option<string>,
    photoUrl: Option<string>,
    qrCodeUrl: Option<string>,
    registrationNumber: Option<string>,
    createdAt: Option<string>,
    updatedAt: Option<string>
  )

  const EmptyPatch := UserPatch(None, None, None, None, None, None, None, None, None,
                                None, None, None, None, None, None, None, None, None)

  function Over<T>(o: Option<T>, current: T): T { o.GetOr(current) }

  function OverOptional<T>(o: Option<T>, current: Option<T>): Option<T> {
    if o.Some? then o else current
  }

  /** `{...u, ...p}`: every key present in `p` overwrites, every other key is kept. */
  function Merge(u: UserData, p: UserPatch): UserData {
    UserData(
      Over(p.id, u.id), Over(p.name, u.name), Over(p.title, u.title),
      Over(p.fatherHusbandName, u.fatherHusbandName), Over(p.mobileNo, u.mobileNo),
      Over(p.emailId, u.emailId), Over(p.dateOfBirth, u.dateOfBirth),
      Over(p.passoutPercentage, u.passoutPercentage), Over(p.state, u.state),
      Over(p.address, u.address), Over(p.courseName, u.courseName),
      Over(p.experience, u.experience), Over(p.collegeName, u.collegeName),
      OverOptional(p.photoUrl, u.photoUrl), OverOptional(p.qrCodeUrl, u.qrCodeUrl),
      OverOptional(p.registrationNumber, u.registrationNumber),
      Over(p.createdAt, u.createdAt), Over(p.updatedAt, u.updatedAt))
  }

  /** `{...p, ...q}` on two update objects. */
  function Combine(p: UserPatch, q: UserPatch): UserPatch {
    UserPatch(
      OverOptional(q.id, p.id), OverOptional(q.name, p.name), OverOptional(q.title, p.title),
      OverOptional(q.fatherHusbandName, p.fatherHusbandName), OverOptional(q.mobileNo, p.mobileNo),
      OverOptional(q.emailId, p.emailId), OverOptional(q.dateOfBirth, p.dateOfBirth),
      OverOptional(q.passoutPercentage, p.passoutPercentage), OverOptional(q.state, p.state),
      OverOptional(q.address, p.address), OverOptional(q.courseName, p.courseName),
      OverOptional(q.experience, p.experience), OverOptional(q.collegeName, p.collegeName),
      OverOptional(q.photoUrl, p.photoUrl), OverOptional(q.qrCodeUrl, p.qrCodeUrl),
      OverOptional(q.registrationNumber, p.registrationNumber),
      OverOptional(q.createdAt, p.createdAt), OverOptional(q.updatedAt, p.updatedAt))
  }

  /** The update used by both stores: merge, then refresh `updatedAt`. */
  function Updated(u: UserData, p: UserPatch, now: string): (r: UserData)
    ensures r.updatedAt == now
  {
    Merge(u, p).(updatedAt := now)
  }

  lemma MergeEmpty(u: UserData)
    ensures Merge(u, EmptyPatch) == u
  {
  }

  /** Applying an update twice is the same as applying it once. */
  lemma MergeIdempotent(u: UserData, p: UserPatch)
    ensures Merge(Merge(u, p), p) == Merge(u, p)
  {
  }

  /** Two successive updates act as their combination. */
  lemma MergeCombine(u: UserData, p: UserPatch, q: UserPatch)
    ensures Merge(Merge(u, p), q) == Merge(u, Combine(p, q))
  {
  }

  // ---------------------------------------------------------------------------
  // Lookups
  // ---------------------------------------------------------------------------

  /** `user.mobileNo === identifier || user.emailId === identifier`. */
  function MatchesIdentifier(identifier: string): UserData -> bool {
    (u: UserData) => u.mobileNo == identifier || u.emailId == identifier
  }

  /** `user.id === id`. */
  function HasId(id: string): UserData -> bool {
    (u: UserData) => u.id == id
  }

  /** Updates the first record whose `id` is `id`: the updated record (if any),
      and the new list. */
  function UpdateUsers(users: seq<UserData>, id: string, p: UserPatch, now: string)
    : (r: (Option<UserData>, seq<UserData>))
    ensures |r.1| == |users|
    ensures r.0.None? <==> forall j :: 0 <= j < |users| ==> users[j].id != id
    ensures r.0.None? ==> r.1 == users
    ensures r.0.Some? ==>
      exists i :: 0 <= i < |users| && users[i].id == id
                  && (forall j :: 0 <= j < i ==> users[j].id != id)
                  && r.0.value == Updated(users[i], p, now)
                  && r.1 == users[i := r.0.value]
  {
    match FindIndex(users, HasId(id))
    case None => (None, users)
    case Some(i) =>
      var u := Updated(users[i], p, now);
      (Some(u), users[i := u])
  }

  /** An update that does not rename the record leaves it the first one with
      its id, so looking it up again returns exactly the updated record. */
  lemma UpdateThenFind(users: seq<UserData>, id: string, p: UserPatch, now: string)
    requires p.id.None?
    ensures var (r, users') := UpdateUsers(users, id, p, now);
            Find(users', HasId(id)) == r
  {
    var (r, users') := UpdateUsers(users, id, p, now);
    if r.Some? {
      var i :| 0 <= i < |users| && users[i].id == id
               && (forall j :: 0 <= j < i ==> users[j].id != id)
               && r.value == Updated(users[i], p, now)
               && users' == users[i := r.value];
      assert users'[i] == r.value && r.value.id == id;
      forall j | 0 <= j < i ensures !HasId(id)(users'[j]) {
        assert users'[j] == users[j];
      }
      FindIndexAt(users', HasId(id), i);
    } else {
      assert users' == users;
      assert forall j :: 0 <= j < |users| ==> !HasId(id)(users[j]);
    }
  }

  // ---------------------------------------------------------------------------
  // New records
  // ---------------------------------------------------------------------------

  /** `Omit<UserData, "id" | "createdAt" | "updatedAt">`: what `addUser` is given. */
  datatype NewUserInput = NewUserInput(
    name: string,
    title: Title,
    fatherHusbandName: string,
    mobileNo: string,
    emailId: string,
    dateOfBirth: string,
    passoutPercentage: real,
    state: string,
    address: string,
    courseName: string,
    experience: string,
    collegeName: string,
    photoUrl: Option<string>,
    qrCodeUrl: Option<string>,
    registrationNumber: Option<string>
  )

  /** The clock and random readings `addUser` makes: `Date.now()`,
      `Math.random().toString(36)`, the current year,
      `Math.floor(Math.random() * 100000)` and two `toISOString()` readings. */
  datatype Draws = Draws(millis: nat, randomText: string, year: nat, random: nat,
                         createdAt: string, updatedAt: string)

  /** `Math.floor(Math.random() * 100000)` lies in `[0, 99999]`. */
  predicate ValidDraws(d: Draws) { d.random < 100000 }

  /** The record `addUser` stores: the input with a fresh id, a fresh
      registration number (replacing any the input carried) and timestamps. */
  function NewUser(input: NewUserInput, d: Draws): (r: UserData)
    requires ValidDraws(d)
    ensures r.registrationNumber.Some?
    ensures r.createdAt == d.createdAt && r.updatedAt == d.updatedAt
    ensures r.mobileNo == input.mobileNo && r.emailId == input.emailId
    ensures r.name == input.name && r.title == input.title
    ensures r.fatherHusbandName == input.fatherHusbandName && r.dateOfBirth == input.dateOfBirth
    ensures r.passoutPercentage == input.passoutPercentage && r.state == input.state
    ensures r.address == input.address && r.courseName == input.courseName
    ensures r.experience == input.experience && r.collegeName == input.collegeName
    ensures r.photoUrl == input.photoUrl && r.qrCodeUrl == input.qrCodeUrl
  {
    UserData(
      GenerateUserId(d.millis, d.randomText), input.name, input.title,
      input.fatherHusbandName, input.mobileNo, input.emailId, input.dateOfBirth,
      input.passoutPercentage, input.state, input.address, input.courseName,
      input.experience, input.collegeName, input.photoUrl, input.qrCodeUrl,
      Some(PaddedRegistrationNumber(d.year, d.random)), d.createdAt, d.updatedAt)
  }

  /** The new record's generated fields are fresh: its id parses back to the
      drawn timestamp and suffix, its registration number to the drawn year
      and number. */
  lemma NewUserIdentifiers(input: NewUserInput, d: Draws)
    requires ValidDraws(d)
    ensures ParseStampedId(UserIdPrefix, NewUser(input, d).id) == Some((d.millis, RandomSuffix(d.randomText)))
    ensures ParseRegistrationNumber(NewUser(input, d).registrationNumber.value) == Some((d.year, d.random))
  {
  }

  /** A registration number supplied in the input never reaches the store. */
  lemma NewUserIgnoresSuppliedNumber(input: NewUserInput, d: Draws, supplied: Option<string>)
    requires ValidDraws(d)
    ensures NewUser(input.(registrationNumber := supplied), d) == NewUser(input, d)
  {
  }

  /** A new record is found by its own mobile number or email, unless an earlier
      record in the list already answers to the same identifier. */
  lemma FindAfterAppend(users: seq<UserData>, u: UserData, identifier: string)
    requires identifier == u.mobileNo || identifier == u.emailId
    ensures Find(users, MatchesIdentifier(identifier)).Some? ==>
              Find(users + [u], MatchesIdentifier(identifier)) == Find(users, MatchesIdentifier(identifier))
    ensures Find(users, MatchesIdentifier(identifier)).None? ==>
              Find(users + [u], MatchesIdentifier(identifier)) == Some(u)
  {
    var q := MatchesIdentifier(identifier);
    FindAppend(users, [u], q);
    assert q(u);
    assert FindIndex([u], q) == Some(0);
    if FindIndex(users, q).Some? {
      assert (users + [u])[FindIndex(users, q).value] == users[FindIndex(users, q).value];
    } else {
      assert (users + [u])[|users|] == u;
    }
  }

  // ---------------------------------------------------------------------------
  // JSON files read whole and written whole
  // ---------------------------------------------------------------------------

  /** What `fs.readFile` followed by `JSON.parse` finds in a data file. */
  datatype JsonFile<T> = Unreadable | Unparsable | Holds(items: seq<T>)

  /** The list a read yields: any read or parse failure yields the empty list. */
  function Loaded<T>(f: JsonFile<T>): seq<T> {
    if f.Holds? then f.items else []
  }
}
