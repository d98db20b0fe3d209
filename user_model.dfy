/** The Mongoose `User` model: what construction does to the given values
    (setters and defaults), the schema validators, the two `pre("save")` hooks,
    `comparePassword`, and the unique indexes enforced when a document is stored. */
module UserModel {
  import opened Wrappers
  import opened Strings
  import opened Seqs
  import opened Patterns
  import opened Identifiers

  const Titles := ["Mr", "Ms"]
  const Roles := ["user", "admin"]
  const DefaultRole := "user"

  /** The values handed to `new User({...})`; `None` for a key that is absent
      or null. Every schema path is text except `isRestricted`. */
  datatype UserFields = UserFields(
    title: Option<string>,
    name: Option<string>,
    fatherHusbandName: Option<string>,
    mobileNo: Option<string>,
    emailId: Option<string>,
    dateOfBirth: Option<string>,
    passoutPercentage: Option<string>,
    state: Option<string>,
    address: Option<string>,
    courseName: Option<string>,
    experience: Option<string>,
    collegeName: Option<string>,
    photoUrl: Option<string>,
    qrCodeUrl: Option<string>,
    registrationNumber: Option<string>,
    role: Option<string>,
    isRestricted: Option<bool>,
    hashedPassword: Option<string>
  )

  /** A document. `passwordModified` is `isModified("hashedPassword")`;
      `isNew` tells an insert from an update. */
  datatype UserDoc = UserDoc(
    objectId: string,
    title: Option<string>,
    name: Option<string>,
    fatherHusbandName: Option<string>,
    mobileNo: Option<string>,
    emailId: Option<string>,
    dateOfBirth: Option<string>,
    passoutPercentage: Option<string>,
    state: Option<string>,
    address: Option<string>,
    courseName: Option<string>,
    experience: Option<string>,
    collegeName: Option<string>,
    photoUrl: Option<string>,
    qrCodeUrl: string,
    registrationNumber: Option<string>,
    role: string,
    isRestricted: bool,
    hashedPassword: Option<string>,
    passwordModified: bool,
    isNew: bool,
    createdAt: Option<string>,
    updatedAt: Option<string>
  )

  function MapOption(o: Option<string>, f: string -> string): (r: Option<string>)
    ensures r.Some? <==> o.Some?
    ensures r.Some? ==> r.value == f(o.value)
  {
    match o
    case None => None
    case Some(s) => Some(f(s))
  }

  /** `new User(fields)`: the `trim` and `lowercase` setters run on the given
      values, the defaults fill `qrCodeUrl`, `role` and `isRestricted`, and a
      given password counts as modified. */
  function NewDoc(fields: UserFields, objectId: string): (d: UserDoc)
    ensures d.objectId == objectId
    ensures d.name == MapOption(fields.name, Trim) && d.state == MapOption(fields.state, Trim)
    ensures d.fatherHusbandName == MapOption(fields.fatherHusbandName, Trim)
    ensures d.address == MapOption(fields.address, Trim)
    ensures d.courseName == MapOption(fields.courseName, Trim)
    ensures d.experience == MapOption(fields.experience, Trim)
    ensures d.collegeName == MapOption(fields.collegeName, Trim)
    ensures d.emailId == MapOption(fields.emailId, ToLower)
    ensures d.title == fields.title && d.dateOfBirth == fields.dateOfBirth
    ensures d.passoutPercentage == fields.passoutPercentage && d.photoUrl == fields.photoUrl
    ensures d.mobileNo == fields.mobileNo && d.registrationNumber == fields.registrationNumber
    ensures d.hashedPassword == fields.hashedPassword
    ensures fields.role.Some? ==> d.role == fields.role.value
    ensures fields.role.None? ==> d.role == DefaultRole
    ensures fields.isRestricted.Some? ==> d.isRestricted == fields.isRestricted.value
    ensures fields.isRestricted.None? ==> !d.isRestricted
    ensures fields.qrCodeUrl.Some? ==> d.qrCodeUrl == fields.qrCodeUrl.value
    ensures fields.qrCodeUrl.None? ==> d.qrCodeUrl == ""
    ensures d.passwordModified <==> fields.hashedPassword.Some?
    ensures d.isNew && d.createdAt.None? && d.updatedAt.None?
  {
    UserDoc(
      objectId, fields.title, MapOption(fields.name, Trim), MapOption(fields.fatherHusbandName, Trim),
      fields.mobileNo, MapOption(fields.emailId, ToLower), fields.dateOfBirth, fields.passoutPercentage,
      MapOption(fields.state, Trim), MapOption(fields.address, Trim), MapOption(fields.courseName, Trim),
      MapOption(fields.experience, Trim), MapOption(fields.collegeName, Trim), fields.photoUrl,
      fields.qrCodeUrl.GetOr(""), fields.registrationNumber, fields.role.GetOr(DefaultRole),
      fields.isRestricted.GetOr(false), fields.hashedPassword, fields.hashedPassword.Some?,
      true, None, None)
  }

  // ---------------------------------------------------------------------------
  // Validation
  // ---------------------------------------------------------------------------

  /** `required: true` on a text path: present and not the empty string. */
  predicate Present(o: Option<string>) { o.Some? && o.value != "" }

  /** An `enum` validator: an absent value passes (only `required` rejects it). */
  predicate InEnum(o: Option<string>, values: seq<string>) { o.None? || o.value in values }

  /** A `match` validator: absent and empty values pass. */
  predicate MatchesWhenSet(o: Option<string>, pattern: string -> bool) {
    o.None? || o.value == "" || pattern(o.value)
  }

  /** Every validator of the schema holds. */
  predicate SchemaValid(d: UserDoc) {
    Present(d.title) && InEnum(d.title, Titles)
    && Present(d.name) && Present(d.fatherHusbandName)
    && Present(d.mobileNo) && MatchesWhenSet(d.mobileNo, IsTenDigitMobile)
    && Present(d.emailId) && MatchesWhenSet(d.emailId, MatchesEmailPattern)
    && Present(d.dateOfBirth) && Present(d.passoutPercentage)
    && Present(d.state) && Present(d.address) && Present(d.courseName)
    && Present(d.experience) && Present(d.collegeName) && Present(d.photoUrl)
    && Present(d.registrationNumber) && d.role in Roles && Present(d.hashedPassword)
  }

  /** A valid document has a ten-digit mobile number, a lower-case address
      matching the email pattern, a title and a role from their enums. */
  lemma ValidDocFields(d: UserDoc)
    requires SchemaValid(d)
    ensures IsTenDigitMobile(d.mobileNo.value)
    ensures MatchesEmailPattern(d.emailId.value)
    ensures d.title.value == "Mr" || d.title.value == "Ms"
    ensures d.role == "user" || d.role == "admin"
  {
  }

  /** A field the form accepts as text but that holds only whitespace is
      trimmed away by the setter and then rejected as missing. */
  lemma BlankNameRejected(fields: UserFields, objectId: string)
    requires fields.name.Some? && AllSpace(fields.name.value)
    ensures !SchemaValid(NewDoc(fields, objectId))
  {
  }

  // ---------------------------------------------------------------------------
  // Hooks
  // ---------------------------------------------------------------------------

  /** bcrypt: `hash(password, salt)` (which may fail) and `compare(candidate, hash)`. */
  datatype Bcrypt = Bcrypt(hash: (string, string) -> Option<string>, compare: (string, string) -> bool)

  datatype SaveError = ValidationFailed | HashFailed | DuplicateKey | DocumentNotFound

  /** The first `pre("save")` hook: hash the password only when it was modified. */
  function HashPasswordHook(d: UserDoc, bcrypt: Bcrypt, salt: string): (r: Result<UserDoc, SaveError>)
    requires d.hashedPassword.Some?
    ensures !d.passwordModified ==> r == Ok(d)
    ensures d.passwordModified && bcrypt.hash(d.hashedPassword.value, salt).None? ==> r == Err(HashFailed)
    ensures d.passwordModified && bcrypt.hash(d.hashedPassword.value, salt).Some? ==>
              r == Ok(d.(hashedPassword := bcrypt.hash(d.hashedPassword.value, salt)))
  {
    if !d.passwordModified then Ok(d)
    else match bcrypt.hash(d.hashedPassword.value, salt)
      case None => Err(HashFailed)
      case Some(h) => Ok(d.(hashedPassword := Some(h)))
  }

  /** `Math.floor(10000 + Math.random() * 90000)` lies in `[10000, 99999]`. */
  predicate ValidHookDraw(n: nat) { 10000 <= n <= 99999 }

  /** The second `pre("save")` hook: fill in a registration number only when
      there is none; an existing one is never replaced. */
  function RegistrationNumberHook(d: UserDoc, year: nat, n: nat): (r: UserDoc)
    requires ValidHookDraw(n)
    ensures Present(d.registrationNumber) ==> r == d
    ensures !Present(d.registrationNumber) ==>
              r == d.(registrationNumber := Some(RegistrationNumber(year, n)))
    ensures Present(r.registrationNumber) && IsRegistrationNumber(r.registrationNumber.value) <==>
            !Present(d.registrationNumber) || IsRegistrationNumber(d.registrationNumber.value)
  {
    if Present(d.registrationNumber) then d
    else d.(registrationNumber := Some(RegistrationNumber(year, n)))
  }

  // ---------------------------------------------------------------------------
  // Storage and unique indexes
  // ---------------------------------------------------------------------------

  /** Two documents share a value on one of the unique paths. */
  predicate Collides(a: UserDoc, b: UserDoc) {
    a.mobileNo == b.mobileNo || a.emailId == b.emailId || a.registrationNumber == b.registrationNumber
  }

  /** The unique indexes hold, and no two documents share an `_id`. */
  predicate UniqueKeys(docs: seq<UserDoc>) {
    forall i, j | 0 <= i < j < |docs| ::
      docs[i].objectId != docs[j].objectId && !Collides(docs[i], docs[j])
  }

  /** Writing a document that passed its hooks: an insert for a new document,
      otherwise a replacement of the stored one with the same `_id` (an error
      when it is gone); refused with a duplicate-key error when another document holds the same mobile
      number, email or registration number. */
  function Store(docs: seq<UserDoc>, d: UserDoc, now: string): (r: Result<(UserDoc, seq<UserDoc>), SaveError>)
    ensures r.Ok? ==> r.value.0.updatedAt == Some(now) && !r.value.0.isNew && !r.value.0.passwordModified
    ensures r.Ok? && d.isNew ==> r.value.1 == docs + [r.value.0]
    ensures r.Ok? && !d.isNew ==> |r.value.1| == |docs|
    ensures r.Err? ==> r.error == DuplicateKey || (r.error == DocumentNotFound && !d.isNew)
  {
    if exists k | 0 <= k < |docs| :: docs[k].objectId != d.objectId && Collides(docs[k], d) then Err(DuplicateKey)
    else if d.isNew then
      if exists k | 0 <= k < |docs| :: docs[k].objectId == d.objectId then Err(DuplicateKey)
      else
        var stored := d.(createdAt := Some(now), updatedAt := Some(now), isNew := false, passwordModified := false);
        Ok((stored, docs + [stored]))
    else if forall k | 0 <= k < |docs| :: docs[k].objectId != d.objectId then Err(DocumentNotFound)
    else
      var stored := d.(updatedAt := Some(now), passwordModified := false);
      Ok((stored, ReplaceWhere(docs, (o: UserDoc) => o.objectId == d.objectId, stored)))
  }

  /** Storing keeps the unique indexes. */
  lemma StoreKeepsUniqueKeys(docs: seq<UserDoc>, d: UserDoc, now: string)
    requires UniqueKeys(docs)
    requires Store(docs, d, now).Ok?
    ensures UniqueKeys(Store(docs, d, now).value.1)
  {
    var (stored, docs') := Store(docs, d, now).value;
    assert forall k :: 0 <= k < |docs| && docs[k].objectId != d.objectId ==> !Collides(docs[k], d);
    if d.isNew {
      assert forall k :: 0 <= k < |docs| ==> docs[k].objectId != d.objectId;
      forall i, j | 0 <= i < j < |docs'|
        ensures docs'[i].objectId != docs'[j].objectId && !Collides(docs'[i], docs'[j])
      {
        if j == |docs| {
          assert docs'[j] == stored && docs'[i] == docs[i];
        } else {
          assert docs'[i] == docs[i] && docs'[j] == docs[j];
        }
      }
    } else {
      var p := (o: UserDoc) => o.objectId == d.objectId;
      assert docs' == ReplaceWhere(docs, p, stored);
      forall i, j | 0 <= i < j < |docs'|
        ensures docs'[i].objectId != docs'[j].objectId && !Collides(docs'[i], docs'[j])
      {
        if p(docs[i]) && p(docs[j]) {
          assert false;
        } else if p(docs[i]) {
          assert docs'[i] == stored && docs'[j] == docs[j];
        } else if p(docs[j]) {
          assert docs'[j] == stored && docs'[i] == docs[i];
        } else {
          assert docs'[i] == docs[i] && docs'[j] == docs[j];
        }
      }
    }
  }

  /** `document.save()` as Mongoose runs it: validation first, then the
      `pre("save")` hooks in the order they were registered, then the write. */
  function Save(docs: seq<UserDoc>, d: UserDoc, bcrypt: Bcrypt, salt: string, year: nat, n: nat, now: string)
    : (r: Result<(UserDoc, seq<UserDoc>), SaveError>)
    requires ValidHookDraw(n)
    ensures !SchemaValid(d) ==> r == Err(ValidationFailed)
    ensures r.Ok? ==> SchemaValid(d) && r.value.0.registrationNumber == d.registrationNumber
  {
    if !SchemaValid(d) then Err(ValidationFailed)
    else match HashPasswordHook(d, bcrypt, salt)
      case Err(e) => Err(e)
      case Ok(hashed) => Store(docs, RegistrationNumberHook(hashed, year, n), now)
  }

  /** A document without a registration number can never be saved: the
      required validator rejects it before the hook that would fill it in runs. */
  lemma RegistrationHookNeverFires(docs: seq<UserDoc>, d: UserDoc, bcrypt: Bcrypt, salt: string,
                                   year: nat, n: nat, now: string)
    requires ValidHookDraw(n)
    requires !Present(d.registrationNumber)
    ensures Save(docs, d, bcrypt, salt, year, n, now) == Err(ValidationFailed)
  {
  }

  /** The evidently intended order: the registration number is filled in before
      validation (a `pre("validate")` hook), so a document lacking only that
      number is saved with a generated one. */
  function SaveNumbered(docs: seq<UserDoc>, d: UserDoc, bcrypt: Bcrypt, salt: string, year: nat, n: nat, now: string)
    : (r: Result<(UserDoc, seq<UserDoc>), SaveError>)
    requires ValidHookDraw(n)
    ensures !SchemaValid(RegistrationNumberHook(d, year, n)) ==> r == Err(ValidationFailed)
    ensures r.Ok? ==> Present(r.value.0.registrationNumber)
  {
    var numbered := RegistrationNumberHook(d, year, n);
    if !SchemaValid(numbered) then Err(ValidationFailed)
    else match HashPasswordHook(numbered, bcrypt, salt)
      case Err(e) => Err(e)
      case Ok(hashed) => Store(docs, hashed, now)
  }

  /** With the intended order, a document that is valid once numbered, whose
      password hashes and which collides with nothing, is stored with a
      well-formed registration number drawn from the hook. */
  lemma SaveNumberedFillsNumber(docs: seq<UserDoc>, d: UserDoc, bcrypt: Bcrypt, salt: string,
                                year: nat, n: nat, now: string)
    requires ValidHookDraw(n)
    requires !Present(d.registrationNumber)
    requires SchemaValid(RegistrationNumberHook(d, year, n))
    requires !d.passwordModified || bcrypt.hash(d.hashedPassword.value, salt).Some?
    requires Store(docs, HashPasswordHook(RegistrationNumberHook(d, year, n), bcrypt, salt).value, now).Ok?
    ensures SaveNumbered(docs, d, bcrypt, salt, year, n, now).Ok?
    ensures var stored := SaveNumbered(docs, d, bcrypt, salt, year, n, now).value.0;
            ParseRegistrationNumber(stored.registrationNumber.value) == Some((year, n))
  {
    var numbered := RegistrationNumberHook(d, year, n);
    assert numbered.registrationNumber == Some(RegistrationNumber(year, n));
  }

  /** Whenever a registration number is already present the two orders agree,
      so every save the register route makes behaves the same under both. */
  lemma SavesAgreeWhenNumbered(docs: seq<UserDoc>, d: UserDoc, bcrypt: Bcrypt, salt: string,
                               year: nat, n: nat, now: string)
    requires ValidHookDraw(n)
    requires Present(d.registrationNumber)
    ensures SaveNumbered(docs, d, bcrypt, salt, year, n, now) == Save(docs, d, bcrypt, salt, year, n, now)
  {
    if SchemaValid(d) {
      match HashPasswordHook(d, bcrypt, salt)
      case Err(e) =>
      case Ok(hashed) =>
        assert hashed.registrationNumber == d.registrationNumber;
    }
  }

  /** A new numbered document with a fresh password that saves is appended as
      it was, except that its password is now the hash. */
  lemma SaveNumberedNew(docs: seq<UserDoc>, d: UserDoc, bcrypt: Bcrypt, salt: string,
                        year: nat, n: nat, now: string)
    requires ValidHookDraw(n)
    requires d.isNew && d.passwordModified && Present(d.registrationNumber)
    requires SaveNumbered(docs, d, bcrypt, salt, year, n, now).Ok?
    ensures var (saved, docs') := SaveNumbered(docs, d, bcrypt, salt, year, n, now).value;
            docs' == docs + [saved]
            && saved.objectId == d.objectId && saved.name == d.name
            && saved.registrationNumber == d.registrationNumber
            && saved.hashedPassword == bcrypt.hash(d.hashedPassword.value, salt)
  {
    assert RegistrationNumberHook(d, year, n) == d;
  }

  /** Re-saving a stored document whose password was not touched keeps the
      stored hash as it is. */
  lemma ResaveKeepsHash(docs: seq<UserDoc>, d: UserDoc, bcrypt: Bcrypt, salt: string,
                        year: nat, n: nat, now: string)
    requires ValidHookDraw(n)
    requires !d.passwordModified && !d.isNew
    requires SaveNumbered(docs, d, bcrypt, salt, year, n, now).Ok?
    ensures SaveNumbered(docs, d, bcrypt, salt, year, n, now).value.0.hashedPassword == d.hashedPassword
  {
    var numbered := RegistrationNumberHook(d, year, n);
    assert numbered.hashedPassword == d.hashedPassword && !numbered.passwordModified && !numbered.isNew;
    assert HashPasswordHook(numbered, bcrypt, salt) == Ok(numbered);
    assert SaveNumbered(docs, d, bcrypt, salt, year, n, now) == Store(docs, numbered, now);
  }

  /** A new document's password is stored only as its hash. */
  lemma NewPasswordStoredHashed(docs: seq<UserDoc>, d: UserDoc, bcrypt: Bcrypt, salt: string,
                                year: nat, n: nat, now: string)
    requires ValidHookDraw(n)
    requires d.passwordModified
    requires SaveNumbered(docs, d, bcrypt, salt, year, n, now).Ok?
    ensures var numbered := RegistrationNumberHook(d, year, n);
            SaveNumbered(docs, d, bcrypt, salt, year, n, now).value.0.hashedPassword
              == bcrypt.hash(numbered.hashedPassword.value, salt)
  {
  }

  // ---------------------------------------------------------------------------
  // Passwords and lookups
  // ---------------------------------------------------------------------------

  /** `comparePassword`: bcrypt's verdict on the candidate against the stored
      hash; `None` where bcrypt throws because no hash is stored. */
  function ComparePassword(d: UserDoc, candidate: string, bcrypt: Bcrypt): (r: Option<bool>)
    ensures d.hashedPassword.None? <==> r.None?
    ensures r.Some? ==> r.value == bcrypt.compare(candidate, d.hashedPassword.value)
  {
    if d.hashedPassword.None? then None else Some(bcrypt.compare(candidate, d.hashedPassword.value))
  }

  /** With a bcrypt whose `compare` accepts exactly the password a hash was
      made from, a saved document accepts its original password and nothing else. */
  lemma SavedPasswordAccepted(d: UserDoc, saved: UserDoc, password: string, candidate: string,
                              bcrypt: Bcrypt, salt: string)
    requires d.hashedPassword == Some(password) && d.passwordModified
    requires bcrypt.hash(password, salt).Some?
    requires saved.hashedPassword == bcrypt.hash(password, salt)
    requires forall c :: bcrypt.compare(c, bcrypt.hash(password, salt).value) <==> c == password
    ensures ComparePassword(saved, candidate, bcrypt) == Some(candidate == password)
  {
  }

  /** `findOne({ $or: [{ a: x }, { b: y }] })`: the first document in natural
      order meeting the filter. */
  function FindOne(docs: seq<UserDoc>, filter: UserDoc -> bool): (r: Option<UserDoc>)
    ensures r.Some? ==> r.value in docs && filter(r.value)
    ensures r.None? <==> forall k :: 0 <= k < |docs| ==> !filter(docs[k])
  {
    Find(docs, filter)
  }

  /** `findById(id)`. */
  function FindById(docs: seq<UserDoc>, id: string): (r: Option<UserDoc>)
    ensures r.Some? ==> r.value in docs && r.value.objectId == id
    ensures r.None? <==> forall k :: 0 <= k < |docs| ==> docs[k].objectId != id
  {
    Find(docs, (o: UserDoc) => o.objectId == id)
  }

  /** In a collection that keeps its `_id`s unique, `findById` returns the one
      document with that id wherever it sits. */
  lemma FindByIdUnique(docs: seq<UserDoc>, k: nat)
    requires UniqueKeys(docs) && k < |docs|
    ensures FindById(docs, docs[k].objectId) == Some(docs[k])
  {
    var r := FindById(docs, docs[k].objectId);
    assert r.Some?;
    var i :| 0 <= i < |docs| && docs[i] == r.value && docs[i].objectId == docs[k].objectId;
    assert i == k;
  }

  /** The Mongoose collection behind the `User` model. */
  class UserCollection {
    var docs: seq<UserDoc>

    constructor (docs: seq<UserDoc>)
      ensures this.docs == docs
    {
      this.docs := docs;
    }

    /** `document.save()`, with the registration number filled in first. */
    method Save(d: UserDoc, bcrypt: Bcrypt, salt: string, year: nat, n: nat, now: string)
      returns (r: Result<UserDoc, SaveError>)
      requires ValidHookDraw(n)
      modifies this
      ensures var outcome := SaveNumbered(old(docs), d, bcrypt, salt, year, n, now);
              (outcome.Ok? ==> r == Ok(outcome.value.0) && docs == outcome.value.1)
              && (outcome.Err? ==> r == Err(outcome.error) && docs == old(docs))
      ensures UniqueKeys(old(docs)) ==> UniqueKeys(docs)
    {
      var outcome := SaveNumbered(docs, d, bcrypt, salt, year, n, now);
      if outcome.Err? {
        return Err(outcome.error);
      }
      var numbered := RegistrationNumberHook(d, year, n);
      var hashed := HashPasswordHook(numbered, bcrypt, salt).value;
      if UniqueKeys(docs) {
        StoreKeepsUniqueKeys(docs, hashed, now);
      }
      docs := outcome.value.1;
      r := Ok(outcome.value.0);
    }
  }
}
