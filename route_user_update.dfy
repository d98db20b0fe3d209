/** `PUT /api/user/update`: a signed-in user edits seven profile fields, in the
    MongoDB-driver store. */
module UserUpdateRoute {
  import opened Wrappers
  import opened Seqs
  import opened Environment
  import opened UserRecords
  import opened Auth
  import opened Http

  /** The seven keys the route reads from its JSON body; `None` for an absent
      key. `passoutPercentage` is the value's text. */
  datatype ProfileBody = ProfileBody(
    name: Option<string>, emailId: Option<string>, mobileNo: Option<string>, state: Option<string>,
    collegeName: Option<string>, experience: Option<string>, passoutPercentage: Option<string>)

  const AllFieldsRequired := HttpError(400, "All fields are required")
  const EmailTaken := HttpError(400, "Email already registered")
  const MobileTaken := HttpError(400, "Mobile number already registered")
  const UserNotFound := HttpError(404, "User not found")

  predicate Given(o: Option<string>) { o.Some? && o.value != "" }

  /** Every required key is truthy, except the percentage, which only has to be present. */
  predicate Complete(b: ProfileBody) {
    Given(b.name) && Given(b.emailId) && Given(b.mobileNo) && Given(b.state)
    && Given(b.collegeName) && Given(b.experience) && b.passoutPercentage.Some?
  }

  /** `existing && existing.id !== decoded.id`: the record found belongs to someone else. */
  predicate OtherOwner(existing: Option<UserData>, subject: Option<string>) {
    existing.Some? && Some(existing.value.id) != subject
  }

  /** The update object: exactly the seven fields, the percentage parsed. */
  function ProfilePatch(b: ProfileBody, parseFloat: string -> real): (p: UserPatch)
    requires Complete(b)
    ensures p.id.None? && p.registrationNumber.None? && p.title.None? && p.photoUrl.None?
    ensures p.qrCodeUrl.None? && p.createdAt.None? && p.updatedAt.None?
    ensures p.fatherHusbandName.None? && p.dateOfBirth.None? && p.address.None? && p.courseName.None?
  {
    EmptyPatch.(name := b.name, emailId := b.emailId, mobileNo := b.mobileNo, state := b.state,
                collegeName := b.collegeName, experience := b.experience,
                passoutPercentage := Some(parseFloat(b.passoutPercentage.value)))
  }

  /** `findUser` of the MongoDB-driver store; `None` when it cannot connect. */
  function Lookup(users: seq<UserData>, reachable: bool, identifier: string): Option<UserData> {
    if reachable then Find(users, MatchesIdentifier(identifier)) else None
  }

  /** The decision and the stored users after it. `body` is `None` when it is
      not JSON; `reachable` is whether the store can connect; `now` is the
      update's timestamp. */
  function UpdateProfile(env: Env, jwt: Jwt, header: Option<string>, body: Option<ProfileBody>,
                         users: seq<UserData>, reachable: bool, now: string, parseFloat: string -> real)
    : (r: (Result<UserData, HttpError>, seq<UserData>))
    ensures r.0.Err? ==> r.1 == users
    ensures BearerToken(header).None? ==> r.0 == Err(TokenRequired)
    ensures BearerToken(header).Some? && VerifyToken(env, jwt, BearerToken(header).value).None? ==>
              r.0 == Err(InvalidToken)
  {
    match BearerToken(header)
    case None => (Err(TokenRequired), users)
    case Some(token) =>
      match VerifyToken(env, jwt, token)
      case None => (Err(InvalidToken), users)
      case Some(decoded) =>
        if body.None? then (Err(InternalError), users)
        else if !Complete(body.value) then (Err(AllFieldsRequired), users)
        else
          var b := body.value;
          if OtherOwner(Lookup(users, reachable, b.emailId.value), decoded.id) then (Err(EmailTaken), users)
          else if OtherOwner(Lookup(users, reachable, b.mobileNo.value), decoded.id) then (Err(MobileTaken), users)
          else if !reachable || decoded.id.None? then (Err(UserNotFound), users)
          else
            var (updated, users') := UpdateUsers(users, decoded.id.value, ProfilePatch(b, parseFloat), now);
            if updated.None? then (Err(UserNotFound), users) else (Ok(updated.value), users')
  }

  /** The refusals after the token: a body that is not JSON is a 500, a
      missing field a 400; a mobile number owned by someone else is a 400 once
      the email is free; and with neither taken, an unreachable store, a token
      without an id or an id no record has is a 404. None of them writes. */
  lemma ProfileRefusals(env: Env, jwt: Jwt, header: Option<string>, body: Option<ProfileBody>,
                        users: seq<UserData>, reachable: bool, now: string, parseFloat: string -> real)
    requires BearerToken(header).Some? && VerifyToken(env, jwt, BearerToken(header).value).Some?
    ensures var subject := VerifyToken(env, jwt, BearerToken(header).value).value.id;
            var r := UpdateProfile(env, jwt, header, body, users, reachable, now, parseFloat);
            (body.None? ==> r == (Err(InternalError), users))
            && (body.Some? && !Complete(body.value) ==> r == (Err(AllFieldsRequired), users))
            && (body.Some? && Complete(body.value)
                && !OtherOwner(Lookup(users, reachable, body.value.emailId.value), subject)
                && OtherOwner(Lookup(users, reachable, body.value.mobileNo.value), subject)
                ==> r == (Err(MobileTaken), users))
            && (body.Some? && Complete(body.value)
                && !OtherOwner(Lookup(users, reachable, body.value.emailId.value), subject)
                && !OtherOwner(Lookup(users, reachable, body.value.mobileNo.value), subject)
                && (!reachable || subject.None? || forall k :: 0 <= k < |users| ==> users[k].id != subject.value)
                ==> r == (Err(UserNotFound), users))
  {
  }

  /** The email check comes first: when both values belong to other users the
      answer is about the email. */
  lemma EmailCheckFirst(env: Env, jwt: Jwt, header: Option<string>, b: ProfileBody,
                        users: seq<UserData>, now: string, parseFloat: string -> real)
    requires BearerToken(header).Some? && VerifyToken(env, jwt, BearerToken(header).value).Some?
    requires Complete(b)
    requires OtherOwner(Lookup(users, true, b.emailId.value), VerifyToken(env, jwt, BearerToken(header).value).value.id)
    ensures UpdateProfile(env, jwt, header, Some(b), users, true, now, parseFloat) == (Err(EmailTaken), users)
  {
  }

  /** The caller's own record is never a conflict: when every record the
      email and the mobile number find is the caller's, the update goes ahead. */
  lemma OwnRecordIsNoConflict(env: Env, jwt: Jwt, header: Option<string>, b: ProfileBody,
                              users: seq<UserData>, now: string, parseFloat: string -> real)
    requires BearerToken(header).Some? && VerifyToken(env, jwt, BearerToken(header).value).Some?
    requires Complete(b)
    requires var subject := VerifyToken(env, jwt, BearerToken(header).value).value.id;
             subject.Some?
             && (forall k :: 0 <= k < |users| && (users[k].emailId == b.emailId.value || users[k].mobileNo == b.emailId.value)
                   ==> users[k].id == subject.value)
             && (forall k :: 0 <= k < |users| && (users[k].emailId == b.mobileNo.value || users[k].mobileNo == b.mobileNo.value)
                   ==> users[k].id == subject.value)
    ensures var r := UpdateProfile(env, jwt, header, Some(b), users, true, now, parseFloat).0;
            r != Err(EmailTaken) && r != Err(MobileTaken)
  {
    var subject := VerifyToken(env, jwt, BearerToken(header).value).value.id;
    var e := Find(users, MatchesIdentifier(b.emailId.value));
    if e.Some? {
      var i :| 0 <= i < |users| && users[i] == e.value && MatchesIdentifier(b.emailId.value)(users[i])
               && forall j :: 0 <= j < i ==> !MatchesIdentifier(b.emailId.value)(users[j]);
    }
    var m := Find(users, MatchesIdentifier(b.mobileNo.value));
    if m.Some? {
      var i :| 0 <= i < |users| && users[i] == m.value && MatchesIdentifier(b.mobileNo.value)(users[i])
               && forall j :: 0 <= j < i ==> !MatchesIdentifier(b.mobileNo.value)(users[j]);
    }
  }

  /** A successful update touches only the caller's record, and in it only the
      seven profile fields and `updatedAt`: the registration number, title,
      photo, id and creation time stay as they were. */
  lemma OnlyProfileFieldsChange(env: Env, jwt: Jwt, header: Option<string>, b: ProfileBody,
                                users: seq<UserData>, reachable: bool, now: string, parseFloat: string -> real)
    requires UpdateProfile(env, jwt, header, Some(b), users, reachable, now, parseFloat).0.Ok?
    ensures var (r, users') := UpdateProfile(env, jwt, header, Some(b), users, reachable, now, parseFloat);
            exists i :: 0 <= i < |users| && users' == users[i := r.value]
              && Some(users[i].id) == VerifyToken(env, jwt, BearerToken(header).value).value.id
              && r.value == users[i].(name := b.name.value, emailId := b.emailId.value,
                                      mobileNo := b.mobileNo.value, state := b.state.value,
                                      collegeName := b.collegeName.value, experience := b.experience.value,
                                      passoutPercentage := parseFloat(b.passoutPercentage.value),
                                      updatedAt := now)
  {
    var decoded := VerifyToken(env, jwt, BearerToken(header).value).value;
    var p := ProfilePatch(b, parseFloat);
    var (updated, users') := UpdateUsers(users, decoded.id.value, p, now);
    var i :| 0 <= i < |users| && users[i].id == decoded.id.value
             && (forall j :: 0 <= j < i ==> users[j].id != decoded.id.value)
             && updated.value == Updated(users[i], p, now)
             && users' == users[i := updated.value];
  }
}
