/** `POST /api/certificate/generate`: mints a certificate for the signed-in
    user, with a QR payload that snapshots the user's record. */
module CertificateGenerateRoute {
  import opened Wrappers
  import opened Strings
  import opened Seqs
  import opened Environment
  import opened Identifiers
  import opened UrlUtils
  import opened Auth
  import opened Http
  import opened UserModel
  import opened CertificateStorage

  const UserNotFound := HttpError(404, "User not found")

  /** What the route draws from outside: `Date.now()`, the text of
      `Math.random().toString(36)`, the `en-GB` issue date, the creation time,
      and the QR encoder applied to the payload's JSON (`None` when it throws). */
  datatype Mint = Mint(millis: nat, randomText: string, issueDate: string, createdAt: string,
                       qrEncode: QrData -> Option<string>)

  datatype Minted = Minted(certificateId: string, data: StoredCertificate)

  /** A template literal shows an absent value as `undefined`. */
  function Shown(o: Option<string>): (r: string)
    ensures o.Some? ==> r == o.value
  {
    match o
    case Some(s) => s
    case None => "undefined"
  }

  /** The payload: every user field except the password, the name prefixed by
      the title, the issue date and the certificate URL. */
  function QrPayload(env: Env, user: UserDoc, certificateId: string, issueDate: string): (q: QrData)
    requires user.passoutPercentage.Some?
    ensures q.certificateId == certificateId && q.verificationUrl == GetCertificateUrl(env, certificateId)
    ensures q.name == Shown(user.title) + ". " + Shown(user.name)
    ensures q.passoutPercentage == user.passoutPercentage.value && q.issueDate == issueDate
  {
    QrData(
      certificateId := certificateId,
      name := Shown(user.title) + ". " + Shown(user.name),
      fatherHusbandName := user.fatherHusbandName.GetOr(""),
      registrationNumber := user.registrationNumber.GetOr(""),
      mobileNo := user.mobileNo.GetOr(""),
      emailId := user.emailId.GetOr(""),
      dateOfBirth := user.dateOfBirth.GetOr(""),
      courseName := user.courseName.GetOr(""),
      collegeName := user.collegeName.GetOr(""),
      experience := user.experience.GetOr(""),
      passoutPercentage := user.passoutPercentage.value,
      state := user.state.GetOr(""),
      address := user.address.GetOr(""),
      issueDate := issueDate,
      verificationUrl := GetCertificateUrl(env, certificateId))
  }

  /** Some stored certificate already has this id (the unique index). */
  predicate Taken(certificates: seq<StoredCertificate>, certificateId: string) {
    exists k :: 0 <= k < |certificates| && certificates[k].certificateId == certificateId
  }

  /** The decision and the certificate collection after it. `docs` is the
      `User` collection; `dbUp` says whether `connectDB()` and the lookup
      succeed (when they throw, the route answers 500). */
  function GenerateCertificate(env: Env, jwt: Jwt, header: Option<string>, docs: seq<UserDoc>, dbUp: bool,
                               certificates: seq<StoredCertificate>, m: Mint)
    : (r: (Result<Minted, HttpError>, seq<StoredCertificate>))
    ensures r.0.Err? ==> r.1 == certificates
    ensures r.0.Ok? ==> r.1 == certificates + [r.0.value.data]
    ensures BearerToken(header).None? ==> r.0 == Err(TokenRequired)
    ensures BearerToken(header).Some? && VerifyToken(env, jwt, BearerToken(header).value).None? ==>
              r.0 == Err(InvalidToken)
    ensures BearerToken(header).Some? && VerifyToken(env, jwt, BearerToken(header).value).Some? && !dbUp ==>
              r == (Err(InternalError), certificates)
  {
    match BearerToken(header)
    case None => (Err(TokenRequired), certificates)
    case Some(token) =>
      match VerifyToken(env, jwt, token)
      case None => (Err(InvalidToken), certificates)
      case Some(decoded) =>
        if !dbUp then (Err(InternalError), certificates)
        else
          var user := if decoded.id.Some? then FindById(docs, decoded.id.value) else None;
          if user.None? then (Err(UserNotFound), certificates)
          else if user.value.passoutPercentage.None? then (Err(InternalError), certificates)
          else
            var certificateId := GenerateCertificateId(m.millis, m.randomText);
            var qrData := QrPayload(env, user.value, certificateId, m.issueDate);
            match m.qrEncode(qrData)
            case None => (Err(InternalError), certificates)
            case Some(qrCodeDataUrl) =>
              if Taken(certificates, certificateId) then (Err(InternalError), certificates)
              else
                var saved := StoredCertificate(certificateId, user.value.objectId, qrData, m.createdAt, qrCodeDataUrl);
                (Ok(Minted(certificateId, saved)), certificates + [saved])
  }

  /** A token whose subject is not a stored user gets 404, and nothing is saved. */
  lemma UnknownUserNotFound(env: Env, jwt: Jwt, header: Option<string>, docs: seq<UserDoc>, dbUp: bool,
                            certificates: seq<StoredCertificate>, m: Mint)
    requires BearerToken(header).Some? && VerifyToken(env, jwt, BearerToken(header).value).Some? && dbUp
    requires var subject := VerifyToken(env, jwt, BearerToken(header).value).value.id;
             subject.None? || forall k :: 0 <= k < |docs| ==> docs[k].objectId != subject.value
    ensures GenerateCertificate(env, jwt, header, docs, dbUp, certificates, m) == (Err(UserNotFound), certificates)
  {
  }

  /** A successful mint: the id has the `CERT_` form with the drawn timestamp,
      the returned id is the saved record's, the payload's URL names that id,
      and the record belongs to the token's user, whose fields the payload copies. */
  lemma MintedCertificate(env: Env, jwt: Jwt, header: Option<string>, docs: seq<UserDoc>, dbUp: bool,
                          certificates: seq<StoredCertificate>, m: Mint)
    requires GenerateCertificate(env, jwt, header, docs, dbUp, certificates, m).0.Ok?
    ensures var minted := GenerateCertificate(env, jwt, header, docs, dbUp, certificates, m).0.value;
            var subject := VerifyToken(env, jwt, BearerToken(header).value).value.id;
            && ParseStampedId(CertificateIdPrefix, minted.certificateId) == Some((m.millis, RandomSuffix(m.randomText)))
            && minted.data.certificateId == minted.certificateId
            && minted.data.qrData.certificateId == minted.certificateId
            && CertificateIdOf(env, minted.data.qrData.verificationUrl) == Some(minted.certificateId)
            && subject == Some(minted.data.userId)
            && exists user :: user in docs && user.objectId == minted.data.userId && user.passoutPercentage.Some?
                 && minted.data.qrData == QrPayload(env, user, minted.certificateId, m.issueDate)
  {
    var minted := GenerateCertificate(env, jwt, header, docs, dbUp, certificates, m).0.value;
    CertificateUrlRoundTrip(env, minted.certificateId);
  }

  /** For a user that passed schema validation, the payload copies each field
      exactly and the name is `<title>. <name>`. */
  lemma PayloadOfValidUser(env: Env, user: UserDoc, certificateId: string, issueDate: string)
    requires SchemaValid(user)
    ensures var q := QrPayload(env, user, certificateId, issueDate);
            && q.name == user.title.value + ". " + user.name.value
            && q.fatherHusbandName == user.fatherHusbandName.value
            && q.registrationNumber == user.registrationNumber.value
            && q.mobileNo == user.mobileNo.value && q.emailId == user.emailId.value
            && q.dateOfBirth == user.dateOfBirth.value && q.courseName == user.courseName.value
            && q.collegeName == user.collegeName.value && q.experience == user.experience.value
            && q.passoutPercentage == user.passoutPercentage.value
            && q.state == user.state.value && q.address == user.address.value
  {
  }

  /** The minted certificate is what a lookup by its id then finds. */
  lemma MintedIsFound(env: Env, jwt: Jwt, header: Option<string>, docs: seq<UserDoc>, dbUp: bool,
                      certificates: seq<StoredCertificate>, m: Mint)
    requires GenerateCertificate(env, jwt, header, docs, dbUp, certificates, m).0.Ok?
    ensures var (r, certificates') := GenerateCertificate(env, jwt, header, docs, dbUp, certificates, m);
            Find(certificates', HasCertificateId(r.value.certificateId)) == Some(r.value.data)
  {
    var (r, certificates') := GenerateCertificate(env, jwt, header, docs, dbUp, certificates, m);
    var p := HasCertificateId(r.value.certificateId);
    assert !Taken(certificates, r.value.certificateId);
    assert FindIndex(certificates, p).None?;
    FindAppend(certificates, [r.value.data], p);
    assert FindIndex([r.value.data], p) == Some(0);
  }
}
