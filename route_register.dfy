/** `POST /api/register`: multipart registration of a new user. */
module RegisterRoute {
  import opened Wrappers
  import opened Strings
  import opened Identifiers
  import opened Environment
  import opened Cloudinary
  import opened UserModel
  import opened Http

  /** The request body: parsed multipart entries (text fields and files by
      name), or a body that would not parse, in which case `bodyReadable` says
      whether the fallback read of the raw bytes succeeded. */
  datatype RegisterBody =
    | Multipart(text: map<string, string>, files: map<string, UploadFile>)
    | Unparsable(bodyReadable: bool)

  /** What the route reads from its surroundings: whether the database
      connection opens, the new document's `_id`, the current year, the value
      of `Math.floor(10000 + Math.random() * 90000)` (also given to the model's
      own hook, which never uses it here), the bcrypt salt and library, the
      clock, the Cloudinary upload, and `String(Number(x))` for the percentage. */
  datatype Surroundings = Surroundings(
    dbUp: bool,
    objectId: string,
    year: nat,
    draw: nat,
    salt: string,
    bcrypt: Bcrypt,
    now: string,
    upload: (string, seq<Byte>) -> UploadReply,
    numberText: Option<string> -> string
  )

  predicate ValidSurroundings(w: Surroundings) { ValidHookDraw(w.draw) }

  /** The success body's `user`. */
  datatype Registered = Registered(id: string, name: Option<string>, registrationNumber: Option<string>)

  const FormParseFailed := HttpError(400, "FormData parsing failed. Please try uploading smaller files or contact support.")
  const BodyReadFailed := HttpError(400, "Request body parsing failed completely")
  const MissingFields := HttpError(400, "Missing required fields")
  const InvalidPhoto := HttpError(400, "Please upload a valid photo file")
  const UserExists := HttpError(400, "User already exists")
  const RegistrationFailed := HttpError(500, "Registration failed. Please try again.")

  function Get(text: map<string, string>, key: string): Option<string> {
    if key in text then Some(text[key]) else None
  }

  /** JavaScript truthiness of a text value. */
  predicate Given(o: Option<string>) { o.Some? && o.value != "" }

  /** The fields given to `new User`: the form's text fields, the uploaded
      URLs, the generated registration number, and the mobile number as the
      password still to be hashed. */
  function NewUserFields(text: map<string, string>, photoUrl: string, qrCodeUrl: string,
                         registrationNumber: string, numberText: Option<string> -> string): UserFields {
    UserFields(
      Get(text, "title"), Get(text, "name"), Get(text, "fatherHusbandName"), Get(text, "mobileNo"),
      Get(text, "emailId"), Get(text, "dateOfBirth"), Some(numberText(Get(text, "passoutPercentage"))),
      Get(text, "state"), Get(text, "address"), Get(text, "courseName"), Get(text, "experience"),
      Get(text, "collegeName"), Some(photoUrl), Some(qrCodeUrl), Some(registrationNumber),
      None, None, Get(text, "mobileNo"))
  }

  /** `$or: [{ emailId }, { mobileNo }]` with the values as submitted; the
      query casts the email with its path's `lowercase` setter. */
  function SameEmailOrMobile(email: string, mobile: string): UserDoc -> bool {
    (d: UserDoc) => d.emailId == Some(ToLower(email)) || d.mobileNo == Some(mobile)
  }

  /** The QR image's URL: empty when no non-empty image was sent, and also
      when its upload fails. */
  function QrCodeUrl(env: Env, files: map<string, UploadFile>, upload: (string, seq<Byte>) -> UploadReply): string {
    if "qrCode" in files && files["qrCode"].size > 0 then
      match UploadOutcome(QrCodeImage, env, files["qrCode"], upload)
      case Ok(url) => url
      case Err(_) => ""
    else ""
  }

  /** The document `new User({...})` builds once the photo is hosted at `photoUrl`. */
  function CreatedDoc(text: map<string, string>, photoUrl: string, qrCodeUrl: string,
                      w: Surroundings): (d: UserDoc)
    requires ValidSurroundings(w)
    ensures d.isNew && d.objectId == w.objectId
    ensures d.registrationNumber == Some(RegistrationNumber(w.year, w.draw))
    ensures d.hashedPassword == Get(text, "mobileNo") && (d.passwordModified <==> "mobileNo" in text)
    ensures d.name == MapOption(Get(text, "name"), Trim)
  {
    var registrationNumber := RegistrationNumber(w.year, w.draw);
    NewDoc(NewUserFields(text, photoUrl, qrCodeUrl, registrationNumber, w.numberText), w.objectId)
  }

  /** The route's decision and the collection after it. */
  function RegisterOutcome(env: Env, body: RegisterBody, docs: seq<UserDoc>, w: Surroundings)
    : (r: (Result<Registered, HttpError>, seq<UserDoc>))
    requires ValidSurroundings(w)
    ensures r.0.Err? ==> r.0.error.status == 400 || r.0.error.status == 500
    ensures r.0.Err? ==> r.1 == docs
  {
    if !w.dbUp then (Err(RegistrationFailed), docs)
    else match body
      case Unparsable(readable) => (Err(if readable then FormParseFailed else BodyReadFailed), docs)
      case Multipart(text, files) =>
        var name, email, mobile := Get(text, "name"), Get(text, "emailId"), Get(text, "mobileNo");
        if !Given(name) || !Given(email) || !Given(mobile) || ("photo" !in files && !Given(Get(text, "photo")))
        then (Err(MissingFields), docs)
        else if "photo" !in files then (Err(RegistrationFailed), docs)
        else
          var photo := files["photo"];
          if photo.size == 0 || !StartsWith(photo.mimeType, ImageTypePrefix) then (Err(InvalidPhoto), docs)
          else if FindOne(docs, SameEmailOrMobile(email.value, mobile.value)).Some? then (Err(UserExists), docs)
          else CreateOutcome(env, text, photo, QrCodeUrl(env, files, w.upload), docs, w)
  }

  /** The registration once every check has passed: the photo upload, the
      document (with the QR image's URL `qrCodeUrl`), then `save`; any failure
      is a 500 and stores nothing. */
  function CreateOutcome(env: Env, text: map<string, string>, photo: UploadFile, qrCodeUrl: string,
                         docs: seq<UserDoc>, w: Surroundings)
    : (r: (Result<Registered, HttpError>, seq<UserDoc>))
    requires ValidSurroundings(w)
    ensures r.0.Err? ==> r.0 == Err(RegistrationFailed) && r.1 == docs
  {
    match UploadOutcome(ProfilePhoto, env, photo, w.upload)
    case Err(_) => (Err(RegistrationFailed), docs)
    case Ok(photoUrl) =>
      var doc := CreatedDoc(text, photoUrl, qrCodeUrl, w);
      match SaveNumbered(docs, doc, w.bcrypt, w.salt, w.year, w.draw, w.now)
      case Err(_) => (Err(RegistrationFailed), docs)
      case Ok((saved, docs')) =>
        (Ok(Registered(saved.objectId, saved.name, saved.registrationNumber)), docs')
  }

  /** The handler, step by step: the checks in their order, then `Create`. */
  method Register(env: Env, body: RegisterBody, users: UserCollection, w: Surroundings)
    returns (r: Result<Registered, HttpError>)
    requires ValidSurroundings(w)
    modifies users
    ensures (r, users.docs) == RegisterOutcome(env, body, old(users.docs), w)
  {
    if !w.dbUp {
      return Err(RegistrationFailed);
    }
    if body.Unparsable? {
      return Err(if body.bodyReadable then FormParseFailed else BodyReadFailed);
    }
    var text, files := body.text, body.files;
    var name, email, mobile := Get(text, "name"), Get(text, "emailId"), Get(text, "mobileNo");
    if !Given(name) || !Given(email) || !Given(mobile) || ("photo" !in files && !Given(Get(text, "photo"))) {
      return Err(MissingFields);
    }
    if "photo" !in files {
      // a text value under `photo`: reading `photo.type.startsWith` throws
      return Err(RegistrationFailed);
    }
    var photo := files["photo"];
    if photo.size == 0 || !StartsWith(photo.mimeType, ImageTypePrefix) {
      return Err(InvalidPhoto);
    }
    var existingUser := FindOne(users.docs, SameEmailOrMobile(email.value, mobile.value));
    if existingUser.Some? {
      return Err(UserExists);
    }

    r := Create(env, text, files, users, w);
  }

  /** The handler after its checks: the two uploads into the locals
      `photoUrl` and `qrCodeUrl`, then `save`. */
  method Create(env: Env, text: map<string, string>, files: map<string, UploadFile>,
                users: UserCollection, w: Surroundings)
    returns (r: Result<Registered, HttpError>)
    requires ValidSurroundings(w) && "photo" in files
    modifies users
    ensures (r, users.docs) == CreateOutcome(env, text, files["photo"], QrCodeUrl(env, files, w.upload),
                                             old(users.docs), w)
  {
    var photoUrl := "";
    var uploaded := UploadImage(ProfilePhoto, env, files["photo"], w.upload);
    if uploaded.Err? {
      return Err(RegistrationFailed);
    }
    photoUrl := uploaded.value;

    var qrCodeUrl := "";
    if "qrCode" in files && files["qrCode"].size > 0 {
      var qrUploaded := UploadImage(QrCodeImage, env, files["qrCode"], w.upload);
      if qrUploaded.Ok? {
        qrCodeUrl := qrUploaded.value;
      }
    }

    var registrationNumber := RegistrationNumber(w.year, w.draw);
    var newUser := NewDoc(NewUserFields(text, photoUrl, qrCodeUrl, registrationNumber, w.numberText), w.objectId);
    assert qrCodeUrl == QrCodeUrl(env, files, w.upload);
    assert newUser == CreatedDoc(text, photoUrl, qrCodeUrl, w);
    var saved := users.Save(newUser, w.bcrypt, w.salt, w.year, w.draw, w.now);
    if saved.Err? {
      return Err(RegistrationFailed);
    }
    r := Ok(Registered(saved.value.objectId, saved.value.name, saved.value.registrationNumber));
  }

  // ---------------------------------------------------------------------------
  // Properties of the decision
  // ---------------------------------------------------------------------------

  /** The required-field check comes before the photo check: without a name,
      email, mobile number or photo the answer is "Missing required fields"
      whatever the photo is. */
  lemma MissingFieldsFirst(env: Env, text: map<string, string>, files: map<string, UploadFile>,
                           docs: seq<UserDoc>, w: Surroundings)
    requires ValidSurroundings(w) && w.dbUp
    requires !Given(Get(text, "name")) || !Given(Get(text, "emailId")) || !Given(Get(text, "mobileNo"))
             || ("photo" !in files && !Given(Get(text, "photo")))
    ensures RegisterOutcome(env, Multipart(text, files), docs, w) == (Err(MissingFields), docs)
  {
  }

  /** A non-empty text value sent as `photo` instead of a file passes the
      truthiness check; the photo check then reads its missing `type`, which
      throws, and the answer is the 500. Nothing is stored. */
  lemma TextPhotoFails(env: Env, text: map<string, string>, files: map<string, UploadFile>,
                       docs: seq<UserDoc>, w: Surroundings)
    requires ValidSurroundings(w) && w.dbUp
    requires Given(Get(text, "name")) && Given(Get(text, "emailId")) && Given(Get(text, "mobileNo"))
    requires "photo" !in files && Given(Get(text, "photo"))
    ensures RegisterOutcome(env, Multipart(text, files), docs, w) == (Err(RegistrationFailed), docs)
  {
  }

  /** The document the route saves always carries its registration number,
      so saving it with the numbering hook before validation, as the model
      does, gives the same result as the as-written order. */
  lemma RouteSaveAgrees(text: map<string, string>, photoUrl: string, qrCodeUrl: string,
                        docs: seq<UserDoc>, w: Surroundings)
    requires ValidSurroundings(w)
    ensures Present(CreatedDoc(text, photoUrl, qrCodeUrl, w).registrationNumber)
    ensures SaveNumbered(docs, CreatedDoc(text, photoUrl, qrCodeUrl, w), w.bcrypt, w.salt, w.year, w.draw, w.now)
         == Save(docs, CreatedDoc(text, photoUrl, qrCodeUrl, w), w.bcrypt, w.salt, w.year, w.draw, w.now)
  {
    var d := CreatedDoc(text, photoUrl, qrCodeUrl, w);
    assert |d.registrationNumber.value| > 0;
    SavesAgreeWhenNumbered(docs, d, w.bcrypt, w.salt, w.year, w.draw, w.now);
  }

  /** Before the form is read: a connection that does not open is a 500, and a
      body that does not parse is a 400 whose message says whether even the
      raw read failed. Neither stores anything. */
  lemma EarlyRefusals(env: Env, body: RegisterBody, docs: seq<UserDoc>, w: Surroundings)
    requires ValidSurroundings(w)
    ensures !w.dbUp ==> RegisterOutcome(env, body, docs, w) == (Err(RegistrationFailed), docs)
    ensures w.dbUp && body == Unparsable(true) ==>
              RegisterOutcome(env, body, docs, w) == (Err(FormParseFailed), docs)
    ensures w.dbUp && body == Unparsable(false) ==>
              RegisterOutcome(env, body, docs, w) == (Err(BodyReadFailed), docs)
  {
  }

  /** An empty photo, or one whose MIME type is not `image/...`, is refused
      once the required fields are there, before the duplicate lookup. */
  lemma InvalidPhotoRejected(env: Env, text: map<string, string>, files: map<string, UploadFile>,
                             docs: seq<UserDoc>, w: Surroundings)
    requires ValidSurroundings(w) && w.dbUp
    requires Given(Get(text, "name")) && Given(Get(text, "emailId")) && Given(Get(text, "mobileNo"))
    requires "photo" in files
    requires files["photo"].size == 0 || !StartsWith(files["photo"].mimeType, ImageTypePrefix)
    ensures RegisterOutcome(env, Multipart(text, files), docs, w) == (Err(InvalidPhoto), docs)
  {
  }

  /** A new user whose photo upload fails is a 500 and nothing is stored. */
  lemma FailedPhotoUploadStoresNothing(env: Env, text: map<string, string>, files: map<string, UploadFile>,
                                       docs: seq<UserDoc>, w: Surroundings)
    requires ValidSurroundings(w) && w.dbUp
    requires Given(Get(text, "name")) && Given(Get(text, "emailId")) && Given(Get(text, "mobileNo"))
    requires "photo" in files && files["photo"].size > 0 && StartsWith(files["photo"].mimeType, ImageTypePrefix)
    requires FindOne(docs, SameEmailOrMobile(text["emailId"], text["mobileNo"])).None?
    requires UploadOutcome(ProfilePhoto, env, files["photo"], w.upload).Err?
    ensures RegisterOutcome(env, Multipart(text, files), docs, w) == (Err(RegistrationFailed), docs)
  {
  }

  /** A stored user with the same email (compared lower-cased, as it is
      stored) or the same mobile number stops the registration before
      anything is uploaded or saved. */
  lemma DuplicateRejected(env: Env, text: map<string, string>, files: map<string, UploadFile>,
                          docs: seq<UserDoc>, w: Surroundings, k: nat)
    requires ValidSurroundings(w) && w.dbUp
    requires Given(Get(text, "name")) && Given(Get(text, "emailId")) && Given(Get(text, "mobileNo"))
    requires "photo" in files && files["photo"].size > 0 && StartsWith(files["photo"].mimeType, ImageTypePrefix)
    requires k < |docs|
    requires docs[k].emailId == Some(ToLower(text["emailId"])) || docs[k].mobileNo == Get(text, "mobileNo")
    ensures RegisterOutcome(env, Multipart(text, files), docs, w) == (Err(UserExists), docs)
  {
    assert SameEmailOrMobile(text["emailId"], text["mobileNo"])(docs[k]);
  }

  /** A successful registration appends exactly one document, holding the
      generated registration number `MOH<year><draw>`, the mobile number only
      as its bcrypt hash, and the trimmed name the response echoes. */
  lemma RegisteredDocument(env: Env, text: map<string, string>, files: map<string, UploadFile>,
                           docs: seq<UserDoc>, w: Surroundings)
    requires ValidSurroundings(w)
    requires RegisterOutcome(env, Multipart(text, files), docs, w).0.Ok?
    ensures var (r, docs') := RegisterOutcome(env, Multipart(text, files), docs, w);
            |docs'| == |docs| + 1 && docs'[..|docs|] == docs
            && docs'[|docs|].objectId == w.objectId == r.value.id
            && docs'[|docs|].registrationNumber == Some(RegistrationNumber(w.year, w.draw))
            && ParseRegistrationNumber(r.value.registrationNumber.value) == Some((w.year, w.draw))
            && docs'[|docs|].hashedPassword == w.bcrypt.hash(text["mobileNo"], w.salt)
            && r.value.name == Some(Trim(text["name"]))
  {
    var photoUrl := UploadOutcome(ProfilePhoto, env, files["photo"], w.upload).value;
    var doc := CreatedDoc(text, photoUrl, QrCodeUrl(env, files, w.upload), w);
    SaveNumberedNew(docs, doc, w.bcrypt, w.salt, w.year, w.draw, w.now);
    var (saved, docs') := SaveNumbered(docs, doc, w.bcrypt, w.salt, w.year, w.draw, w.now).value;
    assert docs'[..|docs|] == docs;
  }

  /** A QR image whose upload fails leaves the outcome exactly as if no QR
      image had been sent. */
  lemma FailedQrUploadIsHarmless(env: Env, text: map<string, string>, files: map<string, UploadFile>,
                                 docs: seq<UserDoc>, w: Surroundings)
    requires ValidSurroundings(w)
    requires "qrCode" in files && UploadOutcome(QrCodeImage, env, files["qrCode"], w.upload).Err?
    ensures RegisterOutcome(env, Multipart(text, files), docs, w)
         == RegisterOutcome(env, Multipart(text, files - {"qrCode"}), docs, w)
  {
    var files' := files - {"qrCode"};
    assert QrCodeUrl(env, files, w.upload) == "" == QrCodeUrl(env, files', w.upload);
    if "photo" in files {
      assert "photo" in files' && files'["photo"] == files["photo"];
    } else {
      assert "photo" !in files';
    }
  }
}
