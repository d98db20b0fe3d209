/** `POST /api/login`: a user signs in with mobile number or email, and the
    password (the mobile number). */
module LoginRoute {
  import opened Wrappers
  import opened Strings
  import opened Environment
  import opened UserRecords
  import opened UserModel
  import opened Auth
  import opened Http

  /** The JSON body's two keys; `None` for an absent or null value. */
  datatype LoginBody = LoginBody(identifier: Option<string>, password: Option<string>)

  /** The success body's `user`. */
  datatype LoginUser = LoginUser(id: string, name: Option<string>, email: Option<string>,
                                 phone: Option<string>, registrationNumber: Option<string>, role: string)

  datatype LoginSuccess = LoginSuccess(token: string, user: LoginUser)

  const CredentialsRequired := HttpError(400, "Phone/email and password are required")
  const NoSuchUser := HttpError(404, "User not found. Please check your phone number or email.")
  const WrongPassword := HttpError(401, "Invalid password. Please use your 10-digit phone number.")

  predicate Given(o: Option<string>) { o.Some? && o.value != "" }

  /** `$or: [{ mobileNo: id }, { emailId: id }]`. The query casts each value
      with its path's setters: `emailId` is lower-cased, `mobileNo` has none. */
  function MobileOrEmail(identifier: string): UserDoc -> bool {
    (d: UserDoc) => d.mobileNo == Some(identifier) || d.emailId == Some(ToLower(identifier))
  }

  /** A stored title as the record type's enum. The schema's `enum` validator
      admits only `Mr` and `Ms` into a saved document, so only `Ms` needs a test;
      the schema's `required` keeps the title from being absent. */
  function TitleOf(t: Option<string>): Title {
    if t == Some("Ms") then Ms else Mr
  }

  /** The `userData` record handed to `generateToken`: the document's `_id` as
      `id`, and its fields (an absent text field reads as empty here). */
  function TokenUser(d: UserDoc, parsePercentage: string -> real): (u: UserData)
    ensures u.id == d.objectId
    ensures u.emailId == d.emailId.GetOr("") && u.mobileNo == d.mobileNo.GetOr("")
  {
    UserData(d.objectId, d.name.GetOr(""), TitleOf(d.title), d.fatherHusbandName.GetOr(""),
             d.mobileNo.GetOr(""), d.emailId.GetOr(""), d.dateOfBirth.GetOr(""),
             parsePercentage(d.passoutPercentage.GetOr("")), d.state.GetOr(""), d.address.GetOr(""),
             d.courseName.GetOr(""), d.experience.GetOr(""), d.collegeName.GetOr(""), d.photoUrl,
             Some(d.qrCodeUrl), d.registrationNumber, d.createdAt.GetOr(""), d.updatedAt.GetOr(""))
  }

  /** The decision. `body` is `None` when it is not JSON; `dbUp` says whether
      the connection opens; `parsePercentage` is `Number.parseFloat(x) || 0`. */
  function Login(env: Env, jwt: Jwt, bcrypt: Bcrypt, docs: seq<UserDoc>, dbUp: bool,
                 body: Option<LoginBody>, parsePercentage: string -> real)
    : (r: Result<LoginSuccess, HttpError>)
    ensures !dbUp || body.None? ==> r == Err(InternalError)
    ensures dbUp && body.Some? && (!Given(body.value.identifier) || !Given(body.value.password)) ==>
              r == Err(CredentialsRequired)
    ensures dbUp && body.Some? && Given(body.value.identifier) && Given(body.value.password) ==>
              var found := FindOne(docs, MobileOrEmail(Trim(body.value.identifier.value)));
              (found.None? ==> r == Err(NoSuchUser))
              && (found.Some? ==> r == Answer(env, jwt, bcrypt, found.value, body.value.password.value, parsePercentage))
  {
    if !dbUp || body.None? then Err(InternalError)
    else
      var LoginBody(identifier, password) := body.value;
      if !Given(identifier) || !Given(password) then Err(CredentialsRequired)
      else match FindOne(docs, MobileOrEmail(Trim(identifier.value)))
        case None => Err(NoSuchUser)
        case Some(user) => Answer(env, jwt, bcrypt, user, password.value, parsePercentage)
  }

  /** The answer once the identifier has found `user`: the password check, then
      the token and the success body. */
  function Answer(env: Env, jwt: Jwt, bcrypt: Bcrypt, user: UserDoc, password: string,
                  parsePercentage: string -> real): (r: Result<LoginSuccess, HttpError>)
    ensures r.Ok? <==> ComparePassword(user, password, bcrypt) == Some(true)
                       && user.createdAt.Some? && user.updatedAt.Some?
    ensures ComparePassword(user, password, bcrypt) == Some(false) ==> r == Err(WrongPassword)
    ensures ComparePassword(user, password, bcrypt).None? ==> r == Err(InternalError)
  {
    match ComparePassword(user, password, bcrypt)
    case None => Err(InternalError)
    case Some(false) => Err(WrongPassword)
    case Some(true) =>
      if user.createdAt.None? || user.updatedAt.None? then Err(InternalError)
      else
        var token := GenerateToken(env, jwt, TokenUser(user, parsePercentage));
        Ok(LoginSuccess(token, LoginUser(user.objectId, user.name, user.emailId, user.mobileNo,
                                         user.registrationNumber, user.role)))
  }

  /** An unknown identifier is reported before any password is looked at. */
  lemma UnknownIdentifierIsNotFound(env: Env, jwt: Jwt, bcrypt: Bcrypt, docs: seq<UserDoc>,
                                    identifier: string, password: string, parsePercentage: string -> real)
    requires identifier != "" && password != ""
    requires forall k :: 0 <= k < |docs| ==>
               docs[k].mobileNo != Some(Trim(identifier))
               && docs[k].emailId != Some(ToLower(Trim(identifier)))
    ensures Login(env, jwt, bcrypt, docs, true, Some(LoginBody(Some(identifier), Some(password))), parsePercentage)
         == Err(NoSuchUser)
  {
  }

  /** A successful login answers for the first document the trimmed
      identifier finds, with a token generated for it. */
  lemma LoginSuccessShape(env: Env, jwt: Jwt, bcrypt: Bcrypt, docs: seq<UserDoc>,
                          body: LoginBody, parsePercentage: string -> real)
    requires Login(env, jwt, bcrypt, docs, true, Some(body), parsePercentage).Ok?
    ensures Given(body.identifier) && Given(body.password)
    ensures FindOne(docs, MobileOrEmail(Trim(body.identifier.value))).Some?
    ensures var user := FindOne(docs, MobileOrEmail(Trim(body.identifier.value))).value;
            ComparePassword(user, body.password.value, bcrypt) == Some(true)
            && Login(env, jwt, bcrypt, docs, true, Some(body), parsePercentage)
               == Ok(LoginSuccess(GenerateToken(env, jwt, TokenUser(user, parsePercentage)),
                                  LoginUser(user.objectId, user.name, user.emailId, user.mobileNo,
                                            user.registrationNumber, user.role)))
  {
    var found := FindOne(docs, MobileOrEmail(Trim(body.identifier.value)));
    assert found.Some?;
    assert Login(env, jwt, bcrypt, docs, true, Some(body), parsePercentage)
        == Answer(env, jwt, bcrypt, found.value, body.password.value, parsePercentage);
  }

  /** The token carries the matched document's `_id`, its email and its phone
      as claims, for seven days; with a library that verifies its own tokens,
      it verifies to that `_id`. */
  lemma LoginTokenSubject(env: Env, jwt: Jwt, bcrypt: Bcrypt, docs: seq<UserDoc>,
                          body: LoginBody, parsePercentage: string -> real)
    requires Login(env, jwt, bcrypt, docs, true, Some(body), parsePercentage).Ok?
    ensures var r := Login(env, jwt, bcrypt, docs, true, Some(body), parsePercentage).value;
            var user := FindOne(docs, MobileOrEmail(Trim(body.identifier.value))).value;
            r.user.id == user.objectId
            && r.token == jwt.sign(Claims(Some(user.objectId), Some(user.emailId.GetOr("")),
                                          Some(user.mobileNo.GetOr("")), None, None),
                                   JwtSecret(env), UserTokenLifetime)
            && (VerifiesOwnTokens(jwt, UserClaims(TokenUser(user, parsePercentage)), JwtSecret(env), UserTokenLifetime)
                ==> VerifyToken(env, jwt, r.token).value.id == Some(user.objectId))
  {
    LoginSuccessShape(env, jwt, bcrypt, docs, body, parsePercentage);
    var user := FindOne(docs, MobileOrEmail(Trim(body.identifier.value))).value;
    var u := TokenUser(user, parsePercentage);
    assert UserClaims(u) == Claims(Some(user.objectId), Some(user.emailId.GetOr("")),
                                   Some(user.mobileNo.GetOr("")), None, None);
    if VerifiesOwnTokens(jwt, UserClaims(u), JwtSecret(env), UserTokenLifetime) {
      GeneratedTokenVerifies(env, jwt, u);
    }
  }

  /** A registered user signs in with the mobile number as password: with a
      bcrypt that accepts exactly the password a hash was made from, the
      document the lookup finds, saved with its mobile number hashed, lets the
      login through. */
  lemma MobileNumberLogsIn(env: Env, jwt: Jwt, bcrypt: Bcrypt, docs: seq<UserDoc>, identifier: string,
                           mobile: string, salt: string, parsePercentage: string -> real)
    requires identifier != "" && mobile != ""
    requires FindOne(docs, MobileOrEmail(Trim(identifier))).Some?
    requires var user := FindOne(docs, MobileOrEmail(Trim(identifier))).value;
             bcrypt.hash(mobile, salt).Some? && user.hashedPassword == bcrypt.hash(mobile, salt)
             && user.createdAt.Some? && user.updatedAt.Some?
    requires forall c :: bcrypt.compare(c, bcrypt.hash(mobile, salt).value) <==> c == mobile
    ensures Login(env, jwt, bcrypt, docs, true, Some(LoginBody(Some(identifier), Some(mobile))), parsePercentage).Ok?
  {
    var user := FindOne(docs, MobileOrEmail(Trim(identifier))).value;
    var hash := bcrypt.hash(mobile, salt).value;
    assert bcrypt.compare(mobile, hash);
    assert ComparePassword(user, mobile, bcrypt) == Some(true);
    AnswerAccepts(env, jwt, bcrypt, user, mobile, parsePercentage);
    assert Login(env, jwt, bcrypt, docs, true, Some(LoginBody(Some(identifier), Some(mobile))), parsePercentage)
        == Answer(env, jwt, bcrypt, user, mobile, parsePercentage);
  }

  /** A matching password on a document with both timestamps is answered
      with a token. */
  lemma AnswerAccepts(env: Env, jwt: Jwt, bcrypt: Bcrypt, user: UserDoc, password: string,
                      parsePercentage: string -> real)
    requires ComparePassword(user, password, bcrypt) == Some(true)
    requires user.createdAt.Some? && user.updatedAt.Some?
    ensures Answer(env, jwt, bcrypt, user, password, parsePercentage).Ok?
  {
  }

  /** The refusals once both credentials are given: an identifier that finds no
      document is a 404; on the document it finds, a wrong password is a 401
      and a document without a stored hash a 500. */
  lemma LoginRefusals(env: Env, jwt: Jwt, bcrypt: Bcrypt, docs: seq<UserDoc>,
                      identifier: string, password: string, parsePercentage: string -> real)
    requires identifier != "" && password != ""
    ensures var found := FindOne(docs, MobileOrEmail(Trim(identifier)));
            var r := Login(env, jwt, bcrypt, docs, true, Some(LoginBody(Some(identifier), Some(password))), parsePercentage);
            (found.None? ==> r == Err(NoSuchUser))
            && (found.Some? && ComparePassword(found.value, password, bcrypt) == Some(false) ==> r == Err(WrongPassword))
            && (found.Some? && ComparePassword(found.value, password, bcrypt).None? ==> r == Err(InternalError))
  {
    var found := FindOne(docs, MobileOrEmail(Trim(identifier)));
    if found.Some? {
      assert Login(env, jwt, bcrypt, docs, true, Some(LoginBody(Some(identifier), Some(password))), parsePercentage)
          == Answer(env, jwt, bcrypt, found.value, password, parsePercentage);
    }
  }

  /** An email typed with capitals, or with surrounding blanks, still finds the
      account saved under its lower-cased address. */
  lemma EmailCaseIgnored(env: Env, jwt: Jwt, bcrypt: Bcrypt, docs: seq<UserDoc>, k: nat,
                         identifier: string, password: string, parsePercentage: string -> real)
    requires identifier != "" && password != ""
    requires k < |docs| && docs[k].emailId == Some(ToLower(Trim(identifier)))
    ensures Login(env, jwt, bcrypt, docs, true, Some(LoginBody(Some(identifier), Some(password))), parsePercentage)
         != Err(NoSuchUser)
  {
    assert MobileOrEmail(Trim(identifier))(docs[k]);
    var found := FindOne(docs, MobileOrEmail(Trim(identifier)));
    assert found.Some?;
    assert Login(env, jwt, bcrypt, docs, true, Some(LoginBody(Some(identifier), Some(password))), parsePercentage)
        == Answer(env, jwt, bcrypt, found.value, password, parsePercentage);
  }
}
