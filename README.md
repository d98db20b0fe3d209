# Certificate registration system — a Dafny model

The application is a Next.js site where people register for a course
certificate, sign in with their mobile number, edit their profile and mint a
certificate whose QR code points back to the site. A super-administrator signs
in with configured credentials, searches the registered users and edits any of
them. Users live in three stores: a JSON file read and written whole
(`lib/file-operations.ts`), a MongoDB collection reached through the driver
(`lib/mongodb-operations.ts`), and the Mongoose `User` model with its schema
validators and `pre("save")` hooks (`models/User.ts`). Certificates also have a
JSON-file store (`lib/certificate-storage.ts`).

This project models the core of that logic:

- the stores, as classes whose fields hold the stored sequences and files;
- the identifier formats (`MOH…` registration numbers, `USER_…` and `CERT_…` ids)
  and the URLs built from the environment;
- token claims and the admin credential check;
- the Cloudinary pre-upload checks, the chunk-gathering loop and the public-id parser;
- the schema, hooks and unique indexes of the user model;
- the six API routes, each as a decision function from its inputs and the store to a
  response and the new store;
- three client components: the registration form, the QR scanner and the admin
  dashboard. Each is a class holding its React state, plus the pure functions
  it uses.

Each module corresponds to one source file. `wrappers.dfy`, `strings.dfy`,
`seqs.dfy`, `patterns.dfy`, `environment.dfy`, `http.dfy` and `user_data.dfy` hold
what several of them share:

- `Option`/`Result`;
- the JavaScript string and array operations;
- the two regular expressions;
- the environment;
- the bearer header;
- the user record and its merge.

Outside effects are parameters of the model:

- the clock and `Math.random` (as their drawn values);
- bcrypt (`Bcrypt`) and `jsonwebtoken` (`Jwt`);
- `new URL(..).hostname` (a function returning `None` where the constructor throws);
- `QRCode.toDataURL`, the Cloudinary upload and number formatting.

Everything is proved for every behaviour of these parameters. Where a property
needs the library to behave, the lemma says so in its `requires`. For example,
`VerifiesOwnTokens` states that a library verifies the tokens it signed.

## Model

| member | source | states |
|---|---|---|
| FileOperations.UserFile.GetAllUsers | lib/file-operations.ts:25-34 | a readable, parsable file yields its list; any read or parse failure yields the empty list |
| FileOperations.UserFile.constructor | lib/file-operations.ts:25-34 | a store over a given users file, with no backups yet |
| FileOperations.UserFile.SaveUsers | lib/file-operations.ts:37-40 | afterwards the users file holds exactly the given list; backups are untouched |
| FileOperations.UserFile.AddUser | lib/file-operations.ts:43-58 | the file now holds the previously loaded list with exactly one record appended; the returned record is that record |
| UserRecords.NewUser | lib/file-operations.ts:46-52 | the new record always carries a registration number; its timestamps are the drawn ones; every other field (name, title, father/husband name, mobile number, email, date of birth, percentage, state, address, course, experience, college, photo and QR URLs) is the input's |
| UserRecords.NewUserIdentifiers | lib/file-operations.ts:46-52 | the new record's `USER_` id parses back to the drawn timestamp and suffix, and its registration number parses back to the drawn year and number |
| UserRecords.NewUserIgnoresSuppliedNumber | lib/file-operations.ts:46-52 | a registration number carried by the input never reaches the stored record, because the generated fields come after the spread |
| FileOperations.UserFile.FindUser | lib/file-operations.ts:61-64 | a result is the first stored record whose mobile number or email is the identifier (no earlier record matches); the result is absent exactly when no stored record matches |
| UserRecords.FindAfterAppend | lib/file-operations.ts:54-63 | after appending, the identifier still finds the earlier match if one existed, and otherwise finds the new record |
| FileOperations.AddedUserIsFound | lib/file-operations.ts:43-64 | an added user is found by its own mobile number or email, either as itself or as a record stored before it |
| UserRecords.UpdateUsers | lib/file-operations.ts:67-80 | the list length is kept; the result is absent exactly when no record has the id, and then the list is unchanged; otherwise only the first record with the id is replaced, by its merge with the update and a fresh `updatedAt` |
| FileOperations.UserFile.UpdateUser | lib/file-operations.ts:67-80 | the returned record and the written list are those of the shared update; an unknown id returns nothing and leaves the file as it was |
| UserRecords.MergeIdempotent | lib/file-operations.ts:73-77 | applying the same update twice gives the same record as applying it once |
| UserRecords.MergeCombine | lib/file-operations.ts:73-77 | two successive updates act as one update made of the later keys over the earlier |
| UserRecords.MergeEmpty | lib/file-operations.ts:73-77 | an update with no keys leaves the record unchanged |
| UserRecords.UpdateThenFind | lib/file-operations.ts:67-80 | an update that does not carry an `id` leaves the updated record the first one with its id, so a lookup by id returns exactly the updated record |
| Identifiers.GenerateUserId | lib/file-operations.ts:83-86 | the id starts with `USER_` and parses back to the timestamp and the random suffix it was built from |
| Identifiers.RandomSuffix | lib/mongodb-operations.ts:99-101 | the random part has at most nine characters, all base-36 digits when taken from `Math.random().toString(36)`, and exactly nine when the text is long enough |
| Identifiers.StampedIdRoundTrip | lib/mongodb-operations.ts:99-101 | parsing a stamped id gives back its timestamp and random suffix |
| Identifiers.StampedIdInjective | lib/mongodb-operations.ts:99-101 | two ids with the same prefix are equal only when timestamp and random suffix both agree |
| Identifiers.PaddedRegistrationNumber | lib/file-operations.ts:88-95 | `MOH`, then the year, then exactly five zero-padded digits; it has the registration-number shape and parses back to (year, random) |
| Identifiers.PaddedRegistrationInjective | lib/mongodb-operations.ts:104-110 | different (year, random) draws give different registration numbers |
| Identifiers.RegistrationNumber | app/api/register/route.ts:136-138 | `MOH`, the year and the five-digit number drawn from [10000, 99999]; it has the registration-number shape and parses back to (year, number) |
| Identifiers.RegistrationNumberLength | models/User.ts:145-147 | for a four-digit year the hook's number is always twelve characters long |
| FileOperations.UserFile.CreateDailyBackup | lib/file-operations.ts:98-104 | the backup named by the day of the timestamp now holds the full current list, replacing any earlier backup of that day; the users file is unchanged |
| FileOperations.BackupFileName | lib/file-operations.ts:100-101 | the name starts with `users_backup_` and is shorter than the timestamp with prefix and suffix whenever the timestamp has a `T` |
| FileOperations.BackupFileNameOfTimestamp | lib/file-operations.ts:100-101 | an ISO timestamp `<date>T<time>` names the file `users_backup_<date>.json` |
| FileOperations.SameDaySameBackup | lib/file-operations.ts:98-104 | two timestamps of the same day write the same backup file |
| CertificateStorage.CertificateFile.GetAllCertificates | lib/certificate-storage.ts:25-34 | a readable, parsable file yields its list; any failure yields the empty list |
| CertificateStorage.CertificateFile.constructor | lib/certificate-storage.ts:25-34 | a store over a given certificates file |
| CertificateStorage.CertificateFile.SaveCertificates | lib/certificate-storage.ts:37-40 | afterwards the file holds exactly the given list |
| CertificateStorage.CertificateFile.AddCertificate | lib/certificate-storage.ts:43-47 | the file holds the old list with the certificate appended; no duplicate-id check, so an existing id still grows the list |
| CertificateStorage.CertificateFile.FindCertificate | lib/certificate-storage.ts:50-53 | a result is the first stored certificate with exactly that id (no earlier one has it); the result is absent exactly when none has it |
| CertificateStorage.FindAfterAddCertificate | lib/certificate-storage.ts:43-53 | after appending `c`, a lookup of its id finds `c` when no earlier entry had that id, and otherwise still finds the earlier entry |
| CertificateStorage.FindOtherAfterAddCertificate | lib/certificate-storage.ts:43-53 | appending never changes what a different id finds |
| MongoOperations.MongoUsers.Connect | lib/mongodb-operations.ts:8-25 | an open handle is reused; an unset URI is refused and creates no client; otherwise a client is created, and only a reachable server yields the `certificate_system` handle |
| MongoOperations.MongoUsers.constructor | lib/mongodb-operations.ts:4-5 | the module starts with neither a client nor a database handle |
| MongoOperations.MongoUsers.GetAllUsers | lib/mongodb-operations.ts:34-42 | the whole collection when a connection can be made, otherwise the empty list; the collection is unchanged |
| MongoOperations.MongoUsers.AddUser | lib/mongodb-operations.ts:45-63 | when connected, exactly the new record is appended and returned; otherwise the error is passed on and nothing is stored |
| MongoOperations.MongoUsers.FindUser | lib/mongodb-operations.ts:66-77 | the first record whose mobile number or email is the identifier, or nothing when no connection can be made |
| MongoOperations.MongoUsers.UpdateUser | lib/mongodb-operations.ts:80-96 | when connected, the result and the new collection are those of the shared update; without a connection, nothing is returned or changed |
| MongoOperations.MergeSetsUpdatedAt | lib/mongodb-operations.ts:84-87 | `$set` of the updates plus `updatedAt` is the same update the JSON-file store makes |
| MongoOperations.MongoUsers.Close | lib/mongodb-operations.ts:113-119 | both handles are cleared when a client exists; otherwise nothing changes |
| Identifiers.GeneratorsAgree | lib/mongodb-operations.ts:104-110 | for a five-digit draw, the zero-padding generator and the model hook's generator produce the same number |
| UrlUtils.GetAppDomain | lib/url-utils.ts:8-21 | `BASE_URL` if non-empty, else `NEXT_PUBLIC_APP_DOMAIN` if non-empty, else `http://localhost:3000`; never empty |
| UrlUtils.GetLoginDomain | lib/url-utils.ts:26-34 | `NEXT_PUBLIC_LOGIN_DOMAIN` if non-empty, else the application domain followed by `/login` |
| UrlUtils.CertificateUrlRoundTrip | lib/url-utils.ts:39-41 | stripping the domain and `/certificate/` from a certificate URL gives back its id |
| UrlUtils.CertificateUrlInjective | lib/url-utils.ts:39-41 | distinct certificate ids have distinct URLs |
| UrlUtils.VerificationUrlRoundTrip | lib/url-utils.ts:46-48 | stripping the domain and `/verify/` from a verification URL gives back its id |
| UrlUtils.CertificateUrlIsNotVerificationUrl | lib/url-utils.ts:39-48 | no certificate URL is a verification URL of the same deployment |
| UrlUtils.IsValidRedirectUrl | lib/url-utils.ts:53-65 | false when the URL or the application domain fails to parse; otherwise true exactly when the URL's host is the application's host, `localhost` or `127.0.0.1` |
| UrlUtils.OwnVerificationUrlIsValid | lib/url-utils.ts:46-62 | for a URL parser that reads the application's domain as a host and keeps that host when an absolute path is appended, the deployment's own verification pages pass the redirect check, whatever id they carry |
| Auth.JwtSecret | lib/auth.ts:4 | `JWT_SECRET` when non-empty, otherwise `fallback-secret`; never empty |
| Auth.UserClaims | lib/auth.ts:6-16 | a user token carries exactly the id, email and phone, and no role or type |
| Auth.VerifyToken | lib/auth.ts:18-24 | the payload exactly when the library verifies the token, and nothing on every kind of failure |
| Auth.GeneratedTokenVerifies | lib/auth.ts:6-24 | with a library that accepts its own tokens, a generated token verifies to the user's claims and its id |
| Auth.ValidatePassword | lib/auth.ts:26-29 | the password is accepted exactly when it equals the mobile number |
| Auth.IsValidAdmin | lib/auth.ts:31-33 | true exactly when both values equal the configured ones; with either variable unset nobody passes |
| Http.BearerToken | app/api/user/update/route.ts:7-13 | a token exactly when the header is present and starts with `Bearer `, and the header is then `Bearer ` followed by the token |
| Http.BearerTokenRoundTrip | app/api/certificate/generate/route.ts:14-20 | every token sent as `Bearer <token>` is read back unchanged |
| Cloudinary.Precheck | lib/cloudinary.ts:42-54 | the checks in their order: too large first, then not an image, then missing configuration; the file may be read exactly when all three pass |
| Cloudinary.FlattenLength | lib/cloudinary.ts:74-75 | the reduced total length is the length of the chunks laid end to end |
| Cloudinary.TotalLengthPrefix | lib/cloudinary.ts:74-81 | the running offset never passes the total length, so each chunk fits in the buffer |
| Cloudinary.ReadStream | lib/cloudinary.ts:64-84 | the buffer built by writing chunk k at the sum of the earlier lengths is the concatenation of the chunks in order, of exactly the total length |
| Cloudinary.Set | lib/cloudinary.ts:79 | `Uint8Array.set` copies the chunk into place from the offset and leaves the bytes before and after it as they were |
| Cloudinary.UploadOutcome | lib/cloudinary.ts:33-125 | a failed check is reported with its message; success means the checks passed, the file could be read, and the upload of exactly its bytes into the kind's folder replied with that non-empty `secure_url` |
| Cloudinary.UploadFailures | lib/cloudinary.ts:85-117 | after the checks: an unreadable file, a refused upload (its message passed on) and a reply without `secure_url` each give their own error message |
| Cloudinary.UploadImage | lib/cloudinary.ts:148-232 | the upload through the array-buffer or stream branch ends exactly as the upload outcome says, for both image kinds |
| Cloudinary.StreamAndBufferAgree | lib/cloudinary.ts:56-84 | a streamed file uploads byte for byte as an array buffer of the same content |
| Cloudinary.GetPublicIdFromUrl | lib/cloudinary.ts:238-244 | the second-to-last `/`-segment, `/`, then the last segment up to its first `.`; without any `/` the folder reads `undefined` |
| Cloudinary.PublicIdOfHostedUrl | lib/cloudinary.ts:238-244 | a hosted URL `<base>/<folder>/<name>.<ext>` gives back `<folder>/<name>` |
| UserModel.NewDoc | models/User.ts:28-122 | construction keeps the `_id`; trims name, father/husband name, state, address, course, experience and college; lower-cases the email; keeps title, mobile number, date of birth, percentage, photo, registration number and password as given; takes `qrCodeUrl`, `role` and `isRestricted` when given and otherwise defaults them to empty, `user` and false; counts a given password as modified |
| UserModel.ValidDocFields | models/User.ts:31-113 | a valid document has a ten-digit mobile number, an email matching the pattern, a title in {Mr, Ms} and a role in {user, admin} |
| UserModel.BlankNameRejected | models/User.ts:36-40 | a whitespace-only name is trimmed away and then rejected as missing |
| Patterns.LowerCaseKeepsEmailPattern | models/User.ts:52-58 | lower-casing keeps an address matching the email pattern, so the setter never makes a form-valid address invalid |
| Patterns.EmailPatternIsEmailAddress | components/registration-form.tsx:141 | the email pattern holds exactly when the text splits at its only `@` into a non-empty local part and a domain with an inner dot, with no whitespace anywhere |
| UserModel.HashPasswordHook | models/User.ts:125-135 | an unmodified password is left as it is; a modified one is replaced by its bcrypt hash, or the save fails when hashing fails |
| UserModel.RegistrationNumberHook | models/User.ts:143-150 | a number is generated only when none is present, as `MOH<year><n>`; an existing one is never replaced |
| UserModel.Store | models/User.ts:46-104 | a write stamps `updatedAt` and clears the new and modified flags; a new document is appended; an existing one keeps the collection's length; the only failures are a duplicate key, or a missing document on an update |
| UserModel.StoreKeepsUniqueKeys | models/User.ts:46-104 | every successful write keeps `_id`, mobile number, email and registration number unique across the collection |
| UserModel.Save | models/User.ts:125-150 | the save as registered: validation first, so an invalid document is refused; a saved document keeps its registration number |
| UserModel.RegistrationHookNeverFires | models/User.ts:100-150 | a document without a registration number is always refused by validation, so the generating hook never runs |
| UserModel.SaveNumbered | models/User.ts:143-150 | the intended save: number first, then validation and hashing; a saved document always has a registration number |
| UserModel.SaveNumberedFillsNumber | models/User.ts:143-150 | a document lacking only its number is saved with a generated one that parses back to the drawn year and number |
| UserModel.SavesAgreeWhenNumbered | models/User.ts:143-150 | when a number is already present, the save as written and the intended save are the same |
| UserModel.SaveNumberedNew | models/User.ts:125-135 | a new document that saves is appended with its fields kept and its password replaced by the hash |
| UserModel.ResaveKeepsHash | models/User.ts:125-135 | re-saving a document whose password was not modified keeps the stored hash |
| UserModel.NewPasswordStoredHashed | models/User.ts:125-135 | a modified password is stored only as its hash |
| UserModel.ComparePassword | models/User.ts:138-140 | the verdict is bcrypt's comparison against the stored hash, never the plaintext |
| UserModel.SavedPasswordAccepted | models/User.ts:125-140 | with a bcrypt that accepts exactly the hashed password, a saved document accepts its original password and nothing else |
| UserModel.FindOne | app/api/register/route.ts:108-110 | a result is a stored document meeting the filter; the result is absent exactly when no document does |
| UserModel.FindById | app/api/certificate/generate/route.ts:30 | a result has the requested `_id`; the result is absent exactly when no document has it |
| UserModel.FindByIdUnique | app/api/certificate/generate/route.ts:30 | with unique `_id`s, a lookup returns the one document with that id wherever it sits |
| UserModel.UserCollection.Save | models/User.ts:125-150 | the collection changes exactly as the intended save says and keeps its unique keys; a refused save changes nothing |
| UserModel.UserCollection.constructor | models/User.ts:152 | a collection holding the given documents |
| RegisterRoute.CreatedDoc | app/api/register/route.ts:137-148 | the new document is `new`, carries `MOH<year><n>` and the draw's `_id`, holds the mobile number as the password still to hash, and the trimmed name |
| RegisterRoute.RegisterOutcome | app/api/register/route.ts:8-200 | every refusal is a 400 or a 500 and leaves the collection unchanged |
| RegisterRoute.TextPhotoFails | app/api/register/route.ts:88-104 | a non-empty text value sent as `photo` with no file passes the truthiness check and then throws at the photo check, so the answer is the 500 and nothing is stored |
| RegisterRoute.RouteSaveAgrees | app/api/register/route.ts:137-151 | the document the route saves always has its registration number, so the numbering-first save and the as-written save (validation, then hooks) give the same result for it |
| RegisterRoute.EarlyRefusals | app/api/register/route.ts:17-58 | no database connection gives the 500; an unparsable form gives the 400 on parsing, or the 400 on reading when the raw body cannot be read either; nothing is stored |
| RegisterRoute.InvalidPhotoRejected | app/api/register/route.ts:102-104 | with the required fields present, an empty or non-image photo gives "Please upload a valid photo file" and nothing is stored |
| RegisterRoute.FailedPhotoUploadStoresNothing | app/api/register/route.ts:116-122 | for a new user whose photo upload fails the answer is the 500 and nothing is stored |
| RegisterRoute.Register | app/api/register/route.ts:97-114 | the step-by-step handler ends exactly as the decision says, in both response and collection |
| RegisterRoute.CreateOutcome | app/api/register/route.ts:116-151 | once the checks have passed, a failed photo upload or save is a 500 that stores nothing |
| RegisterRoute.Create | app/api/register/route.ts:116-151 | the two uploads into `photoUrl` and `qrCodeUrl`, then `save`, end exactly as `CreateOutcome` says, in both response and collection |
| RegisterRoute.MissingFieldsFirst | app/api/register/route.ts:98-104 | a missing name, email or mobile number, or a photo that is neither a file nor a non-empty text value, gives "Missing required fields" before the photo is looked at |
| RegisterRoute.DuplicateRejected | app/api/register/route.ts:108-114 | once the fields and the photo pass, a stored user with the same mobile number, or whose stored email is the submitted one lower-cased, gives "User already exists", and nothing is saved |
| RegisterRoute.RegisteredDocument | app/api/register/route.ts:137-187 | success appends exactly one document with the generated `MOH<year><n>` and the mobile number stored only as its hash; the response echoes id, trimmed name and number |
| RegisterRoute.FailedQrUploadIsHarmless | app/api/register/route.ts:126-134 | a QR image whose upload fails leaves the outcome as if no QR image had been sent |
| LoginRoute.TokenUser | app/api/login/route.ts:47-66 | the record signed into the token has the document's `_id` as its id, and its email and mobile number |
| LoginRoute.Login | app/api/login/route.ts:12-84 | an unreadable body or no database gives 500; a missing identifier or password gives 400; an identifier that, trimmed, finds no document by mobile number or (lower-cased) by email gives 404; otherwise the found document's password check decides |
| LoginRoute.UnknownIdentifierIsNotFound | app/api/login/route.ts:22-36 | an identifier that, once trimmed, is no document's mobile number and, also lower-cased, no document's email gives 404, before any password check |
| LoginRoute.LoginRefusals | app/api/login/route.ts:22-45 | with both credentials given: no matching document gives 404; a wrong password on the matched document gives 401; a document without a stored hash gives 500 |
| LoginRoute.EmailCaseIgnored | app/api/login/route.ts:23-25 | an email typed with capitals or surrounding blanks still finds the document holding its trimmed, lower-cased form, so the answer is never 404 |
| LoginRoute.Answer | app/api/login/route.ts:39-84 | success exactly when the password matches and the document has both timestamps; a wrong password is the 401 and a missing hash the 500 |
| LoginRoute.LoginSuccessShape | app/api/login/route.ts:39-84 | success means the first document the trimmed identifier finds (by mobile number, or lower-cased by email) accepted the password; the response carries its id, name, email, phone, registration number and role |
| LoginRoute.LoginTokenSubject | app/api/login/route.ts:47-69 | the token is signed for seven days over the document's `_id`, email and phone, and verifies to that `_id` |
| LoginRoute.MobileNumberLogsIn | app/api/login/route.ts:39-45 | a stored user whose hashed password is their mobile number signs in with that number |
| UserUpdateRoute.ProfilePatch | app/api/user/update/route.ts:40-48 | the update object carries only the seven profile fields; id, registration number, title, photo and timestamps are never in it |
| UserUpdateRoute.UpdateProfile | app/api/user/update/route.ts:7-61 | a missing or non-`Bearer` header gives 401 "token required"; an unverifiable token gives 401 "invalid"; every refusal leaves the users unchanged |
| UserUpdateRoute.ProfileRefusals | app/api/user/update/route.ts:20-61 | after the token: a non-JSON body gives 500; a missing field 400 "All fields are required"; a mobile number owned by someone else, once the email is free, 400 "Mobile number already registered"; with neither taken, no reachable record with the token's id 404; none of them writes |
| UserUpdateRoute.EmailCheckFirst | app/api/user/update/route.ts:29-37 | when the email belongs to someone else the answer is "Email already registered", whatever the mobile number |
| UserUpdateRoute.OwnRecordIsNoConflict | app/api/user/update/route.ts:30-35 | the caller's own record never makes either uniqueness check fail |
| UserUpdateRoute.OnlyProfileFieldsChange | app/api/user/update/route.ts:40-52 | success replaces only the caller's record, and in it only the seven fields and `updatedAt` |
| Identifiers.GenerateCertificateId | app/api/certificate/generate/route.ts:40 | the id starts with `CERT_` and parses back to the millisecond timestamp and random suffix |
| Identifiers.CertificateIdsDistinct | app/api/certificate/generate/route.ts:40 | ids minted from different timestamps or suffixes differ |
| Identifiers.UserIdIsNotCertificateId | app/api/certificate/generate/route.ts:40 | a user id is never a certificate id |
| CertificateGenerateRoute.Shown | app/api/certificate/generate/route.ts:47 | a template literal shows a present value as itself |
| CertificateGenerateRoute.QrPayload | app/api/certificate/generate/route.ts:45-61 | the payload's id is the certificate's, its URL is the certificate URL, its name is `<title>. <name>`, and the percentage is the stored text |
| CertificateGenerateRoute.PayloadOfValidUser | app/api/certificate/generate/route.ts:45-61 | for a schema-valid user every payload field copies the user's field exactly |
| CertificateGenerateRoute.GenerateCertificate | app/api/certificate/generate/route.ts:14-116 | a missing bearer or an unverifiable token gives 401; after a verified token, a database that cannot be reached gives 500 before the lookup; a refusal saves nothing; success appends exactly the returned record |
| CertificateGenerateRoute.UnknownUserNotFound | app/api/certificate/generate/route.ts:29-35 | a token whose subject is no stored user gives 404 and saves nothing |
| CertificateGenerateRoute.MintedCertificate | app/api/certificate/generate/route.ts:39-112 | the minted id is `CERT_<ms>_<suffix>`; the response id, the record id and the payload id agree; the payload URL names the id; the record belongs to the token's user, whose fields the payload copies |
| CertificateGenerateRoute.MintedIsFound | app/api/certificate/generate/route.ts:75-83 | the minted certificate is what a lookup by its id then finds |
| AdminLoginRoute.AdminClaims | app/api/admin/login/route.ts:22-30 | the admin token carries exactly the email, role `super_admin` and type `admin` |
| AdminLoginRoute.AdminLogin | app/api/admin/login/route.ts:5-40 | an unreadable body gives 500; a missing email or password gives 400; otherwise 401 exactly when the credential check fails |
| AdminLoginRoute.AdminLoginIffConfigured | app/api/admin/login/route.ts:17-19 | sign-in succeeds exactly for the configured email and password |
| AdminLoginRoute.AdminTokenVerifies | app/api/admin/login/route.ts:22-36 | the issued token verifies, under the same secret, to a super-admin payload with the email that signed in |
| AdminUsersUpdateRoute.AdminUpdateUser | app/api/admin/users/update/route.ts:7-46 | a missing bearer or a token the library rejects gives 401; every refusal leaves the file as it was; success writes the file |
| AdminUsersUpdateRoute.UserTokenForbidden | app/api/admin/users/update/route.ts:17-21 | a verified token without the super-admin role gives 403 before the body is read |
| AdminUsersUpdateRoute.WholeBodyMerged | app/api/admin/users/update/route.ts:32-36 | success means the first stored record with the body's id (no earlier record has it) is the one changed; the whole body is merged into it, `updatedAt` is refreshed, and the file is rewritten with only that record changed |
| AdminUsersUpdateRoute.UnknownIdNotFound | app/api/admin/users/update/route.ts:32-36 | an id no record has gives 404 and leaves the file alone |
| AdminUsersUpdateRoute.BodyRefusals | app/api/admin/users/update/route.ts:26-30 | for a super-admin, a non-JSON body gives 500 and a body without a non-empty `id` gives 400 "User ID is required"; the file is left alone |
| RegistrationForm.ValidateFormReports | components/registration-form.tsx:126-179 | `validateForm` accepts exactly when all twelve checks pass; otherwise it reports the first failing check in the source's order, all earlier ones having passed |
| RegistrationForm.FirstFailureReports | components/registration-form.tsx:126-179 | running checks in order and stopping at the first rejection reports a failed check preceded only by passes, and reports nothing exactly when every check passes |
| RegistrationForm.AcceptedForm | components/registration-form.tsx:126-179 | an accepted form has a ten-digit mobile number, a matching email, a percentage in [0, 100], a photo and a non-blank name |
| RegistrationForm.WhitespaceOnlyRejected | components/registration-form.tsx:129-171 | a whitespace-only trimmed text field fails its check, so such a form is never accepted |
| RegistrationForm.PercentageRange | components/registration-form.tsx:149-152 | once the earlier checks pass, the percentage check is not what is reported exactly when 0 ≤ p ≤ 100 |
| RegistrationForm.FileChange | components/registration-form.tsx:95-124 | no selection changes nothing; a file over 5 MiB or of a non-image type leaves the form unchanged and raises its toast; otherwise it fills its own field |
| RegistrationForm.AcceptedFileChangesOneField | components/registration-form.tsx:101-122 | an accepted file changes only its own field |
| RegistrationForm.Entries | components/registration-form.tsx:195 | the form contributes one entry for each of its fourteen keys |
| RegistrationForm.BuildSubmitData | components/registration-form.tsx:195-210 | the `forEach` appends exactly the serialized parts, in order |
| RegistrationForm.SerializedParts | components/registration-form.tsx:195-210 | a part is sent exactly for each entry that is neither null nor an unsubmittable file, text as itself and a number as its text |
| RegistrationForm.HasQrCode | components/registration-form.tsx:212 | `"true"` exactly when a QR file with content is selected, `"false"` otherwise |
| RegistrationForm.Submission | components/registration-form.tsx:194-212 | the body ends with the `hasQrCode` flag |
| RegistrationForm.BuildSubmission | components/registration-form.tsx:194-212 | the method builds exactly the body the form sends |
| RegistrationForm.SubmittedPhoto | components/registration-form.tsx:195-212 | the photo is sent exactly when present and submittable; name, email and mobile number are always sent as themselves |
| RegistrationForm.RegistrationFormState.constructor | components/registration-form.tsx:73-88 | the initial state: title `Mr`, empty fields, no files, nothing submitting, no dialog |
| RegistrationForm.RegistrationFormState.HandleFileChange | components/registration-form.tsx:95-124 | the form data and toasts change exactly as the file-change rule says; nothing else changes |
| RegistrationForm.RegistrationFormState.HandleSubmit | components/registration-form.tsx:181-239 | an invalid form raises only the first failing check's toast and sends nothing; a valid one sends its body while submitting, then clears the flag and opens the dialog or raises "Registration failed" |
| RegistrationForm.RegistrationFormState.Send | components/registration-form.tsx:190-238 | the body goes out with `isSubmitting` set, and the flag is cleared whatever the response |
| RegistrationForm.RegistrationFormState.Reject | components/registration-form.tsx:126-179 | a failed check adds exactly its own message to the toasts |
| QrScanner.QrDecision | components/qr-scanner.tsx:55-75 | text that is not JSON, or is `null`, fills the id field verbatim; a page change by assignment goes to the payload's URL that passed the redirect check; a router push goes to `/verify/<certificateId>` |
| QrScanner.CertificateIdWins | components/qr-scanner.tsx:57-59 | a payload with a certificate id goes to its verify page, even with a verification URL |
| QrScanner.UrlFollowedIffValid | components/qr-scanner.tsx:60-69 | without an id, the URL is followed exactly when it passes the redirect check, and otherwise only a toast is raised |
| QrScanner.NeitherFieldIgnored | components/qr-scanner.tsx:57-70 | a JSON payload with neither field does nothing |
| QrScanner.RedirectsStayHome | components/qr-scanner.tsx:60-62 | every page left by assignment is on the application's host or a loopback host |
| QrScanner.QrScannerState.HandleVerify | components/qr-scanner.tsx:19-53 | a blank id raises a toast and changes nothing else; otherwise the lookup is requested while verifying, the flag is cleared afterwards, and it navigates or toasts by the response |
| QrScanner.QrScannerState.Lookup | components/qr-scanner.tsx:29-52 | the lookup of the id goes out while `isVerifying` is set; afterwards the flag is cleared and the scanner navigates to the certificate page or raises the matching toast |
| QrScanner.QrScannerState.constructor | components/qr-scanner.tsx:16-17 | the scanner starts with an empty id field, not verifying, with no toasts, requests or navigations |
| QrScanner.QrScannerState.HandleQrData | components/qr-scanner.tsx:55-75 | state, navigations and toasts change exactly as the QR decision says |
| AdminDashboard.FilteredUsers | app/admin/dashboard/page.tsx:37-46 | only loaded users that match the term are shown |
| AdminDashboard.FilteredUsersExactly | app/admin/dashboard/page.tsx:38-45 | a user is shown exactly when loaded and matching, and the shown list keeps the loaded order |
| AdminDashboard.EmptyTermShowsAll | app/admin/dashboard/page.tsx:38-45 | an empty search term shows every loaded user |
| AdminDashboard.ReplaceById | app/admin/dashboard/page.tsx:172 | the list length is kept; every entry with the edited user's id becomes the edited user, every other entry stays |
| AdminDashboard.ReplaceByUniqueId | app/admin/dashboard/page.tsx:172 | with distinct ids, exactly one entry changes |
| AdminDashboard.FirstLetter | app/admin/dashboard/page.tsx:280 | at most one character, and for a non-empty word its first character |
| AdminDashboard.InitialsOfWords | app/admin/dashboard/page.tsx:278-282 | initials are taken word by word: the first word's upper-cased first letter, then the rest's initials |
| AdminDashboard.InitialsOfWord | app/admin/dashboard/page.tsx:278-282 | one word gives its upper-cased first letter |
| AdminDashboard.DashboardState.SetSearchTerm | app/admin/dashboard/page.tsx:37-46 | typing sets the term and the shown list is again the filter of the users by it |
| AdminDashboard.DashboardState.constructor | app/admin/dashboard/page.tsx:18-23 | the dashboard starts with no users, an empty term, the dialog closed and nothing selected |
| AdminDashboard.DashboardState.RunFilter | app/admin/dashboard/page.tsx:37-46 | the effect leaves the shown list equal to the filter of the users by the term |
| AdminDashboard.DashboardState.HandleUserUpdated | app/admin/dashboard/page.tsx:171-179 | the edited user replaces the entries with its id, the dialog closes, the selection clears, the toast is raised and the shown list is refreshed |

## Left out

- File-system and database I/O (`fs.readFile`/`writeFile`, `ensureDataDir`, `MongoClient.connect`, Mongoose persistence): each store is a field replaced whole; a read either holds a list or fails.
- `JSON.parse` of a data file that holds something other than a list of records is not distinguished from a list; the model's file holds a list or fails to parse.
- bcrypt, `jsonwebtoken`, `new URL`, `QRCode.toDataURL` and the Cloudinary upload and destroy calls are parameters; token expiry is modelled only as the lifetime handed to `sign`.
- `uploadImage`, `uploadLogo` and `deleteImage` are not modelled: they are unchecked library calls.
- The welcome and certificate emails (lib/email.tsx) and their templates are not part of this model; both routes ignore any failure of them, so the modelled outcomes do not depend on them.
- The clock, `Math.random`, `toISOString` and `toLocaleDateString("en-GB")` are inputs (their drawn values); the bounds `Math.floor` gives are stated as preconditions over the draws.
- Floating point: percentages are `real`; `Number`, `Number.parseFloat` and `toString` are function parameters.
- Concurrency: the read-modify-write race in the JSON store and the check-then-insert race in registration; the model is sequential.
- Rendering, the other components and pages, and the routes that only wrap the same bearer check around I/O.
- The `lastModified`, description and variant parts of toasts; only titles are recorded.
- Strings.ToLower: ASCII case mapping only; `toLowerCase`/`toUpperCase` on other letters are not modelled.
- AdminDashboard.Initials: upper-cases ASCII letters only, for the same reason.
- Cloudinary.UploadOutcome: the `!file` check is not modelled; the log line before it already reads `file.size`, so a missing file throws there.
- QrScanner.QrDecision: `certificateId` and `verificationUrl` values that are not strings (numbers, objects) are not modelled; a property is its text or absent.
- CertificateGenerateRoute.QrPayload: absent text fields of the user read as the empty string instead of being dropped from the JSON; a schema-valid document has none, as PayloadOfValidUser shows.
- CertificateGenerateRoute.GenerateCertificate: `findById` with a malformed id (a cast error, which the route reports as 500) is modelled as not found.
- UserUpdateRoute.UpdateProfile: a token without an `id` claim is treated as not found, where the driver would match a record without an `id` field.
- UserUpdateRoute.UpdateProfile: the model does not relate the `id` field of the driver's records to the Mongoose `_id` that the login token carries; the route compares the two as given.
- MongoOperations.MongoUsers.UpdateUser: `undefined` values in the update object are modelled as absent keys.
- MongoOperations.MongoUsers.FindUser: Mongo's natural order is taken to be insertion order.
- RegisterRoute.RegisterOutcome: the form's text values are taken as given; a file sent under a text key is not modelled, and when `photo` is sent both as text and as a file the file is taken (`formData.get` would return whichever comes first).
- AdminUsersUpdateRoute.AdminUpdateUser: the JSON body is read as a patch of the record's own fields, with a `null` value read as absent; in the source a `null` overwrites the stored field and keys that are not user fields are written into the file as well. Neither is modelled.
- AdminUsersUpdateRoute.WholeBodyMerged: states the merge of the patch as read above, so it does not cover a `null` overwrite or extra keys of the body.
- LoginRoute.Login: `identifier` and `password` are text or absent; a number or object sent as `identifier` makes `identifier.trim()` throw, which the source answers with a 500, and the model cannot represent that body.
- UserModel.Store: duplicate keys are checked when a document is written; index builds and casting are not modelled.
- UserModel.Store: the timestamps differ from Mongoose's `timestamps: true` in two ways that no modelled route reaches (the register route saves only new documents without timestamps): an existing document is always written with `updatedAt` set to now, where Mongoose skips the write of an unmodified document; and a new document's `createdAt` is set to now even when one was given, where Mongoose keeps it.
- CertificateGenerateRoute.GenerateCertificate: `dbUp` stands for both `connectDB()` and `findById` throwing, which the route answers with the same 500; the two are not told apart.
- Query casting: of what Mongoose does to a filter's values, only the `lowercase` setter on `emailId` is modelled (in the login and duplicate-user lookups); `mobileNo` has no setter to apply.

## Findings

| source | as written | input that shows it | evidently intended | confidence | as-written member | corrected member |
|---|---|---|---|---|---|---|
| models/User.ts:143-150 | the hook that fills in a missing registration number is a `pre("save")` hook. Mongoose validates before `save` hooks run, and the path is `required` (models/User.ts:100-104), so a document without a number is refused before the hook can run. | `new User({...})` with every required field except `registrationNumber`: the save fails with a validation error and no number is generated | fill the number before validation (a `pre("validate")` hook), so such a document is saved with `MOH<year><n>` | medium, not executed | UserModel.Save, UserModel.RegistrationHookNeverFires | UserModel.SaveNumbered, UserModel.SaveNumberedFillsNumber |

The register route always sets the number itself (app/api/register/route.ts:137-146). So on that path the two orders agree (UserModel.SavesAgreeWhenNumbered, applied to the route's own document in RegisterRoute.RouteSaveAgrees), and the collection uses the corrected save.
