/** `PUT /api/admin/users/update`: a super-admin overwrites any fields of a
    user in the JSON-file store. */
module AdminUsersUpdateRoute {
  import opened Wrappers
  import opened Environment
  import opened UserRecords
  import opened Auth
  import opened Http
  import opened AdminLoginRoute

  const AdminRequired := HttpError(403, "Admin access required")
  const IdRequired := HttpError(400, "User ID is required")
  const UserNotFound := HttpError(404, "User not found")

  /** The decision and what the users file holds afterwards. `body` is the
      JSON body read as a patch of user fields (`None` when it is not JSON);
      `now` is the update's timestamp. */
  function AdminUpdateUser(env: Env, jwt: Jwt, header: Option<string>, body: Option<UserPatch>,
                           file: JsonFile<UserData>, now: string)
    : (r: (Result<UserData, HttpError>, JsonFile<UserData>))
    ensures r.0.Err? ==> r.1 == file
    ensures r.0.Ok? ==> r.1.Holds?
    ensures BearerToken(header).None? ==> r.0 == Err(TokenRequired)
    ensures BearerToken(header).Some? && jwt.verify(BearerToken(header).value, JwtSecret(env)).Rejected? ==>
              r.0 == Err(InvalidToken)
  {
    match BearerToken(header)
    case None => (Err(TokenRequired), file)
    case Some(token) =>
      match jwt.verify(token, JwtSecret(env))
      case Rejected => (Err(InvalidToken), file)
      case Verified(decoded) =>
        if decoded.role != Some(SuperAdminRole) then (Err(AdminRequired), file)
        else if body.None? then (Err(InternalError), file)
        else if body.value.id.None? || body.value.id.value == "" then (Err(IdRequired), file)
        else
          var (updated, users') := UpdateUsers(Loaded(file), body.value.id.value, body.value, now);
          if updated.None? then (Err(UserNotFound), file) else (Ok(updated.value), Holds(users'))
  }

  /** A valid token without the super-admin role, such as any user token, is
      refused with 403 before the body is read. */
  lemma UserTokenForbidden(env: Env, jwt: Jwt, header: Option<string>, body: Option<UserPatch>,
                           file: JsonFile<UserData>, now: string)
    requires BearerToken(header).Some?
    requires jwt.verify(BearerToken(header).value, JwtSecret(env)).Verified?
    requires jwt.verify(BearerToken(header).value, JwtSecret(env)).claims.role != Some(SuperAdminRole)
    ensures AdminUpdateUser(env, jwt, header, body, file, now) == (Err(AdminRequired), file)
  {
  }

  /** The whole body is merged into the first record with the body's id:
      every supplied field overwrites, the others stay, `updatedAt` is
      refreshed, and no other record changes. */
  lemma WholeBodyMerged(env: Env, jwt: Jwt, header: Option<string>, body: UserPatch,
                        file: JsonFile<UserData>, now: string)
    requires AdminUpdateUser(env, jwt, header, Some(body), file, now).0.Ok?
    ensures var (r, file') := AdminUpdateUser(env, jwt, header, Some(body), file, now);
            var users := Loaded(file);
            exists i :: 0 <= i < |users| && users[i].id == body.id.value
              && (forall j :: 0 <= j < i ==> users[j].id != body.id.value)
              && r.value == Merge(users[i], body).(updatedAt := now)
              && r.value.id == body.id.value
              && file' == Holds(users[i := r.value])
  {
  }

  /** An id no stored record has gives 404 and leaves the file alone. */
  lemma UnknownIdNotFound(env: Env, jwt: Jwt, header: Option<string>, body: UserPatch,
                          file: JsonFile<UserData>, now: string)
    requires BearerToken(header).Some?
    requires jwt.verify(BearerToken(header).value, JwtSecret(env)).Verified?
    requires jwt.verify(BearerToken(header).value, JwtSecret(env)).claims.role == Some(SuperAdminRole)
    requires body.id.Some? && body.id.value != ""
    requires forall k :: 0 <= k < |Loaded(file)| ==> Loaded(file)[k].id != body.id.value
    ensures AdminUpdateUser(env, jwt, header, Some(body), file, now) == (Err(UserNotFound), file)
  {
  }

  /** For a super-admin: a body that is not JSON is a 500, and a body without
      a non-empty `id` is a 400; neither touches the file. */
  lemma BodyRefusals(env: Env, jwt: Jwt, header: Option<string>, body: Option<UserPatch>,
                     file: JsonFile<UserData>, now: string)
    requires BearerToken(header).Some?
    requires jwt.verify(BearerToken(header).value, JwtSecret(env)).Verified?
    requires jwt.verify(BearerToken(header).value, JwtSecret(env)).claims.role == Some(SuperAdminRole)
    ensures body.None? ==> AdminUpdateUser(env, jwt, header, body, file, now) == (Err(InternalError), file)
    ensures body.Some? && (body.value.id.None? || body.value.id.value == "") ==>
              AdminUpdateUser(env, jwt, header, body, file, now) == (Err(IdRequired), file)
  {
  }
}
