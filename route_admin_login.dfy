/** `POST /api/admin/login`: the super-admin signs in with the configured
    credentials and receives a one-day admin token. */
module AdminLoginRoute {
  import opened Wrappers
  import opened Environment
  import opened Auth
  import opened Http

  const CredentialsRequired := HttpError(400, "Email and password are required")
  const InvalidCredentials := HttpError(401, "Invalid admin credentials")
  const SuperAdminRole := "super_admin"
  const AdminKind := "admin"
  const AdminTokenLifetime := 24 * 60 * 60

  /** The body keys; `None` when absent. */
  datatype AdminLoginBody = AdminLoginBody(email: Option<string>, password: Option<string>)

  /** The admin payload: the email, the super-admin role and the admin type, and no id. */
  function AdminClaims(email: string): (c: Claims)
    ensures c.email == Some(email) && c.role == Some(SuperAdminRole) && c.kind == Some(AdminKind)
    ensures c.id.None? && c.phone.None?
  {
    Claims(None, Some(email), None, Some(SuperAdminRole), Some(AdminKind))
  }

  predicate Given(o: Option<string>) { o.Some? && o.value != "" }

  /** The decision; `body` is `None` when it is not JSON. */
  function AdminLogin(env: Env, jwt: Jwt, body: Option<AdminLoginBody>): (r: Result<string, HttpError>)
    ensures body.None? ==> r == Err(InternalError)
    ensures body.Some? && !(Given(body.value.email) && Given(body.value.password)) ==> r == Err(CredentialsRequired)
    ensures body.Some? && Given(body.value.email) && Given(body.value.password) ==>
              (r == Err(InvalidCredentials) <==> !IsValidAdmin(env, body.value.email.value, body.value.password.value))
  {
    match body
    case None => Err(InternalError)
    case Some(b) =>
      if !Given(b.email) || !Given(b.password) then Err(CredentialsRequired)
      else if !IsValidAdmin(env, b.email.value, b.password.value) then Err(InvalidCredentials)
      else Ok(jwt.sign(AdminClaims(b.email.value), JwtSecret(env), AdminTokenLifetime))
  }

  /** Login succeeds exactly for the configured email and password. */
  lemma AdminLoginIffConfigured(env: Env, jwt: Jwt, email: string, password: string)
    requires email != "" && password != ""
    ensures AdminLogin(env, jwt, Some(AdminLoginBody(Some(email), Some(password)))).Ok?
            <==> env.superAdminEmail == Some(email) && env.superAdminPassword == Some(password)
  {
  }

  /** The issued token verifies, under the same secret, to a super-admin
      payload carrying the email that signed in. */
  lemma AdminTokenVerifies(env: Env, jwt: Jwt, body: AdminLoginBody)
    requires AdminLogin(env, jwt, Some(body)).Ok?
    requires VerifiesOwnTokens(jwt, AdminClaims(body.email.value), JwtSecret(env), AdminTokenLifetime)
    ensures var claims := VerifyToken(env, jwt, AdminLogin(env, jwt, Some(body)).value);
            claims.Some? && claims.value.role == Some(SuperAdminRole) && claims.value.email == body.email
  {
  }
}
