/** Session tokens, the plain-text password rule, and the super-administrator
    credential check. */
module Auth {
  import opened Wrappers
  import opened Environment
  import opened UserRecords

  const FallbackSecret := "fallback-secret"
  /** `expiresIn: "7d"`, in seconds. */
  const UserTokenLifetime := 7 * 24 * 60 * 60

  /** `process.env.JWT_SECRET || "fallback-secret"`. */
  function JwtSecret(env: Env): (r: string)
    ensures Truthy(env.jwtSecret) ==> r == env.jwtSecret.value
    ensures !Truthy(env.jwtSecret) ==> r == FallbackSecret
    ensures r != ""
  {
    OrElse(env.jwtSecret, FallbackSecret)
  }

  /** A token payload: the claims the application signs and reads back. */
  datatype Claims = Claims(
    id: Option<string>,
    email: Option<string>,
    phone: Option<string>,
    role: Option<string>,
    kind: Option<string>     // the `type` claim
  )

  /** What `jwt.verify(token, secret)` does: return the payload, or throw
      (bad signature, malformed or expired token). */
  datatype VerifyOutcome = Verified(claims: Claims) | Rejected

  /** The `jsonwebtoken` library: `sign(payload, secret, lifetime in seconds)`
      and `verify(token, secret)`. */
  datatype Jwt = Jwt(sign: (Claims, string, nat) -> string, verify: (string, string) -> VerifyOutcome)

  /** The library accepts a token it signed, while it is unexpired, with the
      same secret. */
  predicate VerifiesOwnTokens(jwt: Jwt, claims: Claims, secret: string, lifetime: nat) {
    jwt.verify(jwt.sign(claims, secret, lifetime), secret) == Verified(claims)
  }

  /** The payload of a user token: id, email and phone, and no role. */
  function UserClaims(user: UserData): (c: Claims)
    ensures c.id == Some(user.id) && c.email == Some(user.emailId) && c.phone == Some(user.mobileNo)
    ensures c.role.None? && c.kind.None?
  {
    Claims(Some(user.id), Some(user.emailId), Some(user.mobileNo), None, None)
  }

  /** `generateToken`. */
  function GenerateToken(env: Env, jwt: Jwt, user: UserData): string {
    jwt.sign(UserClaims(user), JwtSecret(env), UserTokenLifetime)
  }

  /** `verifyToken`: the payload, or `None` wherever `jwt.verify` throws. */
  function VerifyToken(env: Env, jwt: Jwt, token: string): (r: Option<Claims>)
    ensures r.Some? <==> jwt.verify(token, JwtSecret(env)).Verified?
    ensures r.Some? ==> r.value == jwt.verify(token, JwtSecret(env)).claims
  {
    match jwt.verify(token, JwtSecret(env))
    case Verified(claims) => Some(claims)
    case Rejected => None
  }

  /** A freshly generated token verifies to the user's claims. */
  lemma GeneratedTokenVerifies(env: Env, jwt: Jwt, user: UserData)
    requires VerifiesOwnTokens(jwt, UserClaims(user), JwtSecret(env), UserTokenLifetime)
    ensures VerifyToken(env, jwt, GenerateToken(env, jwt, user)) == Some(UserClaims(user))
    ensures VerifyToken(env, jwt, GenerateToken(env, jwt, user)).value.id == Some(user.id)
  {
  }

  /** `validatePassword`: the password is the mobile number. */
  function ValidatePassword(user: UserData, password: string): (r: bool)
    ensures r <==> password == user.mobileNo
  {
    user.mobileNo == password
  }

  /** `isValidAdmin`: both values equal the configured ones; with either
      variable unset nobody is an administrator. */
  function IsValidAdmin(env: Env, email: string, password: string): (r: bool)
    ensures r <==> env.superAdminEmail == Some(email) && env.superAdminPassword == Some(password)
    ensures env.superAdminEmail.None? || env.superAdminPassword.None? ==> !r
  {
    env.superAdminEmail == Some(email) && env.superAdminPassword == Some(password)
  }
}
