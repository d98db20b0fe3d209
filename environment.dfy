/** The process environment the application reads. `None` is an unset variable;
    JavaScript treats an unset variable and the empty string alike as false. */
module Environment {
  import opened Wrappers

  datatype Env = Env(
    baseUrl: Option<string>,              // BASE_URL
    publicAppDomain: Option<string>,      // NEXT_PUBLIC_APP_DOMAIN
    publicLoginDomain: Option<string>,    // NEXT_PUBLIC_LOGIN_DOMAIN
    jwtSecret: Option<string>,            // JWT_SECRET
    superAdminEmail: Option<string>,      // SUPER_ADMIN_EMAIL
    superAdminPassword: Option<string>,   // SUPER_ADMIN_PASSWORD
    cloudinaryCloudName: Option<string>,  // CLOUDINARY_CLOUD_NAME
    cloudinaryApiKey: Option<string>,     // CLOUDINARY_API_KEY
    cloudinaryApiSecret: Option<string>,  // CLOUDINARY_API_SECRET
    mongodbUri: Option<string>            // MONGODB_URI
  )

  /** JavaScript truthiness of an environment value. */
  predicate Truthy(v: Option<string>) { v.Some? && v.value != "" }

  /** `v || fallback`. */
  function OrElse(v: Option<string>, fallback: string): (r: string)
    ensures Truthy(v) ==> r == v.value
    ensures !Truthy(v) ==> r == fallback
  {
    if Truthy(v) then v.value else fallback
  }
}
