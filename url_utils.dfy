/** Building the application's absolute URLs from the environment, and deciding
    whether a URL read from a QR code may be followed. */
module UrlUtils {
  import opened Wrappers
  import opened Strings
  import opened Environment

  const LocalDomain := "http://localhost:3000"
  const LoginPath := "/login"
  const CertificatePath := "/certificate/"
  const VerifyPath := "/verify/"

  /** `getAppDomain`: `BASE_URL`, else `NEXT_PUBLIC_APP_DOMAIN`, else the local
      development address; never empty. */
  function GetAppDomain(env: Env): (r: string)
    ensures Truthy(env.baseUrl) ==> r == env.baseUrl.value
    ensures !Truthy(env.baseUrl) && Truthy(env.publicAppDomain) ==> r == env.publicAppDomain.value
    ensures !Truthy(env.baseUrl) && !Truthy(env.publicAppDomain) ==> r == LocalDomain
    ensures r != ""
  {
    if Truthy(env.baseUrl) then env.baseUrl.value
    else if Truthy(env.publicAppDomain) then env.publicAppDomain.value
    else LocalDomain
  }

  /** `getLoginDomain`: `NEXT_PUBLIC_LOGIN_DOMAIN`, else the application domain
      followed by `/login`. */
  function GetLoginDomain(env: Env): (r: string)
    ensures Truthy(env.publicLoginDomain) ==> r == env.publicLoginDomain.value
    ensures !Truthy(env.publicLoginDomain) ==>
              StartsWith(r, GetAppDomain(env)) && r[|GetAppDomain(env)|..] == LoginPath
    ensures r != ""
  {
    if Truthy(env.publicLoginDomain) then env.publicLoginDomain.value
    else GetAppDomain(env) + LoginPath
  }

  /** `getCertificateUrl`. */
  function GetCertificateUrl(env: Env, certificateId: string): string {
    GetAppDomain(env) + CertificatePath + certificateId
  }

  /** `getVerificationUrl`. */
  function GetVerificationUrl(env: Env, certificateId: string): string {
    GetAppDomain(env) + VerifyPath + certificateId
  }

  /** The text after `prefix`, when `s` starts with it. */
  function StripPrefix(s: string, prefix: string): (r: Option<string>)
    ensures r.Some? <==> StartsWith(s, prefix)
    ensures r.Some? ==> prefix + r.value == s
  {
    if StartsWith(s, prefix) then Some(s[|prefix|..]) else None
  }

  /** The certificate id a certificate URL of this deployment names. */
  function CertificateIdOf(env: Env, url: string): Option<string> {
    StripPrefix(url, GetAppDomain(env) + CertificatePath)
  }

  /** The certificate id a verification URL of this deployment names. */
  function VerifiedIdOf(env: Env, url: string): Option<string> {
    StripPrefix(url, GetAppDomain(env) + VerifyPath)
  }

  /** A certificate URL gives back the id it was built from. */
  lemma CertificateUrlRoundTrip(env: Env, certificateId: string)
    ensures CertificateIdOf(env, GetCertificateUrl(env, certificateId)) == Some(certificateId)
  {
    var prefix := GetAppDomain(env) + CertificatePath;
    assert GetCertificateUrl(env, certificateId) == prefix + certificateId;
    assert (prefix + certificateId)[..|prefix|] == prefix;
    assert (prefix + certificateId)[|prefix|..] == certificateId;
  }

  /** A verification URL gives back the id it was built from. */
  lemma VerificationUrlRoundTrip(env: Env, certificateId: string)
    ensures VerifiedIdOf(env, GetVerificationUrl(env, certificateId)) == Some(certificateId)
  {
    var prefix := GetAppDomain(env) + VerifyPath;
    assert GetVerificationUrl(env, certificateId) == prefix + certificateId;
    assert (prefix + certificateId)[..|prefix|] == prefix;
    assert (prefix + certificateId)[|prefix|..] == certificateId;
  }

  /** Distinct certificates get distinct URLs. */
  lemma CertificateUrlInjective(env: Env, a: string, b: string)
    requires GetCertificateUrl(env, a) == GetCertificateUrl(env, b)
    ensures a == b
  {
    CertificateUrlRoundTrip(env, a);
    CertificateUrlRoundTrip(env, b);
  }

  /** A certificate URL is never a verification URL of the same deployment. */
  lemma CertificateUrlIsNotVerificationUrl(env: Env, a: string, b: string)
    ensures GetCertificateUrl(env, a) != GetVerificationUrl(env, b)
  {
    var d := GetAppDomain(env);
    assert GetCertificateUrl(env, a)[|d| + 1] == 'c';
    assert GetVerificationUrl(env, b)[|d| + 1] == 'v';
  }

  /** The hostnames a redirect may go to besides the application's own. */
  predicate IsLoopbackHost(h: string) { h == "localhost" || h == "127.0.0.1" }

  /** `isValidRedirectUrl`. `hostname` stands for `new URL(s).hostname`, with
      `None` where the constructor throws. */
  function IsValidRedirectUrl(env: Env, url: string, hostname: string -> Option<string>): (r: bool)
    ensures hostname(url).None? ==> !r
    ensures hostname(GetAppDomain(env)).None? ==> !r
    ensures hostname(url).Some? && hostname(GetAppDomain(env)).Some? ==>
              (r <==> hostname(url).value == hostname(GetAppDomain(env)).value
                      || IsLoopbackHost(hostname(url).value))
  {
    match hostname(url)
    case None => false
    case Some(host) =>
      match hostname(GetAppDomain(env))
      case None => false
      case Some(appHost) =>
        host == appHost || host == "localhost" || host == "127.0.0.1"
  }

  /** The deployment's own verification pages pass, whatever id they carry,
      for a parser that reads the application's domain as a host (the
      hostname of the domain alone is defined) and keeps that host when an
      absolute path is appended to it. */
  lemma OwnVerificationUrlIsValid(env: Env, certificateId: string, hostname: string -> Option<string>)
    requires hostname(GetAppDomain(env)).Some?
    requires forall path :: |path| > 0 && path[0] == '/' ==>
               hostname(GetAppDomain(env) + path) == hostname(GetAppDomain(env))
    ensures IsValidRedirectUrl(env, GetVerificationUrl(env, certificateId), hostname)
  {
    var path := VerifyPath + certificateId;
    assert path[0] == '/';
    assert GetVerificationUrl(env, certificateId) == GetAppDomain(env) + path;
  }
}
