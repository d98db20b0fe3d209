/** The QR scanner component: checking a typed certificate id, and acting on
    the text a scanned QR code yields. */
module QrScanner {
  import opened Wrappers
  import opened Strings
  import opened Environment
  import opened UrlUtils

  const VerifyPagePrefix := "/verify/"
  const VerifyApiPrefix := "/api/certificate/verify/"

  /** Where the page goes: `router.push(path)` or `window.location.href = url`. */
  datatype Navigation = RouterPush(path: string) | LocationAssign(url: string)

  /** What `JSON.parse` makes of the scanned text: not JSON (it throws),
      `null` (reading a property of it then throws), or any other value with
      the text of its `certificateId` and `verificationUrl` properties when
      they are strings (`None` when absent). */
  datatype Payload = NotJson | JsonNull | JsonValue(certificateId: Option<string>, verificationUrl: Option<string>)

  /** What `handleQRData` does with a scan. */
  datatype QrAction = Navigate(to: Navigation) | InvalidUrlToast | FillCertificateId(text: string) | Ignore

  /** `handleQRData`: a certificate id wins over a verification URL; a URL is
      followed only when it passes the redirect check; text that does not
      parse (or reads `null`) becomes the typed certificate id. */
  function QrDecision(env: Env, qrData: string, payload: Payload, hostname: string -> Option<string>): (a: QrAction)
    ensures payload.NotJson? || payload.JsonNull? <==> a == FillCertificateId(qrData)
    ensures a.Navigate? && a.to.LocationAssign? ==>
              payload.JsonValue? && payload.verificationUrl == Some(a.to.url)
              && IsValidRedirectUrl(env, a.to.url, hostname)
    ensures a.Navigate? && a.to.RouterPush? ==>
              payload.JsonValue? && Truthy(payload.certificateId)
              && a.to.path == VerifyPagePrefix + payload.certificateId.value
  {
    match payload
    case NotJson => FillCertificateId(qrData)
    case JsonNull => FillCertificateId(qrData)
    case JsonValue(certificateId, verificationUrl) =>
      if Truthy(certificateId) then Navigate(RouterPush(VerifyPagePrefix + certificateId.value))
      else if Truthy(verificationUrl) then
        if IsValidRedirectUrl(env, verificationUrl.value, hostname) then Navigate(LocationAssign(verificationUrl.value))
        else InvalidUrlToast
      else Ignore
  }

  /** A payload with a certificate id goes to its verify page, whether or not
      it also carries a verification URL. */
  lemma CertificateIdWins(env: Env, qrData: string, id: string, url: Option<string>, hostname: string -> Option<string>)
    requires id != ""
    ensures QrDecision(env, qrData, JsonValue(Some(id), url), hostname) == Navigate(RouterPush(VerifyPagePrefix + id))
  {
  }

  /** Without a certificate id, a verification URL is followed exactly when it
      passes the redirect check; otherwise a toast is raised and nothing else. */
  lemma UrlFollowedIffValid(env: Env, qrData: string, id: Option<string>, url: string, hostname: string -> Option<string>)
    requires !Truthy(id) && url != ""
    ensures QrDecision(env, qrData, JsonValue(id, Some(url)), hostname) == Navigate(LocationAssign(url))
            <==> IsValidRedirectUrl(env, url, hostname)
    ensures !IsValidRedirectUrl(env, url, hostname) ==>
              QrDecision(env, qrData, JsonValue(id, Some(url)), hostname) == InvalidUrlToast
  {
  }

  /** A JSON payload with neither field does nothing. */
  lemma NeitherFieldIgnored(env: Env, qrData: string, id: Option<string>, url: Option<string>, hostname: string -> Option<string>)
    requires !Truthy(id) && !Truthy(url)
    ensures QrDecision(env, qrData, JsonValue(id, url), hostname) == Ignore
  {
  }

  /** Every page the scanner leaves for by assignment is on the application's
      own host or a loopback host. */
  lemma RedirectsStayHome(env: Env, qrData: string, payload: Payload, hostname: string -> Option<string>)
    requires QrDecision(env, qrData, payload, hostname).Navigate?
    requires QrDecision(env, qrData, payload, hostname).to.LocationAssign?
    ensures var url := QrDecision(env, qrData, payload, hostname).to.url;
            hostname(url).Some? && hostname(GetAppDomain(env)).Some?
            && (hostname(url) == hostname(GetAppDomain(env)) || IsLoopbackHost(hostname(url).value))
  {
  }

  /** How the `fetch` of the verify route ends. */
  datatype VerifyResponse = Found | Missing | FetchFailed

  /** The component's state. `requests` records each path fetched with the
      value of `isVerifying` while it was in flight. */
  class QrScannerState {
    var certificateId: string
    var isVerifying: bool
    var toasts: seq<string>
    var requests: seq<(string, bool)>
    var navigations: seq<Navigation>

    constructor ()
      ensures certificateId == "" && !isVerifying && toasts == [] && requests == [] && navigations == []
    {
      certificateId := "";
      isVerifying := false;
      toasts := [];
      requests := [];
      navigations := [];
    }

    /** `handleVerify`: a blank id raises a toast and changes nothing else;
        otherwise the id is looked up with `isVerifying` set, which is cleared
        on every outcome. */
    method HandleVerify(response: VerifyResponse)
      modifies this`isVerifying, this`toasts, this`requests, this`navigations
      ensures Trim(certificateId) == "" ==>
                toasts == old(toasts) + ["Certificate ID required"]
                && requests == old(requests) && navigations == old(navigations)
                && isVerifying == old(isVerifying)
      ensures Trim(certificateId) != "" ==>
                requests == old(requests) + [(VerifyApiPrefix + certificateId, true)]
                && !isVerifying
                && navigations == old(navigations) + (if response == Found then [RouterPush(VerifyPagePrefix + certificateId)] else [])
                && toasts == old(toasts) + match response
                                           case Found => []
                                           case Missing => ["Certificate not found"]
                                           case FetchFailed => ["Verification failed"]
    {
      if Trim(certificateId) == "" {
        toasts := toasts + ["Certificate ID required"];
      } else {
        Lookup(response);
      }
    }

    /** The `try`/`finally` of `handleVerify`: the lookup goes out while
        `isVerifying` is set, and the flag is cleared whatever the response. */
    method Lookup(response: VerifyResponse)
      modifies this`isVerifying, this`toasts, this`requests, this`navigations
      ensures requests == old(requests) + [(VerifyApiPrefix + certificateId, true)]
      ensures !isVerifying
      ensures navigations == old(navigations) + (if response == Found then [RouterPush(VerifyPagePrefix + certificateId)] else [])
      ensures toasts == old(toasts) + match response
                                      case Found => []
                                      case Missing => ["Certificate not found"]
                                      case FetchFailed => ["Verification failed"]
    {
      isVerifying := true;
      requests := requests + [(VerifyApiPrefix + certificateId, isVerifying)];
      match response {
        case Found => navigations := navigations + [RouterPush(VerifyPagePrefix + certificateId)];
        case Missing => toasts := toasts + ["Certificate not found"];
        case FetchFailed => toasts := toasts + ["Verification failed"];
      }
      isVerifying := false;
    }

    /** `handleQRData`, acting out `QrDecision`. */
    method HandleQrData(env: Env, qrData: string, payload: Payload, hostname: string -> Option<string>)
      modifies this`certificateId, this`toasts, this`navigations
      ensures var a := QrDecision(env, qrData, payload, hostname);
              && certificateId == (if a.FillCertificateId? then qrData else old(certificateId))
              && navigations == old(navigations) + (if a.Navigate? then [a.to] else [])
              && toasts == old(toasts) + (if a == InvalidUrlToast then ["Invalid verification URL"] else [])
    {
      match payload {
        case NotJson => certificateId := qrData;
        case JsonNull => certificateId := qrData;
        case JsonValue(id, url) =>
          if Truthy(id) {
            navigations := navigations + [RouterPush(VerifyPagePrefix + id.value)];
          } else if Truthy(url) {
            if IsValidRedirectUrl(env, url.value, hostname) {
              navigations := navigations + [LocationAssign(url.value)];
            } else {
              toasts := toasts + ["Invalid verification URL"];
            }
          }
      }
    }
  }
}
