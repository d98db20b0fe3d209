/** What the API routes share: error responses and the bearer-token header. */
module Http {
  import opened Wrappers
  import opened Strings

  /** `NextResponse.json({ error }, { status })`. */
  datatype HttpError = HttpError(status: nat, error: string)

  const BearerPrefix := "Bearer "

  const TokenRequired := HttpError(401, "Authorization token required")
  const InvalidToken := HttpError(401, "Invalid or expired token")
  const InternalError := HttpError(500, "Internal server error")

  /** The token of an `Authorization: Bearer <token>` header, or `None` when
      the header is absent or does not start with `"Bearer "`. */
  function BearerToken(header: Option<string>): (r: Option<string>)
    ensures r.Some? <==> header.Some? && StartsWith(header.value, BearerPrefix)
    ensures r.Some? ==> header.value == BearerPrefix + r.value
  {
    if header.Some? && StartsWith(header.value, BearerPrefix)
    then Some(header.value[|BearerPrefix|..])
    else None
  }

  /** Every token can be sent, and is read back unchanged. */
  lemma BearerTokenRoundTrip(token: string)
    ensures BearerToken(Some(BearerPrefix + token)) == Some(token)
  {
    assert (BearerPrefix + token)[..|BearerPrefix|] == BearerPrefix;
    assert (BearerPrefix + token)[|BearerPrefix|..] == token;
  }
}
