/**
 * src/helpers/verifyJwt.ts: reading the bearer token from the request
 * headers and turning a `jwt.verify` outcome into an authenticated user or a
 * classified failure.
 */
module BearerAuth {
  import opened Wrappers
  import opened JsString
  import opened Types

  const MsgSecretUnset := "Server configuration error: JWT_SECRET is not set"
  const MsgMissingHeader := "Missing or invalid Authorization header"
  const MsgInvalidPayload := "Invalid token payload"
  const MsgMissingClaims := "Token is missing required claims"
  const MsgInvalidToken := "Invalid or expired token"

  /** The decoded payload: a non-object (a string payload) or an object with optional claims. */
  datatype JwtPayload = NonObject | ClaimSet(sub: Option<string>, email: Option<string>, role: Option<string>)

  /** What `jwt.verify(token, secret)` does: throw (bad signature, expired, malformed) or return a payload. */
  datatype VerifyOutcome = VerifyThrew | Verified(payload: JwtPayload)

  /** `jwt.verify` as an oracle from (token, secret) to its outcome. */
  type TokenVerifier = (string, string) -> VerifyOutcome

  /** `VerifyJwtSuccess | VerifyJwtFailure` */
  datatype AuthResult = Authenticated(user: AuthenticatedUser) | AuthFailed(status: int, message: string)

  /** `headers["authorization"] ?? headers["Authorization"]`: the lower-case key wins whenever it is present. */
  function AuthorizationHeader(headers: Option<map<string, string>>): (h: Option<string>)
    ensures Lookup(headers, "authorization").Some? ==> h == Lookup(headers, "authorization")
    ensures Lookup(headers, "authorization").None? ==> h == Lookup(headers, "Authorization")
  {
    var lower := Lookup(headers, "authorization");
    if lower.Some? then lower else Lookup(headers, "Authorization")
  }

  /** `extractBearerToken(headers)` */
  function ExtractBearerToken(headers: Option<map<string, string>>): (r: Option<string>)
    ensures r.Some? ==> AuthorizationHeader(headers) == Some("Bearer " + r.value) && ' ' !in r.value
  {
    var header := AuthorizationHeader(headers);
    if !IsTruthy(header) then None
    else
      var parts := Split(header.value, ' ');
      if |parts| != 2 || parts[0] != "Bearer" then None
      else
        SplitInTwo(header.value, ' ', parts[0], parts[1]);
        assert "Bearer" + [' '] == "Bearer ";
        Some(parts[1])
  }

  /** Round trip: a header `"Bearer " + t` with no space in `t` yields `t`. */
  lemma ExtractBearerRoundTrip(headers: Option<map<string, string>>, t: string)
    requires AuthorizationHeader(headers) == Some("Bearer " + t)
    requires ' ' !in t
    ensures ExtractBearerToken(headers) == Some(t)
  {
    assert "Bearer " + t == "Bearer" + [' '] + t;
    SplitInTwo("Bearer " + t, ' ', "Bearer", t);
  }

  /** Without headers, or with no usable value, there is no token. */
  lemma NoHeaderNoToken(headers: Option<map<string, string>>)
    requires !IsTruthy(AuthorizationHeader(headers))
    ensures ExtractBearerToken(headers) == None
  {
  }

  /** An empty lower-case header does not fall back to the capitalised one. */
  lemma EmptyLowerCaseHeaderWins(h: map<string, string>)
    requires "authorization" in h && h["authorization"] == ""
    ensures ExtractBearerToken(Some(h)) == None
  {
  }

  /** A header that does not split into exactly `"Bearer"` and one more part yields no token: `bearer t` and `Bearer  t` among them. */
  lemma MalformedHeaderRejected(headers: Option<map<string, string>>, t: string)
    requires AuthorizationHeader(headers) == Some("bearer " + t) || AuthorizationHeader(headers) == Some("Bearer  " + t)
    ensures ExtractBearerToken(headers) == None
  {
    var v := AuthorizationHeader(headers).value;
    if v == "bearer " + t {
      assert v == "bearer" + [' '] + t;
      SplitAfterPart("bearer", ' ', t);
    } else {
      assert v == "Bearer" + [' '] + ([' '] + t);
      SplitAfterPart("Bearer", ' ', [' '] + t);
      assert ([' '] + t)[1..] == t;
      assert |Split([' '] + t, ' ')| >= 2;
    }
  }

  /** `!sub || !email || !role` fails on this payload. */
  predicate HasRequiredClaims(p: JwtPayload) {
    p.ClaimSet? && IsTruthy(p.sub) && IsTruthy(p.email) && IsTruthy(p.role)
  }

  /** `verifyJwt(event)`, with JWT_SECRET and `jwt.verify` passed in. */
  function VerifyJwt(secret: Option<string>, headers: Option<map<string, string>>, verify: TokenVerifier): (r: AuthResult)
    ensures !IsTruthy(secret) ==> r == AuthFailed(500, MsgSecretUnset)
    ensures IsTruthy(secret) && !IsTruthy(ExtractBearerToken(headers)) ==> r == AuthFailed(401, MsgMissingHeader)
    ensures r.AuthFailed? ==> r.status in {401, 500}
    ensures r.AuthFailed? && r.status == 500 <==> !IsTruthy(secret)
    ensures r.Authenticated? <==>
              && IsTruthy(secret) && IsTruthy(ExtractBearerToken(headers))
              && var outcome := verify(ExtractBearerToken(headers).value, secret.value);
                 outcome.Verified? && HasRequiredClaims(outcome.payload)
    ensures r.Authenticated? ==>
              var p := verify(ExtractBearerToken(headers).value, secret.value).payload;
              r.user == AuthenticatedUser(p.sub.value, p.email.value, RoleFromClaim(p.role.value))
  {
    if !IsTruthy(secret) then AuthFailed(500, MsgSecretUnset)
    else
      var token := ExtractBearerToken(headers);
      if !IsTruthy(token) then AuthFailed(401, MsgMissingHeader)
      else
        match verify(token.value, secret.value)
        case VerifyThrew => AuthFailed(401, MsgInvalidToken)
        case Verified(NonObject) => AuthFailed(401, MsgInvalidPayload)
        case Verified(p) =>
          if !HasRequiredClaims(p) then AuthFailed(401, MsgMissingClaims)
          else Authenticated(AuthenticatedUser(p.sub.value, p.email.value, RoleFromClaim(p.role.value)))
  }

  /** Every failure of `jwt.verify` collapses to one generic 401, whatever its cause. */
  lemma VerifyFailureIsGeneric(secret: Option<string>, headers: Option<map<string, string>>, verify: TokenVerifier)
    requires IsTruthy(secret) && IsTruthy(ExtractBearerToken(headers))
    requires verify(ExtractBearerToken(headers).value, secret.value) == VerifyThrew
    ensures VerifyJwt(secret, headers, verify) == AuthFailed(401, MsgInvalidToken)
  {
  }

  /** A verified payload lacking a claim, or not an object, is rejected with 401 rather than defaulted. */
  lemma IncompletePayloadRejected(secret: Option<string>, headers: Option<map<string, string>>, verify: TokenVerifier)
    requires IsTruthy(secret) && IsTruthy(ExtractBearerToken(headers))
    requires var o := verify(ExtractBearerToken(headers).value, secret.value); o.Verified? && !HasRequiredClaims(o.payload)
    ensures VerifyJwt(secret, headers, verify) ==
              if verify(ExtractBearerToken(headers).value, secret.value).payload.NonObject?
              then AuthFailed(401, MsgInvalidPayload) else AuthFailed(401, MsgMissingClaims)
  {
  }

  /** The configuration check comes first: without a secret the headers are never read. */
  lemma SecretCheckedBeforeHeaders(h1: Option<map<string, string>>, h2: Option<map<string, string>>, verify: TokenVerifier)
    ensures VerifyJwt(None, h1, verify) == VerifyJwt(None, h2, verify) == AuthFailed(500, MsgSecretUnset)
  {
  }

  /** A well-formed bearer header whose token verifies to complete claims authenticates exactly those claims. */
  lemma BearerTokenAuthenticates(secret: string, headers: Option<map<string, string>>, verify: TokenVerifier,
                                 t: string, sub: string, email: string, role: string)
    requires secret != "" && t != "" && ' ' !in t
    requires AuthorizationHeader(headers) == Some("Bearer " + t)
    requires sub != "" && email != "" && role != ""
    requires verify(t, secret) == Verified(ClaimSet(Some(sub), Some(email), Some(role)))
    ensures VerifyJwt(Some(secret), headers, verify) == Authenticated(AuthenticatedUser(sub, email, RoleFromClaim(role)))
  {
    ExtractBearerRoundTrip(headers, t);
  }
}
