# device-authorization, modelled in Dafny

This project models the core of rockset/device-authorization, a Go library
for the OAuth 2.0 Device Authorization Grant (RFC 8628). A command-line client
asks an identity provider (Auth0 or Okta) for a device code. It then polls the
token endpoint until the user approves or denies, or the exchange fails. The
library can then validate tokens in two ways. The offline way checks the
signature and claims against RSA keys rebuilt from the provider's JWKS
document. The online way asks Okta's introspection endpoint.

The model is functional: immutable records and pure functions, one Dafny
module per source file or concern.

- `Auth` holds the configuration record, `NewConfig` (a registry lookup),
  `NewAuthorizer`, and the two form bodies `codeRequestValues` and
  `waitValues`.
- `Polling` holds `WaitForAuthorization`. It is a recursive function over a
  finite script of poll results. Each result is a decoded token response or
  a JSON decode failure. Each carries a flag that says whether the caller's
  context fires during the wait that would follow it. The function returns
  the outcome, the list of requests sent and the list of waits begun.
  `Dispatch` is the body of one iteration: the switch on the response's
  error string.
  `PollingProperties` relates several polls: interval doubling, monotone
  waits, when cancellation matters, and a worked session.
- `ProviderAuth0`, `ProviderOkta` and `ProviderRegistry` model the
  `provider` package. They are the oauth2 templates and the name → factory
  table.
- `Auth0`, `Okta` and `Providers` model the device-package provider configs
  and `NewProvider`.
- `Okta` also holds the online validator. `OktaIntrospectionResponse.Valid`
  is a predicate over the response, the config and `now` (Unix nanoseconds).
- `Validator` holds the JWKS key store and the offline validator. Key
  loading is a fold of a key list into a fresh `kid → (modulus, exponent)`
  map. `Bytes` and `Base64Url` hold the byte readings and the RFC 4648
  section 5 unpadded decoder. `KeyProperties` compares the exponent reading
  with the standard one.
- `Scopes` holds `DefaultScopes` and `strings.Join`. `Urls` holds the single
  `fmt.Sprintf("https://%s<suffix>", org)` template shape. `Errors` holds the error
  kinds. `Wrappers` holds `Option`, `Result` and `Outcome`.

## Code versus intended design

The model follows the code wherever the code departs from RFC text or from
the library's documented intent:

- The exponent of a JWK is not read as the big-endian Base64urlUInt of
  section 2 of RFC 7518. The code zero-pads the decoded bytes to eight at the
  end and reads them little-endian (validator.go:119-123). Then it converts
  the value to a Go `int`, which on a 64-bit platform reinterprets values of
  2^63 and above as negative. `Validator.Exponent` models this.
  `Validator.StandardExponent` is the RFC reading. `KeyProperties` proves
  that the two agree on palindromic byte strings, such as `AQAB` (65537),
  and disagree on `AQA` (bytes 01 00), which gives 1 instead of 256.
- `codeRequestValues` never sends an `audience` field.
- `waitValues` always sends `client_secret`, even when it is empty.
- A transport failure in the generic `postForm` is not returned.
  The error from `client.Do` is discarded and `response.StatusCode` is read
  regardless (auth.go:162-164); the error variable is then overwritten by
  the decoder's result (auth.go:167). A failed request therefore
  dereferences a nil response.
  The model's poll results are therefore only "decoded" and "decode failed".
- On `slow_down` the code doubles the interval (auth.go:105). Section 3.5
  of RFC 8628 says to increase it by 5 seconds.
- A code response without `interval` decodes it as 0 (auth.go:57). Section
  3.2 of RFC 8628 says the client must then use 5 seconds. With 0, every
  wait is 0 and `slow_down` doubles 0, so the loop never slows down
  (`PollingProperties.ZeroIntervalNeverWaits`).
- `WaitForAuthorization` does not use `expires_in`. Only the caller's context
  ends an endless pending sequence.
- `Auth0.Config` puts the JWKS location in `URI` and leaves `KeyURI` empty.
  The offline validator fetches from `KeyURI`.
- provider/okta.go declares a second `NewAuth0`, with Okta paths on the
  Auth0 host. provider/providers.go refers to a `NewOkta` that does not
  exist. The model keeps the declared name in its own module
  (`ProviderOkta.NewAuth0`) and binds "okta" to it.
- The files come from different revisions. `Config` at auth.go:20-23 has only
  `OAuth2Config` and `client`, yet auth0.go and okta.go also set `Audience`,
  `Issuer`, `KeyURI`, `URI` and `org`. `Auth.Config` is the union of these
  fields.
- The Okta client-id check reports "incorrect issuer" with the token's
  `iss`.

## Model

| member | source | states |
|---|---|---|
| Auth.NewConfig | auth.go:25-35 | an unregistered name fails with the single ErrNotFound and no config; a registered one yields that factory's oauth2 config for (org, clientID) and the default HTTP client, with audience, issuer, key URI, URI and organisation left empty |
| Auth.NewAuthorizer | auth.go:41-49 | a missing client becomes the default client, an existing one is kept, and no other field of the shared config changes |
| Auth.CodeRequestValues | auth.go:174-179 | the device request has exactly client_id and scope (never audience), the scope value is the space-joined scope list, and it splits back into the configured scopes when the list is non-empty and no scope contains a space |
| Auth.WaitValues | auth.go:181-188 | every token request has exactly client_secret (even when empty), client_id, device_code and grant_type = the device-code URN |
| Auth.WaitValuesIdentifyCode | auth.go:181-188 | two token requests for one config are equal exactly when their device codes are |
| Scopes.SplitJoin | auth.go:177 | splitting the space-joined scope value on spaces gives back the scope list when the list is non-empty and no scope contains a space |
| Scopes.DefaultScopesJoined | providers.go:3 | the default scopes go on the wire as "openid profile offline_access" |
| Scopes.DefaultScopesRoundTrip | providers.go:3 | the wire form of the default scopes reads back as the same three scopes in order |
| Errors.Message | auth.go:106-110 | an unrecognised poll error code yields exactly "authorization failed: " followed by the code; an unknown kid yields exactly "parsing token: unknown key id: " followed by the kid; any other jwt parse failure yields "parsing token: " followed by the library's reason |
| Errors.AuthorizationFailedMessages | auth.go:106-110 | two unrecognised poll error codes give the same message iff they are equal, and none gives the message of ErrAccessDenied |
| Errors.UnknownKeyIdMessages | validator.go:58-61 | two unknown kids give the same parsing-error message iff they are equal |
| Polling.Classify | auth.go:98-110 | the error string maps to granted, pending, slow_down, denied or failed, each exactly for its string |
| Polling.Loop | auth.go:90-118 | every request is the same form body; the loop consumes the longest run of pending/slow_down polls not cancelled, plus one; the last consumed poll alone decides the outcome (token with no error, access denied, "authorization failed: code", decode error, or context error when cancelled during a wait); a wait follows exactly the pending/slow_down polls |
| Polling.Dispatch | auth.go:92-110 | one poll either ends the loop or continues it: it continues exactly on authorization_pending (same interval) and slow_down (doubled interval); otherwise its outcome is the one the response's error string prescribes, a decode failure giving the decode error |
| Polling.WaitForAuthorization | auth.go:90-93 | every request carries the code's device code through waitValues, and a finished run's outcome is decided by its last consumed poll |
| PollingProperties.WaitIntervals | auth.go:102-117 | the i-th wait lasts the initial interval times 2^(number of slow_down responses up to that poll); authorization_pending leaves it unchanged |
| PollingProperties.ZeroIntervalNeverWaits | auth.go:104-115 | with an initial interval of 0, as decoded from a response without `interval`, every wait is 0 whatever slow_down responses arrive |
| PollingProperties.WaitsNeverDecrease | auth.go:104-105 | for a non-negative initial interval, no wait is shorter than the initial interval or than an earlier wait |
| PollingProperties.CancellationOnlyWhileWaiting | auth.go:112-114 | the cancellation flag of a poll that ends the loop by itself changes nothing: cancellation is observed only during a wait |
| PollingProperties.NoWaitAfterTerminal | auth.go:98-110 | after pending/slow_down polls up to a terminal one, the run sends exactly one request per poll up to it and performs no wait after it |
| PollingProperties.PendingSlowDownThenToken | auth.go:98-117 | pending at interval 5, then slow_down, then a token: waits of 5 and 10 seconds, three requests, the token with no error |
| Urls.OrgUrlInjective | provider/auth0.go:13-14 | a URL built from the template "https://%s" plus a fixed suffix determines the organisation spliced into it |
| ProviderAuth0.NewAuth0 | provider/auth0.go:9-18 | client id is the argument, no secret, default scopes, device and token URLs on <org>.auth0.com under /oauth |
| ProviderAuth0.EndpointsIdentifyOrg | provider/auth0.go:13-14 | two organisations share endpoints exactly when they are the same organisation |
| ProviderOkta.NewAuth0 | provider/okta.go:9-18 | client id is the argument, no secret, default scopes, device and token URLs on <org>.auth0.com under /oauth2/v1 |
| ProviderOkta.EndpointsIdentifyOrg | provider/okta.go:13-14 | two organisations share endpoints exactly when they are the same organisation |
| ProviderRegistry.Lookup | provider/providers.go:9-16 | lookup succeeds exactly for "auth0" and "okta", returning their factories; any other name gives the single ErrNotFound |
| ProviderRegistry.RegistryDomain | provider/providers.go:13-16 | the table's domain is exactly {"auth0", "okta"}; lookup is case-sensitive |
| ProviderRegistry.TemplatesShareHostDifferInPaths | provider/okta.go:13-16 | for one organisation both templates use the same host, client id and scopes but differ in both paths |
| Auth0.Auth0Config | auth0.go:11-25 | client id is the argument, default scopes, issuer is audience plus "/", no HTTP client, no client secret and no organisation are set |
| Auth0.Auth0Endpoints | auth0.go:16-23 | device, token, audience and JWKS URLs follow the <org>.auth0.com templates, and the oauth2 part equals provider/auth0.go's for the same org |
| Auth0.IssuerIsNotAudience | auth0.go:21-22 | issuer and audience are never equal |
| Auth0.AudienceIdentifiesOrg | auth0.go:21 | two organisations share an audience exactly when they are the same organisation |
| Auth0.AcmeExample | auth0.go:16-21 | for org "acme": https://acme.auth0.com/oauth/device/code, https://acme.auth0.com/oauth/token, audience https://acme.auth0.com |
| Okta.OktaConfig | okta.go:18-33 | client id is the argument, default scopes, issuer equals audience, a fresh zero client, the organisation is stored, and no client secret and no URI are set |
| Okta.OktaEndpointsUnderRoot | okta.go:23-30 | audience is https://<org>.okta.com and the device, token and key URLs sit under it at /oauth2/v1/... |
| Okta.NewOktaOnlineValidator | okta.go:36-41 | the validator shares the config and introspects at https://<org>.okta.com/oauth2/v1/introspect |
| Okta.IntrospectionBesideTokenEndpoint | okta.go:36-41 | for an Okta.Config config the introspection URL is the audience plus /oauth2/v1/introspect |
| Okta.Initialize | okta.go:48-50 | initialization always succeeds |
| Okta.Valid | okta.go:143-161 | accepted iff active, client id matches, audience matches and now is not after exp; inactive fails first, then client id (reported as an issuer error), then audience, then expiry |
| Okta.Validate | okta.go:52-59 | an introspection error is returned as is; otherwise the verdict is exactly Valid against the validator's config |
| Okta.VerdictIgnoresOtherFields | okta.go:126-161 | responses that agree on active, client_id, aud and exp get the same verdict; with equal iss, the same error |
| Okta.ExpiryBoundary | okta.go:156-158 | a token is valid at exactly its exp second and expired one nanosecond later |
| Providers.NewProvider | providers.go:9-18 | "okta" gives Okta, "auth0" gives Auth0, any other name gives no provider |
| Providers.LookupsAgreeOnNames | providers.go:9-18 | NewProvider accepts exactly the names the registry table holds |
| Bytes.LittleEndianZeroPadding | validator.go:119-122 | zero bytes appended at the end do not change a little-endian value |
| Bytes.LittleEndianIsReversedBigEndian | validator.go:123 | reading little-endian equals reading the reversed bytes big-endian |
| Bytes.LittleEndianBound | validator.go:123 | a little-endian value of k bytes is below 256^k |
| Bytes.PadTo8 | validator.go:119-122 | shorter byte strings are extended with zeros to exactly 8 bytes and longer ones are kept, the original bytes in front |
| Bytes.Uint64LE | validator.go:123 | the uint64 read is below 2^64 |
| Bytes.GoInt | validator.go:123 | the Go int conversion lies in the int64 range and is congruent to the uint64 modulo 2^64 |
| Base64Url.DecodeSextets | validator.go:108 | decoding fails exactly when one character is left over, and otherwise yields floor(3n/4) bytes |
| Base64Url.Sextets | validator.go:108 | decoding characters succeeds exactly when every character is in the URL-safe alphabet |
| Base64Url.DecodeEncode | validator.go:108 | decoding the RFC 4648 section 5 unpadded encoding of any bytes gives the bytes back |
| Base64Url.Decode | validator.go:108 | DecodeString accepts exactly the strings whose characters are all CR, LF or in the URL-safe alphabet and whose count of alphabet characters is not 1 mod 4; it then yields floor(3n/4) bytes for n such characters |
| Base64Url.StrippedInAlphabet | validator.go:108 | after skipping CR and LF, the remaining characters are all in the alphabet iff every character of the input is CR, LF or in the alphabet |
| Base64Url.FinalGroupLowBitsIgnored | validator.go:108 | in a final group of two or three characters, the low bits of the last character that no kept byte uses do not change the decoded bytes |
| Base64Url.KnownDecodings | validator.go:114 | "AQAB" decodes to 01 00 01 and "AQA" to 01 00 |
| Validator.Exponent | validator.go:114-123 | the exponent lies in the 64-bit int range and is congruent modulo 2^64 to the little-endian value of the first 8 bytes after zero padding, which determines it uniquely |
| Validator.DecodeKey | validator.go:107-123 | a key decodes iff n and e are valid base64url; then the modulus is the big-endian value of n's bytes and the exponent is Exponent of e's bytes; otherwise the error is the base64 error |
| Validator.LoadKeysWith | validator.go:106-126 | the loop succeeds iff every entry decodes; otherwise its error is that of the first entry in list order that does not decode |
| Validator.LoadKeys | validator.go:106-126 | with the source's decoder, loading succeeds iff every entry's n and e decode, else it fails with the base64 error |
| Validator.LoadedKids | validator.go:88-127 | a loaded key set's domain is exactly the set of kids in the list |
| Validator.LastEntryWins | validator.go:125 | for a duplicated kid, the key of its last entry in list order is stored |
| Validator.MetadataIgnored | validator.go:31-40 | alg, kty, use, x5t and x5c never affect the loaded key set |
| Validator.NewOfflineValidator | validator.go:46-48 | a new offline validator shares the config and holds no keys |
| Validator.Initialize | validator.go:86-130 | on a fetch error the validator is unchanged and that error returned; on an entry that does not decode it is unchanged and the base64 error returned; on success its keys are replaced by the freshly loaded set, whose domain is the list's kids |
| Validator.Validate | validator.go:50-84 | an absent kid fails as "parsing token: unknown key id"; success iff parse, signature with the kid's key, token.Valid, claims type, issuer, audience and claims.Valid all pass; the first failing check in that order decides the error: the parser's reason, unknown key id, "invalid token", "invalid claims", "invalid issuer <issuer>", "invalid audience <audience>" or claims.Valid's own error |
| KeyProperties.ExponentIgnoresHighBytes | validator.go:119-123 | bytes past index 7 of the decoded exponent do not affect it |
| KeyProperties.ShortExponentIsLittleEndian | validator.go:119-123 | up to 7 bytes, the exponent is the non-negative little-endian value of the bytes |
| KeyProperties.PalindromeExponentsAgree | validator.go:119-123 | for palindromic byte strings of at most 7 bytes the code's reading equals the RFC 7518 big-endian one |
| KeyProperties.AqabIs65537 | validator.go:114-123 | e = "AQAB" gives 65537 under both readings |
| KeyProperties.TwoByteExponentsDisagree | validator.go:119-123 | e = "AQA" gives 1 in the code but 256 by RFC 7518 |
| KeyProperties.LeadingZerosIgnored | validator.go:112 | a leading zero byte of n does not change the modulus |
| KeyProperties.OnlyTheTokensKeyMatters | validator.go:52-58 | two key stores that agree on the token's kid give the same verdict |
| KeyProperties.InitializeReplacesKeys | validator.go:88-127 | after a successful Initialize the verdict does not depend on the keys held before |
| KeyProperties.KidSelectsKey | validator.go:52-83 | an unknown kid fails as unknown key id; a known kid whose checks all pass is accepted |

## Left out

- HTTP and JSON: `RequestCode`, both `postForm` functions, the GET in the offline `Initialize`, and `Introspect` are network I/O. So are URL and query building, form encoding, header setting, body reading and closing, and logging. Their results enter the model as parameters (`polls`, `fetched`, `introspected`).
- The jwt library (`jwt.Parse`, signature verification, `token.Valid`, `VerifyIssuer`, `VerifyAudience`, `claims.Valid`) is foreign code. It enters as the fields of a `Jwt` value. Its internal order of claim and key checks is not modelled.
- The `token.Header["kid"].(string)` assertion (validator.go:53) panics on a missing or non-string kid. The model takes the kid as a string.
- `crypto/rsa` and `math/big`: a public key is a (natural modulus, integer exponent) pair.
- Clocks and contexts: `time.After` and `ctx.Done` become a per-poll cancellation flag. `time.Now` becomes an integer `now` in Unix nanoseconds. The kind of context error (cancelled or deadline) is not distinguished.
- `Refresh` and `Revoke` only return "not implemented" (auth.go:121-127).
- The tests (auth_test.go, validator_test.go, okta_test.go) need the network and credentials. example/main.go is a CLI that prints instructions.
- The provider package's own `DefaultScopes` is not part of this model. Both packages are taken to use the list at providers.go:3.
- Polling.Loop: the interval is an unbounded integer. The int64 overflow of `Interval *= 2` (auth.go:105) and of `time.Duration(...) * time.Second` (auth.go:115) is not modelled, so the doubling law holds only while those stay in range.
- Validator.LoadKeys: a base64 error is `CorruptBase64` without the byte offset that `CorruptInputError` carries.
- Validator.Exponent: assumes a 64-bit `int`. On a 32-bit platform the conversion would truncate further.
- Auth.NewAuthorizer: pointer identity is not modelled. The caller's `*Config` and the authorizer's are one object, represented by the single returned value.
