/** okta.go: the Okta provider configuration and the online validator that
    asks Okta's introspection endpoint about a token.

    The introspection HTTP call (URL query building, the POST, the status
    check and JSON decoding) is replaced by its result, and the clock by
    `now`, the current time in Unix nanoseconds. */
module Okta {

  import opened Wrappers
  import opened OAuth2
  import opened Errors
  import opened Auth
  import Scopes
  import Urls

  /** Okta.Config(org, clientID): issuer and audience are both the tenant
      root; the key set lives under /oauth2/v1/keys; a fresh zero-valued HTTP
      client is installed and the organisation is remembered. */
  function OktaConfig(org: string, clientID: string): (c: Config)
    ensures c.oauth2.clientID == clientID
    ensures c.oauth2.scopes == Scopes.DefaultScopes
    ensures c.issuer == c.audience
    ensures c.client == Some(ZeroClient)
    ensures c.org == org
    // no client secret and no URI are set
    ensures c.oauth2.clientSecret == "" && c.uri == ""
  {
    var root := Urls.OrgUrl(org, ".okta.com");
    Config(
      OAuth2Config(
        clientID,
        "",
        Endpoint(Urls.OrgUrl(org, ".okta.com" + "/oauth2/v1/device/authorize"),
                 Urls.OrgUrl(org, ".okta.com" + "/oauth2/v1/token")),
        Scopes.DefaultScopes),
      root,
      root,
      Urls.OrgUrl(org, ".okta.com" + "/oauth2/v1/keys"),
      "",
      Some(ZeroClient),
      org)
  }

  /** Every Okta endpoint sits under the tenant root. */
  lemma OktaEndpointsUnderRoot(org: string, clientID: string)
    ensures var c := OktaConfig(org, clientID);
            && c.audience == "https://" + org + ".okta.com"
            && c.oauth2.endpoint.authURL == c.audience + "/oauth2/v1/device/authorize"
            && c.oauth2.endpoint.tokenURL == c.audience + "/oauth2/v1/token"
            && c.keyURI == c.audience + "/oauth2/v1/keys"
  {
    Urls.OrgUrlExtends(org, ".okta.com", "/oauth2/v1/device/authorize");
    Urls.OrgUrlExtends(org, ".okta.com", "/oauth2/v1/token");
    Urls.OrgUrlExtends(org, ".okta.com", "/oauth2/v1/keys");
  }

  datatype OktaOnlineValidator = OktaOnlineValidator(config: Config, introspectionURI: string)

  /** NewOktaOnlineValidator(cfg): the introspection endpoint is derived from
      the remembered organisation, not from any URL in the config. */
  function NewOktaOnlineValidator(cfg: Config): (v: OktaOnlineValidator)
    ensures v.config == cfg
    ensures v.introspectionURI == "https://" + cfg.org + ".okta.com" + "/oauth2/v1/introspect"
  {
    Urls.OrgUrlExtends(cfg.org, ".okta.com", "/oauth2/v1/introspect");
    OktaOnlineValidator(cfg, Urls.OrgUrl(cfg.org, ".okta.com" + "/oauth2/v1/introspect"))
  }

  /** For a configuration built by Okta.Config the introspection endpoint
      sits beside the token endpoint under the tenant root. */
  lemma IntrospectionBesideTokenEndpoint(org: string, clientID: string)
    ensures var c := OktaConfig(org, clientID);
            NewOktaOnlineValidator(c).introspectionURI == c.audience + "/oauth2/v1/introspect"
  {
    Urls.OrgUrlExtends(org, ".okta.com", "/oauth2/v1/introspect");
  }

  /** Initialize is a no-op that always succeeds. */
  function Initialize(v: OktaOnlineValidator): (r: Outcome<Error>)
    ensures r.Pass?
  {
    Pass
  }

  /** OktaIntrospectionResponse, field for field. */
  datatype IntrospectionResponse = IntrospectionResponse(
    active: bool,
    scope: string,
    username: string,
    exp: int,
    nbf: int,
    iat: int,
    sub: string,
    aud: string,
    iss: string,
    jti: string,
    tokenType: string,
    clientId: string,
    deviceId: string,
    uid: string)

  const NanosPerSecond := 1_000_000_000

  /** time.Now().After(time.Unix(exp, 0)): strictly later than the start of
      second `exp`. */
  predicate After(now: int, exp: int)
  {
    now > exp * NanosPerSecond
  }

  /** OktaIntrospectionResponse.Valid(cfg): active, then the client id, then
      the audience, then expiry; the first failing check decides the error. */
  function Valid(i: IntrospectionResponse, cfg: Config, now: int): (r: Outcome<Error>)
    ensures r.Pass? <==>
              i.active && i.clientId == cfg.oauth2.clientID && i.aud == cfg.audience && now <= i.exp * NanosPerSecond
    ensures !i.active ==> r == Fail(InactiveToken)
    ensures i.active && i.clientId != cfg.oauth2.clientID ==> r == Fail(IncorrectIssuer(i.iss))
    ensures i.active && i.clientId == cfg.oauth2.clientID && i.aud != cfg.audience ==> r == Fail(IncorrectAudience(i.aud))
    ensures (i.active && i.clientId == cfg.oauth2.clientID && i.aud == cfg.audience && now > i.exp * NanosPerSecond)
              ==> r == Fail(Expired(i.exp))
  {
    if !i.active then Fail(InactiveToken)
    else if i.clientId != cfg.oauth2.clientID then Fail(IncorrectIssuer(i.iss))
    else if i.aud != cfg.audience then Fail(IncorrectAudience(i.aud))
    else if After(now, i.exp) then Fail(Expired(i.exp))
    else Pass
  }

  /** OktaOnlineValidator.Validate: an introspection error is returned as is,
      otherwise the verdict is exactly Valid against the validator's config. */
  function Validate(v: OktaOnlineValidator, introspected: Result<IntrospectionResponse, Error>, now: int): (r: Outcome<Error>)
    ensures introspected.Failure? ==> r == Fail(introspected.error)
    ensures introspected.Success? ==> r == Valid(introspected.value, v.config, now)
  {
    match introspected
    case Failure(e) => Fail(e)
    case Success(i) => Valid(i, v.config, now)
  }

  /** Only active, client_id, aud and exp decide whether a response is
      accepted; iss still appears in the client-id error text. */
  lemma VerdictIgnoresOtherFields(i: IntrospectionResponse, j: IntrospectionResponse, cfg: Config, now: int)
    requires i.active == j.active && i.clientId == j.clientId && i.aud == j.aud && i.exp == j.exp
    ensures Valid(i, cfg, now).Pass? == Valid(j, cfg, now).Pass?
    ensures i.iss == j.iss ==> Valid(i, cfg, now) == Valid(j, cfg, now)
  {
  }

  /** Expiry is strict: a token is still valid at exactly its exp second and
      rejected one nanosecond later. */
  lemma ExpiryBoundary(i: IntrospectionResponse, cfg: Config)
    requires i.active && i.clientId == cfg.oauth2.clientID && i.aud == cfg.audience
    ensures Valid(i, cfg, i.exp * NanosPerSecond) == Pass
    ensures Valid(i, cfg, i.exp * NanosPerSecond + 1) == Fail(Expired(i.exp))
  {
  }
}
