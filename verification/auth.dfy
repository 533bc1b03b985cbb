/** auth.go, everything except the polling loop: the shared configuration
    record, its construction from the provider registry, the authorizer that
    wraps it, and the two form bodies sent to the provider. */
module Auth {

  import opened Wrappers
  import opened OAuth2
  import opened Errors
  import ProviderRegistry
  import Scopes

  /** Which *http.Client a configuration holds.  The core only ever stores
      http.DefaultClient or a fresh zero-valued &http.Client{}. */
  datatype Client = DefaultClient | ZeroClient

  /** Config.  The revisions of the source disagree on its fields: auth.go
      declares only OAuth2Config and client, while auth0.go and okta.go also
      set Audience, Issuer, KeyURI, URI and org.  This record holds the union;
      a field a constructor does not set is its zero value ("" or None). */
  datatype Config = Config(
    oauth2: OAuth2Config,
    audience: string,
    issuer: string,
    keyURI: string,
    uri: string,
    client: Option<Client>,
    org: string)

  /** A Config with only the oauth2 part set, as a composite literal naming
      just OAuth2Config would build it. */
  function ConfigOf(oauth2: OAuth2Config, client: Option<Client>): Config
  {
    Config(oauth2, "", "", "", "", client, "")
  }

  /** NewConfig(providerName, org, clientID): an unknown name is ErrNotFound
      with no configuration; a known one applies its factory and installs the
      default HTTP client. */
  function NewConfig(providerName: string, org: string, clientID: string): (r: Result<Config, Error>)
    ensures r.Failure? <==> providerName !in ProviderRegistry.Providers
    ensures r.Failure? ==> r.error == ProviderNotFound
    ensures r.Success? ==>
              && r.value.oauth2 == ProviderRegistry.Providers[providerName].Build(org, clientID)
              && r.value.client == Some(DefaultClient)
              && r.value.oauth2.clientID == clientID
    // the struct literal sets only OAuth2Config and client
    ensures r.Success? ==>
              r.value.audience == r.value.issuer == r.value.keyURI == r.value.uri == r.value.org == ""
  {
    match ProviderRegistry.Lookup(providerName)
    case Failure(e) => Failure(e)
    case Success(factory) => Success(ConfigOf(factory.Build(org, clientID), Some(DefaultClient)))
  }

  /** Authorizer embeds the *Config it was given. */
  datatype Authorizer = Authorizer(config: Config)

  /** NewAuthorizer(config).  The source assigns the default client through
      the pointer, so the caller's Config and the authorizer's are one object:
      `a.config` is what the caller's pointer sees afterwards. */
  function NewAuthorizer(config: Config): (a: Authorizer)
    ensures config.client.None? ==> a.config.client == Some(DefaultClient)
    ensures config.client.Some? ==> a.config.client == config.client
    ensures a.config.(client := config.client) == config
  {
    if config.client.None? then Authorizer(config.(client := Some(DefaultClient)))
    else Authorizer(config)
  }

  /** Code: the device authorization response. */
  datatype Code = Code(
    deviceCode: string,
    userCode: string,
    verificationURI: string,
    verificationURIComplete: string,
    expiresIn: int,
    interval: int)

  /** GrantType, the device-code grant's URN (section 3.4 of RFC 8628). */
  const GrantType := "urn:ietf:params:oauth:grant-type:device_code"

  /** codeRequestValues: the device authorization request carries the client
      id and the space-joined scopes, and never an audience. */
  function CodeRequestValues(cfg: Config): (v: FormValues)
    ensures v.Keys == {"client_id", "scope"}
    ensures "audience" !in v
    ensures v["client_id"] == [cfg.oauth2.clientID]
    ensures v["scope"] == [Scopes.Join(cfg.oauth2.scopes, " ")]
    ensures Scopes.WireSafe(cfg.oauth2.scopes) ==> Scopes.Split(v["scope"][0]) == cfg.oauth2.scopes
  {
    var v := map["client_id" := [cfg.oauth2.clientID],
                 "scope" := [Scopes.Join(cfg.oauth2.scopes, " ")]];
    if Scopes.WireSafe(cfg.oauth2.scopes) then
      Scopes.SplitJoin(cfg.oauth2.scopes);
      v
    else
      v
  }

  /** waitValues: every token request carries exactly these four fields,
      the secret included even when it is empty. */
  function WaitValues(cfg: Config, deviceCode: string): (v: FormValues)
    ensures v.Keys == {"client_secret", "client_id", "device_code", "grant_type"}
    ensures v["client_secret"] == [cfg.oauth2.clientSecret]
    ensures v["client_id"] == [cfg.oauth2.clientID]
    ensures v["device_code"] == [deviceCode]
    ensures v["grant_type"] == ["urn:ietf:params:oauth:grant-type:device_code"]
  {
    map["client_secret" := [cfg.oauth2.clientSecret],
        "client_id" := [cfg.oauth2.clientID],
        "device_code" := [deviceCode],
        "grant_type" := [GrantType]]
  }

  /** Different device codes give different token requests, so each request
      names the code it polls for. */
  lemma WaitValuesIdentifyCode(cfg: Config, c1: string, c2: string)
    ensures WaitValues(cfg, c1) == WaitValues(cfg, c2) <==> c1 == c2
  {
    if WaitValues(cfg, c1) == WaitValues(cfg, c2) {
      assert WaitValues(cfg, c1)["device_code"] == [c1];
    }
  }

  /** A configuration from NewConfig for a registered name, handed to
      NewAuthorizer, is kept as is: its client is already set. */
  lemma AuthorizerKeepsNewConfigClient(providerName: string, org: string, clientID: string)
    requires NewConfig(providerName, org, clientID).Success?
    ensures NewAuthorizer(NewConfig(providerName, org, clientID).value).config
            == NewConfig(providerName, org, clientID).value
  {
  }
}
