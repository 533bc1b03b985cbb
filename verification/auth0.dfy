/** auth0.go: the provider configuration for an Auth0 tenant. */
module Auth0 {

  import opened Wrappers
  import opened OAuth2
  import opened Auth
  import Scopes
  import Urls
  import ProviderAuth0

  /** Auth0.Config(org, clientID).  The key-set location goes into URI, not
      KeyURI, and no HTTP client is set. */
  function Auth0Config(org: string, clientID: string): (c: Config)
    ensures c.oauth2.clientID == clientID
    ensures c.oauth2.scopes == Scopes.DefaultScopes
    ensures c.issuer == c.audience + "/"
    ensures c.client == None
    // no client secret and no organisation are set
    ensures c.oauth2.clientSecret == "" && c.org == ""
  {
    Urls.OrgUrlExtends(org, ".auth0.com", "/");
    Config(
      OAuth2Config(
        clientID,
        "",
        Endpoint(Urls.OrgUrl(org, ".auth0.com/oauth/device/code"),
                 Urls.OrgUrl(org, ".auth0.com/oauth/token")),
        Scopes.DefaultScopes),
      Urls.OrgUrl(org, ".auth0.com"),
      Urls.OrgUrl(org, ".auth0.com/"),
      "",
      Urls.OrgUrl(org, ".auth0.com/.well-known/jwks.json"),
      None,
      "")
  }

  /** The endpoints are the tenant's templates, and the device-flow
      endpoints coincide with provider/auth0.go's for the same
      organisation. */
  lemma Auth0Endpoints(org: string, clientID: string)
    ensures var c := Auth0Config(org, clientID);
            && c.oauth2.endpoint.authURL == "https://" + org + ".auth0.com/oauth/device/code"
            && c.oauth2.endpoint.tokenURL == "https://" + org + ".auth0.com/oauth/token"
            && c.audience == "https://" + org + ".auth0.com"
            && c.uri == "https://" + org + ".auth0.com/.well-known/jwks.json"
            && c.keyURI == ""
            && c.oauth2 == ProviderAuth0.NewAuth0(org, clientID)
  {
  }

  /** Issuer and audience differ only by the trailing slash, so they are
      never equal. */
  lemma IssuerIsNotAudience(org: string, clientID: string)
    ensures Auth0Config(org, clientID).issuer != Auth0Config(org, clientID).audience
  {
    var c := Auth0Config(org, clientID);
    assert |c.issuer| == |c.audience| + 1;
  }

  /** Distinct organisations get distinct audiences (and so distinct
      issuers). */
  lemma AudienceIdentifiesOrg(a: string, b: string, clientID: string)
    ensures Auth0Config(a, clientID).audience == Auth0Config(b, clientID).audience <==> a == b
  {
    if Auth0Config(a, clientID).audience == Auth0Config(b, clientID).audience {
      Urls.OrgUrlInjective(a, b, ".auth0.com");
    }
  }

  /** The worked example: organisation "acme". */
  lemma AcmeExample()
    ensures Auth0Config("acme", "id").oauth2.endpoint.authURL == "https://acme.auth0.com/oauth/device/code"
    ensures Auth0Config("acme", "id").oauth2.endpoint.tokenURL == "https://acme.auth0.com/oauth/token"
    ensures Auth0Config("acme", "id").audience == "https://acme.auth0.com"
  {
    AcmeDeviceUrl();
    AcmeTokenUrl();
    AcmeAudience();
  }

  lemma AcmeDeviceUrl()
    ensures "https://" + "acme" + ".auth0.com/oauth/device/code" == "https://acme.auth0.com/oauth/device/code"
  {
  }

  lemma AcmeTokenUrl()
    ensures "https://" + "acme" + ".auth0.com/oauth/token" == "https://acme.auth0.com/oauth/token"
  {
  }

  lemma AcmeAudience()
    ensures "https://" + "acme" + ".auth0.com" == "https://acme.auth0.com"
  {
  }
}
