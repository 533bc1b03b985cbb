/** provider/auth0.go: the oauth2 client template for an Auth0 tenant. */
module ProviderAuth0 {

  import opened OAuth2
  import Scopes
  import Urls

  /** NewAuth0(org, clientID).  No client secret is set, so it stays empty. */
  function NewAuth0(org: string, clientID: string): (c: OAuth2Config)
    ensures c.clientID == clientID
    ensures c.clientSecret == ""
    ensures c.scopes == Scopes.DefaultScopes
    ensures c.endpoint.authURL == "https://" + org + ".auth0.com/oauth/device/code"
    ensures c.endpoint.tokenURL == "https://" + org + ".auth0.com/oauth/token"
  {
    OAuth2Config(
      clientID,
      "",
      Endpoint(Urls.OrgUrl(org, ".auth0.com/oauth/device/code"),
               Urls.OrgUrl(org, ".auth0.com/oauth/token")),
      Scopes.DefaultScopes)
  }

  /** Distinct organisations never share a device or token endpoint. */
  lemma EndpointsIdentifyOrg(a: string, b: string, clientID: string)
    ensures NewAuth0(a, clientID).endpoint == NewAuth0(b, clientID).endpoint <==> a == b
  {
    if NewAuth0(a, clientID).endpoint == NewAuth0(b, clientID).endpoint {
      Urls.OrgUrlInjective(a, b, ".auth0.com/oauth/token");
    }
  }
}
