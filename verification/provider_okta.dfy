/** provider/okta.go.  In the source this function is also named NewAuth0,
    clashing with provider/auth0.go in the same Go package, while
    provider/providers.go refers to a NewOkta that does not exist; this module
    keeps the declared name and the registry maps "okta" to it.  Its host is
    the Auth0 domain, with Okta's endpoint paths. */
module ProviderOkta {

  import opened OAuth2
  import Scopes
  import Urls

  function NewAuth0(org: string, clientID: string): (c: OAuth2Config)
    ensures c.clientID == clientID
    ensures c.clientSecret == ""
    ensures c.scopes == Scopes.DefaultScopes
    ensures c.endpoint.authURL == "https://" + org + ".auth0.com/oauth2/v1/device/authorize"
    ensures c.endpoint.tokenURL == "https://" + org + ".auth0.com/oauth2/v1/token"
  {
    OAuth2Config(
      clientID,
      "",
      Endpoint(Urls.OrgUrl(org, ".auth0.com/oauth2/v1/device/authorize"),
               Urls.OrgUrl(org, ".auth0.com/oauth2/v1/token")),
      Scopes.DefaultScopes)
  }

  /** Distinct organisations never share a device or token endpoint. */
  lemma EndpointsIdentifyOrg(a: string, b: string, clientID: string)
    ensures NewAuth0(a, clientID).endpoint == NewAuth0(b, clientID).endpoint <==> a == b
  {
    if NewAuth0(a, clientID).endpoint == NewAuth0(b, clientID).endpoint {
      Urls.OrgUrlInjective(a, b, ".auth0.com/oauth2/v1/token");
    }
  }
}
