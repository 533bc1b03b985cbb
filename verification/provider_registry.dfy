/** provider/providers.go: the name -> oauth2-config factory table. */
module ProviderRegistry {

  import opened Wrappers
  import opened OAuth2
  import opened Errors
  import ProviderAuth0
  import ProviderOkta
  import Urls

  /** A NewProviderFunc value: which template function a name is bound to. */
  datatype Factory = Auth0Factory | OktaFactory
  {
    function Build(org: string, clientID: string): OAuth2Config
    {
      match this
      case Auth0Factory => ProviderAuth0.NewAuth0(org, clientID)
      case OktaFactory => ProviderOkta.NewAuth0(org, clientID)
    }
  }

  /** Providers.  The source binds "okta" to NewOkta, which is undefined in
      the files modelled; the function provider/okta.go declares stands in. */
  const Providers: map<string, Factory> := map["auth0" := Auth0Factory, "okta" := OktaFactory]

  /** `fn, found := provider.Providers[name]`, with a miss reported as the
      single sentinel ErrNotFound. */
  function Lookup(name: string): (r: Result<Factory, Error>)
    ensures r.Success? <==> name == "auth0" || name == "okta"
    ensures r.Failure? ==> r.error == ProviderNotFound
    ensures name == "auth0" ==> r == Success(Auth0Factory)
    ensures name == "okta" ==> r == Success(OktaFactory)
  {
    if name in Providers then Success(Providers[name]) else Failure(ProviderNotFound)
  }

  /** The registry's domain is exactly the two lower-case names. */
  lemma RegistryDomain()
    ensures Providers.Keys == {"auth0", "okta"}
    ensures "Okta" !in Providers && "Auth0" !in Providers && "unknown" !in Providers
  {
  }

  /** For one organisation both templates use the same `<org>.auth0.com`
      host, but neither the device path nor the token path coincide. */
  lemma TemplatesShareHostDifferInPaths(org: string, clientID: string)
    ensures var a := ProviderAuth0.NewAuth0(org, clientID);
            var o := ProviderOkta.NewAuth0(org, clientID);
            var host := Urls.OrgUrl(org, ".auth0.com");
            && a.clientID == o.clientID && a.scopes == o.scopes
            && a.endpoint.authURL[..|host|] == host == o.endpoint.authURL[..|host|]
            && a.endpoint.tokenURL[..|host|] == host == o.endpoint.tokenURL[..|host|]
            && a.endpoint.authURL != o.endpoint.authURL
            && a.endpoint.tokenURL != o.endpoint.tokenURL
  {
    var h := ".auth0.com";
    assert ".auth0.com/oauth/device/code"[..10] == h by {}
    assert ".auth0.com/oauth2/v1/device/authorize"[..10] == h by {}
    assert ".auth0.com/oauth/token"[..10] == h by {}
    assert ".auth0.com/oauth2/v1/token"[..10] == h by {}
    Urls.OrgUrlPrefix(org, h, ".auth0.com/oauth/device/code");
    Urls.OrgUrlPrefix(org, h, ".auth0.com/oauth2/v1/device/authorize");
    Urls.OrgUrlPrefix(org, h, ".auth0.com/oauth/token");
    Urls.OrgUrlPrefix(org, h, ".auth0.com/oauth2/v1/token");
    Urls.OrgUrlsDiffer(org, ".auth0.com/oauth/device/code", ".auth0.com/oauth2/v1/device/authorize");
    Urls.OrgUrlsDiffer(org, ".auth0.com/oauth/token", ".auth0.com/oauth2/v1/token");
  }
}
