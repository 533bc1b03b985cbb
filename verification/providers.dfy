/** providers.go: the closed set of provider kinds and their lookup by
    name. */
module Providers {

  import opened Wrappers
  import opened Auth
  import Auth0
  import Okta
  import ProviderRegistry

  datatype Provider = OktaProvider | Auth0Provider
  {
    /** Provider.Config(org, clientID): dispatches to `Okta.OktaConfig` or
        `Auth0.Auth0Config`, whose contracts state the configurations. */
    function Config(org: string, clientID: string): Auth.Config
    {
      match this
      case OktaProvider => Okta.OktaConfig(org, clientID)
      case Auth0Provider => Auth0.Auth0Config(org, clientID)
    }
  }

  /** NewProvider(name).  The source panics on any other name; here that is
      `None`: no provider is returned. */
  function NewProvider(name: string): (p: Option<Provider>)
    ensures name == "okta" <==> p == Some(OktaProvider)
    ensures name == "auth0" <==> p == Some(Auth0Provider)
    ensures p.None? <==> name != "okta" && name != "auth0"
  {
    if name == "okta" then Some(OktaProvider)
    else if name == "auth0" then Some(Auth0Provider)
    else None
  }

  /** The closed switch and the registry table accept the same names. */
  lemma LookupsAgreeOnNames(name: string)
    ensures NewProvider(name).Some? <==> name in ProviderRegistry.Providers
  {
  }
}
