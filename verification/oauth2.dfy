/** The parts of golang.org/x/oauth2 the core touches: the client
    configuration record, its endpoint pair, and the token it obtains. */
module OAuth2 {

  datatype Endpoint = Endpoint(authURL: string, tokenURL: string)

  /** oauth2.Config; fields the core never sets (RedirectURL, AuthStyle) are
      not represented.  An unset ClientSecret is the empty string. */
  datatype OAuth2Config = OAuth2Config(
    clientID: string,
    clientSecret: string,
    endpoint: Endpoint,
    scopes: seq<string>)

  /** oauth2.Token as decoded from a token-endpoint response. */
  datatype Token = Token(
    accessToken: string,
    tokenType: string,
    refreshToken: string,
    expiresIn: int)

  /** The zero value of oauth2.Token. */
  const EmptyToken := Token("", "", "", 0)

  /** url.Values: each form field name maps to its list of values. */
  type FormValues = map<string, seq<string>>
}
