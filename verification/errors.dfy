/** The error values the core can return.  Go builds most of them with
    `errors.New` or `fmt.Errorf`; here each is a constructor carrying the data
    the message is formatted from, and `Message` renders the text. */
module Errors {

  import opened Wrappers

  /** Why `jwt.Parse` failed: the key callback's own error, or one raised by
      the jwt library itself. */
  datatype ParseCause =
    | UnknownKeyId(kid: string)
    | Library(reason: string)

  datatype Error =
      /** provider.ErrNotFound */
    | ProviderNotFound
      /** ErrAccessDenied */
    | AccessDenied
      /** "authorization failed: <code>" for an unrecognised poll error code */
    | AuthorizationFailed(code: string)
      /** ctx.Err() after the caller cancelled or the deadline passed */
    | ContextDone
      /** the JSON decoder rejected a response body */
    | ResponseDecode(reason: string)
      /** an HTTP transport failure, or a JWKS document that did not decode */
    | Transport(reason: string)
      /** base64.CorruptInputError from the RawURLEncoding decoder */
    | CorruptBase64
      /** "parsing token: %w" around the cause */
    | ParsingToken(cause: ParseCause)
    | InvalidToken
    | InvalidClaims
      /** "invalid issuer <configured issuer>" */
    | InvalidIssuer(expected: string)
      /** "invalid audience <configured audience>" */
    | InvalidAudience(expected: string)
      /** the error returned by claims.Valid() */
    | ClaimsRejected(reason: string)
    | InactiveToken
      /** the client-id check; the source words it as an issuer error */
    | IncorrectIssuer(iss: string)
    | IncorrectAudience(aud: string)
      /** "expired: <time>", carrying the token's exp in Unix seconds */
    | Expired(exp: int)

  /** The fixed texts that head the two messages formatted around data. */
  const AuthorizationFailedPrefix := "authorization failed: "
  const UnknownKeyIdPrefix := "parsing token: unknown key id: "
  const ParsingTokenPrefix := "parsing token: "

  /** The text of an error whose wording the core fixes itself, at least in
      part; `None` for errors whose whole text comes from a library (json,
      base64, context, claims.Valid, time formatting).  A jwt parse failure
      keeps the library's reason behind the core's own "parsing token: ". */
  function Message(e: Error): (m: Option<string>)
    ensures e.AuthorizationFailed? ==>
              && m.Some? && |m.value| == |AuthorizationFailedPrefix| + |e.code|
              && m.value[..|AuthorizationFailedPrefix|] == AuthorizationFailedPrefix
              && m.value[|AuthorizationFailedPrefix|..] == e.code
    ensures e.ParsingToken? && e.cause.UnknownKeyId? ==>
              && m.Some? && |m.value| == |UnknownKeyIdPrefix| + |e.cause.kid|
              && m.value[..|UnknownKeyIdPrefix|] == UnknownKeyIdPrefix
              && m.value[|UnknownKeyIdPrefix|..] == e.cause.kid
    ensures e.ParsingToken? && e.cause.Library? ==>
              && m.Some? && |m.value| == |ParsingTokenPrefix| + |e.cause.reason|
              && m.value[..|ParsingTokenPrefix|] == ParsingTokenPrefix
              && m.value[|ParsingTokenPrefix|..] == e.cause.reason
  {
    match e
    case ProviderNotFound => Some("provider not found")
    case AccessDenied => Some("access denied by user")
    case AuthorizationFailed(code) => Some(AuthorizationFailedPrefix + code)
    case ParsingToken(UnknownKeyId(kid)) => Some(UnknownKeyIdPrefix + kid)
    case ParsingToken(Library(reason)) => Some(ParsingTokenPrefix + reason)
    case InvalidToken => Some("invalid token")
    case InvalidClaims => Some("invalid claims")
    case InvalidIssuer(expected) => Some("invalid issuer " + expected)
    case InvalidAudience(expected) => Some("invalid audience " + expected)
    case InactiveToken => Some("inactive token")
    case IncorrectIssuer(iss) => Some("incorrect issuer: " + iss)
    case IncorrectAudience(aud) => Some("incorrect audience: " + aud)
    case _ => None
  }

  /** A caller reading only the text can recover the unrecognised poll
      error code, and never mistakes it for the user's denial. */
  lemma AuthorizationFailedMessages(a: string, b: string)
    ensures Message(AuthorizationFailed(a)) == Message(AuthorizationFailed(b)) <==> a == b
    ensures Message(AuthorizationFailed(a)) != Message(AccessDenied)
  {
    var ma := Message(AuthorizationFailed(a)).value;
    var mb := Message(AuthorizationFailed(b)).value;
    if ma == mb {
      assert a == ma[|AuthorizationFailedPrefix|..] == b;
    }
    assert ma[1] == AuthorizationFailedPrefix[1] == 'u';
    assert Message(AccessDenied).value[1] == 'c';
  }

  /** The same for the unknown-kid parsing error: the text names the kid. */
  lemma UnknownKeyIdMessages(a: string, b: string)
    ensures Message(ParsingToken(UnknownKeyId(a))) == Message(ParsingToken(UnknownKeyId(b))) <==> a == b
  {
    var ma := Message(ParsingToken(UnknownKeyId(a))).value;
    var mb := Message(ParsingToken(UnknownKeyId(b))).value;
    if ma == mb {
      assert a == ma[|UnknownKeyIdPrefix|..] == b;
    }
  }
}
