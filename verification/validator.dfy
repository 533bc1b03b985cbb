/** validator.go: the JWKS key store and the offline validator.

    The HTTP GET of the key set and its JSON decoding are replaced by their
    result (`fetched`).  The jwt library is not modelled: what it concludes
    about a token is given as a `Jwt` value, and only the key lookup and the
    order of the checks are the model's own. */
module Validator {

  import opened Wrappers
  import opened Errors
  import opened Bytes
  import Base64Url
  import opened Auth

  /** One entry of the JWKS document. */
  datatype Key = Key(
    alg: string,
    kty: string,
    use: string,
    n: string,
    e: string,
    kid: string,
    x5t: string,
    x5c: seq<string>)

  /** rsa.PublicKey: the modulus as an unbounded natural, the exponent as a
      Go int. */
  datatype PublicKey = PublicKey(n: nat, e: int)

  /** The exponent as the source computes it from the decoded bytes of `e`:
      zero-padded at the end to eight bytes, read little-endian as a uint64,
      converted to int. */
  function Exponent(eBytes: seq<byte>): (x: int)
    ensures -0x8000_0000_0000_0000 <= x < 0x8000_0000_0000_0000
    ensures x % 0x1_0000_0000_0000_0000 == LittleEndian(PadTo8(eBytes)[..8])
  {
    GoInt(Uint64LE(PadTo8(eBytes)))
  }

  /** The exponent as section 6.3.1.2 of RFC 7518 defines it: the unsigned
      big-endian value of the decoded bytes (Base64urlUInt, section 2). */
  function StandardExponent(eBytes: seq<byte>): nat
  {
    BigEndian(eBytes)
  }

  /** One iteration of the key loop: decode n, then e. */
  function DecodeKey(k: Key): (r: Result<PublicKey, Error>)
    ensures r.Success? <==> Base64Url.Decode(k.n).Some? && Base64Url.Decode(k.e).Some?
    ensures r.Failure? ==> r.error == CorruptBase64
    ensures r.Success? ==> r.value.n == BigEndian(Base64Url.Decode(k.n).value)
    ensures r.Success? ==> r.value.e == Exponent(Base64Url.Decode(k.e).value)
  {
    match Base64Url.Decode(k.n)
    case None => Failure(CorruptBase64)
    case Some(nBytes) =>
      match Base64Url.Decode(k.e)
      case None => Failure(CorruptBase64)
      case Some(eBytes) => Success(PublicKey(BigEndian(nBytes), Exponent(eBytes)))
  }

  predicate Decodable(k: Key)
  {
    DecodeKey(k).Success?
  }

  /** keys[i] is the last entry in the list carrying its kid. */
  predicate LastWithKid(keys: seq<Key>, i: int)
    requires 0 <= i < |keys|
  {
    forall j :: i < j < |keys| ==> keys[j].kid != keys[i].kid
  }

  function Kids(keys: seq<Key>): set<string>
  {
    set i | 0 <= i < |keys| :: keys[i].kid
  }

  /** The loop of validator.go:106-126 into a fresh map, for a given per-key
      decoder: the first entry that does not decode aborts with its error and
      no key set at all. */
  function LoadKeysWith(decode: Key -> Result<PublicKey, Error>, keys: seq<Key>): (r: Result<map<string, PublicKey>, Error>)
    decreases |keys|
    ensures r.Success? <==> forall i :: 0 <= i < |keys| ==> decode(keys[i]).Success?
    ensures r.Failure? ==>
              exists i :: && 0 <= i < |keys|
                          && decode(keys[i]).Failure?
                          && r.error == decode(keys[i]).error
                          && forall j :: 0 <= j < i ==> decode(keys[j]).Success?
  {
    if |keys| == 0 then Success(map[])
    else
      var last := keys[|keys| - 1];
      match LoadKeysWith(decode, keys[..|keys| - 1])
      case Failure(e) => Failure(e)
      case Success(m) =>
        match decode(last)
        case Failure(e) => Failure(e)
        case Success(pk) => Success(m[last.kid := pk])
  }

  /** The key loop with the source's decoder. */
  function LoadKeys(keys: seq<Key>): (r: Result<map<string, PublicKey>, Error>)
    ensures r.Success? <==> forall i :: 0 <= i < |keys| ==> Decodable(keys[i])
    ensures r.Failure? ==> r.error == CorruptBase64
  {
    LoadKeysWith(DecodeKey, keys)
  }

  lemma KidsOfSnoc(keys: seq<Key>)
    requires |keys| >= 1
    ensures Kids(keys) == Kids(keys[..|keys| - 1]) + {keys[|keys| - 1].kid}
  {
    var init := keys[..|keys| - 1];
    forall x | x in Kids(keys)
      ensures x in Kids(init) + {keys[|keys| - 1].kid}
    {
      var i :| 0 <= i < |keys| && keys[i].kid == x;
      if i < |keys| - 1 { assert init[i] == keys[i]; }
    }
    forall x | x in Kids(init)
      ensures x in Kids(keys)
    {
      var i :| 0 <= i < |init| && init[i].kid == x;
      assert keys[i] == init[i];
    }
  }

  /** A loaded key set holds exactly the kids of the list: nothing from an
      earlier key set, nothing missing. */
  lemma {:induction false} LoadedKids(decode: Key -> Result<PublicKey, Error>, keys: seq<Key>)
    requires LoadKeysWith(decode, keys).Success?
    ensures LoadKeysWith(decode, keys).value.Keys == Kids(keys)
    decreases |keys|
  {
    if |keys| > 0 {
      LoadedKids(decode, keys[..|keys| - 1]);
      KidsOfSnoc(keys);
    }
  }

  /** For a kid listed more than once, the last entry in list order wins. */
  lemma {:induction false} LastEntryWins(decode: Key -> Result<PublicKey, Error>, keys: seq<Key>, i: nat)
    requires LoadKeysWith(decode, keys).Success?
    requires i < |keys| && LastWithKid(keys, i)
    ensures keys[i].kid in LoadKeysWith(decode, keys).value
    ensures LoadKeysWith(decode, keys).value[keys[i].kid] == decode(keys[i]).value
    decreases |keys|
  {
    var n := |keys| - 1;
    if i < n {
      var init := keys[..n];
      assert init[i] == keys[i];
      assert LastWithKid(init, i) by {
        forall j | i < j < |init| ensures init[j].kid != init[i].kid {
          assert init[j] == keys[j];
        }
      }
      LastEntryWins(decode, init, i);
      assert keys[n].kid != keys[i].kid;
    }
  }

  /** Only n, e and kid matter: two lists that agree on those load the same
      key set, whatever their alg, kty, use, x5t and x5c. */
  lemma {:induction false} MetadataIgnored(a: seq<Key>, b: seq<Key>)
    requires |a| == |b|
    requires forall i :: 0 <= i < |a| ==> a[i].n == b[i].n && a[i].e == b[i].e && a[i].kid == b[i].kid
    ensures LoadKeysWith(DecodeKey, a) == LoadKeysWith(DecodeKey, b)
    decreases |a|
  {
    if |a| > 0 {
      MetadataIgnored(a[..|a| - 1], b[..|b| - 1]);
      assert DecodeKey(a[|a| - 1]) == DecodeKey(b[|b| - 1]);
    }
  }

  /** OfflineValidator: the shared config and the current key store (a nil
      map is the empty map: every lookup misses). */
  datatype OfflineValidator = OfflineValidator(config: Config, keys: map<string, PublicKey>)

  function NewOfflineValidator(cfg: Config): (v: OfflineValidator)
    ensures v.config == cfg && v.keys == map[]
  {
    OfflineValidator(cfg, map[])
  }

  datatype Initialized = Initialized(validator: OfflineValidator, err: Option<Error>)

  /** Initialize, after the GET of config.keyURI: `fetched` is the decoded
      key list or the transport/JSON error.  On any error the stored keys are
      left as they were; on success they are replaced, never merged. */
  function Initialize(v: OfflineValidator, fetched: Result<seq<Key>, Error>): (r: Initialized)
    ensures r.validator.config == v.config
    ensures r.err.Some? ==> r.validator == v
    ensures fetched.Failure? ==> r.err == Some(fetched.error)
    ensures fetched.Success? && r.err.Some? ==> r.err == Some(CorruptBase64)
    ensures r.err.None? <==> fetched.Success? && forall i :: 0 <= i < |fetched.value| ==> Decodable(fetched.value[i])
    ensures r.err.None? ==> r.validator.keys == LoadKeys(fetched.value).value
    ensures r.err.None? ==> r.validator.keys.Keys == Kids(fetched.value)
  {
    match fetched
    case Failure(e) => Initialized(v, Some(e))
    case Success(keys) =>
      match LoadKeys(keys)
      case Failure(e) => Initialized(v, Some(e))
      case Success(m) =>
        LoadedKids(DecodeKey, keys);
        Initialized(v.(keys := m), None)
  }

  /** What the jwt library concludes about a token string.  `kid` is the
      header's kid; the source asserts it is a string and panics otherwise,
      which is not modelled. */
  datatype Jwt = Jwt(
    malformed: Option<string>,
    kid: string,
    verify: PublicKey -> Option<string>,
    valid: bool,
    mapClaims: bool,
    verifyIssuer: string -> bool,
    verifyAudience: string -> bool,
    claimsValid: Option<string>)

  /** jwt.Parse succeeded: the token is well formed, its kid is known and
      the signature verifies under that key. */
  predicate Parsed(v: OfflineValidator, t: Jwt)
  {
    t.malformed.None? && t.kid in v.keys && t.verify(v.keys[t.kid]).None?
  }

  /** Validate: parse with the key looked up by kid (a miss is "unknown key
      id", wrapped as a parsing error), then token.Valid, the claims type,
      the issuer, the audience and claims.Valid, in that order; the first
      failing check decides the error. */
  function Validate(v: OfflineValidator, t: Jwt): (r: Outcome<Error>)
    ensures r.Pass? <==>
              && Parsed(v, t)
              && t.valid && t.mapClaims
              && t.verifyIssuer(v.config.issuer)
              && t.verifyAudience(v.config.audience)
              && t.claimsValid.None?
    // one clause per check, each assuming every earlier check passed
    ensures t.malformed.Some? ==> r == Fail(ParsingToken(Library(t.malformed.value)))
    ensures t.malformed.None? && t.kid !in v.keys ==> r == Fail(ParsingToken(UnknownKeyId(t.kid)))
    ensures t.malformed.None? && t.kid in v.keys && t.verify(v.keys[t.kid]).Some? ==>
              r == Fail(ParsingToken(Library(t.verify(v.keys[t.kid]).value)))
    ensures Parsed(v, t) && !t.valid ==> r == Fail(InvalidToken)
    ensures Parsed(v, t) && t.valid && !t.mapClaims ==> r == Fail(InvalidClaims)
    ensures Parsed(v, t) && t.valid && t.mapClaims && !t.verifyIssuer(v.config.issuer) ==>
              r == Fail(InvalidIssuer(v.config.issuer))
    ensures Parsed(v, t) && t.valid && t.mapClaims && t.verifyIssuer(v.config.issuer)
            && !t.verifyAudience(v.config.audience) ==>
              r == Fail(InvalidAudience(v.config.audience))
    ensures Parsed(v, t) && t.valid && t.mapClaims && t.verifyIssuer(v.config.issuer)
            && t.verifyAudience(v.config.audience) && t.claimsValid.Some? ==>
              r == Fail(ClaimsRejected(t.claimsValid.value))
  {
    if t.malformed.Some? then Fail(ParsingToken(Library(t.malformed.value)))
    else if t.kid !in v.keys then Fail(ParsingToken(UnknownKeyId(t.kid)))
    else if t.verify(v.keys[t.kid]).Some? then Fail(ParsingToken(Library(t.verify(v.keys[t.kid]).value)))
    else if !t.valid then Fail(InvalidToken)
    else if !t.mapClaims then Fail(InvalidClaims)
    else if !t.verifyIssuer(v.config.issuer) then Fail(InvalidIssuer(v.config.issuer))
    else if !t.verifyAudience(v.config.audience) then Fail(InvalidAudience(v.config.audience))
    else if t.claimsValid.Some? then Fail(ClaimsRejected(t.claimsValid.value))
    else Pass
  }
}
