/** How the source's exponent reading relates to the standard one, and what
    the key store and offline validator depend on. */
module KeyProperties {

  import opened Wrappers
  import opened Errors
  import opened Bytes
  import Base64Url
  import opened Validator

  /** Bytes past index 7 of the decoded exponent are never read. */
  lemma ExponentIgnoresHighBytes(b: seq<byte>)
    requires |b| >= 8
    ensures Exponent(b) == Exponent(b[..8])
  {
    assert PadTo8(b)[..8] == PadTo8(b[..8])[..8];
  }

  /** Up to seven bytes, the exponent is the little-endian value of the
      decoded bytes, and it is never negative. */
  lemma ShortExponentIsLittleEndian(b: seq<byte>)
    requires |b| <= 7
    ensures Exponent(b) == LittleEndian(b)
    ensures 0 <= Exponent(b) < 0x1_0000_0000_0000_00
  {
    PaddedReadIsLittleEndian(b);
    LittleEndianBound(b);
    Pow256Monotone(|b|, 7);
    assert Pow256(7) == 0x1_0000_0000_0000_00 by {
      assert Pow256(2) == 0x1_0000;
      assert Pow256(4) == 0x1_0000_0000;
      assert Pow256(6) == 0x1_0000_0000_0000;
    }
  }

  /** Padding with zeros to eight bytes does not change the value read. */
  lemma PaddedReadIsLittleEndian(b: seq<byte>)
    requires |b| <= 7
    ensures Uint64LE(PadTo8(b)) == LittleEndian(b)
  {
    PaddingKeepsValue(b);
    ReadOfEightBytes(PadTo8(b));
  }

  lemma PaddingKeepsValue(b: seq<byte>)
    requires |b| <= 7
    ensures LittleEndian(PadTo8(b)) == LittleEndian(b)
  {
    var n: nat := 8 - |b|;
    ShortPadding(b, n);
    LittleEndianZeroPadding(b, n);
  }

  lemma ShortPadding(b: seq<byte>, n: nat)
    requires |b| <= 7 && n == 8 - |b|
    ensures PadTo8(b) == b + Zeros(n)
  {
  }

  lemma ReadOfEightBytes(p: seq<byte>)
    requires |p| == 8
    ensures Uint64LE(p) == LittleEndian(p)
  {
    assert p[..8] == p;
  }

  lemma {:induction false} Pow256Monotone(a: nat, b: nat)
    requires a <= b
    ensures Pow256(a) <= Pow256(b)
    decreases b
  {
    if a < b {
      Pow256Monotone(a, b - 1);
    }
  }

  /** For byte strings that read the same in both directions (such as
      01 00 01, the usual 65537) the source's reading agrees with the
      standard big-endian one. */
  lemma PalindromeExponentsAgree(b: seq<byte>)
    requires |b| <= 7 && Reverse(b) == b
    ensures Exponent(b) == StandardExponent(b)
  {
    ShortExponentIsLittleEndian(b);
    LittleEndianIsReversedBigEndian(b);
  }

  /** e = "AQAB" gives 65537 under both readings. */
  lemma AqabIs65537()
    ensures Base64Url.Decode("AQAB").Some?
    ensures Exponent(Base64Url.Decode("AQAB").value) == 65537
    ensures StandardExponent(Base64Url.Decode("AQAB").value) == 65537
  {
    Base64Url.KnownDecodings();
    var b := Base64Url.Decode("AQAB").value;
    assert Reverse(b) == b;
    PalindromeExponentsAgree(b);
    assert BigEndian(b[..2]) == 256 by {
      assert b[..2][..1] == [1];
    }
  }

  /** e = "AQA" (bytes 01 00) gives 1 in the source but 256 by the standard. */
  lemma TwoByteExponentsDisagree()
    ensures Base64Url.Decode("AQA").Some?
    ensures Exponent(Base64Url.Decode("AQA").value) == 1
    ensures StandardExponent(Base64Url.Decode("AQA").value) == 256
  {
    Base64Url.KnownDecodings();
    var b := Base64Url.Decode("AQA").value;
    ShortExponentIsLittleEndian(b);
    assert b[1..] == [0];
    assert b[..1] == [1];
    assert b[..1][..0] == [];
    assert BigEndian(b[..1]) == 1;
  }

  /** Leading zero bytes of n do not change the modulus. */
  lemma {:induction false} LeadingZerosIgnored(s: seq<byte>)
    ensures BigEndian([0] + s) == BigEndian(s)
    decreases |s|
  {
    if |s| > 0 {
      assert ([0] + s)[..|s|] == [0] + s[..|s| - 1];
      LeadingZerosIgnored(s[..|s| - 1]);
    }
  }

  /** Validation reads only the entry of the token's kid: two stores that
      agree there (or both lack it) give the same verdict. */
  lemma OnlyTheTokensKeyMatters(v1: OfflineValidator, v2: OfflineValidator, t: Jwt)
    requires v1.config == v2.config
    requires t.kid in v1.keys <==> t.kid in v2.keys
    requires t.kid in v1.keys ==> v1.keys[t.kid] == v2.keys[t.kid]
    ensures Validate(v1, t) == Validate(v2, t)
  {
  }

  /** After a successful Initialize the verdict depends on the fetched list
      alone, not on any key set held before. */
  lemma InitializeReplacesKeys(v1: OfflineValidator, v2: OfflineValidator, keys: seq<Key>, t: Jwt)
    requires v1.config == v2.config
    requires Initialize(v1, Success(keys)).err.None?
    ensures Initialize(v2, Success(keys)).err.None?
    ensures Validate(Initialize(v1, Success(keys)).validator, t) == Validate(Initialize(v2, Success(keys)).validator, t)
  {
  }

  /** A token whose kid is in the store, whose signature verifies with that
      key and whose claims all check out is accepted; a kid the store lacks
      is rejected as an unknown key id before anything else is looked at. */
  lemma KidSelectsKey(v: OfflineValidator, t: Jwt)
    requires t.malformed.None?
    ensures t.kid !in v.keys ==> Validate(v, t) == Fail(ParsingToken(UnknownKeyId(t.kid)))
    ensures t.kid in v.keys && t.verify(v.keys[t.kid]).None? && t.valid && t.mapClaims
            && t.verifyIssuer(v.config.issuer) && t.verifyAudience(v.config.audience) && t.claimsValid.None?
            ==> Validate(v, t) == Pass
  {
  }
}
