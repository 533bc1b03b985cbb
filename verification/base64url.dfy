/** base64.RawURLEncoding.DecodeString: the URL-safe alphabet of section 5 of
    RFC 4648, without padding, in Go's default (non-strict) mode.  Carriage
    returns and line feeds are skipped wherever they appear; any other
    character outside the alphabet, '=' included, is corrupt input; a final
    group of one character is corrupt input; unused low bits of a final
    group of two or three characters are ignored. */
module Base64Url {

  import opened Wrappers
  import opened Bytes

  type sextet = x: int | 0 <= x < 64

  function SextetOf(c: char): (v: Option<sextet>)
  {
    if 'A' <= c <= 'Z' then Some(c as int - 'A' as int)
    else if 'a' <= c <= 'z' then Some(c as int - 'a' as int + 26)
    else if '0' <= c <= '9' then Some(c as int - '0' as int + 52)
    else if c == '-' then Some(62)
    else if c == '_' then Some(63)
    else None
  }

  /** The alphabet, as the encoder of section 5 of RFC 4648 writes it. */
  function CharOf(v: sextet): (c: char)
    ensures SextetOf(c) == Some(v)
    ensures !IsLineBreak(c)
  {
    if v < 26 then (v + 'A' as int) as char
    else if v < 52 then (v - 26 + 'a' as int) as char
    else if v < 62 then (v - 52 + '0' as int) as char
    else if v == 62 then '-'
    else '_'
  }

  predicate IsLineBreak(c: char)
  {
    c == '\r' || c == '\n'
  }

  /** How many characters of `s` are not line breaks. */
  function Significant(s: string): nat
  {
    if |s| == 0 then 0
    else (if IsLineBreak(s[0]) then 0 else 1) + Significant(s[1..])
  }

  function StripLineBreaks(s: string): (r: string)
    ensures |r| == Significant(s)
    ensures (forall i :: 0 <= i < |s| ==> !IsLineBreak(s[i])) ==> r == s
  {
    if |s| == 0 then []
    else if IsLineBreak(s[0]) then StripLineBreaks(s[1..])
    else [s[0]] + StripLineBreaks(s[1..])
  }

  predicate InAlphabet(s: string)
  {
    forall i :: 0 <= i < |s| ==> SextetOf(s[i]).Some?
  }

  /** Every character is a line break or in the alphabet. */
  predicate ValidChars(s: string)
  {
    forall i :: 0 <= i < |s| ==> IsLineBreak(s[i]) || SextetOf(s[i]).Some?
  }

  lemma ValidCharsCons(s: string)
    requires |s| > 0
    ensures ValidChars(s) <==> (IsLineBreak(s[0]) || SextetOf(s[0]).Some?) && ValidChars(s[1..])
  {
    assert forall i :: 0 <= i < |s[1..]| ==> s[1..][i] == s[i + 1];
  }

  lemma InAlphabetCons(c: char, s: string)
    ensures InAlphabet([c] + s) <==> SextetOf(c).Some? && InAlphabet(s)
  {
    assert ([c] + s)[0] == c;
    assert forall i :: 0 <= i < |s| ==> ([c] + s)[i + 1] == s[i];
  }

  /** Stripping keeps every character that is not a line break: the
      stripped string is in the alphabet iff every other character is. */
  lemma {:induction false} StrippedInAlphabet(s: string)
    ensures InAlphabet(StripLineBreaks(s)) <==> ValidChars(s)
  {
    if |s| > 0 {
      StrippedInAlphabet(s[1..]);
      ValidCharsCons(s);
      if !IsLineBreak(s[0]) {
        InAlphabetCons(s[0], StripLineBreaks(s[1..]));
      }
    }
  }

  /** The sextets of `s`, or None if some character is outside the alphabet. */
  function Sextets(s: string): (r: Option<seq<sextet>>)
    ensures r.Some? ==> |r.value| == |s|
    ensures r.Some? <==> InAlphabet(s)
  {
    if |s| == 0 then Some([])
    else
      var head := SextetOf(s[0]);
      var tail := Sextets(s[1..]);
      if head.Some? && tail.Some? then Some([head.value] + tail.value) else None
  }

  /** The three bytes held by a quantum of four sextets. */
  function Quantum(c0: sextet, c1: sextet, c2: sextet, c3: sextet): (b: seq<byte>)
    ensures |b| == 3
  {
    var v0: int, v1: int, v2: int, v3: int := c0, c1, c2, c3;
    [v0 * 4 + v1 / 16, (v1 % 16) * 16 + v2 / 4, (v2 % 4) * 64 + v3]
  }

  /** Bytes from sextets, four sextets to three bytes.  A final group of one
      sextet cannot hold a byte and is an error; a final group of two or
      three is read as a quantum whose missing sextets are zero, keeping one
      or two bytes, so its unused low bits are ignored. */
  function DecodeSextets(q: seq<sextet>): (r: Option<seq<byte>>)
    ensures r.Some? <==> |q| % 4 != 1
    ensures r.Some? ==> |r.value| == |q| * 3 / 4
    decreases |q|
  {
    if |q| == 0 then Some([])
    else if |q| == 1 then None
    else if |q| < 4 then
      var c2: sextet := if |q| == 3 then q[2] else 0;
      Some(Quantum(q[0], q[1], c2, 0)[..|q| - 1])
    else
      LengthAfterQuantum(|q|);
      match DecodeSextets(q[4..])
      case None => None
      case Some(rest) => Some(Quantum(q[0], q[1], q[2], q[3]) + rest)
  }

  /** The low bits of the last sextet of a final group that no kept byte
      uses do not change the result: two sextets keep one byte, so only
      the top two bits of the second count; three keep two bytes, so only
      the top four bits of the third count. */
  lemma FinalGroupLowBitsIgnored(x: sextet, y: sextet, y': sextet, z: sextet, z': sextet)
    requires y / 16 == y' / 16
    requires z / 4 == z' / 4
    ensures DecodeSextets([x, y]) == DecodeSextets([x, y'])
    ensures DecodeSextets([x, y, z]) == DecodeSextets([x, y, z'])
  {
    assert DecodeSextets([x, y]) == Some(Quantum(x, y, 0, 0)[..1]);
    assert DecodeSextets([x, y']) == Some(Quantum(x, y', 0, 0)[..1]);
    assert Quantum(x, y, 0, 0)[..1] == Quantum(x, y', 0, 0)[..1];
    assert DecodeSextets([x, y, z]) == Some(Quantum(x, y, z, 0)[..2]);
    assert DecodeSextets([x, y, z']) == Some(Quantum(x, y, z', 0)[..2]);
    assert Quantum(x, y, z, 0)[..2] == Quantum(x, y, z', 0)[..2];
  }

  lemma LengthAfterQuantum(n: int)
    requires n >= 4
    ensures (n - 4) % 4 == n % 4
    ensures (n - 4) * 3 / 4 + 3 == n * 3 / 4
  {
  }

  /** DecodeString: it accepts exactly the strings whose characters are
      line breaks or in the alphabet and whose count of alphabet characters
      does not leave one over a multiple of four; three bytes come from
      every four such characters. */
  function Decode(s: string): (r: Option<seq<byte>>)
    ensures r.Some? <==> ValidChars(s) && Significant(s) % 4 != 1
    ensures r.Some? ==> |r.value| == Significant(s) * 3 / 4
  {
    StrippedInAlphabet(s);
    match Sextets(StripLineBreaks(s))
    case None => None
    case Some(q) => DecodeSextets(q)
  }

  /** The four sextets that encode three bytes. */
  function Group(x: byte, y: byte, z: byte): (q: seq<sextet>)
    ensures |q| == 4
  {
    [x / 4, (x % 4) * 16 + y / 16, (y % 16) * 4 + z / 64, z % 64]
  }

  /** The encoder of section 5 of RFC 4648 without padding, the reference
      against which the decoder is checked: a final one or two bytes are
      encoded as if followed by zeros, keeping two or three sextets. */
  function EncodeSextets(b: seq<byte>): (q: seq<sextet>)
    ensures |q| % 4 != 1
    decreases |b|
  {
    if |b| == 0 then []
    else if |b| < 3 then
      var y: byte := if |b| == 2 then b[1] else 0;
      Group(b[0], y, 0)[..|b| + 1]
    else Group(b[0], b[1], b[2]) + EncodeSextets(b[3..])
  }

  function Encode(b: seq<byte>): (s: string)
  {
    var q := EncodeSextets(b);
    seq(|q|, i requires 0 <= i < |q| => CharOf(q[i]))
  }

  /** A quantum decodes back to the bytes it encodes. */
  lemma QuantumOfGroup(x: byte, y: byte, z: byte)
    ensures var g := Group(x, y, z); Quantum(g[0], g[1], g[2], g[3]) == [x, y, z]
  {
    var a := y / 16;
    assert 0 <= a < 16;
    assert ((x % 4) * 16 + a) / 16 == x % 4;
    assert ((x % 4) * 16 + a) % 16 == a;
    var c := z / 64;
    assert 0 <= c < 4;
    assert ((y % 16) * 4 + c) / 4 == y % 16;
    assert ((y % 16) * 4 + c) % 4 == c;
  }

  /** Zero bytes after the last one leave zero sextets at the end. */
  lemma GroupTail(x: byte, y: byte)
    ensures Group(x, y, 0)[3] == 0
    ensures Group(x, 0, 0)[2] == 0
  {
  }

  lemma {:induction false} DecodeEncodeSextets(b: seq<byte>)
    ensures DecodeSextets(EncodeSextets(b)) == Some(b)
    decreases |b|
  {
    if |b| == 0 {
      assert EncodeSextets(b) == [];
    } else if |b| < 3 {
      DecodeEncodeFinal(b);
    } else {
      DecodeEncodeSextets(b[3..]);
      DecodeGroupOf(b[0], b[1], b[2], EncodeSextets(b[3..]), b[3..]);
      assert b == [b[0], b[1], b[2]] + b[3..];
    }
  }

  /** A final group of one or two bytes. */
  lemma DecodeEncodeFinal(b: seq<byte>)
    requires 1 <= |b| <= 2
    ensures DecodeSextets(EncodeSextets(b)) == Some(b)
  {
    var y: byte := if |b| == 2 then b[1] else 0;
    var g := Group(b[0], y, 0);
    var q := EncodeSextets(b);
    assert q == g[..|b| + 1];
    var c2: sextet := if |q| == 3 then q[2] else 0;
    GroupTail(b[0], y);
    assert c2 == g[2] && 0 == g[3];
    QuantumOfGroup(b[0], y, 0);
    assert Quantum(q[0], q[1], c2, 0) == [b[0], y, 0];
    KeptBytes(b, y);
  }

  lemma KeptBytes(b: seq<byte>, y: byte)
    requires 1 <= |b| <= 2 && (|b| == 2 ==> y == b[1])
    ensures [b[0], y, 0][..|b|] == b
  {
  }

  /** A full group in front of sextets that decode to `rest`. */
  lemma DecodeGroupOf(x: byte, y: byte, z: byte, t: seq<sextet>, rest: seq<byte>)
    requires DecodeSextets(t) == Some(rest)
    ensures DecodeSextets(Group(x, y, z) + t) == Some([x, y, z] + rest)
  {
    var g := Group(x, y, z);
    var q := g + t;
    assert q[..4] == g && q[4..] == t;
    QuantumOfGroup(x, y, z);
  }

  lemma {:induction false} SextetsOfEncoding(q: seq<sextet>)
    ensures Sextets(seq(|q|, i requires 0 <= i < |q| => CharOf(q[i]))) == Some(q)
    decreases |q|
  {
    var s := seq(|q|, i requires 0 <= i < |q| => CharOf(q[i]));
    if |q| > 0 {
      assert s[1..] == seq(|q[1..]|, i requires 0 <= i < |q[1..]| => CharOf(q[1..][i]));
      SextetsOfEncoding(q[1..]);
      assert q == [q[0]] + q[1..];
    }
  }

  /** Decoding what the RFC 4648 encoder produced gives the bytes back. */
  lemma DecodeEncode(b: seq<byte>)
    ensures Decode(Encode(b)) == Some(b)
  {
    var s := Encode(b);
    assert StripLineBreaks(s) == s;
    SextetsOfEncoding(EncodeSextets(b));
    DecodeEncodeSextets(b);
  }

  /** The exponent most JWKs publish, and a two-byte value. */
  lemma KnownDecodings()
    ensures Decode("AQAB").Some? && Decode("AQAB").value == [1, 0, 1]
    ensures Decode("AQA").Some? && Decode("AQA").value == [1, 0]
  {
    SextetsOfAqab();
    GroupOfAqab();
    SextetsOfAqa();
    GroupOfAqa();
  }

  lemma GroupOfAqab()
    ensures var r := DecodeSextets([0, 16, 0, 1]); r.Some? && r.value == [1, 0, 1]
  {
    var q: seq<sextet> := [0, 16, 0, 1];
    assert q[4..] == [];
    assert Quantum(0, 16, 0, 1) == [1, 0, 1];
  }

  lemma GroupOfAqa()
    ensures var r := DecodeSextets([0, 16, 0]); r.Some? && r.value == [1, 0]
  {
  }

  lemma SextetsOfAqab()
    ensures Sextets(StripLineBreaks("AQAB")) == Some([0, 16, 0, 1])
  {
    assert SextetOf('A') == Some(0) && SextetOf('Q') == Some(16) && SextetOf('B') == Some(1);
    assert "AQAB"[1..] == "QAB" && "QAB"[1..] == "AB" && "AB"[1..] == "B" && "B"[1..] == "";
    assert StripLineBreaks("AQAB") == "AQAB";
    assert Sextets("AQAB").value == [0, 16, 0, 1];
  }

  lemma SextetsOfAqa()
    ensures Sextets(StripLineBreaks("AQA")) == Some([0, 16, 0])
  {
    assert SextetOf('A') == Some(0) && SextetOf('Q') == Some(16);
    assert "AQA"[1..] == "QA" && "QA"[1..] == "A" && "A"[1..] == "";
    assert StripLineBreaks("AQA") == "AQA";
    assert Sextets("AQA").value == [0, 16, 0];
  }
}
