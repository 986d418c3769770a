/** Base64 with padding, as section 4 of RFC 4648 defines it: the encoder
    stands in for the engine's FBase64::Encode, and the decoder is its
    partner for the round-trip properties. */
module Base64 {
  import opened Bytes
  import opened Wrappers

  /** A 6-bit group, the value one Base64 character carries. */
  type sextet = x: int | 0 <= x < 64

  const PadChar: char := '='

  /** The character of the standard alphabet (Table 1 of RFC 4648) for `v`. */
  function CharOf(v: sextet): (c: char)
    ensures c != PadChar
  {
    if v < 26 then ('A' as int + v) as char
    else if v < 52 then ('a' as int + (v - 26)) as char
    else if v < 62 then ('0' as int + (v - 52)) as char
    else if v == 62 then '+'
    else '/'
  }

  /** The value of a character of the standard alphabet; None for any other. */
  function ValueOf(c: char): Option<sextet>
  {
    if 'A' <= c <= 'Z' then Some(c as int - 'A' as int)
    else if 'a' <= c <= 'z' then Some(c as int - 'a' as int + 26)
    else if '0' <= c <= '9' then Some(c as int - '0' as int + 52)
    else if c == '+' then Some(62)
    else if c == '/' then Some(63)
    else None
  }

  /** The two functions are inverse bijections between the 64 values and
      the 64 characters of the alphabet. */
  lemma ValueOfCharOf(v: sextet)
    ensures ValueOf(CharOf(v)) == Some(v)
  {
  }

  lemma CharOfValueOf(c: char)
    requires ValueOf(c).Some?
    ensures CharOf(ValueOf(c).value) == c
  {
  }

  // ---------------------------------------------------------------------
  // Encoding: each 24-bit group of input becomes four characters; a final
  // group of one or two bytes is zero-filled and padded with '='.
  // ---------------------------------------------------------------------

  /** The four sextets of the 24 bits a, b, c (most significant first). */
  function Sextet0(a: uint8): sextet { a / 4 }
  function Sextet1(a: uint8, b: uint8): sextet { (a % 4) * 16 + b / 16 }
  function Sextet2(b: uint8, c: uint8): sextet { (b % 16) * 4 + c / 64 }
  function Sextet3(c: uint8): sextet { c % 64 }

  /** The three bytes of the 24 bits v0, v1, v2, v3. */
  function Octet0(v0: sextet, v1: sextet): uint8 { (v0 as int) * 4 + (v1 as int) / 16 }
  function Octet1(v1: sextet, v2: sextet): uint8 { ((v1 as int) % 16) * 16 + (v2 as int) / 4 }
  function Octet2(v2: sextet, v3: sextet): uint8 { ((v2 as int) % 4) * 64 + (v3 as int) }

  lemma OctetsOfSextets(a: uint8, b: uint8, c: uint8)
    ensures Octet0(Sextet0(a), Sextet1(a, b)) == a
    ensures Octet1(Sextet1(a, b), Sextet2(b, c)) == b
    ensures Octet2(Sextet2(b, c), Sextet3(c)) == c
  {
  }

  function EncodeGroup3(a: uint8, b: uint8, c: uint8): (r: string)
    ensures |r| == 4 && PadChar !in r
  {
    [CharOf(Sextet0(a)), CharOf(Sextet1(a, b)), CharOf(Sextet2(b, c)), CharOf(Sextet3(c))]
  }

  function EncodeGroup2(a: uint8, b: uint8): (r: string)
    ensures |r| == 4 && PadChar !in r[..3] && r[3] == PadChar
  {
    [CharOf(Sextet0(a)), CharOf(Sextet1(a, b)), CharOf(Sextet2(b, 0)), PadChar]
  }

  function EncodeGroup1(a: uint8): (r: string)
    ensures |r| == 4 && PadChar !in r[..2] && r[2] == PadChar && r[3] == PadChar
  {
    [CharOf(Sextet0(a)), CharOf(Sextet1(a, 0)), PadChar, PadChar]
  }

  function Encode(bytes: seq<uint8>): string
    decreases |bytes|
  {
    if |bytes| == 0 then []
    else if |bytes| == 1 then EncodeGroup1(bytes[0])
    else if |bytes| == 2 then EncodeGroup2(bytes[0], bytes[1])
    else EncodeGroup3(bytes[0], bytes[1], bytes[2]) + Encode(bytes[3..])
  }

  /** Every started group of three bytes becomes four characters. */
  lemma {:induction false} EncodeLength(bytes: seq<uint8>)
    ensures |Encode(bytes)| == 4 * ((|bytes| + 2) / 3)
    decreases |bytes|
  {
    if |bytes| > 3 {
      var n := |bytes| - 3;
      EncodeLength(bytes[3..]);
      assert Encode(bytes) == EncodeGroup3(bytes[0], bytes[1], bytes[2]) + Encode(bytes[3..]);
      assert (n + 3 + 2) / 3 == (n + 2) / 3 + 1;
    }
  }

  // ---------------------------------------------------------------------
  // Decoding: the inverse, accepting only what Encode can produce.
  // ---------------------------------------------------------------------

  function DecodeGroup4(s: string): Option<seq<uint8>>
    requires |s| == 4
  {
    var v0, v1, v2, v3 := ValueOf(s[0]), ValueOf(s[1]), ValueOf(s[2]), ValueOf(s[3]);
    if v0.Some? && v1.Some? && v2.Some? && v3.Some? then
      Some([Octet0(v0.value, v1.value), Octet1(v1.value, v2.value), Octet2(v2.value, v3.value)])
    else None
  }

  /** The last group, which may carry one or two padding characters; the
      bits that padding leaves over must be zero. */
  function DecodeFinalGroup(s: string): Option<seq<uint8>>
    requires |s| == 4
  {
    var v0, v1, v2 := ValueOf(s[0]), ValueOf(s[1]), ValueOf(s[2]);
    if s[3] != PadChar then DecodeGroup4(s)
    else if s[2] == PadChar then
      if v0.Some? && v1.Some? && Octet1(v1.value, 0) == 0 then Some([Octet0(v0.value, v1.value)])
      else None
    else
      if v0.Some? && v1.Some? && v2.Some? && Octet2(v2.value, 0) == 0
      then Some([Octet0(v0.value, v1.value), Octet1(v1.value, v2.value)])
      else None
  }

  function Decode(s: string): Option<seq<uint8>>
    decreases |s|
  {
    if |s| == 0 then Some([])
    else if |s| < 4 then None
    else if |s| == 4 then DecodeFinalGroup(s)
    else
      match (DecodeGroup4(s[..4]), Decode(s[4..]))
      case (Some(group), Some(rest)) => Some(group + rest)
      case _ => None
  }

  // ---------------------------------------------------------------------
  // Round trips
  // ---------------------------------------------------------------------

  /** How each shape of group decodes, stated for any four characters
      of the alphabet. */
  lemma DecodeUnpadded(s: string, v0: sextet, v1: sextet, v2: sextet, v3: sextet)
    requires s == [CharOf(v0), CharOf(v1), CharOf(v2), CharOf(v3)]
    ensures DecodeGroup4(s) == Some([Octet0(v0, v1), Octet1(v1, v2), Octet2(v2, v3)])
    ensures DecodeFinalGroup(s) == DecodeGroup4(s)
  {
    ValueOfCharOf(v0);
    ValueOfCharOf(v1);
    ValueOfCharOf(v2);
    ValueOfCharOf(v3);
  }

  lemma DecodeOnePad(s: string, v0: sextet, v1: sextet, v2: sextet)
    requires s == [CharOf(v0), CharOf(v1), CharOf(v2), PadChar]
    requires Octet2(v2, 0) == 0
    ensures DecodeFinalGroup(s) == Some([Octet0(v0, v1), Octet1(v1, v2)])
  {
    ValueOfCharOf(v0);
    ValueOfCharOf(v1);
    ValueOfCharOf(v2);
  }

  lemma DecodeTwoPads(s: string, v0: sextet, v1: sextet)
    requires s == [CharOf(v0), CharOf(v1), PadChar, PadChar]
    requires Octet1(v1, 0) == 0
    ensures DecodeFinalGroup(s) == Some([Octet0(v0, v1)])
  {
    ValueOfCharOf(v0);
    ValueOfCharOf(v1);
  }

  lemma Group3RoundTrip(a: uint8, b: uint8, c: uint8)
    ensures DecodeGroup4(EncodeGroup3(a, b, c)) == Some([a, b, c])
    ensures DecodeFinalGroup(EncodeGroup3(a, b, c)) == Some([a, b, c])
  {
    OctetsOfSextets(a, b, c);
    DecodeUnpadded(EncodeGroup3(a, b, c), Sextet0(a), Sextet1(a, b), Sextet2(b, c), Sextet3(c));
  }

  lemma Group2RoundTrip(a: uint8, b: uint8)
    ensures DecodeFinalGroup(EncodeGroup2(a, b)) == Some([a, b])
  {
    assert Sextet3(0) == 0;
    OctetsOfSextets(a, b, 0);
    DecodeOnePad(EncodeGroup2(a, b), Sextet0(a), Sextet1(a, b), Sextet2(b, 0));
  }

  lemma Group1RoundTrip(a: uint8)
    ensures DecodeFinalGroup(EncodeGroup1(a)) == Some([a])
  {
    var v0, v1 := Sextet0(a), Sextet1(a, 0);
    assert Octet0(v0, v1) == a && Octet1(v1, 0) == 0;
    DecodeTwoPads(EncodeGroup1(a), Sextet0(a), Sextet1(a, 0));
  }

  /** Decoding a group followed by at least one more group. */
  lemma DecodeCons(g: string, t: string)
    requires |g| == 4 && |t| > 0
    ensures Decode(g + t) ==
      match (DecodeGroup4(g), Decode(t))
      case (Some(group), Some(rest)) => Some(group + rest)
      case _ => None
  {
    assert (g + t)[..4] == g && (g + t)[4..] == t;
  }

  /** Decoding undoes encoding, for every byte sequence. */
  lemma {:induction false} DecodeEncode(bytes: seq<uint8>)
    ensures Decode(Encode(bytes)) == Some(bytes)
    decreases |bytes|
  {
    if |bytes| <= 3 {
      DecodeEncodeFinal(bytes);
    } else {
      var g := EncodeGroup3(bytes[0], bytes[1], bytes[2]);
      Group3RoundTrip(bytes[0], bytes[1], bytes[2]);
      DecodeEncode(bytes[3..]);
      EncodeLength(bytes[3..]);
      DecodeCons(g, Encode(bytes[3..]));
      assert bytes == [bytes[0], bytes[1], bytes[2]] + bytes[3..];
    }
  }

  /** The last group, with two, one or no padding characters. */
  lemma DecodeEncodeFinal(bytes: seq<uint8>)
    requires |bytes| <= 3
    ensures Decode(Encode(bytes)) == Some(bytes)
  {
    if |bytes| == 1 {
      DecodeEncodeOne(bytes);
    } else if |bytes| == 2 {
      DecodeEncodeTwo(bytes);
    } else if |bytes| == 3 {
      DecodeEncodeThree(bytes);
    }
  }

  lemma DecodeEncodeOne(bytes: seq<uint8>)
    requires |bytes| == 1
    ensures Decode(Encode(bytes)) == Some(bytes)
  {
    Group1RoundTrip(bytes[0]);
    assert bytes == [bytes[0]];
  }

  lemma DecodeEncodeTwo(bytes: seq<uint8>)
    requires |bytes| == 2
    ensures Decode(Encode(bytes)) == Some(bytes)
  {
    Group2RoundTrip(bytes[0], bytes[1]);
    assert bytes == [bytes[0], bytes[1]];
  }

  lemma DecodeEncodeThree(bytes: seq<uint8>)
    requires |bytes| == 3
    ensures Decode(Encode(bytes)) == Some(bytes)
  {
    Group3RoundTrip(bytes[0], bytes[1], bytes[2]);
    assert bytes == [bytes[0], bytes[1], bytes[2]];
    assert Encode(bytes) == EncodeGroup3(bytes[0], bytes[1], bytes[2]) + [];
  }

  lemma SextetsOfOctets(v0: sextet, v1: sextet, v2: sextet, v3: sextet)
    ensures Sextet0(Octet0(v0, v1)) == v0
    ensures Sextet1(Octet0(v0, v1), Octet1(v1, v2)) == v1
    ensures Sextet2(Octet1(v1, v2), Octet2(v2, v3)) == v2
    ensures Sextet3(Octet2(v2, v3)) == v3
  {
  }

  /** Decoding accepts only canonical encodings: whatever it accepts, the
      encoder produces again. */
  lemma {:induction false} EncodeDecode(s: string)
    requires Decode(s).Some?
    ensures Encode(Decode(s).value) == s
    decreases |s|
  {
    if |s| == 0 {
    } else if |s| == 4 {
      FinalGroupCanonical(s);
    } else {
      var group := DecodeGroup4(s[..4]).value;
      var rest := Decode(s[4..]).value;
      GroupCanonical(s[..4]);
      EncodeDecode(s[4..]);
      var bytes := group + rest;
      assert |rest| > 0;
      assert bytes[3..] == rest;
      assert s == s[..4] + s[4..];
    }
  }

  lemma GroupCanonical(g: string)
    requires |g| == 4 && DecodeGroup4(g).Some?
    ensures var b := DecodeGroup4(g).value; |b| == 3 && EncodeGroup3(b[0], b[1], b[2]) == g
  {
    var v0, v1, v2, v3 := ValueOf(g[0]).value, ValueOf(g[1]).value, ValueOf(g[2]).value, ValueOf(g[3]).value;
    CharOfValueOf(g[0]);
    CharOfValueOf(g[1]);
    CharOfValueOf(g[2]);
    CharOfValueOf(g[3]);
    SextetsOfOctets(v0, v1, v2, v3);
  }

  lemma FinalGroupCanonical(g: string)
    requires |g| == 4 && DecodeFinalGroup(g).Some?
    ensures Encode(DecodeFinalGroup(g).value) == g
  {
    var b := DecodeFinalGroup(g).value;
    if g[3] != PadChar {
      GroupCanonical(g);
      assert Encode(b) == EncodeGroup3(b[0], b[1], b[2]) + Encode(b[3..]);
    } else if g[2] == PadChar {
      TwoPadsCanonical(g);
    } else {
      OnePadCanonical(g);
    }
  }

  lemma TwoPadsCanonical(g: string)
    requires |g| == 4 && g[2] == PadChar && g[3] == PadChar && DecodeFinalGroup(g).Some?
    ensures var b := DecodeFinalGroup(g).value; |b| == 1 && EncodeGroup1(b[0]) == g
  {
    var v0, v1 := ValueOf(g[0]).value, ValueOf(g[1]).value;
    CharOfValueOf(g[0]);
    CharOfValueOf(g[1]);
    var a := Octet0(v0, v1);
    assert Sextet0(a) == v0;
    assert Sextet1(a, 0) == v1;
  }

  lemma OnePadCanonical(g: string)
    requires |g| == 4 && g[2] != PadChar && g[3] == PadChar && DecodeFinalGroup(g).Some?
    ensures var b := DecodeFinalGroup(g).value; |b| == 2 && EncodeGroup2(b[0], b[1]) == g
  {
    var v0, v1, v2 := ValueOf(g[0]).value, ValueOf(g[1]).value, ValueOf(g[2]).value;
    CharOfValueOf(g[0]);
    CharOfValueOf(g[1]);
    CharOfValueOf(g[2]);
    var a, b := Octet0(v0, v1), Octet1(v1, v2);
    assert Sextet0(a) == v0;
    assert Sextet1(a, b) == v1;
    assert Sextet2(b, 0) == v2;
  }
}
