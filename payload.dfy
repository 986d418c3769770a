/** The text form of the audio bytes: standard Base64, or its URL-safe
    variant without padding (section 5 of RFC 4648, with the padding of
    section 3.2 left out). */
module Payload {
  import opened Bytes
  import opened Wrappers
  import opened Base64

  /** Which alphabet the audio is written in. */
  datatype Base64EncodingType = Standard | Base64Url

  // ---------------------------------------------------------------------
  // The string operations the encoder uses.
  // ---------------------------------------------------------------------

  /** Every occurrence of `from` replaced by `to`; all else untouched. */
  function Substitute(s: string, from: char, to: char): (r: string)
    ensures |r| == |s|
    ensures forall i :: 0 <= i < |s| ==> r[i] == (if s[i] == from then to else s[i])
  {
    if |s| == 0 then []
    else [if s[0] == from then to else s[0]] + Substitute(s[1..], from, to)
  }

  lemma SubstituteAppend(x: string, y: string, from: char, to: char)
    ensures Substitute(x + y, from, to) == Substitute(x, from, to) + Substitute(y, from, to)
  {
    var l, r := Substitute(x + y, from, to), Substitute(x, from, to) + Substitute(y, from, to);
    assert forall i :: 0 <= i < |l| ==> l[i] == r[i] by {
      forall i | 0 <= i < |l|
        ensures l[i] == r[i]
      {
        if i < |x| {
          assert (x + y)[i] == x[i];
        } else {
          assert (x + y)[i] == y[i - |x|];
        }
      }
    }
  }

  /** The two substitutions that turn the standard alphabet into the URL one. */
  function UrlAlphabet(s: string): string
  {
    Substitute(Substitute(s, '+', '-'), '/', '_')
  }

  /** The longest prefix of `s` that does not end in a pad character. */
  function TrimPadding(s: string): (r: string)
    ensures r <= s
    ensures |r| == 0 || r[|r| - 1] != PadChar
    ensures forall i :: |r| <= i < |s| ==> s[i] == PadChar
    decreases |s|
  {
    if |s| > 0 && s[|s| - 1] == PadChar then TrimPadding(s[..|s| - 1]) else s
  }

  /** The three properties of TrimPadding determine it. */
  lemma TrimPaddingUnique(s: string, p: string)
    requires p <= s
    requires |p| == 0 || p[|p| - 1] != PadChar
    requires forall i :: |p| <= i < |s| ==> s[i] == PadChar
    ensures TrimPadding(s) == p
  {
  }

  /** Trimming skips over a prefix once the rest starts with a data character. */
  lemma TrimPaddingAppend(x: string, y: string)
    requires |y| > 0 && y[0] != PadChar
    ensures TrimPadding(x + y) == x + TrimPadding(y)
  {
    var t := TrimPadding(y);
    assert |t| > 0;
    assert (x + t)[|x + t| - 1] == t[|t| - 1];
    forall i | |x + t| <= i < |x + y|
      ensures (x + y)[i] == PadChar
    {
      assert (x + y)[i] == y[i - |x|];
    }
    TrimPaddingUnique(x + y, x + t);
  }

  // ---------------------------------------------------------------------
  // The URL-safe encoding, written out on its own as a reference.
  // ---------------------------------------------------------------------

  /** The character of the URL and file-name safe alphabet (Table 2 of
      RFC 4648) for `v`. */
  function UrlCharOf(v: sextet): (c: char)
    ensures c != PadChar && c != '+' && c != '/'
  {
    if v == 62 then '-' else if v == 63 then '_' else CharOf(v)
  }

  function UrlGroup3(a: uint8, b: uint8, c: uint8): (r: string)
    ensures |r| == 4
  {
    [UrlCharOf(Sextet0(a)), UrlCharOf(Sextet1(a, b)), UrlCharOf(Sextet2(b, c)), UrlCharOf(Sextet3(c))]
  }

  function UrlGroup2(a: uint8, b: uint8): (r: string)
    ensures |r| == 3
  {
    [UrlCharOf(Sextet0(a)), UrlCharOf(Sextet1(a, b)), UrlCharOf(Sextet2(b, 0))]
  }

  function UrlGroup1(a: uint8): (r: string)
    ensures |r| == 2
  {
    [UrlCharOf(Sextet0(a)), UrlCharOf(Sextet1(a, 0))]
  }

  /** URL-safe Base64 with no padding: a final group of one or two bytes
      yields two or three characters. */
  function EncodeUrl(bytes: seq<uint8>): string
    decreases |bytes|
  {
    if |bytes| == 0 then []
    else if |bytes| == 1 then UrlGroup1(bytes[0])
    else if |bytes| == 2 then UrlGroup2(bytes[0], bytes[1])
    else UrlGroup3(bytes[0], bytes[1], bytes[2]) + EncodeUrl(bytes[3..])
  }

  /** Every 6 bits of input, rounded up, become one character. */
  lemma {:induction false} EncodeUrlLength(bytes: seq<uint8>)
    ensures |EncodeUrl(bytes)| == (4 * |bytes| + 2) / 3
    decreases |bytes|
  {
    if |bytes| > 3 {
      var n := |bytes| - 3;
      EncodeUrlLength(bytes[3..]);
      assert EncodeUrl(bytes) == UrlGroup3(bytes[0], bytes[1], bytes[2]) + EncodeUrl(bytes[3..]);
      assert (4 * (n + 3) + 2) / 3 == (4 * n + 2) / 3 + 4;
    }
  }

  /** The URL-safe text needs no escaping in a URL: it holds no '+', '/'
      or '='. */
  lemma {:induction false} EncodeUrlIsUrlSafe(bytes: seq<uint8>)
    ensures forall i :: 0 <= i < |EncodeUrl(bytes)| ==>
      EncodeUrl(bytes)[i] != '+' && EncodeUrl(bytes)[i] != '/' && EncodeUrl(bytes)[i] != PadChar
    decreases |bytes|
  {
    if |bytes| > 3 {
      EncodeUrlIsUrlSafe(bytes[3..]);
      var g, t := UrlGroup3(bytes[0], bytes[1], bytes[2]), EncodeUrl(bytes[3..]);
      forall i | 0 <= i < |g + t|
        ensures (g + t)[i] != '+' && (g + t)[i] != '/' && (g + t)[i] != PadChar
      {
        if i >= |g| {
          assert (g + t)[i] == t[i - |g|];
        }
      }
    }
  }

  // ---------------------------------------------------------------------
  // From the standard text to the URL-safe text.
  // ---------------------------------------------------------------------

  lemma UrlAlphabetOfCharOf(v: sextet)
    ensures UrlAlphabet([CharOf(v)]) == [UrlCharOf(v)]
  {
  }

  lemma UrlAlphabetOfGroup3(a: uint8, b: uint8, c: uint8)
    ensures UrlAlphabet(EncodeGroup3(a, b, c)) == UrlGroup3(a, b, c)
  {
    UrlAlphabetOfCharOf(Sextet0(a));
    UrlAlphabetOfCharOf(Sextet1(a, b));
    UrlAlphabetOfCharOf(Sextet2(b, c));
    UrlAlphabetOfCharOf(Sextet3(c));
  }

  lemma UrlAlphabetOfGroup2(a: uint8, b: uint8)
    ensures UrlAlphabet(EncodeGroup2(a, b)) == UrlGroup2(a, b) + [PadChar]
  {
    UrlAlphabetOfCharOf(Sextet0(a));
    UrlAlphabetOfCharOf(Sextet1(a, b));
    UrlAlphabetOfCharOf(Sextet2(b, 0));
  }

  lemma UrlAlphabetOfGroup1(a: uint8)
    ensures UrlAlphabet(EncodeGroup1(a)) == UrlGroup1(a) + [PadChar, PadChar]
  {
    UrlAlphabetOfCharOf(Sextet0(a));
    UrlAlphabetOfCharOf(Sextet1(a, 0));
  }

  lemma UrlAlphabetAppend(x: string, y: string)
    ensures UrlAlphabet(x + y) == UrlAlphabet(x) + UrlAlphabet(y)
  {
    SubstituteAppend(x, y, '+', '-');
    SubstituteAppend(Substitute(x, '+', '-'), Substitute(y, '+', '-'), '/', '_');
  }

  /** The standard text of a non-empty input starts with a data character. */
  lemma EncodeStartsWithData(bytes: seq<uint8>)
    requires |bytes| > 0
    ensures |Encode(bytes)| > 0 && Encode(bytes)[0] != PadChar
  {
    if |bytes| > 2 {
      var g := EncodeGroup3(bytes[0], bytes[1], bytes[2]);
      assert (g + Encode(bytes[3..]))[0] == g[0];
    }
  }

  /** Substituting the URL characters and dropping the padding of the
      standard text gives the URL-safe text. */
  lemma {:induction false} UrlOfStandard(bytes: seq<uint8>)
    ensures TrimPadding(UrlAlphabet(Encode(bytes))) == EncodeUrl(bytes)
    decreases |bytes|
  {
    if |bytes| == 0 {
    } else if |bytes| <= 3 {
      UrlOfStandardFinal(bytes);
    } else {
      UrlOfStandard(bytes[3..]);
      UrlOfStandardStep(bytes);
    }
  }

  lemma UrlOfStandardStep(bytes: seq<uint8>)
    requires |bytes| > 3
    requires TrimPadding(UrlAlphabet(Encode(bytes[3..]))) == EncodeUrl(bytes[3..])
    ensures TrimPadding(UrlAlphabet(Encode(bytes))) == EncodeUrl(bytes)
  {
    EncodeStartsWithData(bytes[3..]);
    UrlOfGroupThenRest(bytes[0], bytes[1], bytes[2], Encode(bytes[3..]), EncodeUrl(bytes[3..]));
  }

  lemma UrlOfGroupThenRest(a: uint8, b: uint8, c: uint8, t: string, u: string)
    requires |t| > 0 && t[0] != PadChar
    requires TrimPadding(UrlAlphabet(t)) == u
    ensures TrimPadding(UrlAlphabet(EncodeGroup3(a, b, c) + t)) == UrlGroup3(a, b, c) + u
  {
    UrlAlphabetAppend(EncodeGroup3(a, b, c), t);
    UrlAlphabetOfGroup3(a, b, c);
    TrimPaddingAppend(UrlGroup3(a, b, c), UrlAlphabet(t));
  }

  lemma UrlOfStandardFinal(bytes: seq<uint8>)
    requires 0 < |bytes| <= 3
    ensures TrimPadding(UrlAlphabet(Encode(bytes))) == EncodeUrl(bytes)
  {
    if |bytes| == 1 {
      UrlOfStandardOne(bytes[0]);
    } else if |bytes| == 2 {
      UrlOfStandardTwo(bytes[0], bytes[1]);
    } else {
      assert Encode(bytes) == EncodeGroup3(bytes[0], bytes[1], bytes[2]) + [];
      assert EncodeUrl(bytes) == UrlGroup3(bytes[0], bytes[1], bytes[2]) + [];
      UrlOfStandardThree(bytes[0], bytes[1], bytes[2]);
    }
  }

  lemma UrlOfStandardOne(a: uint8)
    ensures TrimPadding(UrlAlphabet(EncodeGroup1(a))) == UrlGroup1(a)
  {
    var u := UrlGroup1(a);
    UrlAlphabetOfGroup1(a);
    TrimPaddingUnique(u + [PadChar, PadChar], u);
  }

  lemma UrlOfStandardTwo(a: uint8, b: uint8)
    ensures TrimPadding(UrlAlphabet(EncodeGroup2(a, b))) == UrlGroup2(a, b)
  {
    var u := UrlGroup2(a, b);
    UrlAlphabetOfGroup2(a, b);
    TrimPaddingUnique(u + [PadChar], u);
  }

  lemma UrlOfStandardThree(a: uint8, b: uint8, c: uint8)
    ensures TrimPadding(UrlAlphabet(EncodeGroup3(a, b, c))) == UrlGroup3(a, b, c)
  {
    var u := UrlGroup3(a, b, c);
    UrlAlphabetOfGroup3(a, b, c);
    TrimPaddingUnique(u, u);
  }

  // ---------------------------------------------------------------------
  // Back from the URL-safe text: undo the substitutions and re-pad.
  // ---------------------------------------------------------------------

  /** The pad characters that bring a URL-safe text to a multiple of four. */
  function Repadding(u: string): string
  {
    if |u| % 4 == 2 then [PadChar, PadChar]
    else if |u| % 4 == 3 then [PadChar]
    else []
  }

  /** The two substitutions that turn the URL alphabet back into the
      standard one. */
  function StandardAlphabet(u: string): string
  {
    Substitute(Substitute(u, '-', '+'), '_', '/')
  }

  /** The standard text a receiver rebuilds from URL-safe text. */
  function StandardOfUrl(u: string): string
  {
    StandardAlphabet(u) + Repadding(u)
  }

  /** A receiver that rebuilds the standard text and decodes it. */
  function DecodeUrl(u: string): Option<seq<uint8>>
  {
    Decode(StandardOfUrl(u))
  }

  lemma StandardOfUrlChar(v: sextet)
    ensures StandardAlphabet([UrlCharOf(v)]) == [CharOf(v)]
  {
  }

  lemma StandardOfUrlGroup3(a: uint8, b: uint8, c: uint8)
    ensures StandardOfUrl(UrlGroup3(a, b, c)) == EncodeGroup3(a, b, c)
  {
    StandardOfUrlChar(Sextet0(a));
    StandardOfUrlChar(Sextet1(a, b));
    StandardOfUrlChar(Sextet2(b, c));
    StandardOfUrlChar(Sextet3(c));
  }

  lemma StandardOfUrlGroup2(a: uint8, b: uint8)
    ensures StandardOfUrl(UrlGroup2(a, b)) == EncodeGroup2(a, b)
  {
    StandardOfUrlChar(Sextet0(a));
    StandardOfUrlChar(Sextet1(a, b));
    StandardOfUrlChar(Sextet2(b, 0));
  }

  lemma StandardOfUrlGroup1(a: uint8)
    ensures StandardOfUrl(UrlGroup1(a)) == EncodeGroup1(a)
  {
    StandardOfUrlChar(Sextet0(a));
    StandardOfUrlChar(Sextet1(a, 0));
  }

  lemma StandardOfUrlAppend(g: string, t: string)
    requires |g| == 4
    ensures StandardOfUrl(g + t) == StandardOfUrl(g) + StandardOfUrl(t)
  {
    StandardAlphabetAppend(g, t);
    RepaddingAfterGroup(g, t);
  }

  lemma StandardAlphabetAppend(x: string, y: string)
    ensures StandardAlphabet(x + y) == StandardAlphabet(x) + StandardAlphabet(y)
  {
    SubstituteAppend(x, y, '-', '+');
    SubstituteAppend(Substitute(x, '-', '+'), Substitute(y, '-', '+'), '_', '/');
  }

  lemma RepaddingAfterGroup(g: string, t: string)
    requires |g| == 4
    ensures Repadding(g + t) == Repadding(t) && Repadding(g) == []
  {
    assert |g + t| % 4 == |t| % 4;
  }

  /** Rebuilding the standard text from the URL-safe text gives back
      exactly what the standard encoder writes. */
  lemma {:induction false} StandardOfEncodeUrl(bytes: seq<uint8>)
    ensures StandardOfUrl(EncodeUrl(bytes)) == Encode(bytes)
    decreases |bytes|
  {
    if |bytes| == 0 {
    } else if |bytes| == 1 {
      StandardOfUrlGroup1(bytes[0]);
    } else if |bytes| == 2 {
      StandardOfUrlGroup2(bytes[0], bytes[1]);
    } else {
      var g := UrlGroup3(bytes[0], bytes[1], bytes[2]);
      StandardOfUrlAppend(g, EncodeUrl(bytes[3..]));
      StandardOfUrlGroup3(bytes[0], bytes[1], bytes[2]);
      StandardOfEncodeUrl(bytes[3..]);
    }
  }

  /** The URL-safe text loses nothing: a receiver recovers the bytes. */
  lemma DecodeUrlEncodeUrl(bytes: seq<uint8>)
    ensures DecodeUrl(EncodeUrl(bytes)) == Some(bytes)
  {
    StandardOfEncodeUrl(bytes);
    DecodeEncode(bytes);
  }

  // ---------------------------------------------------------------------
  // The encoder.
  // ---------------------------------------------------------------------

  /** The bytes as Base64 text of the requested kind. The URL-safe kind
      substitutes '-' for '+' and '_' for '/' in the standard text and
      then drops the trailing '=' one character at a time. */
  method EncodeBase64(bytes: seq<uint8>, kind: Base64EncodingType) returns (r: string)
    ensures kind == Standard ==> r == Encode(bytes)
    ensures kind == Base64Url ==> r == TrimPadding(UrlAlphabet(Encode(bytes)))
    ensures kind == Base64Url ==> r == EncodeUrl(bytes)
  {
    r := Encode(bytes);
    if kind == Base64Url {
      r := Substitute(r, '+', '-');
      r := Substitute(r, '/', '_');
      ghost var full := r;
      while |r| > 0 && r[|r| - 1] == PadChar
        invariant r <= full
        invariant TrimPadding(r) == TrimPadding(full)
        decreases |r|
      {
        r := r[..|r| - 1];
      }
      assert r == TrimPadding(full);
      UrlOfStandard(bytes);
    }
  }
}
