/** Bytes and the fixed-width integers of the C++ code, with the explicit
    little-endian codecs that replace its reads and writes through
    reinterpret_cast'ed pointers. */
module Bytes {

  const TwoTo8: int := 0x100
  const TwoTo16: int := 0x1_0000
  const TwoTo31: int := 0x8000_0000
  const TwoTo32: int := 0x1_0000_0000

  /** Largest value of a C++ int32 (and of an Unreal TArray's element count). */
  const MaxInt32: int := 0x7FFF_FFFF

  type uint8 = x: int | 0 <= x < 0x100
  type uint16 = x: int | 0 <= x < 0x1_0000
  type uint32 = x: int | 0 <= x < 0x1_0000_0000
  type int32 = x: int | -0x8000_0000 <= x < 0x8000_0000

  /** The int32 with the same bit pattern as `u` (a uint32 stored into an int32). */
  function ToInt32(u: uint32): (r: int32)
    ensures r % TwoTo32 == u
    ensures 0 <= r <==> u < TwoTo31
  {
    if u < TwoTo31 then u else u - TwoTo32
  }

  /** The uint32 with the same bit pattern as `x` (an int stored through a uint32*). */
  function ToUInt32(x: int): (r: uint32)
    ensures (r - x) % TwoTo32 == 0
  {
    x % TwoTo32
  }

  /** The uint16 that keeps the low 16 bits of `x` (an int stored through a uint16*). */
  function ToUInt16(x: int): (r: uint16)
    ensures (r - x) % TwoTo16 == 0
  {
    x % TwoTo16
  }

  /** Whether `x` fits in an int32. */
  predicate IsInt32(x: int)
  {
    -TwoTo31 <= x < TwoTo31
  }

  /** Two's-complement wrap-around of an int32 product or sum; a value that
      fits is kept as it is. */
  function Wrap32(x: int): (r: int32)
    ensures (r - x) % TwoTo32 == 0
    ensures IsInt32(x) ==> r == x
  {
    ToInt32(x % TwoTo32)
  }

  /** C++ integer division by a positive constant: it truncates toward zero. */
  function CDiv(a: int, d: int): (q: int)
    requires d > 0
    ensures a >= 0 ==> 0 <= q && q * d <= a < q * d + d
    ensures a < 0 ==> q <= 0 && q * d >= a > q * d - d
  {
    if a >= 0 then a / d else -((-a) / d)
  }

  lemma ToInt32OfToUInt32(x: int32)
    ensures ToInt32(ToUInt32(x)) == x
  {
  }

  /** Little-endian u16 at offset `off`. */
  function U16LE(s: seq<uint8>, off: nat): (r: uint16)
    requires off + 2 <= |s|
  {
    s[off] + TwoTo8 * s[off + 1]
  }

  /** Little-endian u32 at offset `off`. */
  function U32LE(s: seq<uint8>, off: nat): (r: uint32)
    requires off + 4 <= |s|
  {
    U16LE(s, off) + TwoTo16 * U16LE(s, off + 2)
  }

  /** The two bytes that store `v` little-endian. */
  function LE16(v: uint16): (r: seq<uint8>)
    ensures |r| == 2 && U16LE(r, 0) == v
  {
    [v % TwoTo8, v / TwoTo8]
  }

  /** The four bytes that store `v` little-endian. */
  function LE32(v: uint32): (r: seq<uint8>)
    ensures |r| == 4 && U32LE(r, 0) == v
  {
    LE16(v % TwoTo16) + LE16(v / TwoTo16)
  }

  /** Reading at an offset only looks at the four bytes there. */
  lemma U32LEAt(s: seq<uint8>, off: nat, v: uint32)
    requires off + 4 <= |s| && s[off..off + 4] == LE32(v)
    ensures U32LE(s, off) == v
  {
    assert s[off] == LE32(v)[0] && s[off + 1] == LE32(v)[1];
    assert s[off + 2] == LE32(v)[2] && s[off + 3] == LE32(v)[3];
  }

  lemma U16LEAt(s: seq<uint8>, off: nat, v: uint16)
    requires off + 2 <= |s| && s[off..off + 2] == LE16(v)
    ensures U16LE(s, off) == v
  {
    assert s[off] == LE16(v)[0] && s[off + 1] == LE16(v)[1];
  }

  /** Decoding then re-encoding four bytes gives them back. */
  lemma LE32OfU32LE(s: seq<uint8>, off: nat)
    requires off + 4 <= |s|
    ensures LE32(U32LE(s, off)) == s[off..off + 4]
  {
    LE16OfU16LE(s, off);
    LE16OfU16LE(s, off + 2);
    var lo, hi := U16LE(s, off), U16LE(s, off + 2);
    assert (lo + TwoTo16 * hi) % TwoTo16 == lo && (lo + TwoTo16 * hi) / TwoTo16 == hi;
  }

  lemma LE16OfU16LE(s: seq<uint8>, off: nat)
    requires off + 2 <= |s|
    ensures LE16(U16LE(s, off)) == s[off..off + 2]
  {
    var lo, hi := s[off], s[off + 1];
    assert (lo + TwoTo8 * hi) % TwoTo8 == lo && (lo + TwoTo8 * hi) / TwoTo8 == hi;
  }
}
