// Fixed-width integers, byte order and the colour-depth expansion helpers that the
// texture decoders call. The helpers live in headers that are not part of this model
// (Common/CommonFuncs.h, VideoCommon/LookUpTables.h); the definitions below are the
// bit replication that the SIMD decoders in VideoCommon/TextureDecoder_x64.cpp
// compute by hand, so the model takes them from there.

module Bytes {
  import opened Arith

  type u8 = x: int | 0 <= x < 0x100
  type u16 = x: int | 0 <= x < 0x1_0000
  type u32 = x: int | 0 <= x < 0x1_0000_0000
  type u64 = x: int | 0 <= x < 0x1_0000_0000_0000_0000

  /** Truncating conversion of a C int to u16 (two's complement: keep the low 16 bits). */
  function U16(x: int): (r: u16)
    ensures 0 <= x < 0x1_0000 ==> r == x
  {
    x % 0x1_0000
  }

  /** Truncating conversion to u32, i.e. 32-bit wrap-around. */
  function U32(x: int): (r: u32)
    ensures 0 <= x < 0x1_0000_0000 ==> r == x
  {
    x % 0x1_0000_0000
  }

  /** Common::swap16: exchanges the two bytes of a 16-bit value. */
  function Swap16(v: u16): (r: u16)
    ensures r / 0x100 == v % 0x100 && r % 0x100 == v / 0x100
  {
    (v % 0x100) * 0x100 + v / 0x100
  }

  /** Swapping twice gives the value back. */
  lemma Swap16Involutive(v: u16)
    ensures Swap16(Swap16(v)) == v
  {
  }

  /** A u16 load from byte offset `o` on a little-endian host: the first byte is the low byte. */
  function LoadU16(src: seq<u8>, o: int): (r: u16)
    requires 0 <= o && o + 2 <= |src|
    ensures r % 0x100 == src[o] && r / 0x100 == src[o + 1]
  {
    src[o] as int + 0x100 * src[o + 1] as int
  }

  /** Byte-swapping a host load yields the big-endian (guest order) value of the two bytes. */
  lemma SwappedLoadIsBigEndian(src: seq<u8>, o: int)
    requires 0 <= o && o + 2 <= |src|
    ensures Swap16(LoadU16(src, o)) == src[o] as int * 0x100 + src[o + 1] as int
  {
  }

  /** Expands a 3-bit value to 8 bits by repeating its bits: (v << 5) | (v << 2) | (v >> 1). */
  function Convert3To8(v: int): u8
    requires 0 <= v < 8
  {
    v * 0x20 + v * 4 + v / 2
  }

  /** Expands a 4-bit value to 8 bits: (v << 4) | v. */
  function Convert4To8(v: int): u8
    requires 0 <= v < 16
  {
    v * 0x10 + v
  }

  /** Expands a 5-bit value to 8 bits: (v << 3) | (v >> 2). */
  function Convert5To8(v: int): u8
    requires 0 <= v < 32
  {
    v * 8 + v / 4
  }

  /** Expands a 6-bit value to 8 bits: (v << 2) | (v >> 4). */
  function Convert6To8(v: int): u8
    requires 0 <= v < 64
  {
    v * 4 + v / 16
  }

  // The expansions keep the input in the top bits and fill the bits below with the input's
  // own top bits. These facts are lemmas rather than postconditions so that a decoder's
  // definition does not bring them into every proof that mentions a texel.

  /** The three bits of v sit at bits 7-5 and 4-2, its top two bits at bits 1-0. */
  lemma Convert3To8Bits(v: int)
    requires 0 <= v < 8
    ensures var r := Convert3To8(v); r / 0x20 == v && (r / 4) % 8 == v && r % 4 == v / 2
  {
    var r := Convert3To8(v);
    DivModUnique(r, 0x20, v, 4 * v + v / 2);
    DivModUnique(r, 4, 9 * v, v / 2);
    DivModUnique(9 * v, 8, v, v);
  }

  /** Both nibbles of the expansion equal v. */
  lemma Convert4To8Bits(v: int)
    requires 0 <= v < 16
    ensures var r := Convert4To8(v); r / 0x10 == v && r % 0x10 == v
  {
    DivModUnique(Convert4To8(v), 0x10, v, v);
  }

  /** The five bits of v are the top of the byte, its top three bits the bottom. */
  lemma Convert5To8Bits(v: int)
    requires 0 <= v < 32
    ensures var r := Convert5To8(v); r / 8 == v && r % 8 == v / 4
  {
    DivModUnique(Convert5To8(v), 8, v, v / 4);
  }

  /** The six bits of v are the top of the byte, its top two bits the bottom. */
  lemma Convert6To8Bits(v: int)
    requires 0 <= v < 64
    ensures var r := Convert6To8(v); r / 4 == v && r % 4 == v / 16
  {
    DivModUnique(Convert6To8(v), 4, v, v / 16);
  }

  /** Distinct inputs expand to distinct bytes, because the input is the top of the result. */
  lemma ConvertInjective(v: int, w: int)
    requires 0 <= v < 64 && 0 <= w < 64
    ensures Convert6To8(v) == Convert6To8(w) ==> v == w
    ensures v < 32 && w < 32 ==> (Convert5To8(v) == Convert5To8(w) ==> v == w)
    ensures v < 16 && w < 16 ==> (Convert4To8(v) == Convert4To8(w) ==> v == w)
    ensures v < 8 && w < 8 ==> (Convert3To8(v) == Convert3To8(w) ==> v == w)
  {
    Convert6To8Bits(v);
    Convert6To8Bits(w);
    if v < 32 && w < 32 {
      Convert5To8Bits(v);
      Convert5To8Bits(w);
    }
    if v < 16 && w < 16 {
      Convert4To8Bits(v);
      Convert4To8Bits(w);
    }
    if v < 8 && w < 8 {
      Convert3To8Bits(v);
      Convert3To8Bits(w);
    }
  }

  /** A big-endian 32-bit value read from four consecutive bytes. */
  function BigEndian32(b0: u8, b1: u8, b2: u8, b3: u8): u32
  {
    ((b0 * 0x100 + b1) * 0x100 + b2) * 0x100 + b3
  }

  /** The bytes of a big-endian word, most significant first. */
  function WordBytes(v: u32): (bs: seq<u8>)
    ensures |bs| == 4
  {
    [v / 0x100_0000, v / 0x1_0000 % 0x100, v / 0x100 % 0x100, v % 0x100]
  }

  /** A word split into its bytes and put back together is the same word. */
  lemma BigEndianOfWordBytes(v: u32)
    ensures var bs := WordBytes(v); BigEndian32(bs[0], bs[1], bs[2], bs[3]) == v
  {
    var q := v / 0x100;
    var q2 := q / 0x100;
    assert v == q * 0x100 + v % 0x100;
    assert q == q2 * 0x100 + q % 0x100;
    assert q2 == (q2 / 0x100) * 0x100 + q2 % 0x100;
    assert q2 == v / 0x1_0000 && q2 / 0x100 == v / 0x100_0000;
  }

  /** Four bytes put together and split again are the same bytes. */
  lemma WordBytesOfBigEndian(b0: u8, b1: u8, b2: u8, b3: u8)
    ensures WordBytes(BigEndian32(b0, b1, b2, b3)) == [b0, b1, b2, b3]
  {
    var v := BigEndian32(b0, b1, b2, b3);
    var hi := (b0 * 0x100 + b1) * 0x100 + b2;
    assert v == hi * 0x100 + b3;
    assert v / 0x100 == hi && v % 0x100 == b3;
    assert hi / 0x100 == b0 * 0x100 + b1 && hi % 0x100 == b2;
    assert v / 0x1_0000 == b0 * 0x100 + b1;
    assert v / 0x100_0000 == b0;
  }
}
