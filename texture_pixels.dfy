// Decoded texels and the single-pixel colour decoders shared by every texture decoder.
// A decoded texel is a 32-bit value a<<24 | b<<16 | g<<8 | r; stored on a little-endian
// host its bytes are r, g, b, a.
//
// The decoders are plain functions; what they compute is stated by the lemmas beside
// them in terms of the four channels.

module TexturePixels {
  import opened Bytes
  import opened TextureFormats
  import Arith

  function Red(c: u32): u8 { c % 0x100 }
  function Green(c: u32): u8 { (c / 0x100) % 0x100 }
  function Blue(c: u32): u8 { (c / 0x1_0000) % 0x100 }
  function Alpha(c: u32): u8 { c / 0x100_0000 }

  /** Packs four channels into a texel. The channels must be bytes, so the shifted fields
      do not overlap and `|` is `+`. */
  function MakeRGBA(r: int, g: int, b: int, a: int): u32
    requires 0 <= r < 0x100 && 0 <= g < 0x100 && 0 <= b < 0x100 && 0 <= a < 0x100
  {
    a * 0x100_0000 + b * 0x1_0000 + g * 0x100 + r
  }

  /** The channels of a packed texel are the bytes packed into it. */
  lemma {:induction false} MakeRGBAChannels(r: int, g: int, b: int, a: int)
    requires 0 <= r < 0x100 && 0 <= g < 0x100 && 0 <= b < 0x100 && 0 <= a < 0x100
    ensures var c := MakeRGBA(r, g, b, a);
            Red(c) == r && Green(c) == g && Blue(c) == b && Alpha(c) == a
  {
    var c := a * 0x100_0000 + b * 0x1_0000 + g * 0x100 + r;
    Arith.DivModUnique(c, 0x100, a * 0x1_0000 + b * 0x100 + g, r);
    Arith.DivModUnique(a * 0x1_0000 + b * 0x100 + g, 0x100, a * 0x100 + b, g);
    Arith.DivModUnique(c, 0x1_0000, a * 0x100 + b, g * 0x100 + r);
    Arith.DivModUnique(a * 0x100 + b, 0x100, a, b);
    Arith.DivModUnique(c, 0x100_0000, a, b * 0x1_0000 + g * 0x100 + r);
  }

  /** Every texel is the packing of its own channels. */
  lemma {:induction false} MakeRGBAOfChannels(c: u32)
    ensures MakeRGBA(Red(c), Green(c), Blue(c), Alpha(c)) == c
  {
    Arith.DivDivMod(c, 0x100, 0x100);
    Arith.DivDivMod(c, 0x1_0000, 0x100);
  }

  /** Two texels with the same four channels are equal. */
  lemma ChannelsDetermineTexel(c: u32, d: u32)
    requires Red(c) == Red(d) && Green(c) == Green(d) && Blue(c) == Blue(d) && Alpha(c) == Alpha(d)
    ensures c == d
  {
    MakeRGBAOfChannels(c);
    MakeRGBAOfChannels(d);
  }

  /** The grey texel whose four channels are all `v` (the I4 and I8 formats). */
  function Grey(v: u8): u32
  {
    MakeRGBA(v, v, v, v)
  }

  /** IA8: alpha in the high byte, intensity in the low byte, copied to red, green, blue. */
  function DecodePixelIA8(val: u16): u32
  {
    MakeRGBA(val % 0x100, val % 0x100, val % 0x100, val / 0x100)
  }

  lemma IA8Channels(val: u16)
    ensures var c := DecodePixelIA8(val);
            Alpha(c) == val / 0x100 &&
            Red(c) == val % 0x100 && Green(c) == val % 0x100 && Blue(c) == val % 0x100
  {
    MakeRGBAChannels(val % 0x100, val % 0x100, val % 0x100, val / 0x100);
  }

  /** RGB565: red in bits 15..11, green in 10..5, blue in 4..0, always opaque. */
  function DecodePixelRGB565(val: u16): u32
  {
    MakeRGBA(Convert5To8((val / 0x800) % 0x20), Convert6To8((val / 0x20) % 0x40),
             Convert5To8(val % 0x20), 0xFF)
  }

  /** Each RGB565 field becomes the top bits of its channel; alpha is full. */
  lemma RGB565Channels(val: u16)
    ensures var c := DecodePixelRGB565(val);
            Alpha(c) == 0xFF && Red(c) / 8 == val / 0x800 &&
            Green(c) / 4 == (val / 0x20) % 0x40 && Blue(c) / 8 == val % 0x20
  {
    assert (val / 0x800) % 0x20 == val / 0x800;
    var r, g, b := Convert5To8(val / 0x800), Convert6To8((val / 0x20) % 0x40), Convert5To8(val % 0x20);
    MakeRGBAChannels(r, g, b, 0xFF);
  }

  /** Bit 15 of a u16 is set exactly when the value is at least 0x8000; below that, the
      3-bit field at bit 12 is everything above bit 12. */
  lemma Bit15(val: u16)
    ensures (val / 0x8000) % 2 == 1 <==> val >= 0x8000
    ensures val < 0x8000 ==> (val / 0x1000) % 8 == val / 0x1000
  {
  }

  /** RGB5A3: with bit 15 set, an opaque RGB555 colour; otherwise 3 bits of alpha and
      4 bits per colour channel. */
  function DecodePixelRGB5A3(val: u16): u32
  {
    if (val / 0x8000) % 2 == 1 then
      MakeRGBA(Convert5To8((val / 0x400) % 0x20), Convert5To8((val / 0x20) % 0x20),
               Convert5To8(val % 0x20), 0xFF)
    else
      MakeRGBA(Convert4To8((val / 0x100) % 0x10), Convert4To8((val / 0x10) % 0x10),
               Convert4To8(val % 0x10), Convert3To8((val / 0x1000) % 8))
  }

  /** The fields of an RGB5A3 value become the top bits of the channels, in both halves. */
  lemma RGB5A3Channels(val: u16)
    ensures var c := DecodePixelRGB5A3(val);
            val >= 0x8000 ==>
              Alpha(c) == 0xFF && Red(c) / 8 == (val / 0x400) % 0x20 &&
              Green(c) / 8 == (val / 0x20) % 0x20 && Blue(c) / 8 == val % 0x20
    ensures var c := DecodePixelRGB5A3(val);
            val < 0x8000 ==>
              Alpha(c) / 0x20 == val / 0x1000 && Red(c) / 0x10 == (val / 0x100) % 0x10 &&
              Green(c) / 0x10 == (val / 0x10) % 0x10 && Blue(c) / 0x10 == val % 0x10
  {
    Bit15(val);
    if val >= 0x8000 {
      MakeRGBAChannels(Convert5To8((val / 0x400) % 0x20), Convert5To8((val / 0x20) % 0x20),
                       Convert5To8(val % 0x20), 0xFF);
    } else {
      MakeRGBAChannels(Convert4To8((val / 0x100) % 0x10), Convert4To8((val / 0x10) % 0x10),
                       Convert4To8(val % 0x10), Convert3To8((val / 0x1000) % 8));
    }
  }

  /** The colour a 16-bit value in guest (big-endian) order has in a palette format. */
  function Colour(fmt: TlutFormat, val: u16): u32
  {
    match fmt
    case TlutIA8 => DecodePixelIA8(val)
    case TlutRGB565 => DecodePixelRGB565(val)
    case TlutRGB5A3 => DecodePixelRGB5A3(val)
  }

  /** DecodePixel<format>: the value was loaded as a host (little-endian) u16, so it is
      byte-swapped into guest order before it is decoded. */
  function DecodePixel(fmt: TlutFormat, val: u16): u32
  {
    Colour(fmt, Swap16(val))
  }

  /** Decoding a host load of two bytes decodes their big-endian value: the texture's bytes
      are read in guest order whatever the host byte order makes of them. For IA8 the
      first byte in memory is the alpha and the second the intensity. */
  lemma DecodePixelOfLoad(fmt: TlutFormat, src: seq<u8>, o: int)
    requires 0 <= o && o + 2 <= |src|
    ensures DecodePixel(fmt, LoadU16(src, o)) == Colour(fmt, src[o] as int * 0x100 + src[o + 1] as int)
    ensures fmt == TlutIA8 ==>
              Alpha(DecodePixel(fmt, LoadU16(src, o))) == src[o] &&
              Red(DecodePixel(fmt, LoadU16(src, o))) == src[o + 1]
  {
    SwappedLoadIsBigEndian(src, o);
    var v := src[o] as int * 0x100 + src[o + 1] as int;
    if fmt == TlutIA8 {
      Arith.DivModUnique(v, 0x100, src[o] as int, src[o + 1] as int);
      IA8Channels(v);
    }
  }

  /** Re-packs an IA8 texel: the inverse of DecodePixelIA8. */
  function EncodeIA8(c: u32): u16
  {
    Alpha(c) as int * 0x100 + Red(c) as int
  }

  /** Re-packs an opaque texel into RGB565 by keeping the top bits of each channel. */
  function EncodeRGB565(c: u32): u16
  {
    (Red(c) / 8) * 0x800 + (Green(c) / 4) * 0x20 + Blue(c) / 8
  }

  /** IA8 and RGB565 decoding lose nothing: re-packing a decoded value gives it back, so
      distinct values decode to distinct texels. */
  lemma DecodeRoundTrips(val: u16)
    ensures EncodeIA8(DecodePixelIA8(val)) == val
    ensures EncodeRGB565(DecodePixelRGB565(val)) == val
  {
    IA8Channels(val);
    RGB565Channels(val);
    Arith.DivDivMod(val, 0x20, 0x40);
  }

  /** In RGB5A3, an opaque value and a translucent value with full alpha can decode to the
      same texel: 0x7FFF (alpha 7, colour 0xFFF) and 0xFFFF (opaque white) are both opaque white. */
  lemma RGB5A3FullAlphaCollides()
    ensures DecodePixelRGB5A3(0x7FFF) == DecodePixelRGB5A3(0xFFFF) == 0xFFFF_FFFF
  {
    var t, o := 0x7FFF, 0xFFFF;
    assert (t / 0x8000) % 2 == 0 && (o / 0x8000) % 2 == 1;
    assert (t / 0x100) % 0x10 == 0xF && (t / 0x10) % 0x10 == 0xF && t % 0x10 == 0xF;
    assert (t / 0x1000) % 8 == 7;
    assert (o / 0x400) % 0x20 == 0x1F && (o / 0x20) % 0x20 == 0x1F && o % 0x20 == 0x1F;
    assert Convert3To8(7) == 0xFF && Convert4To8(0xF) == 0xFF && Convert5To8(0x1F) == 0xFF;
    assert MakeRGBA(0xFF, 0xFF, 0xFF, 0xFF) == 0xFFFF_FFFF;
  }

  /** Within each half of its range RGB5A3 decoding loses nothing. */
  lemma RGB5A3HalvesInjective(v: u16, w: u16)
    requires (v >= 0x8000) == (w >= 0x8000)
    requires DecodePixelRGB5A3(v) == DecodePixelRGB5A3(w)
    ensures v == w
  {
    RGB5A3Channels(v);
    RGB5A3Channels(w);
    if v >= 0x8000 {
      OpaqueFields(v);
      OpaqueFields(w);
    } else {
      TranslucentFields(v);
      TranslucentFields(w);
    }
  }

  /** An opaque RGB5A3 value is the flag bit and its three 5-bit fields. */
  lemma {:induction false} OpaqueFields(v: u16)
    requires v >= 0x8000
    ensures v == 0x8000 + ((v / 0x400) % 0x20) * 0x400 + ((v / 0x20) % 0x20) * 0x20 + v % 0x20
  {
    Arith.DivDivMod(v, 0x400, 0x20);
    Arith.DivDivMod(v, 0x20, 0x20);
    assert v / 0x8000 == 1;
    assert v == (v / 0x8000) * 0x8000 + v % 0x8000;
  }

  /** A translucent RGB5A3 value is its 3-bit alpha field and its three 4-bit fields. */
  lemma {:induction false} TranslucentFields(v: u16)
    requires v < 0x8000
    ensures v == (v / 0x1000) * 0x1000 + ((v / 0x100) % 0x10) * 0x100 + ((v / 0x10) % 0x10) * 0x10 + v % 0x10
  {
    Arith.DivDivMod(v, 0x100, 0x10);
    Arith.DivDivMod(v, 0x10, 0x10);
    assert v == (v / 0x1000) * 0x1000 + v % 0x1000;
  }
}
