// How the single-texel decoder relates to the whole-texture decoders: for a texture of
// whole blocks, at most 1024 texels each way and passed with its width minus one as the
// callers do, DecodeTexel at (px, py) produces the texel that Decode writes at index
// py * width + px. The addressing of each format family is matched against the walker's
// place of the texel, and the u16 and u32 truncations are shown not to bite.
//
// Also here: the IA8 case of DecodeTexel as written disagrees with Decode, and the
// texture memory RGBA8 decode gives every texel its own halfword in each bank.

module TexelAgreement {
  import opened Bytes
  import opened TextureFormats
  import opened TexturePixels
  import opened BlockDecoders
  import opened Arith
  import opened TextureWalker
  import opened TextureDecode
  import opened TexelDecode
  import Dxt

  /** With the width a multiple of the block width, `(width - 1) / bw + 1` counts the blocks
      of a row exactly. */
  lemma BlocksPerRow(width: int, bw: int)
    requires bw > 0 && 0 < width && width % bw == 0
    ensures (width - 1) / bw + 1 == width / bw
  {
    DivModUnique(width - 1, bw, width / bw - 1, bw - 1);
  }

  /** For coordinates inside a texture of at most 1024 texels each way, the block number
      never leaves u16 and the block's first unit never leaves u32. */
  lemma BaseAt(s: int, t: int, width: int, bw: int, bh: int, unit: int)
    requires bw in {4, 8} && bh in {4, 8} && unit in {4, 16, 32}
    requires 0 < width <= 1024 && width % bw == 0 && 0 <= s < width && 0 <= t < 1024
    ensures BlockBase(s, t, width - 1, bw, bh, unit) == ((t / bh) * (width / bw) + s / bw) * unit
    ensures 0 <= (t / bh) * (width / bw) + s / bw < 0x1_0000
  {
    BlockCoordsBelow(s, t, width, bw, bh);
    var nb := width / bw;
    assert U16(s / bw) == s / bw && U16(t / bh) == t / bh && U16((width - 1) / bw + 1) == nb;
    GridIndexBounds(t / bh, s / bw, nb, unit);
  }

  /** The block coordinates of a texel, and the blocks per row, of a texture of whole blocks
      at most 1024 texels each way, blocks at least 4 texels each way. */
  lemma BlockCoordsBelow(s: int, t: int, width: int, bw: int, bh: int)
    requires 4 <= bw && 4 <= bh
    requires 0 < width <= 1024 && width % bw == 0 && 0 <= s < width && 0 <= t < 1024
    ensures (width - 1) / bw + 1 == width / bw <= 256
    ensures 0 <= s / bw < width / bw && 0 <= t / bh < 256
  {
    BlocksPerRow(width, bw);
    MulMono(4, bw, 256);
    MulMono(4, bh, 256);
    DivBelow(t, bh, 256);
    DivBelow(width - 1, bw, 256);
    assert width == (width / bw) * bw;
    DivBelow(s, bw, width / bw);
  }

  /** Block (q, xb) of a grid at most 256 blocks each way has an index that fits u16, and
      its first unit, at most 32 bytes per block, fits u32. */
  lemma GridIndexBounds(q: int, xb: int, nb: int, unit: int)
    requires 0 <= q < 256 && 0 <= xb < nb <= 256 && 0 < unit <= 32
    ensures 0 <= q * nb + xb < 0x1_0000
    ensures 0 <= (q * nb + xb) * unit < 0x1_0000_0000
  {
    MulMono(q, 255, nb);
    MulMono(0, q, nb);
    MulMono(nb, 256, 255);
    var b := q * nb + xb;
    MulMono(0, b, unit);
    MulMono(b, 0x1_0000, unit);
  }

  /** I8, IA4 and C8 read byte `c` of the block line at the texel's place. */
  lemma ByteOffsetIsPlace(width: int, px: int, py: int)
    requires 0 < width <= 1024 && width % 8 == 0 && 0 <= px < width && 0 <= py < 1024
    ensures var p := PlaceOf(Layout(8, 4, 8, 1), width, px, py);
            ByteOffset(px, py, width - 1) == p.ofs + p.c && p.c == px % 8 && p.r == 0
  {
    BaseAt(px, py, width, 8, 4, 32);
  }

  /** I4 and C4 read nibble `c` of the block line at the texel's place. */
  lemma NibbleOffsetIsPlace(width: int, px: int, py: int)
    requires 0 < width <= 1024 && width % 8 == 0 && 0 <= px < width && 0 <= py < 1024
    ensures var p := PlaceOf(Layout(8, 8, 4, 1), width, px, py);
            NibbleOffset(px, py, width - 1) == p.ofs + p.c / 2 && NibbleSide(px, py) == p.c % 2 &&
            p.c == px % 8 && p.r == 0
  {
    BaseAt(px, py, width, 8, 8, 32);
    var b := (py / 8) * (width / 8) + px / 8;
    DivModUnique((py % 8) * 8 + px % 8, 2, (py % 8) * 4 + (px % 8) / 2, (px % 8) % 2);
    assert b * 32 + (py % 8) * 4 + (px % 8) / 2 < 0x1_0000_0000;
  }

  /** The 16-bit formats read halfword `c` of the block line at the texel's place. */
  lemma HalfwordOffsetIsPlace(width: int, px: int, py: int)
    requires 0 < width <= 1024 && width % 4 == 0 && 0 <= px < width && 0 <= py < 1024
    ensures var p := PlaceOf(Layout(4, 4, 8, 1), width, px, py);
            HalfwordOffset(px, py, width - 1) == p.ofs + 2 * p.c && p.c == px % 4 && p.r == 0
  {
    BaseAt(px, py, width, 4, 4, 16);
    var b := (py / 4) * (width / 4) + px / 4;
    assert (b * 16 + (py % 4) * 4 + px % 4) * 2 < 0x1_0000_0000;
  }

  /** RGBA8 reads the pair at offset 8r + 2c of the block at the texel's place. */
  lemma RGBA8OffsetIsPlace(width: int, px: int, py: int)
    requires 0 < width <= 1024 && width % 4 == 0 && 0 <= px < width && 0 <= py < 1024
    ensures var p := PlaceOf(Layout(4, 4, 16, 4), width, px, py);
            RGBA8Offset(px, py, width - 1) == p.ofs + 8 * p.r + 2 * p.c && p.c == px % 4 && p.r == py % 4
  {
    BaseAt(px, py, width, 4, 4, 32);
    var b := (py / 4) * (width / 4) + px / 4;
    DivModUnique(py % 4, 4, 0, py % 4);
    assert (b * 32 + (py % 4) * 4 + px % 4) * 2 < 0x1_0000_0000;
  }

  /** CMPR reads the sub-block at the texel's place, at its row and column. */
  lemma CmprOffsetIsPlace(width: int, px: int, py: int)
    requires 0 < width <= 1024 && width % 8 == 0 && 0 <= px < width && 0 <= py < 1024
    ensures var p := Dxt.DxtPlaceOf(width, px, py);
            CmprOffset(px, py, width - 1) == p.ofs && p.r == py % 4 && p.c == px % 4
  {
    BlocksPerRow(width, 8);
    var nb := width / 8;
    DivDivMod(px, 4, 2);
    DivDivMod(py, 4, 2);
    assert (px / 4) / 2 == px / 8 && (py / 4) / 2 == py / 8;
    assert (px % 8) / 4 == (px / 4) % 2 && (py % 8) / 4 == (py / 4) % 2;
    assert (px % 8) % 4 == px % 4 && (py % 8) % 4 == py % 4;
    MulMono(py / 8, 127, nb);
    MulMono(0, py / 8, nb);
    MulMono(nb, 128, 127);
    var b := (py / 8) * nb + px / 8;
    assert 0 <= b < 0x1_0000;
    assert ((b * 4) + ((py / 4) % 2) * 2 + (px / 4) % 2) * 8 < 0x1_0000_0000;
  }

  /** DecodeTexel, for the I8, IA4 and C8 formats, produces the walker's texel. */
  lemma ByteFormatsAgree(f: TextureFormat, tlutfmt: TlutFormat, src: seq<u8>, tlut: seq<u16>,
                         width: int, height: int, px: int, py: int)
    requires f in {I8, IA4, C8} && CanDecode(Value(f), tlutfmt, src, tlut, width, height)
    requires width <= 1024 && height <= 1024 && 0 <= px < width && 0 <= py < height
    ensures Lookup(Value(f), tlutfmt).Some? && Lookup(Value(f), tlutfmt).value.Tiled?
    ensures TexelReadable(Value(f), src, px, py, width - 1, tlut)
    ensures TexelValue(Value(f), src, px, py, width - 1, tlut, tlutfmt) ==
            Some(TexelAt(Lookup(Value(f), tlutfmt).value.k, src, tlut, width, height, px, py))
  {
    var k := Lookup(Value(f), tlutfmt).value.k;
    var l := LayoutOf(k);
    assert l == Layout(8, 4, 8, 1);
    PlaceInRange(l, width, height, px, py);
    ByteOffsetIsPlace(width, px, py);
  }

  /** DecodeTexel, for the I4 and C4 formats, produces the walker's texel. */
  lemma NibbleFormatsAgree(f: TextureFormat, tlutfmt: TlutFormat, src: seq<u8>, tlut: seq<u16>,
                           width: int, height: int, px: int, py: int)
    requires f in {I4, C4} && CanDecode(Value(f), tlutfmt, src, tlut, width, height)
    requires width <= 1024 && height <= 1024 && 0 <= px < width && 0 <= py < height
    ensures Lookup(Value(f), tlutfmt).Some? && Lookup(Value(f), tlutfmt).value.Tiled?
    ensures TexelReadable(Value(f), src, px, py, width - 1, tlut)
    ensures TexelValue(Value(f), src, px, py, width - 1, tlut, tlutfmt) ==
            Some(TexelAt(Lookup(Value(f), tlutfmt).value.k, src, tlut, width, height, px, py))
  {
    if f == I4 {
      I4Agrees(tlutfmt, src, tlut, width, height, px, py);
    } else {
      C4Agrees(tlutfmt, src, tlut, width, height, px, py);
    }
  }

  /** The nibble DecodeTexel reads for (px, py) is the nibble the walker's call reads for
      that texel. */
  lemma NibbleAtPlace(k: LineKind, src: seq<u8>, tlut: seq<u16>, width: int, height: int, px: int, py: int)
    requires k == LineI4 || k.LineC4?
    requires Fits(k, src, tlut, width, height) && width <= 1024 && height <= 1024
    requires 0 <= px < width && 0 <= py < height
    ensures NibbleOffset(px, py, width - 1) < |src|
    ensures var p := PlaceOf(LayoutOf(k), width, px, py);
            0 <= p.ofs && p.ofs + 4 <= |src| && 0 <= p.c < 8 &&
            NibbleAt(src, p.ofs, p.c) == Nibble(src[NibbleOffset(px, py, width - 1)], NibbleSide(px, py)) &&
            TexelAt(k, src, tlut, width, height, px, py) == CallTexel(k, src, tlut, p.ofs, p.r, p.c)
  {
    assert LayoutOf(k) == Layout(8, 8, 4, 1);
    TexelAtPlace(k, src, tlut, width, height, px, py);
    NibbleOffsetIsPlace(width, px, py);
  }

  /** DecodeTexel, for I4, produces the walker's texel. */
  lemma I4Agrees(tlutfmt: TlutFormat, src: seq<u8>, tlut: seq<u16>, width: int, height: int, px: int, py: int)
    requires CanDecode(Value(I4), tlutfmt, src, tlut, width, height)
    requires width <= 1024 && height <= 1024 && 0 <= px < width && 0 <= py < height
    ensures Lookup(Value(I4), tlutfmt) == Some(Tiled(LineI4))
    ensures TexelReadable(Value(I4), src, px, py, width - 1, tlut)
    ensures TexelValue(Value(I4), src, px, py, width - 1, tlut, tlutfmt) ==
            Some(TexelAt(LineI4, src, tlut, width, height, px, py))
  {
    NibbleAtPlace(LineI4, src, tlut, width, height, px, py);
  }

  /** DecodeTexel, for C4, produces the walker's texel. */
  lemma C4Agrees(tlutfmt: TlutFormat, src: seq<u8>, tlut: seq<u16>, width: int, height: int, px: int, py: int)
    requires CanDecode(Value(C4), tlutfmt, src, tlut, width, height)
    requires width <= 1024 && height <= 1024 && 0 <= px < width && 0 <= py < height
    ensures Lookup(Value(C4), tlutfmt) == Some(Tiled(LineC4(tlutfmt)))
    ensures TexelReadable(Value(C4), src, px, py, width - 1, tlut)
    ensures TexelValue(Value(C4), src, px, py, width - 1, tlut, tlutfmt) ==
            Some(TexelAt(LineC4(tlutfmt), src, tlut, width, height, px, py))
  {
    NibbleAtPlace(LineC4(tlutfmt), src, tlut, width, height, px, py);
  }

  /** DecodeTexel, for the IA8, RGB565, RGB5A3 and C14X2 formats, produces the walker's
      texel; for IA8 this is the byte-swapped reading. */
  lemma HalfwordFormatsAgree(f: TextureFormat, tlutfmt: TlutFormat, src: seq<u8>, tlut: seq<u16>,
                             width: int, height: int, px: int, py: int)
    requires f in {IA8, RGB565, RGB5A3, C14X2} && CanDecode(Value(f), tlutfmt, src, tlut, width, height)
    requires width <= 1024 && height <= 1024 && 0 <= px < width && 0 <= py < height
    ensures Lookup(Value(f), tlutfmt).Some? && Lookup(Value(f), tlutfmt).value.Tiled?
    ensures TexelReadable(Value(f), src, px, py, width - 1, tlut)
    ensures TexelValue(Value(f), src, px, py, width - 1, tlut, tlutfmt) ==
            Some(TexelAt(Lookup(Value(f), tlutfmt).value.k, src, tlut, width, height, px, py))
  {
    if f == C14X2 {
      C14X2Agrees(tlutfmt, src, tlut, width, height, px, py);
    } else {
      Direct16Agrees(f, tlutfmt, src, tlut, width, height, px, py);
    }
  }

  /** DecodeTexel, for IA8, RGB565 and RGB5A3, produces the walker's texel. */
  lemma Direct16Agrees(f: TextureFormat, tlutfmt: TlutFormat, src: seq<u8>, tlut: seq<u16>,
                       width: int, height: int, px: int, py: int)
    requires f in {IA8, RGB565, RGB5A3} && CanDecode(Value(f), tlutfmt, src, tlut, width, height)
    requires width <= 1024 && height <= 1024 && 0 <= px < width && 0 <= py < height
    ensures Lookup(Value(f), tlutfmt).Some? && Lookup(Value(f), tlutfmt).value.Tiled?
    ensures TexelReadable(Value(f), src, px, py, width - 1, tlut)
    ensures TexelValue(Value(f), src, px, py, width - 1, tlut, tlutfmt) ==
            Some(TexelAt(Lookup(Value(f), tlutfmt).value.k, src, tlut, width, height, px, py))
  {
    var k := Lookup(Value(f), tlutfmt).value.k;
    var l := LayoutOf(k);
    assert l == Layout(4, 4, 8, 1);
    PlaceInRange(l, width, height, px, py);
    HalfwordOffsetIsPlace(width, px, py);
    var p := PlaceOf(l, width, px, py);
    var o := HalfwordOffset(px, py, width - 1);
    assert o == p.ofs + 2 * p.c;
    var pf := if f == IA8 then TlutIA8 else if f == RGB565 then TlutRGB565 else TlutRGB5A3;
    assert k == Line16(pf);
    TexelAtPlace(k, src, tlut, width, height, px, py);
    TexelValueOfHalfword(f, pf, src, px, py, width - 1, tlut, tlutfmt);
  }

  /** DecodeTexel, for C14X2, produces the walker's texel. */
  lemma C14X2Agrees(tlutfmt: TlutFormat, src: seq<u8>, tlut: seq<u16>, width: int, height: int, px: int, py: int)
    requires CanDecode(Value(C14X2), tlutfmt, src, tlut, width, height)
    requires width <= 1024 && height <= 1024 && 0 <= px < width && 0 <= py < height
    ensures Lookup(Value(C14X2), tlutfmt) == Some(Tiled(LineC14X2(tlutfmt)))
    ensures TexelReadable(Value(C14X2), src, px, py, width - 1, tlut)
    ensures TexelValue(Value(C14X2), src, px, py, width - 1, tlut, tlutfmt) ==
            Some(TexelAt(LineC14X2(tlutfmt), src, tlut, width, height, px, py))
  {
    var l := LayoutOf(LineC14X2(tlutfmt));
    PlaceInRange(l, width, height, px, py);
    HalfwordOffsetIsPlace(width, px, py);
    var p := PlaceOf(l, width, px, py);
    var o := HalfwordOffset(px, py, width - 1);
    assert o == p.ofs + 2 * p.c;
    TexelAtPlace(LineC14X2(tlutfmt), src, tlut, width, height, px, py);
  }

  /** DecodeTexel, for RGBA8, produces the walker's texel. */
  lemma RGBA8Agrees(tlutfmt: TlutFormat, src: seq<u8>, tlut: seq<u16>, width: int, height: int, px: int, py: int)
    requires CanDecode(Value(RGBA8), tlutfmt, src, tlut, width, height)
    requires width <= 1024 && height <= 1024 && 0 <= px < width && 0 <= py < height
    ensures Lookup(Value(RGBA8), tlutfmt) == Some(Tiled(LineRGBA8))
    ensures TexelReadable(Value(RGBA8), src, px, py, width - 1, tlut)
    ensures TexelValue(Value(RGBA8), src, px, py, width - 1, tlut, tlutfmt) ==
            Some(TexelAt(LineRGBA8, src, tlut, width, height, px, py))
  {
    var l := LayoutOf(LineRGBA8);
    PlaceInRange(l, width, height, px, py);
    RGBA8OffsetIsPlace(width, px, py);
    var p := PlaceOf(l, width, px, py);
    var o := RGBA8Offset(px, py, width - 1);
    assert o == p.ofs + 8 * p.r + 2 * p.c;
    RGBA8TexelBytes(src, p.ofs, p.r, p.c);
    assert TexelAt(LineRGBA8, src, tlut, width, height, px, py) == RGBA8Texel(src, p.ofs, p.r, p.c);
  }

  /** DecodeTexel, for CMPR, produces the CMPR walker's texel. */
  lemma CmprAgrees(tlutfmt: TlutFormat, src: seq<u8>, tlut: seq<u16>, width: int, height: int, px: int, py: int)
    requires CanDecode(Value(CMPR), tlutfmt, src, tlut, width, height)
    requires width <= 1024 && height <= 1024 && 0 <= px < width && 0 <= py < height
    ensures Lookup(Value(CMPR), tlutfmt) == Some(Cmpr)
    ensures TexelReadable(Value(CMPR), src, px, py, width - 1, tlut)
    ensures TexelValue(Value(CMPR), src, px, py, width - 1, tlut, tlutfmt) == Some(Dxt.DxtTexelAt(src, width, height, px, py))
  {
    Dxt.DxtPlaceInRange(width, height, px, py);
    CmprOffsetIsPlace(width, px, py);
    var p := Dxt.DxtPlaceOf(width, px, py);
    CmprTexelIsPaletteEntry(src, p.ofs, p.r, p.c);
  }

  /** The single-texel decoder agrees with the whole-texture decoder: for every format the
      texture mapper reads, DecodeTexel at (px, py) with the width minus one produces the
      texel Decode writes at index py * width + px. */
  lemma TexelAgreesWithDecode(f: TextureFormat, tlutfmt: TlutFormat, src: seq<u8>, tlut: seq<u16>,
                              width: int, height: int, px: int, py: int)
    requires IsDirect(f) && CanDecode(Value(f), tlutfmt, src, tlut, width, height)
    requires width <= 1024 && height <= 1024 && 0 <= px < width && 0 <= py < height
    ensures 0 <= Idx(width, px, py) < width * height
    ensures TexelReadable(Value(f), src, px, py, width - 1, tlut)
    ensures TexelValue(Value(f), src, px, py, width - 1, tlut, tlutfmt) ==
            Some(DecodedTexture(Value(f), tlutfmt, src, tlut, width, height)[Idx(width, px, py)])
  {
    if f == CMPR {
      CmprAgrees(tlutfmt, src, tlut, width, height, px, py);
      Dxt.DxtImageAt(src, width, height, px, py);
    } else {
      var k := Lookup(Value(f), tlutfmt).value.k;
      if f in {I8, IA4, C8} {
        ByteFormatsAgree(f, tlutfmt, src, tlut, width, height, px, py);
      } else if f in {I4, C4} {
        NibbleFormatsAgree(f, tlutfmt, src, tlut, width, height, px, py);
      } else if f == RGBA8 {
        RGBA8Agrees(tlutfmt, src, tlut, width, height, px, py);
      } else {
        HalfwordFormatsAgree(f, tlutfmt, src, tlut, width, height, px, py);
      }
      ImageAt(k, src, tlut, width, height, px, py);
    }
  }

  /** As written, DecodeTexel's IA8 case agrees with Decode only at texels whose two bytes
      are equal: everywhere else it swaps alpha and intensity. */
  lemma IA8AsWrittenAgreesOnlyOnEqualBytes(tlutfmt: TlutFormat, src: seq<u8>, tlut: seq<u16>,
                                           width: int, height: int, px: int, py: int)
    requires CanDecode(Value(IA8), tlutfmt, src, tlut, width, height)
    requires width <= 1024 && height <= 1024 && 0 <= px < width && 0 <= py < height
    ensures HalfwordOffset(px, py, width - 1) + 2 <= |src| && 0 <= Idx(width, px, py) < width * height
    ensures var o := HalfwordOffset(px, py, width - 1);
            IA8TexelAsWritten(src, px, py, width - 1) ==
              DecodedTexture(Value(IA8), tlutfmt, src, tlut, width, height)[Idx(width, px, py)]
            <==> src[o] == src[o + 1]
  {
    TexelAgreesWithDecode(IA8, tlutfmt, src, tlut, width, height, px, py);
    var o := HalfwordOffset(px, py, width - 1);
    var v := LoadU16(src, o);
    IA8Channels(v);
    IA8Channels(Swap16(v));
    if src[o] == src[o + 1] {
      assert Swap16(v) == v;
    }
  }

  /** A 4x4 IA8 texture whose first texel has alpha 0x12 and intensity 0x34. */
  function IA8Sample(): (src: seq<u8>)
    ensures |src| == 32 && src[0] == 0x12 && src[1] == 0x34
  {
    [0x12, 0x34] + seq(30, _ => 0)
  }

  /** IA8Sample is a texture Decode accepts whose first texel, read at offset 0 (see
      FirstTexelOffset), has two different bytes: there the original's DecodeTexel gives
      alpha 0x34 where Decode gives 0x12. */
  lemma IA8SampleShowsSwap()
    ensures CanDecode(Value(IA8), TlutIA8, IA8Sample(), [], 4, 4)
    ensures Arith.Idx(4, 0, 0) == 0 && IA8Sample()[0] != IA8Sample()[1]
  {
    assert Fits(Line16(TlutIA8), IA8Sample(), [], 4, 4);
  }

  /** The first texel of a 4x4 texture is read at offset 0. */
  lemma FirstTexelOffset()
    ensures HalfwordOffset(0, 0, 3) == 0
  {
  }

  // Texture memory RGBA8.

  /** Bytes of each bank an RGBA8 texture in texture memory occupies: 32 per 4x4 block,
      partial blocks rounded up. */
  function TmemBytes(width: int, height: int): int
  {
    ((height + 3) / 4) * ((width + 3) / 4) * 32
  }

  /** The widthBlks the TMEM decoder computes from the width minus one counts the blocks of
      a row for every width, whole blocks or not. */
  lemma TmemBlocksPerRow(width: int)
    requires 0 < width
    ensures (width - 1) / 4 + 1 == (width + 3) / 4
  {
  }

  /** Texel (x, y) of a texture at most 1024 texels wide sits in the halfword of its block
      at index (y % 4) * 4 + x % 4, the blocks in row-major order, (width + 3) / 4 per row. */
  lemma TmemOffsetAt(width: int, x: int, y: int)
    requires 0 <= x < width <= 1024 && 0 <= y < 1024
    ensures TmemOffset(width, x, y) == (((y / 4) * ((width + 3) / 4) + x / 4) * 16 + (y % 4) * 4 + x % 4) * 2
  {
    TmemBlocksPerRow(width);
    var nb := (width + 3) / 4;
    assert nb <= 256 && x / 4 < 256 && y / 4 < 256;
    MulMono(y / 4, 255, nb);
    MulMono(0, y / 4, nb);
    MulMono(nb, 256, 255);
    var b := (y / 4) * nb + x / 4;
    assert (b * 16 + (y % 4) * 4 + x % 4) * 2 < 0x1_0000_0000;
  }

  /** Banks of TmemBytes bytes hold every texel of a texture of at most 1024 texels each way. */
  lemma TmemFitsWhenLargeEnough(srcAr: seq<u8>, srcGb: seq<u8>, width: int, height: int)
    requires 0 <= width <= 1024 && 0 <= height <= 1024
    requires |srcAr| >= TmemBytes(width, height) && |srcGb| >= TmemBytes(width, height)
    ensures TmemFits(srcAr, srcGb, width, height)
  {
    forall x, y | 0 <= x < width && 0 <= y < height
      ensures TmemOffset(width, x, y) + 2 <= TmemBytes(width, height)
    {
      TmemOffsetBelow(width, height, x, y);
    }
  }

  /** The last halfword of texel (x, y) ends inside TmemBytes. */
  lemma TmemOffsetBelow(width: int, height: int, x: int, y: int)
    requires 0 <= x < width <= 1024 && 0 <= y < height <= 1024
    ensures TmemOffset(width, x, y) + 2 <= TmemBytes(width, height)
  {
    TmemOffsetAt(width, x, y);
    var nb, nby := (width + 3) / 4, (height + 3) / 4;
    assert x / 4 < nb && y / 4 < nby;
    BlockInGrid(y / 4, x / 4, nb, nby, (y % 4) * 4 + x % 4);
  }

  /** Halfword i of block (q, xb) of a grid of nby rows of nb blocks, 32 bytes each, ends
      inside the grid. */
  lemma BlockInGrid(q: int, xb: int, nb: int, nby: int, i: int)
    requires 0 <= q < nby && 0 <= xb < nb && 0 <= i < 16
    ensures ((q * nb + xb) * 16 + i) * 2 + 2 <= nby * nb * 32
  {
    MulMono(q + 1, nby, nb);
    assert q * nb + xb + 1 <= nby * nb;
    MulMono(q * nb + xb + 1, nby * nb, 32);
  }

  /** Distinct texels of a texture at most 1024 texels wide are read from distinct halfwords,
      so DecodeRGBA8FromTmem reads each texel's own data. */
  lemma TmemOffsetsDistinct(width: int, x1: int, y1: int, x2: int, y2: int)
    requires 0 <= x1 < width <= 1024 && 0 <= y1 < 1024 && 0 <= x2 < width && 0 <= y2 < 1024
    requires TmemOffset(width, x1, y1) == TmemOffset(width, x2, y2)
    ensures x1 == x2 && y1 == y2
  {
    TmemOffsetAt(width, x1, y1);
    TmemOffsetAt(width, x2, y2);
    var nb := (width + 3) / 4;
    var b1, b2 := (y1 / 4) * nb + x1 / 4, (y2 / 4) * nb + x2 / 4;
    var i1, i2 := (y1 % 4) * 4 + x1 % 4, (y2 % 4) * 4 + x2 % 4;
    assert b1 * 16 + i1 == b2 * 16 + i2;
    DivModUnique(b1 * 16 + i1, 16, b1, i1);
    DivModUnique(b2 * 16 + i2, 16, b2, i2);
    assert b1 == b2 && i1 == i2;
    assert x1 / 4 < nb && x2 / 4 < nb;
    DivModUnique(b1, nb, y1 / 4, x1 / 4);
    DivModUnique(b2, nb, y2 / 4, x2 / 4);
    DivModUnique(i1, 4, y1 % 4, x1 % 4);
    DivModUnique(i2, 4, y2 % 4, x2 % 4);
    DivModUnique(x1, 4, x1 / 4, x1 % 4);
    DivModUnique(x2, 4, x2 / 4, x2 % 4);
    DivModUnique(y1, 4, y1 / 4, y1 % 4);
    DivModUnique(y2, 4, y2 / 4, y2 % 4);
  }
}
