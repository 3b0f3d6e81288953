// Decoding one texel at texture coordinate (s, t) straight from the tiled guest layout
// (DecodeTexel), and decoding RGBA8 textures whose alpha/red and green/blue halves sit in
// the two banks of texture memory (DecodeTexelRGBA8FromTmem, DecodeRGBA8FromTmem).
//
// Coordinates are C ints. The block numbers are truncated to u16 and the byte offsets to
// u32, as the types of the original's variables make them; `>>` of a possibly negative
// int is the flooring `/` and `& (n - 1)` the non-negative `% n`. The destination is an
// array of bytes with the texel at offset `d`, laid out as a little-endian host stores a
// u32: red, green, blue, alpha.

module TexelDecode {
  import opened Bytes
  import opened TextureFormats
  import opened TexturePixels
  import opened BlockDecoders
  import Dxt

  /** The four bytes a texel occupies in memory, red first. */
  function TexelBytes(c: u32): (b: seq<u8>)
    ensures |b| == 4 && MakeRGBA(b[0], b[1], b[2], b[3]) == c
  {
    MakeRGBAOfChannels(c);
    [Red(c), Green(c), Blue(c), Alpha(c)]
  }

  /** Storing a texel built from four channels writes exactly those four bytes. */
  lemma BytesOfMakeRGBA(r: u8, g: u8, b: u8, a: u8)
    ensures TexelBytes(MakeRGBA(r, g, b, a)) == [r, g, b, a]
  {
    MakeRGBAChannels(r, g, b, a);
  }

  // Addressing. A texture is a row of blocks per block row, `imageWidth / bw + 1` blocks
  // wide, because the callers pass the width minus one.

  /** The first unit of the block holding texel (s, t), for blocks of bw x bh texels and
      `unit` units (bytes, or halfwords for the 16-bit formats) per block. */
  function BlockBase(s: int, t: int, imageWidth: int, bw: int, bh: int, unit: int): u32
    requires bw > 0 && bh > 0
  {
    var sBlk := U16(s / bw);
    var tBlk := U16(t / bh);
    var widthBlks := U16(imageWidth / bw + 1);
    U32((tBlk * widthBlks + sBlk) * unit)
  }

  /** The index of texel (s, t) in its block, in reading order. */
  function BlockOffset(s: int, t: int, bw: int, bh: int): int
    requires bw > 0 && bh > 0
  {
    (t % bh) * bw + s % bw
  }

  /** I4 and C4: 8x8 blocks of 32 bytes, two texels per byte. */
  function NibbleOffset(s: int, t: int, imageWidth: int): u32
  {
    U32(BlockBase(s, t, imageWidth, 8, 8, 32) + BlockOffset(s, t, 8, 8) / 2)
  }

  /** Which nibble of the byte holds the texel: an odd index in the block takes the low
      nibble (shift 0), an even one the high nibble (shift 4). */
  function NibbleSide(s: int, t: int): int
  {
    BlockOffset(s, t, 8, 8) % 2
  }

  /** I8, C8 and IA4: 8x4 blocks of 32 bytes, one texel per byte. The block offset is
      added as a pointer offset, so the sum is not truncated. */
  function ByteOffset(s: int, t: int, imageWidth: int): int
  {
    BlockBase(s, t, imageWidth, 8, 4, 32) + BlockOffset(s, t, 8, 4)
  }

  /** IA8, RGB565, RGB5A3 and C14X2, and each half of a TMEM RGBA8 texture: 4x4 blocks of
      16 halfwords. */
  function HalfwordOffset(s: int, t: int, imageWidth: int): u32
  {
    U32((BlockBase(s, t, imageWidth, 4, 4, 16) + BlockOffset(s, t, 4, 4)) * 2)
  }

  /** RGBA8: 4x4 blocks of 64 bytes, the alpha/red halfwords then the green/blue ones. */
  function RGBA8Offset(s: int, t: int, imageWidth: int): u32
  {
    U32((BlockBase(s, t, imageWidth, 4, 4, 32) + BlockOffset(s, t, 4, 4)) * 2)
  }

  /** CMPR: 8x8 tiles of four 8-byte sub-blocks in reading order. */
  function CmprOffset(s: int, t: int, imageWidth: int): u32
  {
    var sDxt := U16(s / 4);
    var tDxt := U16(t / 4);
    var sBlk := sDxt / 2;
    var tBlk := tDxt / 2;
    var widthBlks := U16(imageWidth / 8 + 1);
    var base := U32((tBlk * widthBlks + sBlk) * 4);
    var blkOff := (tDxt % 2) * 2 + sDxt % 2;
    U32((base + blkOff) * 8)
  }

  /** What DecodeTexel reads lies in the source, and the palette holds every index the
      format can name. */
  predicate TexelReadable(texformat: int, src: seq<u8>, s: int, t: int, imageWidth: int, tlut: seq<u16>)
  {
    if texformat == Value(C4) then NibbleOffset(s, t, imageWidth) < |src| && |tlut| >= 16
    else if texformat == Value(I4) then NibbleOffset(s, t, imageWidth) < |src|
    else if texformat == Value(I8) || texformat == Value(IA4) then ByteOffset(s, t, imageWidth) < |src|
    else if texformat == Value(C8) then ByteOffset(s, t, imageWidth) < |src| && |tlut| >= 256
    else if texformat == Value(IA8) || texformat == Value(RGB565) || texformat == Value(RGB5A3) then
      HalfwordOffset(s, t, imageWidth) + 2 <= |src|
    else if texformat == Value(C14X2) then HalfwordOffset(s, t, imageWidth) + 2 <= |src| && |tlut| >= 0x4000
    else if texformat == Value(RGBA8) then RGBA8Offset(s, t, imageWidth) + 34 <= |src|
    else if texformat == Value(CMPR) then CmprOffset(s, t, imageWidth) + 8 <= |src|
    else true
  }

  /** The colour of a CMPR texel from the expanded endpoint channels and `colorSel`: the
      two-bit selector, plus 4 when the sub-block has three colours and a transparent one. */
  function CmprColour(red1: u8, green1: u8, blue1: u8, red2: u8, green2: u8, blue2: u8, colorSel: int): u32
  {
    var red3, green3, blue3 := Dxt.Third(red1, red2), Dxt.Third(green1, green2), Dxt.Third(blue1, blue2);
    Dxt.ThirdBetween(red1, red2);
    Dxt.ThirdBetween(green1, green2);
    Dxt.ThirdBetween(blue1, blue2);
    if colorSel == 0 || colorSel == 4 then MakeRGBA(red1, green1, blue1, 255)
    else if colorSel == 1 || colorSel == 5 then MakeRGBA(red2, green2, blue2, 255)
    else if colorSel == 2 then MakeRGBA(red1 + red3, green1 + green3, blue1 + blue3, 255)
    else if colorSel == 3 then MakeRGBA(red2 - red3, green2 - green3, blue2 - blue3, 255)
    else if colorSel == 6 then
      MakeRGBA(Dxt.Average(red1, red2), Dxt.Average(green1, green2), Dxt.Average(blue1, blue2), 255)
    else if colorSel == 7 then
      MakeRGBA(Dxt.Average(red1, red2), Dxt.Average(green1, green2), Dxt.Average(blue1, blue2), 0)
    else 0
  }

  /** The colour selector of texel (ss, tt) of the sub-block at `o`, with the three-colour flag. */
  function CmprSelector(src: seq<u8>, o: int, tt: int, ss: int): int
    requires 0 <= o && o + 8 <= |src| && 0 <= tt < 4 && 0 <= ss < 4
  {
    Dxt.Selector(src[o + 4 + tt], ss) + (if Dxt.Colour1(src, o) > Dxt.Colour2(src, o) then 0 else 4)
  }

  /** The CMPR texel at row `tt`, column `ss` of the sub-block at `o`. */
  function CmprTexel(src: seq<u8>, o: int, tt: int, ss: int): u32
    requires 0 <= o && o + 8 <= |src| && 0 <= tt < 4 && 0 <= ss < 4
  {
    var c1, c2 := Dxt.Colour1(src, o), Dxt.Colour2(src, o);
    CmprColour(Dxt.Red5(c1), Dxt.Green6(c1), Dxt.Blue5(c1), Dxt.Red5(c2), Dxt.Green6(c2), Dxt.Blue5(c2),
               CmprSelector(src, o, tt, ss))
  }

  /** The switch over the selector picks the same colour as indexing the sub-block's
      palette, as the whole-texture CMPR decoder does. */
  lemma CmprTexelIsPaletteEntry(src: seq<u8>, o: int, tt: int, ss: int)
    requires 0 <= o && o + 8 <= |src| && 0 <= tt < 4 && 0 <= ss < 4
    ensures CmprTexel(src, o, tt, ss) == Dxt.DxtTexel(src, o, tt, ss)
  {
    var c1, c2 := Dxt.Colour1(src, o), Dxt.Colour2(src, o);
    var r1, g1, b1 := Dxt.Red5(c1), Dxt.Green6(c1), Dxt.Blue5(c1);
    var r2, g2, b2 := Dxt.Red5(c2), Dxt.Green6(c2), Dxt.Blue5(c2);
    var sel := Dxt.Selector(src[o + 4 + tt], ss);
    assert CmprTexel(src, o, tt, ss) == CmprColour(r1, g1, b1, r2, g2, b2, sel + (if c1 > c2 then 0 else 4));
    assert Dxt.DxtTexel(src, o, tt, ss) == Dxt.Palette(c1, c2)[sel];
    if c1 > c2 {
      assert Dxt.Palette(c1, c2) == Dxt.FourColours(r1, g1, b1, r2, g2, b2);
    } else {
      assert Dxt.Palette(c1, c2) == Dxt.ThreeColours(r1, g1, b1, r2, g2, b2);
    }
  }

  /** The texel DecodeTexel produces, or None for a format it does not handle (and then
      leaves the destination alone). IA8 is read in guest byte order like the other 16-bit
      formats: see IA8TexelAsWritten for the original's reading. */
  function TexelValue(texformat: int, src: seq<u8>, s: int, t: int, imageWidth: int,
                      tlut: seq<u16>, tlutfmt: TlutFormat): (r: Option<u32>)
    requires TexelReadable(texformat, src, s, t, imageWidth, tlut)
    ensures r.Some? <==> FromValue(texformat).Some? && IsDirect(FromValue(texformat).value)
  {
    if texformat == Value(C4) then
      Some(DecodePixel(tlutfmt, tlut[Nibble(src[NibbleOffset(s, t, imageWidth)], NibbleSide(s, t))]))
    else if texformat == Value(I4) then
      Some(Grey(Convert4To8(Nibble(src[NibbleOffset(s, t, imageWidth)], NibbleSide(s, t)))))
    else if texformat == Value(I8) then
      Some(Grey(src[ByteOffset(s, t, imageWidth)]))
    else if texformat == Value(C8) then
      Some(DecodePixel(tlutfmt, tlut[src[ByteOffset(s, t, imageWidth)]]))
    else if texformat == Value(IA4) then
      var val := src[ByteOffset(s, t, imageWidth)];
      var l := Convert4To8(val % 0x10);
      Some(MakeRGBA(l, l, l, Convert4To8(val / 0x10)))
    else if texformat == Value(IA8) then
      Some(DecodePixelIA8(Swap16(LoadU16(src, HalfwordOffset(s, t, imageWidth)))))
    else if texformat == Value(C14X2) then
      Some(DecodePixel(tlutfmt, tlut[C14Index(src, HalfwordOffset(s, t, imageWidth))]))
    else if texformat == Value(RGB565) then
      Some(DecodePixelRGB565(Swap16(LoadU16(src, HalfwordOffset(s, t, imageWidth)))))
    else if texformat == Value(RGB5A3) then
      Some(DecodePixelRGB5A3(Swap16(LoadU16(src, HalfwordOffset(s, t, imageWidth)))))
    else if texformat == Value(RGBA8) then
      var o := RGBA8Offset(s, t, imageWidth);
      Some(MakeRGBA(src[o + 1], src[o + 32], src[o + 33], src[o]))
    else if texformat == Value(CMPR) then
      Some(CmprTexel(src, CmprOffset(s, t, imageWidth), t % 4, s % 4))
    else None
  }

  /** For IA8, RGB565 and RGB5A3 the texel is the halfword at HalfwordOffset decoded in
      guest byte order with the format's pixel decoder. */
  lemma TexelValueOfHalfword(f: TextureFormat, pf: TlutFormat, src: seq<u8>, s: int, t: int, imageWidth: int,
                             tlut: seq<u16>, tlutfmt: TlutFormat)
    requires (f == IA8 && pf == TlutIA8) || (f == RGB565 && pf == TlutRGB565) || (f == RGB5A3 && pf == TlutRGB5A3)
    requires HalfwordOffset(s, t, imageWidth) + 2 <= |src|
    ensures TexelReadable(Value(f), src, s, t, imageWidth, tlut)
    ensures TexelValue(Value(f), src, s, t, imageWidth, tlut, tlutfmt) ==
            Some(DecodePixel(pf, LoadU16(src, HalfwordOffset(s, t, imageWidth))))
  {
  }

  /** The IA8 texel as the original's DecodeTexel computes it: the host load goes to the IA8
      pixel decoder without the byte swap, so alpha comes from the second byte in memory. */
  function IA8TexelAsWritten(src: seq<u8>, s: int, t: int, imageWidth: int): (c: u32)
    requires HalfwordOffset(s, t, imageWidth) + 2 <= |src|
    ensures Alpha(c) == src[HalfwordOffset(s, t, imageWidth) + 1]
    ensures Red(c) == Green(c) == Blue(c) == src[HalfwordOffset(s, t, imageWidth)]
  {
    IA8Channels(LoadU16(src, HalfwordOffset(s, t, imageWidth)));
    DecodePixelIA8(LoadU16(src, HalfwordOffset(s, t, imageWidth)))
  }

  /** `*dst32 = color`: stores a texel at `d` in host byte order. */
  method StoreTexel(dst: array<u8>, d: int, color: u32)
    requires 0 <= d && d + 4 <= dst.Length
    modifies dst
    ensures dst[d..d + 4] == TexelBytes(color)
    ensures forall i | 0 <= i < dst.Length && !(d <= i < d + 4) :: dst[i] == old(dst[i])
  {
    dst[d] := Red(color);
    dst[d + 1] := Green(color);
    dst[d + 2] := Blue(color);
    dst[d + 3] := Alpha(color);
  }

  /** Writes four channel bytes at `d`, as the I4, I8, IA4 and RGBA8 cases do byte by byte. */
  method StoreChannels(dst: array<u8>, d: int, r: u8, g: u8, b: u8, a: u8)
    requires 0 <= d && d + 4 <= dst.Length
    modifies dst
    ensures dst[d..d + 4] == TexelBytes(MakeRGBA(r, g, b, a))
    ensures forall i | 0 <= i < dst.Length && !(d <= i < d + 4) :: dst[i] == old(dst[i])
  {
    BytesOfMakeRGBA(r, g, b, a);
    dst[d + 3] := a;
    dst[d] := r;
    dst[d + 1] := g;
    dst[d + 2] := b;
  }

  /** DecodeTexel: decodes texel (s, t) of a texture in `texformat` into the four bytes at
      `d`; a format it does not handle leaves them as they were. */
  method DecodeTexel(dst: array<u8>, d: int, src: seq<u8>, s: int, t: int, imageWidth: int, texformat: int,
                     tlut: seq<u16>, tlutfmt: TlutFormat)
    requires 0 <= d && d + 4 <= dst.Length && TexelReadable(texformat, src, s, t, imageWidth, tlut)
    modifies dst
    ensures TexelValue(texformat, src, s, t, imageWidth, tlut, tlutfmt).Some? ==>
              dst[d..d + 4] == TexelBytes(TexelValue(texformat, src, s, t, imageWidth, tlut, tlutfmt).value)
    ensures TexelValue(texformat, src, s, t, imageWidth, tlut, tlutfmt).None? ==> dst[..] == old(dst[..])
    ensures forall i | 0 <= i < dst.Length && !(d <= i < d + 4) :: dst[i] == old(dst[i])
  {
    if texformat == Value(C4) {
      var offset := NibbleOffset(s, t, imageWidth);
      var val := Nibble(src[offset], NibbleSide(s, t));
      StoreTexel(dst, d, DecodePixel(tlutfmt, tlut[val]));
    } else if texformat == Value(I4) {
      var offset := NibbleOffset(s, t, imageWidth);
      var val := Convert4To8(Nibble(src[offset], NibbleSide(s, t)));
      StoreChannels(dst, d, val, val, val, val);
    } else if texformat == Value(I8) {
      var val := src[ByteOffset(s, t, imageWidth)];
      StoreChannels(dst, d, val, val, val, val);
    } else if texformat == Value(C8) {
      var val := src[ByteOffset(s, t, imageWidth)];
      StoreTexel(dst, d, DecodePixel(tlutfmt, tlut[val]));
    } else if texformat == Value(IA4) {
      var val := src[ByteOffset(s, t, imageWidth)];
      var a := Convert4To8(val / 0x10);
      var l := Convert4To8(val % 0x10);
      StoreChannels(dst, d, l, l, l, a);
    } else if texformat == Value(IA8) {
      var offset := HalfwordOffset(s, t, imageWidth);
      StoreTexel(dst, d, DecodePixelIA8(Swap16(LoadU16(src, offset))));
    } else if texformat == Value(C14X2) {
      var offset := HalfwordOffset(s, t, imageWidth);
      var val := C14Index(src, offset);
      StoreTexel(dst, d, DecodePixel(tlutfmt, tlut[val]));
    } else if texformat == Value(RGB565) {
      var offset := HalfwordOffset(s, t, imageWidth);
      StoreTexel(dst, d, DecodePixelRGB565(Swap16(LoadU16(src, offset))));
    } else if texformat == Value(RGB5A3) {
      var offset := HalfwordOffset(s, t, imageWidth);
      StoreTexel(dst, d, DecodePixelRGB5A3(Swap16(LoadU16(src, offset))));
    } else if texformat == Value(RGBA8) {
      var offset := RGBA8Offset(s, t, imageWidth);
      StoreChannels(dst, d, src[offset + 1], src[offset + 32], src[offset + 33], src[offset]);
    } else if texformat == Value(CMPR) {
      var offset := CmprOffset(s, t, imageWidth);
      StoreTexel(dst, d, CmprTexel(src, offset, t % 4, s % 4));
    }
  }

  // RGBA8 from texture memory: the alpha/red halfwords of a texture in one bank and the
  // green/blue halfwords in the other, each laid out like a 16-bit texture.

  /** The RGBA8 texel whose halfwords sit at offset `o` of the two banks. */
  function TmemTexel(srcAr: seq<u8>, srcGb: seq<u8>, o: int): (c: u32)
    requires 0 <= o && o + 2 <= |srcAr| && o + 2 <= |srcGb|
    ensures TexelBytes(c) == [srcAr[o + 1], srcGb[o], srcGb[o + 1], srcAr[o]]
  {
    BytesOfMakeRGBA(srcAr[o + 1], srcGb[o], srcGb[o + 1], srcAr[o]);
    MakeRGBA(srcAr[o + 1], srcGb[o], srcGb[o + 1], srcAr[o])
  }

  /** DecodeTexelRGBA8FromTmem: decodes texel (s, t) into the four bytes at `d`. */
  method DecodeTexelRGBA8FromTmem(dst: array<u8>, d: int, srcAr: seq<u8>, srcGb: seq<u8>, s: int, t: int, imageWidth: int)
    requires 0 <= d && d + 4 <= dst.Length
    requires HalfwordOffset(s, t, imageWidth) + 2 <= |srcAr| && HalfwordOffset(s, t, imageWidth) + 2 <= |srcGb|
    modifies dst
    ensures dst[d..d + 4] == TexelBytes(TmemTexel(srcAr, srcGb, HalfwordOffset(s, t, imageWidth)))
    ensures forall i | 0 <= i < dst.Length && !(d <= i < d + 4) :: dst[i] == old(dst[i])
  {
    var offset := HalfwordOffset(s, t, imageWidth);
    StoreChannels(dst, d, srcAr[offset + 1], srcGb[offset], srcGb[offset + 1], srcAr[offset]);
  }

  /** Where DecodeRGBA8FromTmem reads texel (x, y) of a texture `width` texels wide: it
      passes the width minus one. */
  function TmemOffset(width: int, x: int, y: int): u32
  {
    HalfwordOffset(x, y, width - 1)
  }

  /** Every texel of a width x height texture can be read from both banks. */
  predicate TmemFits(srcAr: seq<u8>, srcGb: seq<u8>, width: int, height: int)
  {
    forall x, y | 0 <= x < width && 0 <= y < height ::
      TmemOffset(width, x, y) + 2 <= |srcAr| && TmemOffset(width, x, y) + 2 <= |srcGb|
  }

  /** Texel (x, y) of the decoded texture. */
  function TmemTexelAt(srcAr: seq<u8>, srcGb: seq<u8>, width: int, height: int, x: int, y: int): u32
    requires TmemFits(srcAr, srcGb, width, height) && 0 <= x < width && 0 <= y < height
  {
    TmemTexel(srcAr, srcGb, TmemOffset(width, x, y))
  }

  /** Byte `i` of the decoded texture: byte i % 4 of texel i / 4, texels in row-major order. */
  function TmemImageByte(srcAr: seq<u8>, srcGb: seq<u8>, width: int, height: int, i: int): u8
    requires TmemFits(srcAr, srcGb, width, height) && 0 <= width && 0 <= i < 4 * (width * height)
  {
    Arith.IdxOfIndex(width, height, i / 4);
    TexelBytes(TmemTexelAt(srcAr, srcGb, width, height, (i / 4) % width, (i / 4) / width))[i % 4]
  }

  /** The decoded texture, four bytes per texel. */
  function TmemImage(srcAr: seq<u8>, srcGb: seq<u8>, width: int, height: int): (img: seq<u8>)
    requires TmemFits(srcAr, srcGb, width, height) && 0 <= width && 0 <= height
    ensures |img| == 4 * (width * height)
  {
    seq(4 * (width * height), i requires 0 <= i < 4 * (width * height) => TmemImageByte(srcAr, srcGb, width, height, i))
  }

  /** The four bytes of texel (x, y) of the decoded texture. */
  lemma TmemImageAt(srcAr: seq<u8>, srcGb: seq<u8>, width: int, height: int, x: int, y: int, j: int)
    requires TmemFits(srcAr, srcGb, width, height) && 0 <= x < width && 0 <= y < height && 0 <= j < 4
    ensures 0 <= width && 0 <= 4 * Arith.Idx(width, x, y) + j < 4 * (width * height)
    ensures TmemImageByte(srcAr, srcGb, width, height, 4 * Arith.Idx(width, x, y) + j) ==
            TexelBytes(TmemTexelAt(srcAr, srcGb, width, height, x, y))[j]
  {
    var n := Arith.Idx(width, x, y);
    Arith.IdxBelow(width, x, y, height);
    Arith.MulMono(0, y, width);
    Arith.DivModUnique(4 * n + j, 4, n, j);
    Arith.IdxDivMod(width, x, y);
  }

  /** Byte `i` of row `y` of the decoded texture when the row starts at byte `d`. */
  function TmemRowByte(srcAr: seq<u8>, srcGb: seq<u8>, width: int, height: int, y: int, d: int, i: int): u8
    requires TmemFits(srcAr, srcGb, width, height) && 0 <= y < height && d <= i < d + 4 * width
  {
    TexelBytes(TmemTexelAt(srcAr, srcGb, width, height, (i - d) / 4, y))[(i - d) % 4]
  }

  /** Row `y` of the decoded texture is the run of 4 * width bytes from 4 * y * width. */
  lemma TmemRowIsImage(srcAr: seq<u8>, srcGb: seq<u8>, width: int, height: int, y: int, i: int)
    requires TmemFits(srcAr, srcGb, width, height) && 0 <= y < height
    requires 4 * (y * width) <= i < 4 * (y * width) + 4 * width
    ensures 0 <= width && 0 <= i < 4 * (width * height)
    ensures TmemImage(srcAr, srcGb, width, height)[i] == TmemRowByte(srcAr, srcGb, width, height, y, 4 * (y * width), i)
  {
    var d := 4 * (y * width);
    var x, j := (i - d) / 4, (i - d) % 4;
    assert i == 4 * Arith.Idx(width, x, y) + j;
    TmemImageAt(srcAr, srcGb, width, height, x, y, j);
  }

  /** DecodeRGBA8FromTmem: decodes a whole width x height texture, texel (x, y) into the
      four bytes at 4 * (y * width + x). */
  method DecodeRGBA8FromTmem(dst: array<u8>, srcAr: seq<u8>, srcGb: seq<u8>, width: int, height: int)
    requires 0 <= width && 0 <= height && 4 * (width * height) <= dst.Length
    requires TmemFits(srcAr, srcGb, width, height)
    modifies dst
    ensures dst[..4 * (width * height)] == TmemImage(srcAr, srcGb, width, height)
    ensures dst[4 * (width * height)..] == old(dst[4 * (width * height)..])
  {
    ghost var img := TmemImage(srcAr, srcGb, width, height);
    var d := 0;
    var y := 0;
    while y < height
      invariant 0 <= y <= height && d == 4 * (y * width)
      invariant forall i | 0 <= i < d :: dst[i] == img[i]
      invariant forall i | d <= i < dst.Length :: dst[i] == old(dst[i])
    {
      Arith.MulMono(y + 1, height, width);
      assert (y + 1) * width == y * width + width && height * width == width * height;
      DecodeTmemRow(dst, d, srcAr, srcGb, width, height, y);
      forall i | d <= i < d + 4 * width
        ensures dst[i] == img[i]
      {
        TmemRowIsImage(srcAr, srcGb, width, height, y, i);
      }
      d := d + 4 * width;
      y := y + 1;
    }
    assert d == 4 * (width * height);
  }

  /** The inner loop of DecodeRGBA8FromTmem: row `y` into the bytes from `d` on. */
  method DecodeTmemRow(dst: array<u8>, d: int, srcAr: seq<u8>, srcGb: seq<u8>, width: int, height: int, y: int)
    requires 0 <= width && 0 <= y < height && 0 <= d && d + 4 * width <= dst.Length
    requires TmemFits(srcAr, srcGb, width, height)
    modifies dst
    ensures forall i | d <= i < d + 4 * width :: dst[i] == TmemRowByte(srcAr, srcGb, width, height, y, d, i)
    ensures forall i | 0 <= i < dst.Length && !(d <= i < d + 4 * width) :: dst[i] == old(dst[i])
  {
    var p := d;
    var x := 0;
    while x < width
      invariant 0 <= x <= width && p == d + 4 * x
      invariant forall i | d <= i < p :: dst[i] == TmemRowByte(srcAr, srcGb, width, height, y, d, i)
      invariant forall i | 0 <= i < dst.Length && !(d <= i < p) :: dst[i] == old(dst[i])
    {
      assert TmemOffset(width, x, y) + 2 <= |srcAr| && TmemOffset(width, x, y) + 2 <= |srcGb|;
      DecodeTexelRGBA8FromTmem(dst, p, srcAr, srcGb, x, y, width - 1);
      forall i | p <= i < p + 4
        ensures dst[i] == TmemRowByte(srcAr, srcGb, width, height, y, d, i)
      {
        assert (i - d) / 4 == x && (i - d) % 4 == i - p;
        assert dst[i] == dst[p..p + 4][i - p];
      }
      p := p + 4;
      x := x + 1;
    }
  }
}
