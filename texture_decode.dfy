// The decoder tables of TexDecoder after Init and InitGeneric, and Decode, which looks up the
// decoder of a format and runs it. The palette format, which the source keeps in a global
// (s_tlutfmt) for the C4, C8 and C14X2 entries to read, is a parameter here.

module TextureDecode {
  import opened Bytes
  import opened TextureFormats
  import opened TextureTables
  import opened TextureWalker
  import opened Dxt
  import opened Arith

  /** A decoder the tables point to: an instantiation of the tiled walker, or the CMPR walker. */
  datatype DecodeFunction = Tiled(k: LineKind) | Cmpr

  /** An entry of g_decoder_funcs: not set, a fixed decoder, or one of the three paletted
      entries that pick their decoder by palette format. */
  datatype Slot = Unset | Fixed(fn: DecodeFunction) | PalettedC4 | PalettedC8 | PalettedC14

  /** g_decoder_funcs[format] once Init has set the paletted entries and InitGeneric the rest. */
  function DecoderSlot(format: int): Slot
    requires 0 <= format < 15
  {
    if format == 0 then Fixed(Tiled(LineI4))
    else if format == 1 then Fixed(Tiled(LineI8))
    else if format == 2 then Fixed(Tiled(LineIA4))
    else if format == 3 then Fixed(Tiled(Line16(TlutIA8)))
    else if format == 4 then Fixed(Tiled(Line16(TlutRGB565)))
    else if format == 5 then Fixed(Tiled(Line16(TlutRGB5A3)))
    else if format == 6 then Fixed(Tiled(LineRGBA8))
    else if format == 8 then PalettedC4
    else if format == 9 then PalettedC8
    else if format == 10 then PalettedC14
    else if format == 14 then Fixed(Cmpr)
    else Unset
  }

  /** g_c4_funcs, g_c8_funcs and g_c14_funcs, indexed by palette format. */
  function C4Funcs(t: TlutFormat): DecodeFunction { Tiled(LineC4(t)) }
  function C8Funcs(t: TlutFormat): DecodeFunction { Tiled(LineC8(t)) }
  function C14Funcs(t: TlutFormat): DecodeFunction { Tiled(LineC14X2(t)) }

  /** The decoder Decode runs for `format` with palette format `t`; None for an unset entry. */
  function Lookup(format: int, t: TlutFormat): Option<DecodeFunction>
    requires 0 <= format < 15
  {
    match DecoderSlot(format)
    case Unset => None
    case Fixed(fn) => Some(fn)
    case PalettedC4 => Some(C4Funcs(t))
    case PalettedC8 => Some(C8Funcs(t))
    case PalettedC14 => Some(C14Funcs(t))
  }

  /** Exactly the formats the texture mapper reads have a decoder. */
  lemma EveryDirectFormatHasDecoder(format: int, t: TlutFormat)
    requires 0 <= format < 15
    ensures Lookup(format, t).Some? <==> FromValue(format).Some?
    ensures FromValue(format).Some? ==> IsDirect(FromValue(format).value)
  {
  }

  /** The palette format changes the decoder exactly for the paletted formats C4, C8 and C14X2. */
  lemma PaletteFormatSelectsDecoder(format: int, t1: TlutFormat, t2: TlutFormat)
    requires 0 <= format < 15
    ensures Lookup(format, t1) == Lookup(format, t2) <==> t1 == t2 || format !in {Value(C4), Value(C8), Value(C14X2)}
  {
  }

  /** The walkers' block shapes are those of the format tables, every walker call reads whole
      blocks of the size the tables give, and a palette fits the walker exactly when it has
      the entries that PaletteSize counts. */
  lemma WalkerAgreesWithTables(f: TextureFormat, t: TlutFormat, tlut: seq<u16>)
    requires IsDirect(f) && f != CMPR
    ensures Lookup(Value(f), t).Some? && Lookup(Value(f), t).value.Tiled?
    ensures var l := LayoutOf(Lookup(Value(f), t).value.k);
            l.bw == BlockWidthInTexels(Value(f)) && l.bh == BlockHeightInTexels(Value(f)) &&
            l.bh * l.bpl == BlockBytes(Value(f)) &&
            l.bw * l.bh * TexelSizeInNibbles(Value(f)) == 2 * l.bh * l.bpl
    ensures TlutFits(Lookup(Value(f), t).value.k, tlut) <==> |tlut| >= PaletteSize(Value(f)) / 2
  {
    DirectFormatsIndexDecoderTable(f);
    FromValueRoundTrip(f);
    assert Value(f) % 0x40 == Value(f);
  }

  /** The CMPR walker's 8x8 tiles of 32 bytes are the blocks of the format tables. */
  lemma CmprAgreesWithTables(t: TlutFormat)
    ensures Lookup(Value(CMPR), t) == Some(Cmpr)
    ensures BlockWidthInTexels(Value(CMPR)) == 8 && BlockHeightInTexels(Value(CMPR)) == 8
    ensures BlockBytes(Value(CMPR)) == 32 && TexelSizeInNibbles(Value(CMPR)) == 1
  {
    FromValueRoundTrip(CMPR);
  }

  /** Bytes in whole blocks: with an integral number of blocks each way, the blocks hold
      exactly half a nibble per texel. */
  lemma WholeBlocksSize(width: int, height: int, bw: int, bh: int, bpl: int, nibbles: int)
    requires bw > 0 && bh > 0 && 0 <= width && 0 <= height && width % bw == 0 && height % bh == 0
    requires 0 <= nibbles && bw * bh * nibbles == 2 * bh * bpl
    ensures (height / bh) * (width / bw) * bh * bpl == CDiv(width * height * nibbles + 1, 2)
  {
    var nbx, nby := width / bw, height / bh;
    assert width == nbx * bw && height == nby * bh;
    var total := nby * nbx * bh * bpl;
    assert width * height * nibbles == nbx * nby * (bw * bh * nibbles) by {
      assert width * height == nbx * nby * (bw * bh);
    }
    assert width * height * nibbles == 2 * total;
    MulMono(0, height, width);
    MulMono(0, width * height, nibbles);
    DivModUnique(2 * total + 1, 2, total, 1);
  }

  /** Decoding a texture of whole blocks reads exactly TextureSizeInBytes bytes. */
  lemma SourceSizeAgreesWithTables(f: TextureFormat, t: TlutFormat, width: int, height: int)
    requires IsDirect(f) && 0 <= width && 0 <= height
    requires width % BlockWidthInTexels(Value(f)) == 0 && height % BlockHeightInTexels(Value(f)) == 0
    ensures Lookup(Value(f), t).Some?
    ensures Lookup(Value(f), t).value.Tiled? ==>
              SourceBytes(LayoutOf(Lookup(Value(f), t).value.k), width, height) == TextureSizeInBytes(width, height, Value(f))
    ensures Lookup(Value(f), t).value.Cmpr? ==> DxtSourceBytes(width, height) == TextureSizeInBytes(width, height, Value(f))
  {
    DirectFormatsIndexDecoderTable(f);
    if f == CMPR {
      CmprAgreesWithTables(t);
      WholeBlocksSize(width, height, 8, 8, 4, 1);
    } else {
      WalkerAgreesWithTables(f, t, []);
      var l := LayoutOf(Lookup(Value(f), t).value.k);
      WholeBlocksSize(width, height, l.bw, l.bh, l.bpl, TexelSizeInNibbles(Value(f)));
    }
  }

  /** What Decode needs: a format with a decoder, and inputs that decoder accepts. */
  predicate CanDecode(format: int, t: TlutFormat, src: seq<u8>, tlut: seq<u16>, width: int, height: int)
  {
    0 <= format < 15 && Lookup(format, t).Some? &&
    match Lookup(format, t).value
    case Tiled(k) => Fits(k, src, tlut, width, height)
    case Cmpr => DxtFits(src, width, height)
  }

  /** The decoded texture Decode produces. */
  function DecodedTexture(format: int, t: TlutFormat, src: seq<u8>, tlut: seq<u16>, width: int, height: int): (img: seq<u32>)
    requires CanDecode(format, t, src, tlut, width, height)
    ensures |img| == width * height
  {
    match Lookup(format, t).value
    case Tiled(k) => DecodedImage(k, src, tlut, width, height)
    case Cmpr => DxtImage(src, width, height)
  }

  /** Decode: runs the decoder of `texformat` (with the paletted entries reading `tlutfmt`)
      on a width x height texture. */
  method Decode(dst: array<u32>, src: seq<u8>, width: int, height: int, texformat: int, tlut: seq<u16>, tlutfmt: TlutFormat)
    requires CanDecode(texformat, tlutfmt, src, tlut, width, height) && width * height <= dst.Length
    modifies dst
    ensures dst[..width * height] == DecodedTexture(texformat, tlutfmt, src, tlut, width, height)
    ensures forall i | width * height <= i < dst.Length :: dst[i] == old(dst[i])
  {
    match Lookup(texformat, tlutfmt).value
    case Tiled(k) =>
      DecodeTexture(k, dst, src, tlut, width, height);
    case Cmpr =>
      DecodeDXT(dst, src, width, height);
  }
}
