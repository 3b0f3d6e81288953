// The per-format lookup tables of the texture decoder: texel size, block dimensions,
// palette size, EFB copy base format and the display names of the formats.

module TextureTables {
  import opened TextureFormats
  import Arith

  /** Texel size in nibbles. The code is masked with 0x3f first; codes that name no
      listed format (including GX_CTF_YUVA8, which the switch omits) give 1. */
  function TexelSizeInNibbles(format: int): (n: int)
    ensures n in {1, 2, 4, 8}
    ensures FromValue(format % 0x40).None? ==> n == 1
  {
    match FromValue(format % 0x40)
    case Some(I4) => 1
    case Some(I8) => 2
    case Some(IA4) => 2
    case Some(IA8) => 4
    case Some(RGB565) => 4
    case Some(RGB5A3) => 4
    case Some(RGBA8) => 8
    case Some(C4) => 1
    case Some(C8) => 2
    case Some(C14X2) => 4
    case Some(CMPR) => 1
    case Some(CtfR4) => 1
    case Some(CtfRA4) => 2
    case Some(CtfRA8) => 4
    case Some(CtfA8) => 2
    case Some(CtfR8) => 2
    case Some(CtfG8) => 2
    case Some(CtfB8) => 2
    case Some(CtfRG8) => 4
    case Some(CtfGB8) => 4
    case Some(Z8) => 2
    case Some(Z16) => 4
    case Some(Z24X8) => 8
    case Some(CtfZ4) => 1
    case Some(CtfZ8H) => 2
    case Some(CtfZ8M) => 2
    case Some(CtfZ8L) => 2
    case Some(CtfZ16R) => 4
    case Some(CtfZ16L) => 4
    case _ => 1
  }

  /** Only the low six bits of the code matter: adding any multiple of 64 changes nothing. */
  lemma {:induction false} TexelSizeIgnoresHighBits(format: int, k: int)
    ensures TexelSizeInNibbles(format + 0x40 * k) == TexelSizeInNibbles(format)
  {
    Arith.DivModUnique(format + 0x40 * k, 0x40, format / 0x40 + k, format % 0x40);
  }

  /** Bytes of a width x height texture: half the nibble count, rounded up, with C's
      truncating division. */
  function TextureSizeInBytes(width: int, height: int, format: int): (bytes: int)
    ensures width >= 0 && height >= 0 ==>
              2 * bytes >= width * height * TexelSizeInNibbles(format) &&
              2 * bytes <= width * height * TexelSizeInNibbles(format) + 1
  {
    Arith.CDiv(width * height * TexelSizeInNibbles(format) + 1, 2)
  }

  /** Block width in texels; unknown codes give 8. */
  function BlockWidthInTexels(format: int): (w: int)
    ensures w in {4, 8}
    ensures FromValue(format).None? ==> w == 8
  {
    match FromValue(format)
    case Some(I4) => 8
    case Some(I8) => 8
    case Some(IA4) => 8
    case Some(IA8) => 4
    case Some(RGB565) => 4
    case Some(RGB5A3) => 4
    case Some(RGBA8) => 4
    case Some(C4) => 8
    case Some(C8) => 8
    case Some(C14X2) => 4
    case Some(CMPR) => 8
    case Some(CtfR4) => 8
    case Some(CtfRA4) => 8
    case Some(CtfRA8) => 4
    case Some(CtfA8) => 8
    case Some(CtfR8) => 8
    case Some(CtfG8) => 8
    case Some(CtfB8) => 8
    case Some(CtfRG8) => 4
    case Some(CtfGB8) => 4
    case Some(Z8) => 8
    case Some(Z16) => 4
    case Some(Z24X8) => 4
    case Some(CtfZ4) => 8
    case Some(CtfZ8H) => 8
    case Some(CtfZ8M) => 8
    case Some(CtfZ8L) => 8
    case Some(CtfZ16R) => 4
    case Some(CtfZ16L) => 4
    case _ => 8
  }

  /** Block height in texels; unknown codes give 4. */
  function BlockHeightInTexels(format: int): (h: int)
    ensures h in {4, 8}
    ensures FromValue(format).None? ==> h == 4
  {
    match FromValue(format)
    case Some(I4) => 8
    case Some(I8) => 4
    case Some(IA4) => 4
    case Some(IA8) => 4
    case Some(RGB565) => 4
    case Some(RGB5A3) => 4
    case Some(RGBA8) => 4
    case Some(C4) => 8
    case Some(C8) => 4
    case Some(C14X2) => 4
    case Some(CMPR) => 8
    case Some(CtfR4) => 8
    case Some(CtfRA4) => 4
    case Some(CtfRA8) => 4
    case Some(CtfA8) => 4
    case Some(CtfR8) => 4
    case Some(CtfG8) => 4
    case Some(CtfB8) => 4
    case Some(CtfRG8) => 4
    case Some(CtfGB8) => 4
    case Some(Z8) => 4
    case Some(Z16) => 4
    case Some(Z24X8) => 4
    case Some(CtfZ4) => 8
    case Some(CtfZ8H) => 4
    case Some(CtfZ8M) => 4
    case Some(CtfZ8L) => 4
    case Some(CtfZ16R) => 4
    case Some(CtfZ16L) => 4
    case _ => 4
  }

  /** Bytes in one block of the format, according to the size and block tables. */
  function BlockBytes(format: int): int
  {
    BlockWidthInTexels(format) * BlockHeightInTexels(format) * TexelSizeInNibbles(format) / 2
  }

  /** Every format the tables list has 32-byte blocks (one TMEM line), except RGBA8 and
      Z24X8, whose blocks are two lines. */
  lemma BlocksAreOneTmemLine(f: TextureFormat)
    requires f != CtfYUVA8
    ensures BlockBytes(Value(f)) == if f in {RGBA8, Z24X8} then 2 * TMEM_LINE_SIZE else TMEM_LINE_SIZE
  {
    FromValueRoundTrip(f);
    assert Value(f) % 0x40 == Value(f);
  }

  /** GX_CTF_YUVA8 is absent from all three tables, so it falls to the defaults:
      1 nibble per texel in 8x4 blocks, 16 bytes per block. */
  lemma YuvaFallsToDefaults()
    ensures TexelSizeInNibbles(Value(CtfYUVA8)) == 1
    ensures BlockWidthInTexels(Value(CtfYUVA8)) == 8 && BlockHeightInTexels(Value(CtfYUVA8)) == 4
    ensures BlockBytes(Value(CtfYUVA8)) == 16
  {
  }

  /** Palette size in bytes: two bytes per entry for 16, 256 and 16384 entries. */
  function PaletteSize(format: int): (bytes: int)
    ensures bytes in {0, 32, 512, 32768}
    ensures bytes != 0 <==> format in {Value(C4), Value(C8), Value(C14X2)}
    ensures format == Value(C4) ==> bytes / 2 == 16
    ensures format == Value(C8) ==> bytes / 2 == 256
    ensures format == Value(C14X2) ==> bytes / 2 == 16384
  {
    match FromValue(format)
    case Some(C4) => 16 * 2
    case Some(C8) => 256 * 2
    case Some(C14X2) => 16384 * 2
    case _ => 0
  }

  /** Formats EFB copies write directly. */
  predicate IsEfbCopyFormat(format: int)
  {
    FromValue(format).Some? && FromValue(format).value !in {C4, C8, C14X2, CMPR}
  }

  /** The in-memory format an EFB copy is drawn back as; formats that EFB copies cannot
      produce give their low four bits. */
  function EfbCopyBaseFormat(format: int): (base: int)
    ensures IsEfbCopyFormat(format) ==>
              base in {Value(I4), Value(I8), Value(IA4), Value(IA8), Value(RGB565),
                       Value(RGB5A3), Value(RGBA8)}
    ensures !IsEfbCopyFormat(format) ==> base == format % 0x10
  {
    match FromValue(format)
    case Some(I4) => Value(I4)
    case Some(CtfZ4) => Value(I4)
    case Some(CtfR4) => Value(I4)
    case Some(I8) => Value(I8)
    case Some(CtfA8) => Value(I8)
    case Some(CtfR8) => Value(I8)
    case Some(CtfG8) => Value(I8)
    case Some(CtfB8) => Value(I8)
    case Some(Z8) => Value(I8)
    case Some(CtfZ8H) => Value(I8)
    case Some(CtfZ8M) => Value(I8)
    case Some(CtfZ8L) => Value(I8)
    case Some(IA4) => Value(IA4)
    case Some(CtfRA4) => Value(IA4)
    case Some(IA8) => Value(IA8)
    case Some(Z16) => Value(IA8)
    case Some(CtfRA8) => Value(IA8)
    case Some(CtfRG8) => Value(IA8)
    case Some(CtfGB8) => Value(IA8)
    case Some(CtfZ16R) => Value(IA8)
    case Some(CtfZ16L) => Value(IA8)
    case Some(RGB565) => Value(RGB565)
    case Some(RGB5A3) => Value(RGB5A3)
    case Some(RGBA8) => Value(RGBA8)
    case Some(Z24X8) => Value(RGBA8)
    case Some(CtfYUVA8) => Value(RGBA8)
    case _ => format % 0x10
  }

  /** Taking the base format twice is the same as once, for every code: the seven base
      formats map to themselves and the fallback lands on a code the fallback fixes. */
  lemma {:induction false} EfbCopyBaseFormatIdempotent(format: int)
    ensures EfbCopyBaseFormat(EfbCopyBaseFormat(format)) == EfbCopyBaseFormat(format)
  {
    var b := EfbCopyBaseFormat(format);
    if !IsEfbCopyFormat(format) {
      assert 0 <= b < 0x10;
      assert b % 0x10 == b;
    }
  }

  /** GX_CTF_Z8H is documented to produce the same result as GX_TF_Z8: the size, block,
      palette and base-format tables agree on the two. */
  lemma Z8HAgreesWithZ8()
    ensures TexelSizeInNibbles(Value(CtfZ8H)) == TexelSizeInNibbles(Value(Z8))
    ensures BlockWidthInTexels(Value(CtfZ8H)) == BlockWidthInTexels(Value(Z8))
    ensures BlockHeightInTexels(Value(CtfZ8H)) == BlockHeightInTexels(Value(Z8))
    ensures PaletteSize(Value(CtfZ8H)) == PaletteSize(Value(Z8))
    ensures EfbCopyBaseFormat(Value(CtfZ8H)) == EfbCopyBaseFormat(Value(Z8))
  {
    FromValueRoundTrip(CtfZ8H);
    FromValueRoundTrip(Z8);
    assert Value(CtfZ8H) % 0x40 == Value(CtfZ8H) && Value(Z8) % 0x40 == Value(Z8);
  }

  /** A hexadecimal digit, upper case. */
  function HexDigit(d: int): (c: char)
    requires 0 <= d < 16
    ensures d < 10 ==> c == '0' + d as char
    ensures d >= 10 ==> c == 'A' + (d - 10) as char
  {
    "0123456789ABCDEF"[d]
  }

  /** The placeholder the name table holds for a code without a name: "0x" and two digits. */
  function HexName(format: int): (name: string)
    requires 0 <= format < 0x40
    ensures |name| == 4 && name[..2] == "0x"
    ensures name[2] == HexDigit(format / 16) && name[3] == HexDigit(format % 16)
  {
    "0x" + [HexDigit(format / 16), HexDigit(format % 16)]
  }

  /** The name every format is evidently meant to have: its GX name without the prefix. */
  function FormatName(f: TextureFormat): (name: string)
    ensures |name| >= 2 && name[0] != '0'
  {
    match f
    case I4 => "I4"
    case I8 => "I8"
    case IA4 => "IA4"
    case IA8 => "IA8"
    case RGB565 => "RGB565"
    case RGB5A3 => "RGB5A3"
    case RGBA8 => "RGBA8"
    case C4 => "C4"
    case C8 => "C8"
    case C14X2 => "C14X2"
    case CMPR => "CMPR"
    case Z8 => "Z8"
    case Z16 => "Z16"
    case Z24X8 => "Z24X8"
    case CtfR4 => "CR4"
    case CtfRA4 => "CRA4"
    case CtfRA8 => "CRA8"
    case CtfYUVA8 => "CYUVA8"
    case CtfA8 => "CA8"
    case CtfR8 => "CR8"
    case CtfG8 => "CG8"
    case CtfB8 => "CB8"
    case CtfRG8 => "CRG8"
    case CtfGB8 => "CGB8"
    case CtfZ4 => "CZ4"
    case CtfZ8H => "CZ8H"
    case CtfZ8M => "CZ8M"
    case CtfZ8L => "CZ8L"
    case CtfZ16R => "CZ16R"
    case CtfZ16L => "CZ16L"
  }

  /** The source's 64-entry name table, as written: each listed format under its name,
      every other slot under its hexadecimal placeholder. Slots 0x38 (GX_CTF_Z8H) and
      0x3B (GX_CTF_Z16R) hold placeholders too. */
  function TextureFormatNameAsWritten(format: int): (name: string)
    requires 0 <= format < 0x40
    ensures format in {0x38, 0x3B} ==> name == HexName(format)
  {
    match FromValue(format)
    case Some(CtfZ8H) => HexName(format)
    case Some(CtfZ16R) => HexName(format)
    case Some(f) => FormatName(f)
    case None => HexName(format)
  }

  /** As written, the table gives GX_CTF_Z8H and GX_CTF_Z16R the placeholder names of
      unused codes, although both are formats of the enumeration. */
  lemma NameTableMissesTwoFormats()
    ensures TextureFormatNameAsWritten(Value(CtfZ8H)) == "0x38" != FormatName(CtfZ8H)
    ensures TextureFormatNameAsWritten(Value(CtfZ16R)) == "0x3B" != FormatName(CtfZ16R)
  {
    FromValueRoundTrip(CtfZ8H);
    FromValueRoundTrip(CtfZ16R);
    assert HexName(0x38) == "0x38" by {
      assert HexDigit(3) == '3' && HexDigit(8) == '8';
    }
    assert HexName(0x3B) == "0x3B" by {
      assert HexDigit(3) == '3' && HexDigit(11) == 'B';
    }
  }

  /** The display name of a format code below 64, from the table with the two missing
      names filled in: a format's own name, or the placeholder for a code naming none. */
  function TextureFormatName(format: int): (name: string)
    requires 0 <= format < 0x40
    ensures FromValue(format).Some? ==> name == FormatName(FromValue(format).value)
    ensures FromValue(format).None? ==> name == HexName(format)
  {
    match FromValue(format)
    case Some(f) => FormatName(f)
    case None => HexName(format)
  }

  /** A name tells whether its code names a format: placeholders, and only they, begin "0x". */
  lemma NamesDistinguishFormats(format: int)
    requires 0 <= format < 0x40
    ensures TextureFormatName(format)[..2] == "0x" <==> FromValue(format).None?
  {
  }

  /** The corrected table differs from the source's only in the two missing slots. */
  lemma {:induction false} NameTablesAgreeElsewhere(format: int)
    requires 0 <= format < 0x40 && format != 0x38 && format != 0x3B
    ensures TextureFormatName(format) == TextureFormatNameAsWritten(format)
  {
  }

  /** Names of the palette formats; the table has a fourth entry for the unused code 3. */
  function TlutFormatName(format: int): (name: string)
    requires 0 <= format < 4
    ensures format < 3 ==> name == ["IA8", "RGB565", "RGB5A3"][format]
    ensures format == 3 ==> name == "0x03"
  {
    ["IA8", "RGB565", "RGB5A3", "0x03"][format]
  }
}
