// The texture formats of the GameCube/Wii graphics processor and the palette
// (TLUT) formats, with the numeric encodings the decoders switch on, and the
// texture memory (TMEM) constants.

module TextureFormats {

  const TMEM_SIZE: int := 1024 * 1024
  const TMEM_LINE_SIZE: int := 32

  /** Flag for depth texture formats (used internally by the emulator). */
  const ZTF_FLAG: int := 0x10
  /** Flag for formats that only EFB copies produce. */
  const CTF_FLAG: int := 0x20

  datatype Option<T> = None | Some(value: T)

  datatype TextureFormat =
    // formats the texture mapper reads
    | I4 | I8 | IA4 | IA8 | RGB565 | RGB5A3 | RGBA8 | C4 | C8 | C14X2 | CMPR
    // depth formats, each its colour counterpart with the depth flag
    | Z8 | Z16 | Z24X8
    // EFB copy formats
    | CtfR4 | CtfRA4 | CtfRA8 | CtfYUVA8 | CtfA8 | CtfR8 | CtfG8 | CtfB8 | CtfRG8 | CtfGB8
    // EFB depth copy formats
    | CtfZ4 | CtfZ8H | CtfZ8M | CtfZ8L | CtfZ16R | CtfZ16L

  /** The numeric code of a format. Flags are disjoint from the low bits, so `|` is `+`. */
  function Value(f: TextureFormat): (v: int)
    ensures 0 <= v < 0x40
  {
    match f
    case I4 => 0x0
    case I8 => 0x1
    case IA4 => 0x2
    case IA8 => 0x3
    case RGB565 => 0x4
    case RGB5A3 => 0x5
    case RGBA8 => 0x6
    case C4 => 0x8
    case C8 => 0x9
    case C14X2 => 0xA
    case CMPR => 0xE
    case Z8 => 0x1 + ZTF_FLAG
    case Z16 => 0x3 + ZTF_FLAG
    case Z24X8 => 0x6 + ZTF_FLAG
    case CtfR4 => 0x0 + CTF_FLAG
    case CtfRA4 => 0x2 + CTF_FLAG
    case CtfRA8 => 0x3 + CTF_FLAG
    case CtfYUVA8 => 0x6 + CTF_FLAG
    case CtfA8 => 0x7 + CTF_FLAG
    case CtfR8 => 0x8 + CTF_FLAG
    case CtfG8 => 0x9 + CTF_FLAG
    case CtfB8 => 0xA + CTF_FLAG
    case CtfRG8 => 0xB + CTF_FLAG
    case CtfGB8 => 0xC + CTF_FLAG
    case CtfZ4 => 0x0 + ZTF_FLAG + CTF_FLAG
    case CtfZ8H => 0x8 + ZTF_FLAG + CTF_FLAG
    case CtfZ8M => 0x9 + ZTF_FLAG + CTF_FLAG
    case CtfZ8L => 0xA + ZTF_FLAG + CTF_FLAG
    case CtfZ16R => 0xB + ZTF_FLAG + CTF_FLAG
    case CtfZ16L => 0xC + ZTF_FLAG + CTF_FLAG
  }

  /** The format an integer code names, if any: the inverse of Value. */
  function FromValue(v: int): (r: Option<TextureFormat>)
    ensures r.Some? ==> Value(r.value) == v
  {
    if v == 0x00 then Some(I4)
    else if v == 0x01 then Some(I8)
    else if v == 0x02 then Some(IA4)
    else if v == 0x03 then Some(IA8)
    else if v == 0x04 then Some(RGB565)
    else if v == 0x05 then Some(RGB5A3)
    else if v == 0x06 then Some(RGBA8)
    else if v == 0x08 then Some(C4)
    else if v == 0x09 then Some(C8)
    else if v == 0x0A then Some(C14X2)
    else if v == 0x0E then Some(CMPR)
    else if v == 0x11 then Some(Z8)
    else if v == 0x13 then Some(Z16)
    else if v == 0x16 then Some(Z24X8)
    else if v == 0x20 then Some(CtfR4)
    else if v == 0x22 then Some(CtfRA4)
    else if v == 0x23 then Some(CtfRA8)
    else if v == 0x26 then Some(CtfYUVA8)
    else if v == 0x27 then Some(CtfA8)
    else if v == 0x28 then Some(CtfR8)
    else if v == 0x29 then Some(CtfG8)
    else if v == 0x2A then Some(CtfB8)
    else if v == 0x2B then Some(CtfRG8)
    else if v == 0x2C then Some(CtfGB8)
    else if v == 0x30 then Some(CtfZ4)
    else if v == 0x38 then Some(CtfZ8H)
    else if v == 0x39 then Some(CtfZ8M)
    else if v == 0x3A then Some(CtfZ8L)
    else if v == 0x3B then Some(CtfZ16R)
    else if v == 0x3C then Some(CtfZ16L)
    else None
  }

  /** Decoding the code of a format gives the format back; so Value is injective. */
  lemma FromValueRoundTrip(f: TextureFormat)
    ensures FromValue(Value(f)) == Some(f)
  {
  }

  /** A code FromValue rejects is the code of no format. */
  lemma FromValueNone(v: int, f: TextureFormat)
    requires FromValue(v).None?
    ensures Value(f) != v
  {
    FromValueRoundTrip(f);
  }

  /** Whether bit `flag` (a power of two) is set in the code `v`. */
  predicate HasFlag(v: int, flag: int)
    requires flag > 0
  {
    (v / flag) % 2 == 1
  }

  predicate IsDepth(f: TextureFormat)
  {
    f in {Z8, Z16, Z24X8, CtfZ4, CtfZ8H, CtfZ8M, CtfZ8L, CtfZ16R, CtfZ16L}
  }

  predicate IsCopyOnly(f: TextureFormat)
  {
    f in {CtfR4, CtfRA4, CtfRA8, CtfYUVA8, CtfA8, CtfR8, CtfG8, CtfB8, CtfRG8, CtfGB8,
          CtfZ4, CtfZ8H, CtfZ8M, CtfZ8L, CtfZ16R, CtfZ16L}
  }

  /** The formats the texture mapper reads directly (GX_TF_I4 .. GX_TF_CMPR). */
  predicate IsDirect(f: TextureFormat)
  {
    f in {I4, I8, IA4, IA8, RGB565, RGB5A3, RGBA8, C4, C8, C14X2, CMPR}
  }

  /** The depth flag 0x10 is set exactly in the depth formats, the copy flag 0x20 exactly
      in the copy-only formats, and the directly readable formats carry neither flag. */
  lemma FlagsClassifyFormats(f: TextureFormat)
    ensures HasFlag(Value(f), ZTF_FLAG) <==> IsDepth(f)
    ensures HasFlag(Value(f), CTF_FLAG) <==> IsCopyOnly(f)
    ensures IsDirect(f) <==> !IsDepth(f) && !IsCopyOnly(f)
  {
  }

  /** The colour format a depth texture format directly maps to. */
  function DepthCounterpart(f: TextureFormat): (c: TextureFormat)
    requires f in {Z8, Z16, Z24X8}
    ensures IsDirect(c)
  {
    match f
    case Z8 => I8
    case Z16 => IA8
    case Z24X8 => RGBA8
  }

  /** Each depth format is its colour counterpart with the depth flag added, so masking
      the code with 0xF recovers the counterpart. */
  lemma DepthIsColourWithFlag(f: TextureFormat)
    requires f in {Z8, Z16, Z24X8}
    ensures Value(f) == Value(DepthCounterpart(f)) + ZTF_FLAG
    ensures FromValue(Value(f) % 0x10) == Some(DepthCounterpart(f))
  {
  }

  /** The directly readable formats are exactly the formats with codes below 15, so they
      index the 15-entry decoder table. */
  lemma DirectFormatsIndexDecoderTable(f: TextureFormat)
    ensures IsDirect(f) <==> Value(f) < 15
  {
  }

  datatype TlutFormat = TlutIA8 | TlutRGB565 | TlutRGB5A3

  function TlutValue(t: TlutFormat): (v: int)
    ensures 0 <= v < 3
  {
    match t
    case TlutIA8 => 0
    case TlutRGB565 => 1
    case TlutRGB5A3 => 2
  }

  /** The three palette formats have distinct codes 0, 1 and 2, so they index the
      three-entry C4, C8 and C14 decoder tables one to one. */
  lemma TlutValueInjective(s: TlutFormat, t: TlutFormat)
    ensures TlutValue(s) == TlutValue(t) ==> s == t
  {
  }
}
