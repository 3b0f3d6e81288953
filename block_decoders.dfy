// The generic block-line decoders. Each call decodes one line of a block (for RGBA8, a
// whole 4x4 block) from the texture bytes at offset `s` into the texel buffer at index
// `d`. Each decoder is a method with the loop of the original, proved against a function
// giving the texel it must write at row `r`, column `c` of its call.

module BlockDecoders {
  import opened Bytes
  import opened TextureFormats
  import opened TexturePixels
  import Arith

  /** The nibble `k` (0: high, 1: low) of a byte; 4-bit formats store the left texel high. */
  function Nibble(b: u8, k: int): (n: int)
    requires k == 0 || k == 1
    ensures 0 <= n < 16
  {
    if k == 0 then b / 0x10 else b % 0x10
  }

  /** Texels 2k and 2k + 1 of a 4-bit line are the high and the low nibble of byte k. */
  lemma NibblePair(b: u8, k: int)
    ensures (2 * k) / 2 == k && (2 * k + 1) / 2 == k
    ensures Nibble(b, (2 * k) % 2) == b / 0x10 && Nibble(b, (2 * k + 1) % 2) == b % 0x10
  {
  }

  /** Texel c of a 4-bit line of four bytes: the high nibble of byte c / 2 for even c, the low
      one for odd c. */
  function NibbleAt(src: seq<u8>, s: int, c: int): (n: int)
    requires 0 <= s && s + 4 <= |src| && 0 <= c < 8
    ensures 0 <= n < 16
  {
    Nibble(src[s + c / 2], c % 2)
  }

  /** I4: eight texels from four bytes, grey with alpha, the high nibble first. */
  function I4Texel(src: seq<u8>, s: int, c: int): (t: u32)
    requires 0 <= s && s + 4 <= |src| && 0 <= c < 8
  {
    Grey(Convert4To8(NibbleAt(src, s, c)))
  }

  /** I8: eight grey texels, one byte each. */
  function I8Texel(src: seq<u8>, s: int, c: int): u32
    requires 0 <= s && s + 8 <= |src| && 0 <= c < 8
  {
    Grey(src[s + c])
  }

  /** IA4: eight texels, one byte each, alpha in the high nibble, intensity in the low. */
  function IA4Texel(src: seq<u8>, s: int, c: int): u32
    requires 0 <= s && s + 8 <= |src| && 0 <= c < 8
  {
    var a := Convert4To8(src[s + c] / 0x10);
    var i := Convert4To8(src[s + c] % 0x10);
    MakeRGBA(i, i, i, a)
  }

  /** IA8, RGB565 and RGB5A3: four texels, one 16-bit value each, read in guest order. */
  function Direct16Texel(fmt: TlutFormat, src: seq<u8>, s: int, c: int): u32
    requires 0 <= s && s + 8 <= |src| && 0 <= c < 4
  {
    DecodePixel(fmt, LoadU16(src, s + 2 * c))
  }

  /** RGBA8: a 4x4 block in 64 bytes, alpha and red in the first 32, green and blue in the
      second 32. The texel at row r, column c takes the pair at offset 8r + 2c of each half. */
  function RGBA8Texel(src: seq<u8>, s: int, r: int, c: int): u32
    requires 0 <= s && s + 64 <= |src| && 0 <= r < 4 && 0 <= c < 4
  {
    var p := s + 8 * r + 2 * c;
    var s0 := LoadU16(src, p);
    var s1 := LoadU16(src, p + 32);
    (s0 as int % 0x100) * 0x100_0000 + s0 as int / 0x100 + s1 as int * 0x100
  }

  /** C4: eight palette indices from four bytes, the high nibble first. */
  function C4Texel(fmt: TlutFormat, src: seq<u8>, s: int, tlut: seq<u16>, c: int): (t: u32)
    requires 0 <= s && s + 4 <= |src| && |tlut| >= 16 && 0 <= c < 8
  {
    DecodePixel(fmt, tlut[NibbleAt(src, s, c)])
  }



  /** C8: eight palette indices, one byte each. */
  function C8Texel(fmt: TlutFormat, src: seq<u8>, s: int, tlut: seq<u16>, c: int): (t: u32)
    requires 0 <= s && s + 8 <= |src| && |tlut| >= 256 && 0 <= c < 8
  {
    DecodePixel(fmt, tlut[src[s + c]])
  }

  /** The palette index of a C14X2 value: the low 14 bits of its big-endian value, so the
      top two bits of the first byte are ignored. */
  function C14Index(src: seq<u8>, o: int): (i: int)
    requires 0 <= o && o + 2 <= |src|
    ensures 0 <= i < 0x4000
  {
    Swap16(LoadU16(src, o)) % 0x4000
  }

  /** C14X2: four 14-bit palette indices, one 16-bit value each. */
  function C14X2Texel(fmt: TlutFormat, src: seq<u8>, s: int, tlut: seq<u16>, c: int): (t: u32)
    requires 0 <= s && s + 8 <= |src| && |tlut| >= 0x4000 && 0 <= c < 4
  {
    DecodePixel(fmt, tlut[C14Index(src, s + 2 * c)])
  }

  /** I8 and I4 texels are grey with equal alpha: the byte itself for each of the eight I8
      texels, or the 4-bit intensity scaled to 8 bits for the odd texel of each of the four
      I4 bytes. */
  lemma GreyTexelChannels(src: seq<u8>, s: int, c: int)
    requires 0 <= s && s + 8 <= |src| && 0 <= c < 8
    ensures var t := I8Texel(src, s, c); Red(t) == Green(t) == Blue(t) == Alpha(t) == src[s + c]
    ensures c < 4 ==>
              var t := I4Texel(src, s, 2 * c + 1);
              Red(t) == Green(t) == Blue(t) == Alpha(t) == Convert4To8(src[s + c] % 0x10)
  {
    MakeRGBAChannels(src[s + c], src[s + c], src[s + c], src[s + c]);
    var n := Convert4To8(src[s + c] % 0x10);
    NibblePair(src[s + c], c);
    MakeRGBAChannels(n, n, n, n);
  }

  /** IA4 takes alpha from the high nibble and intensity from the low one. */
  lemma IA4TexelChannels(src: seq<u8>, s: int, c: int)
    requires 0 <= s && s + 8 <= |src| && 0 <= c < 8
    ensures var t := IA4Texel(src, s, c);
            Alpha(t) == Convert4To8(src[s + c] / 0x10) &&
            Red(t) == Green(t) == Blue(t) == Convert4To8(src[s + c] % 0x10)
  {
    var n := Convert4To8(src[s + c] % 0x10);
    MakeRGBAChannels(n, n, n, Convert4To8(src[s + c] / 0x10));
  }

  /** The 16-bit formats decode the big-endian value of their two bytes. */
  lemma Direct16TexelBytes(src: seq<u8>, s: int, c: int)
    requires 0 <= s && s + 8 <= |src| && 0 <= c < 4
    ensures forall fmt :: Direct16Texel(fmt, src, s, c) ==
                          Colour(fmt, src[s + 2 * c] as int * 0x100 + src[s + 2 * c + 1] as int)
  {
    forall fmt: TlutFormat {
      DecodePixelOfLoad(fmt, src, s + 2 * c);
    }
  }

  /** RGBA8 takes alpha and red from the first half of the block, green and blue from the
      second. */
  lemma RGBA8TexelChannels(src: seq<u8>, s: int, r: int, c: int)
    requires 0 <= s && s + 64 <= |src| && 0 <= r < 4 && 0 <= c < 4
    ensures var p, t := s + 8 * r + 2 * c, RGBA8Texel(src, s, r, c);
            Alpha(t) == src[p] && Red(t) == src[p + 1] && Green(t) == src[p + 32] && Blue(t) == src[p + 33]
  {
    var p := s + 8 * r + 2 * c;
    MakeRGBAChannels(src[p + 1], src[p + 32], src[p + 33], src[p]);
    RGBA8TexelBytes(src, s, r, c);
  }

  /** The RGBA8 texel at row r, column c is the texel of the four bytes at offset 8r + 2c of
      each half of the block: red and alpha from the first, green and blue from the second. */
  lemma RGBA8TexelBytes(src: seq<u8>, s: int, r: int, c: int)
    requires 0 <= s && s + 64 <= |src| && 0 <= r < 4 && 0 <= c < 4
    ensures var p := s + 8 * r + 2 * c;
            RGBA8Texel(src, s, r, c) == MakeRGBA(src[p + 1], src[p + 32], src[p + 33], src[p])
  {
    var p := s + 8 * r + 2 * c;
    var s0, s1 := LoadU16(src, p), LoadU16(src, p + 32);
    assert RGBA8Texel(src, s, r, c) == MakeRGBA(src[p + 1], src[p + 32], src[p + 33], src[p]);
  }

  /** The C14X2 palette index is the low 14 bits of the big-endian value: the top two bits
      of the first byte are ignored. */
  lemma C14IndexIsLow14Bits(src: seq<u8>, o: int)
    requires 0 <= o && o + 2 <= |src|
    ensures C14Index(src, o) == (src[o] as int % 0x40) * 0x100 + src[o + 1] as int
  {
    SwappedLoadIsBigEndian(src, o);
    var v := src[o] as int * 0x100 + src[o + 1] as int;
    Arith.DivModUnique(v, 0x4000, src[o] as int / 0x40, (src[o] as int % 0x40) * 0x100 + src[o + 1] as int);
  }

  // In the postconditions below, `forall i ... !(d <= i < d + n) ==> dst[i] == old(dst[i])`
  // says that a call writes its own texels and nothing else.

  /** Byte i of an I4 line holds texels 2i (high nibble) and 2i + 1 (low nibble). */
  lemma I4Pair(src: seq<u8>, s: int, i: int)
    requires 0 <= s && s + 4 <= |src| && 0 <= i < 4
    ensures I4Texel(src, s, 2 * i) == Grey(Convert4To8(src[s + i] / 0x10))
    ensures I4Texel(src, s, 2 * i + 1) == Grey(Convert4To8(src[s + i] % 0x10))
  {
    NibblePair(src[s + i], i);
    assert NibbleAt(src, s, 2 * i) == src[s + i] / 0x10 && NibbleAt(src, s, 2 * i + 1) == src[s + i] % 0x10;
  }

  /** One pass of DecodeBytes_I4's loop: byte i gives texels 2i and 2i + 1. */
  method DecodeByteI4(dst: array<u32>, d: int, src: seq<u8>, s: int, i: int)
    requires 0 <= d && d + 8 <= dst.Length && 0 <= s && s + 4 <= |src| && 0 <= i < 4
    modifies dst
    ensures dst[d + 2 * i] == I4Texel(src, s, 2 * i) && dst[d + 2 * i + 1] == I4Texel(src, s, 2 * i + 1)
    ensures forall j :: 0 <= j < dst.Length && j != d + 2 * i && j != d + 2 * i + 1 ==> dst[j] == old(dst[j])
  {
    I4Pair(src, s, i);
    var c0 := Convert4To8(src[s + i] / 0x10);
    var c1 := Convert4To8(src[s + i] % 0x10);
    dst[d + 2 * i] := Grey(c0);
    dst[d + 2 * i + 1] := Grey(c1);
  }

  method DecodeBytesI4(dst: array<u32>, d: int, src: seq<u8>, s: int)
    requires 0 <= d && d + 8 <= dst.Length && 0 <= s && s + 4 <= |src|
    modifies dst
    ensures forall c :: 0 <= c < 8 ==> dst[d + c] == I4Texel(src, s, c)
    ensures forall i :: 0 <= i < dst.Length && !(d <= i < d + 8) ==> dst[i] == old(dst[i])
  {
    for i := 0 to 4
      invariant forall j :: d <= j < d + 2 * i ==> dst[j] == I4Texel(src, s, j - d)
      invariant forall j :: 0 <= j < dst.Length && !(d <= j < d + 2 * i) ==> dst[j] == old(dst[j])
    {
      DecodeByteI4(dst, d, src, s, i);
    }
  }

  method DecodeBytesI8(dst: array<u32>, d: int, src: seq<u8>, s: int)
    requires 0 <= d && d + 8 <= dst.Length && 0 <= s && s + 8 <= |src|
    modifies dst
    ensures forall c :: 0 <= c < 8 ==> dst[d + c] == I8Texel(src, s, c)
    ensures forall i :: 0 <= i < dst.Length && !(d <= i < d + 8) ==> dst[i] == old(dst[i])
  {
    for i := 0 to 8
      invariant forall c :: 0 <= c < i ==> dst[d + c] == I8Texel(src, s, c)
      invariant forall j :: 0 <= j < dst.Length && !(d <= j < d + i) ==> dst[j] == old(dst[j])
    {
      dst[d + i] := Grey(src[s + i]);
    }
  }

  method DecodeBytesIA4(dst: array<u32>, d: int, src: seq<u8>, s: int)
    requires 0 <= d && d + 8 <= dst.Length && 0 <= s && s + 8 <= |src|
    modifies dst
    ensures forall c :: 0 <= c < 8 ==> dst[d + c] == IA4Texel(src, s, c)
    ensures forall i :: 0 <= i < dst.Length && !(d <= i < d + 8) ==> dst[i] == old(dst[i])
  {
    for x := 0 to 8
      invariant forall c :: 0 <= c < x ==> dst[d + c] == IA4Texel(src, s, c)
      invariant forall j :: 0 <= j < dst.Length && !(d <= j < d + x) ==> dst[j] == old(dst[j])
    {
      var a := Convert4To8(src[s + x] / 0x10);
      var i := Convert4To8(src[s + x] % 0x10);
      dst[d + x] := MakeRGBA(i, i, i, a);
      assert dst[d + x] == IA4Texel(src, s, x);
    }
  }

  /** The IA8, RGB565 and RGB5A3 line decoders, which differ only in the pixel format. */
  method DecodeBytesDirect16(fmt: TlutFormat, dst: array<u32>, d: int, src: seq<u8>, s: int)
    requires 0 <= d && d + 4 <= dst.Length && 0 <= s && s + 8 <= |src|
    modifies dst
    ensures forall c :: 0 <= c < 4 ==> dst[d + c] == Direct16Texel(fmt, src, s, c)
    ensures forall i :: 0 <= i < dst.Length && !(d <= i < d + 4) ==> dst[i] == old(dst[i])
  {
    for x := 0 to 4
      invariant forall c :: 0 <= c < x ==> dst[d + c] == Direct16Texel(fmt, src, s, c)
      invariant forall j :: 0 <= j < dst.Length && !(d <= j < d + x) ==> dst[j] == old(dst[j])
    {
      dst[d + x] := DecodePixel(fmt, LoadU16(src, s + 2 * x));
      assert dst[d + x] == Direct16Texel(fmt, src, s, x);
    }
  }

  /** Index of the first texel of row `r` of a call writing at `d` with row pitch `pitch`. */
  function RowStart(d: int, pitch: int, r: int): int
  {
    d + r * pitch
  }

  /** Index `i` lies in one of the `rows` runs of `cols` texels starting at `d`, `pitch` apart. */
  predicate Written(i: int, d: int, pitch: int, rows: nat, cols: int)
  {
    if rows == 0 then false
    else Written(i, d, pitch, rows - 1, cols) ||
         RowStart(d, pitch, rows - 1) <= i < RowStart(d, pitch, rows - 1) + cols
  }

  /** Earlier rows of a call end before later rows start when the pitch covers a row. */
  lemma {:induction false} RowsInOrder(d: int, pitch: int, r: int, q: int, cols: int)
    requires 0 <= r < q && 0 <= cols <= pitch
    ensures RowStart(d, pitch, r) + cols <= RowStart(d, pitch, q)
  {
    Arith.MulMono(r + 1, q, pitch);
  }

  /** The inner loop of DecodeBytes_RGBA8: row iy of the block, its alpha and red from the
      first 32 bytes and its green and blue from the next 32. */
  method DecodeRowRGBA8(dst: array<u32>, row: int, src: seq<u8>, s: int, iy: int)
    requires 0 <= row && row + 4 <= dst.Length && 0 <= s && s + 64 <= |src| && 0 <= iy < 4
    modifies dst
    ensures forall c :: 0 <= c < 4 ==> dst[row + c] == RGBA8Texel(src, s, iy, c)
    ensures forall j :: 0 <= j < dst.Length && !(row <= j < row + 4) ==> dst[j] == old(dst[j])
  {
    for ix := 0 to 4
      invariant forall j :: row <= j < row + ix ==> dst[j] == RGBA8Texel(src, s, iy, j - row)
      invariant forall j :: 0 <= j < dst.Length && !(row <= j < row + ix) ==> dst[j] == old(dst[j])
    {
      var s0 := LoadU16(src, s + 8 * iy + 2 * ix);
      var s1 := LoadU16(src, s + 8 * iy + 2 * ix + 32);
      dst[row + ix] := (s0 as int % 0x100) * 0x100_0000 + s0 as int / 0x100 + s1 as int * 0x100;
      assert dst[row + ix] == RGBA8Texel(src, s, iy, ix);
    }
  }

  method DecodeBytesRGBA8(dst: array<u32>, d: int, src: seq<u8>, s: int, width: int)
    requires 4 <= width && 0 <= d && RowStart(d, width, 3) + 4 <= dst.Length && 0 <= s && s + 64 <= |src|
    modifies dst
    ensures forall r, c :: 0 <= r < 4 && 0 <= c < 4 ==> dst[RowStart(d, width, r) + c] == RGBA8Texel(src, s, r, c)
    ensures forall i :: 0 <= i < dst.Length && !Written(i, d, width, 4, 4) ==> dst[i] == old(dst[i])
  {
    for iy := 0 to 4
      invariant forall r, c :: 0 <= r < iy && 0 <= c < 4 ==> dst[RowStart(d, width, r) + c] == RGBA8Texel(src, s, r, c)
      invariant forall j :: 0 <= j < dst.Length && !Written(j, d, width, iy, 4) ==> dst[j] == old(dst[j])
    {
      var row := RowStart(d, width, iy);
      if iy < 3 {
        RowsInOrder(d, width, iy, 3, 4);
      }
      forall r | 0 <= r < iy
        ensures RowStart(d, width, r) + 4 <= row
      {
        RowsInOrder(d, width, r, iy, 4);
      }
      DecodeRowRGBA8(dst, row, src, s, iy);
    }
  }

  /** Byte x of a C4 block holds the palette indices of texels 2x and 2x + 1. */
  lemma C4Pair(fmt: TlutFormat, src: seq<u8>, s: int, tlut: seq<u16>, x: int)
    requires 0 <= s && s + 4 <= |src| && |tlut| >= 16 && 0 <= x < 4
    ensures C4Texel(fmt, src, s, tlut, 2 * x) == DecodePixel(fmt, tlut[src[s + x] / 0x10])
    ensures C4Texel(fmt, src, s, tlut, 2 * x + 1) == DecodePixel(fmt, tlut[src[s + x] % 0x10])
  {
    NibblePair(src[s + x], x);
    assert NibbleAt(src, s, 2 * x) == src[s + x] / 0x10 && NibbleAt(src, s, 2 * x + 1) == src[s + x] % 0x10;
  }

  /** One pass of DecodeBytes_C4's loop: the palette colours of both nibbles of byte x go to
      texels 2x and 2x + 1. */
  method DecodeByteC4(fmt: TlutFormat, dst: array<u32>, d: int, src: seq<u8>, s: int, tlut: seq<u16>, x: int)
    requires 0 <= d && d + 8 <= dst.Length && 0 <= s && s + 4 <= |src| && |tlut| >= 16 && 0 <= x < 4
    modifies dst
    ensures dst[d + 2 * x] == C4Texel(fmt, src, s, tlut, 2 * x)
    ensures dst[d + 2 * x + 1] == C4Texel(fmt, src, s, tlut, 2 * x + 1)
    ensures forall j :: 0 <= j < dst.Length && j != d + 2 * x && j != d + 2 * x + 1 ==> dst[j] == old(dst[j])
  {
    var val := src[s + x];
    C4Pair(fmt, src, s, tlut, x);
    var p := d + 2 * x;
    dst[p] := DecodePixel(fmt, tlut[val / 0x10]);
    p := p + 1;
    dst[p] := DecodePixel(fmt, tlut[val % 0x10]);
  }

  method DecodeBytesC4(fmt: TlutFormat, dst: array<u32>, d: int, src: seq<u8>, s: int, tlut: seq<u16>)
    requires 0 <= d && d + 8 <= dst.Length && 0 <= s && s + 4 <= |src| && |tlut| >= 16
    modifies dst
    ensures forall c :: 0 <= c < 8 ==> dst[d + c] == C4Texel(fmt, src, s, tlut, c)
    ensures forall i :: 0 <= i < dst.Length && !(d <= i < d + 8) ==> dst[i] == old(dst[i])
  {
    for x := 0 to 4
      invariant forall c :: 0 <= c < 2 * x ==> dst[d + c] == C4Texel(fmt, src, s, tlut, c)
      invariant forall j :: 0 <= j < dst.Length && !(d <= j < d + 2 * x) ==> dst[j] == old(dst[j])
    {
      DecodeByteC4(fmt, dst, d, src, s, tlut, x);
    }
  }

  method DecodeBytesC8(fmt: TlutFormat, dst: array<u32>, d: int, src: seq<u8>, s: int, tlut: seq<u16>)
    requires 0 <= d && d + 8 <= dst.Length && 0 <= s && s + 8 <= |src| && |tlut| >= 256
    modifies dst
    ensures forall c :: 0 <= c < 8 ==> dst[d + c] == C8Texel(fmt, src, s, tlut, c)
    ensures forall i :: 0 <= i < dst.Length && !(d <= i < d + 8) ==> dst[i] == old(dst[i])
  {
    var p := d;
    for x := 0 to 8
      invariant p == d + x
      invariant forall c :: 0 <= c < x ==> dst[d + c] == C8Texel(fmt, src, s, tlut, c)
      invariant forall j :: 0 <= j < dst.Length && !(d <= j < p) ==> dst[j] == old(dst[j])
    {
      dst[p] := DecodePixel(fmt, tlut[src[s + x]]);
      assert dst[d + x] == C8Texel(fmt, src, s, tlut, x);
      p := p + 1;
    }
  }

  method DecodeBytesC14X2(fmt: TlutFormat, dst: array<u32>, d: int, src: seq<u8>, s: int, tlut: seq<u16>)
    requires 0 <= d && d + 4 <= dst.Length && 0 <= s && s + 8 <= |src| && |tlut| >= 0x4000
    modifies dst
    ensures forall c :: 0 <= c < 4 ==> dst[d + c] == C14X2Texel(fmt, src, s, tlut, c)
    ensures forall i :: 0 <= i < dst.Length && !(d <= i < d + 4) ==> dst[i] == old(dst[i])
  {
    var p := d;
    for x := 0 to 4
      invariant p == d + x
      invariant forall c :: 0 <= c < x ==> dst[d + c] == C14X2Texel(fmt, src, s, tlut, c)
      invariant forall j :: 0 <= j < dst.Length && !(d <= j < p) ==> dst[j] == old(dst[j])
    {
      var val := Swap16(LoadU16(src, s + 2 * x));
      dst[p] := DecodePixel(fmt, tlut[val % 0x4000]);
      assert dst[d + x] == C14X2Texel(fmt, src, s, tlut, x);
      p := p + 1;
    }
  }
}
