// The CMPR (S3TC/DXT1-like) decoder of the generic backend. A CMPR texture is made of 8x8
// tiles, each four 8-byte sub-blocks of 4x4 texels in reading order (top-left, top-right,
// bottom-left, bottom-right). A sub-block holds two RGB565 endpoint colours in guest order
// and four bytes of 2-bit palette selectors, one byte per row, the leftmost texel in the
// top bit pair.

module Dxt {
  import opened Bytes
  import opened TexturePixels
  import opened BlockDecoders
  import opened Arith
  import Tiling
  import TextureWalker

  /** The first endpoint colour of the sub-block at offset `o`, byte-swapped into guest order. */
  function Colour1(src: seq<u8>, o: int): u16
    requires 0 <= o && o + 8 <= |src|
  {
    Swap16(LoadU16(src, o))
  }

  /** The second endpoint colour. */
  function Colour2(src: seq<u8>, o: int): u16
    requires 0 <= o && o + 8 <= |src|
  {
    Swap16(LoadU16(src, o + 2))
  }

  function Red5(c: u16): u8 { Convert5To8((c / 0x800) % 0x20) }
  function Green6(c: u16): u8 { Convert6To8((c / 0x20) % 0x40) }
  function Blue5(c: u16): u8 { Convert5To8(c % 0x20) }

  /** The approximation of a third of the way from `a` to `b`: (d >> 1) - (d >> 3), 3/8 of
      the difference, with arithmetic (flooring) shifts. */
  function Third(a: int, b: int): int
  {
    (b - a) / 2 - (b - a) / 8
  }

  /** Moving a "third" from either endpoint stays between the endpoints. */
  lemma ThirdBetween(a: int, b: int)
    requires 0 <= a < 0x100 && 0 <= b < 0x100
    ensures a <= b ==> a <= a + Third(a, b) <= b && a <= b - Third(a, b) <= b
    ensures b < a ==> b <= a + Third(a, b) <= a && b <= b - Third(a, b) <= a
  {
  }

  /** Either blend of two channels is a channel. */
  lemma ThirdInByte(a: int, b: int)
    requires 0 <= a < 0x100 && 0 <= b < 0x100
    ensures 0 <= a + Third(a, b) < 0x100 && 0 <= b - Third(a, b) < 0x100
  {
    ThirdBetween(a, b);
  }

  /** The rounded average of two channels. */
  function Average(a: int, b: int): int
  {
    (a + b + 1) / 2
  }

  /** The palette of a four-colour sub-block with expanded endpoints (r1, g1, b1) and (r2, g2, b2). */
  function FourColours(r1: u8, g1: u8, b1: u8, r2: u8, g2: u8, b2: u8): (p: seq<u32>)
    ensures |p| == 4
  {
    ThirdInByte(r1, r2);
    ThirdInByte(g1, g2);
    ThirdInByte(b1, b2);
    [MakeRGBA(r1, g1, b1, 0xFF), MakeRGBA(r2, g2, b2, 0xFF),
     MakeRGBA(r1 + Third(r1, r2), g1 + Third(g1, g2), b1 + Third(b1, b2), 0xFF),
     MakeRGBA(r2 - Third(r1, r2), g2 - Third(g1, g2), b2 - Third(b1, b2), 0xFF)]
  }

  /** The palette of a three-colour sub-block: entry 3 is transparent. */
  function ThreeColours(r1: u8, g1: u8, b1: u8, r2: u8, g2: u8, b2: u8): (p: seq<u32>)
    ensures |p| == 4
  {
    [MakeRGBA(r1, g1, b1, 0xFF), MakeRGBA(r2, g2, b2, 0xFF),
     MakeRGBA(Average(r1, r2), Average(g1, g2), Average(b1, b2), 0xFF),
     MakeRGBA(Average(r1, r2), Average(g1, g2), Average(b1, b2), 0)]
  }

  /** The four colours of a sub-block with endpoints c1 and c2: four opaque colours when
      c1 > c2, three and a transparent one otherwise. */
  function Palette(c1: u16, c2: u16): (p: seq<u32>)
    ensures |p| == 4
  {
    if c1 > c2 then FourColours(Red5(c1), Green6(c1), Blue5(c1), Red5(c2), Green6(c2), Blue5(c2))
    else ThreeColours(Red5(c1), Green6(c1), Blue5(c1), Red5(c2), Green6(c2), Blue5(c2))
  }

  /** Both palettes begin with the two endpoints, opaque. */
  lemma EndpointChannels(r1: u8, g1: u8, b1: u8, r2: u8, g2: u8, b2: u8)
    ensures var p := FourColours(r1, g1, b1, r2, g2, b2);
            var q := ThreeColours(r1, g1, b1, r2, g2, b2);
            p[0] == q[0] && p[1] == q[1] &&
            Red(p[0]) == r1 && Green(p[0]) == g1 && Blue(p[0]) == b1 && Alpha(p[0]) == 0xFF &&
            Red(p[1]) == r2 && Green(p[1]) == g2 && Blue(p[1]) == b2 && Alpha(p[1]) == 0xFF
  {
    MakeRGBAChannels(r1, g1, b1, 0xFF);
    MakeRGBAChannels(r2, g2, b2, 0xFF);
  }

  /** In a four-colour palette entries 2 and 3 are opaque, 3/8 of the way from each endpoint
      towards the other. */
  lemma FourColourChannels(r1: u8, g1: u8, b1: u8, r2: u8, g2: u8, b2: u8)
    ensures var p := FourColours(r1, g1, b1, r2, g2, b2);
            Alpha(p[2]) == 0xFF && Alpha(p[3]) == 0xFF &&
            Red(p[2]) == r1 + Third(r1, r2) && Green(p[2]) == g1 + Third(g1, g2) && Blue(p[2]) == b1 + Third(b1, b2) &&
            Red(p[3]) == r2 - Third(r1, r2) && Green(p[3]) == g2 - Third(g1, g2) && Blue(p[3]) == b2 - Third(b1, b2)
  {
    ThirdInByte(r1, r2);
    ThirdInByte(g1, g2);
    ThirdInByte(b1, b2);
    var r3, g3, b3 := r1 + Third(r1, r2), g1 + Third(g1, g2), b1 + Third(b1, b2);
    var r4, g4, b4 := r2 - Third(r1, r2), g2 - Third(g1, g2), b2 - Third(b1, b2);
    MakeRGBAChannels(r3, g3, b3, 0xFF);
    MakeRGBAChannels(r4, g4, b4, 0xFF);
  }

  /** In a three-colour palette entry 2 is the rounded average of the endpoints, opaque, and
      entry 3 the same colour fully transparent. */
  lemma ThreeColourChannels(r1: u8, g1: u8, b1: u8, r2: u8, g2: u8, b2: u8)
    ensures var p := ThreeColours(r1, g1, b1, r2, g2, b2);
            Alpha(p[2]) == 0xFF && Alpha(p[3]) == 0 &&
            Red(p[3]) == Red(p[2]) == Average(r1, r2) &&
            Green(p[3]) == Green(p[2]) == Average(g1, g2) &&
            Blue(p[3]) == Blue(p[2]) == Average(b1, b2)
  {
    MakeRGBAChannels(Average(r1, r2), Average(g1, g2), Average(b1, b2), 0xFF);
    MakeRGBAChannels(Average(r1, r2), Average(g1, g2), Average(b1, b2), 0);
  }

  /** Entries 0, 1 and 2 of every palette are opaque; entry 3 is opaque exactly when c1 > c2,
      and fully transparent otherwise. */
  lemma PaletteAlpha(c1: u16, c2: u16)
    ensures var p := Palette(c1, c2);
            Alpha(p[0]) == 0xFF && Alpha(p[1]) == 0xFF && Alpha(p[2]) == 0xFF &&
            (c1 > c2 ==> Alpha(p[3]) == 0xFF) && (c1 <= c2 ==> Alpha(p[3]) == 0)
  {
    var r1, g1, b1, r2, g2, b2 := Red5(c1), Green6(c1), Blue5(c1), Red5(c2), Green6(c2), Blue5(c2);
    EndpointChannels(r1, g1, b1, r2, g2, b2);
    if c1 > c2 {
      FourColourChannels(r1, g1, b1, r2, g2, b2);
    } else {
      ThreeColourChannels(r1, g1, b1, r2, g2, b2);
    }
  }

  /** The endpoints are the RGB565 values expanded field by field. */
  lemma PaletteEndpoints(c1: u16, c2: u16)
    ensures var p := Palette(c1, c2);
            Red(p[0]) == Red5(c1) && Green(p[0]) == Green6(c1) && Blue(p[0]) == Blue5(c1) &&
            Red(p[1]) == Red5(c2) && Green(p[1]) == Green6(c2) && Blue(p[1]) == Blue5(c2)
  {
    EndpointChannels(Red5(c1), Green6(c1), Blue5(c1), Red5(c2), Green6(c2), Blue5(c2));
  }

  /** With c1 > c2 the two interpolated colours lie between the endpoints, channel by channel. */
  lemma InterpolatedBetweenEndpoints(r1: u8, g1: u8, b1: u8, r2: u8, g2: u8, b2: u8)
    ensures var p := FourColours(r1, g1, b1, r2, g2, b2);
            (r1 <= r2 ==> r1 <= Red(p[2]) <= r2 && r1 <= Red(p[3]) <= r2) &&
            (r2 < r1 ==> r2 <= Red(p[2]) <= r1 && r2 <= Red(p[3]) <= r1) &&
            (g1 <= g2 ==> g1 <= Green(p[2]) <= g2 && g1 <= Green(p[3]) <= g2) &&
            (g2 < g1 ==> g2 <= Green(p[2]) <= g1 && g2 <= Green(p[3]) <= g1) &&
            (b1 <= b2 ==> b1 <= Blue(p[2]) <= b2 && b1 <= Blue(p[3]) <= b2) &&
            (b2 < b1 ==> b2 <= Blue(p[2]) <= b1 && b2 <= Blue(p[3]) <= b1)
  {
    FourColourChannels(r1, g1, b1, r2, g2, b2);
    ThirdBetween(r1, r2);
    ThirdBetween(g1, g2);
    ThirdBetween(b1, b2);
  }

  /** The selector of column `c` in a row byte: bits 7-6 for column 0 down to bits 1-0 for column 3. */
  function Selector(line: u8, c: int): (sel: int)
    requires 0 <= c < 4
    ensures 0 <= sel < 4
  {
    (line / PowerOf4(3 - c)) % 4
  }

  /** 4 to the power k, for the shift amounts of a row byte. */
  function PowerOf4(k: int): (w: int)
    requires 0 <= k <= 4
    ensures w >= 1
  {
    if k == 0 then 1 else if k == 1 then 4 else if k == 2 then 16 else if k == 3 then 64 else 256
  }

  /** The four selectors of a row are its four bit pairs, the leftmost texel's most significant. */
  lemma SelectorsMakeLine(line: u8)
    ensures line == Selector(line, 0) * 64 + Selector(line, 1) * 16 + Selector(line, 2) * 4 + Selector(line, 3)
  {
    DivDivMod(line, 4, 4);
    DivDivMod(line, 16, 4);
    var q4, q16 := line / 4, line / 16;
    assert q4 == (q4 / 4) * 4 + q4 % 4 && q16 == (q16 / 4) * 4 + q16 % 4;
    assert line == q4 * 4 + line % 4;
    assert Selector(line, 0) == line / 64 && Selector(line, 1) == q16 % 4;
    assert Selector(line, 2) == q4 % 4 && Selector(line, 3) == line % 4;
  }

  /** Texel (c, r) of the sub-block at offset `o`: the palette entry its selector names. */
  function DxtTexel(src: seq<u8>, o: int, r: int, c: int): u32
    requires 0 <= o && o + 8 <= |src| && 0 <= r < 4 && 0 <= c < 4
  {
    Selected(Palette(Colour1(src, o), Colour2(src, o)), src, o, r, c)
  }

  /** The entry of `colors` that the selector of texel (c, r) of the sub-block at `o` names. */
  function Selected(colors: seq<u32>, src: seq<u8>, o: int, r: int, c: int): u32
    requires |colors| == 4 && 0 <= o && o + 8 <= |src| && 0 <= r < 4 && 0 <= c < 4
  {
    colors[Selector(src[o + 4 + r], c)]
  }

  /** A CMPR texel is transparent exactly when c1 <= c2 and its selector is 3: every other texel is opaque. */
  lemma DxtTexelAlpha(src: seq<u8>, o: int, r: int, c: int)
    requires 0 <= o && o + 8 <= |src| && 0 <= r < 4 && 0 <= c < 4
    ensures Alpha(DxtTexel(src, o, r, c)) == 0 <==> Colour1(src, o) <= Colour2(src, o) && Selector(src[o + 4 + r], c) == 3
    ensures Alpha(DxtTexel(src, o, r, c)) != 0 ==> Alpha(DxtTexel(src, o, r, c)) == 0xFF
  {
    PaletteAlpha(Colour1(src, o), Colour2(src, o));
  }

  /** Shifting the row left by two bits per column brings column x's bit pair to bits 7-6. */
  lemma ShiftedSelector(line: u8, x: int)
    requires 0 <= x < 4
    ensures (line * PowerOf4(x) / 64) % 4 == Selector(line, x)
  {
  }

  /** One row of DecodeDXTBlock: the four texels of row `y` of the sub-block at `o`, written
      from index `row` on. The selector is taken from the top bit pair as the row byte shifts left. */
  method DecodeDXTRow(dst: array<u32>, row: int, colors: seq<u32>, src: seq<u8>, o: int, y: int)
    requires 0 <= o && o + 8 <= |src| && 0 <= y < 4 && |colors| == 4
    requires 0 <= row && row + 4 <= dst.Length
    modifies dst
    ensures forall c | 0 <= c < 4 :: dst[row + c] == Selected(colors, src, o, y, c)
    ensures forall i | 0 <= i < dst.Length && !(row <= i < row + 4) :: dst[i] == old(dst[i])
  {
    var line := src[o + 4 + y];
    var val: int := line;
    for x := 0 to 4
      invariant val == line as int * PowerOf4(x)
      invariant forall c | 0 <= c < x :: dst[row + c] == Selected(colors, src, o, y, c)
      invariant forall i | 0 <= i < dst.Length && !(row <= i < row + x) :: dst[i] == old(dst[i])
    {
      ShiftedSelector(line, x);
      dst[row + x] := colors[(val / 64) % 4];
      val := val * 4;
    }
  }

  /** DecodeDXTBlock: decodes the sub-block at source offset `o` into rows of 4 texels,
      `pitch` texels apart, starting at index `d`. */
  method DecodeDXTBlock(dst: array<u32>, d: int, src: seq<u8>, o: int, pitch: int)
    requires 4 <= pitch && 0 <= d && RowStart(d, pitch, 3) + 4 <= dst.Length && 0 <= o && o + 8 <= |src|
    modifies dst
    ensures forall r, c | 0 <= r < 4 && 0 <= c < 4 :: dst[RowStart(d, pitch, r) + c] == DxtTexel(src, o, r, c)
    ensures forall i | 0 <= i < dst.Length && !Written(i, d, pitch, 4, 4) :: dst[i] == old(dst[i])
  {
    var colors := DecodeDXTPalette(src, o);
    DecodeDXTRows(dst, d, colors, src, o, pitch);
  }

  /** The row loop of DecodeDXTBlock, with the palette already computed. */
  method DecodeDXTRows(dst: array<u32>, d: int, colors: seq<u32>, src: seq<u8>, o: int, pitch: int)
    requires 4 <= pitch && 0 <= d && RowStart(d, pitch, 3) + 4 <= dst.Length && 0 <= o && o + 8 <= |src|
    requires |colors| == 4
    modifies dst
    ensures forall r, c | 0 <= r < 4 && 0 <= c < 4 :: dst[RowStart(d, pitch, r) + c] == Selected(colors, src, o, r, c)
    ensures forall i | 0 <= i < dst.Length && !Written(i, d, pitch, 4, 4) :: dst[i] == old(dst[i])
  {
    for y := 0 to 4
      invariant forall r, c | 0 <= r < y && 0 <= c < 4 :: dst[RowStart(d, pitch, r) + c] == Selected(colors, src, o, r, c)
      invariant forall j | 0 <= j < dst.Length && !Written(j, d, pitch, y, 4) :: dst[j] == old(dst[j])
    {
      var row := RowStart(d, pitch, y);
      if y < 3 {
        RowsInOrder(d, pitch, y, 3, 4);
      }
      forall r | 0 <= r < y
        ensures RowStart(d, pitch, r) + 4 <= row
      {
        RowsInOrder(d, pitch, r, y, 4);
      }
      DecodeDXTRow(dst, row, colors, src, o, y);
    }
  }

  /** The palette computation at the head of DecodeDXTBlock: the endpoint fields expanded
      to 8 bits, then the two derived colours. */
  method DecodeDXTPalette(src: seq<u8>, o: int) returns (colors: seq<u32>)
    requires 0 <= o && o + 8 <= |src|
    ensures |colors| == 4 && colors == Palette(Colour1(src, o), Colour2(src, o))
  {
    var c1 := Swap16(LoadU16(src, o));
    var c2 := Swap16(LoadU16(src, o + 2));
    var red1, red2 := Convert5To8((c1 / 0x800) % 0x20), Convert5To8((c2 / 0x800) % 0x20);
    var green1, green2 := Convert6To8((c1 / 0x20) % 0x40), Convert6To8((c2 / 0x20) % 0x40);
    var blue1, blue2 := Convert5To8(c1 % 0x20), Convert5To8(c2 % 0x20);
    colors := DerivedColours(red1, green1, blue1, red2, green2, blue2, c1 > c2);
  }

  /** Entries 2 and 3 from the expanded endpoints: interpolated at 3/8 when `fourColours`,
      otherwise the rounded average, opaque and then transparent. */
  method DerivedColours(red1: u8, green1: u8, blue1: u8, red2: u8, green2: u8, blue2: u8, fourColours: bool)
    returns (colors: seq<u32>)
    ensures fourColours ==> colors == FourColours(red1, green1, blue1, red2, green2, blue2)
    ensures !fourColours ==> colors == ThreeColours(red1, green1, blue1, red2, green2, blue2)
  {
    colors := [MakeRGBA(red1, green1, blue1, 0xFF), MakeRGBA(red2, green2, blue2, 0xFF), 0, 0];
    if fourColours {
      ThirdBetween(red1, red2);
      ThirdBetween(green1, green2);
      ThirdBetween(blue1, blue2);
      var blue3 := (blue2 - blue1) / 2 - (blue2 - blue1) / 8;
      var green3 := (green2 - green1) / 2 - (green2 - green1) / 8;
      var red3 := (red2 - red1) / 2 - (red2 - red1) / 8;
      colors := colors[2 := MakeRGBA(red1 + red3, green1 + green3, blue1 + blue3, 0xFF)];
      colors := colors[3 := MakeRGBA(red2 - red3, green2 - green3, blue2 - blue3, 0xFF)];
    } else {
      colors := colors[2 := MakeRGBA((red1 + red2 + 1) / 2, (green1 + green2 + 1) / 2, (blue1 + blue2 + 1) / 2, 0xFF)];
      colors := colors[3 := MakeRGBA((red1 + red2 + 1) / 2, (green1 + green2 + 1) / 2, (blue1 + blue2 + 1) / 2, 0)];
    }
  }

  // ---------------------------------------------------------------------------------------
  // The walk over 8x8 tiles (DecodeDXT_Generic).

  /** Source offset of sub-block `j` (0..3, reading order) of tile (blockX, blockY). */
  function DxtOfs(width: int, blockX: int, blockY: int, j: int): int
  {
    ((blockY * (width / 8) + blockX) * 4 + j) * 8
  }

  /** Bytes the walk reads for a width x height texture: 32 per tile. */
  function DxtSourceBytes(width: int, height: int): int
  {
    (height / 8) * (width / 8) * 32
  }

  /** What the walk needs: whole tiles and enough source bytes. */
  predicate DxtFits(src: seq<u8>, width: int, height: int)
  {
    0 <= width && 0 <= height && width % 8 == 0 && height % 8 == 0 && |src| >= DxtSourceBytes(width, height)
  }

  /** Column offset of sub-block `j` in its tile. */
  function QuarterX(j: int): int { (j % 2) * 4 }

  /** Row offset of sub-block `j` in its tile. */
  function QuarterY(j: int): int { (j / 2) * 4 }

  /** Every sub-block of the walk is read inside the texture's bytes. */
  lemma {:induction false} DxtOfsBound(width: int, height: int, blockX: int, blockY: int, j: int)
    requires 0 <= width && 0 <= height && 0 <= blockX < width / 8 && 0 <= blockY < height / 8 && 0 <= j < 4
    ensures 0 <= DxtOfs(width, blockX, blockY, j) && DxtOfs(width, blockX, blockY, j) + 8 <= DxtSourceBytes(width, height)
  {
    var nbx, nby := width / 8, height / 8;
    var b := blockY * nbx + blockX;
    assert 0 <= b;
    MulMono(0, b, 4);
    assert DxtOfs(width, blockX, blockY, j) + 8 <= (b + 1) * 32;
    MulMono(blockY + 1, nby, nbx);
    assert b + 1 <= nby * nbx;
    MulMono(b + 1, nby * nbx, 32);
  }

  /** How the source offset advances: 8 bytes per sub-block, from the last sub-block of a
      tile to the next tile, and from the last tile of a tile row to the next row. */
  lemma DxtOfsSteps(width: int, blockX: int, blockY: int, j: int)
    ensures DxtOfs(width, blockX, blockY, j) + 8 == DxtOfs(width, blockX, blockY, j + 1)
    ensures DxtOfs(width, blockX, blockY, 4) == DxtOfs(width, blockX + 1, blockY, 0)
    ensures DxtOfs(width, width / 8, blockY, 0) == DxtOfs(width, 0, blockY + 1, 0)
  {
    var b := blockY * (width / 8) + blockX;
    assert (b * 4 + 4) * 8 == ((b + 1) * 4 + 0) * 8;
    assert blockY * (width / 8) + width / 8 == (blockY + 1) * (width / 8) + 0;
  }

  /** The sub-block of a tile that holds the texel at column `c`, row `r` of the tile. */
  function QuarterOf(c: int, r: int): int { (r / 4) * 2 + c / 4 }

  /** The place of texel (px, py): sub-block QuarterOf(px % 8, py % 8) of its tile, at row
      py % 4 and column px % 4 of it. */
  function DxtPlaceOf(width: int, px: int, py: int): TextureWalker.Place
  {
    TextureWalker.Place(DxtOfs(width, px / 8, py / 8, QuarterOf(px % 8, py % 8)), (py % 8) % 4, (px % 8) % 4)
  }

  /** Sub-block `j` of tile (blockX, blockY) is the place of every texel of its 4x4 square. */
  lemma DxtPlaceOfCall(width: int, blockX: int, blockY: int, j: int, r: int, c: int)
    requires 0 <= j < 4 && 0 <= r < 4 && 0 <= c < 4
    ensures DxtPlaceOf(width, blockX * 8 + QuarterX(j) + c, blockY * 8 + QuarterY(j) + r) ==
            TextureWalker.Place(DxtOfs(width, blockX, blockY, j), r, c)
  {
    DivModUnique(blockX * 8 + QuarterX(j) + c, 8, blockX, QuarterX(j) + c);
    DivModUnique(blockY * 8 + QuarterY(j) + r, 8, blockY, QuarterY(j) + r);
    DivModUnique(QuarterX(j) + c, 4, j % 2, c);
    DivModUnique(QuarterY(j) + r, 4, j / 2, r);
    assert QuarterOf(QuarterX(j) + c, QuarterY(j) + r) == j;
  }

  /** Every texel's place lies inside the texture's bytes and inside a 4x4 square. */
  lemma DxtPlaceInRange(width: int, height: int, px: int, py: int)
    requires 0 <= width && 0 <= height && width % 8 == 0 && height % 8 == 0
    requires 0 <= px < width && 0 <= py < height
    ensures var p := DxtPlaceOf(width, px, py);
            0 <= p.ofs && p.ofs + 8 <= DxtSourceBytes(width, height) && 0 <= p.r < 4 && 0 <= p.c < 4
  {
    DxtOfsBound(width, height, px / 8, py / 8, QuarterOf(px % 8, py % 8));
  }

  /** The texel at (px, py) of the decoded CMPR texture. */
  function DxtTexelAt(src: seq<u8>, width: int, height: int, px: int, py: int): u32
    requires DxtFits(src, width, height) && 0 <= px < width && 0 <= py < height
  {
    var p := DxtPlaceOf(width, px, py);
    DxtPlaceInRange(width, height, px, py);
    DxtTexel(src, p.ofs, p.r, p.c)
  }

  /** The decoded CMPR texture, row-major. */
  function DxtImage(src: seq<u8>, width: int, height: int): (img: seq<u32>)
    requires DxtFits(src, width, height)
    ensures |img| == width * height
  {
    seq(width * height, i requires 0 <= i < width * height =>
      IdxOfIndex(width, height, i);
      DxtTexelAt(src, width, height, i % width, i / width))
  }

  /** The decoded texture holds at the index of (px, py) the texel at (px, py). */
  lemma DxtImageAt(src: seq<u8>, width: int, height: int, px: int, py: int)
    requires DxtFits(src, width, height) && 0 <= px < width && 0 <= py < height
    ensures 0 <= Idx(width, px, py) < width * height
    ensures DxtImage(src, width, height)[Idx(width, px, py)] == DxtTexelAt(src, width, height, px, py)
  {
    var i := Idx(width, px, py);
    IdxBelow(width, px, py, height);
    MulMono(0, py, width);
    IdxDivMod(width, px, py);
    assert i % width == px && i / width == py;
    IdxOfIndex(width, height, i);
    assert DxtImage(src, width, height)[i] == DxtTexelAt(src, width, height, i % width, i / width);
  }

  /** A tile of the walk lies inside the texture. */
  lemma TileInTexture(width: int, height: int, blockX: int, blockY: int)
    requires 0 <= width && 0 <= height && width % 8 == 0 && height % 8 == 0
    requires 0 <= blockX < width / 8 && 0 <= blockY < height / 8
    ensures (blockX + 1) * 8 <= width && (blockY + 1) * 8 <= height
  {
    DivModUnique(width, 8, width / 8, 0);
    DivModUnique(height, 8, height / 8, 0);
    MulMono(blockX + 1, width / 8, 8);
    MulMono(blockY + 1, height / 8, 8);
  }

  /** The square of sub-block `j` of tile (blockX, blockY), in texels. */
  function QuarterOrigin(width: int, blockX: int, blockY: int, j: int): int
  {
    Idx(width, blockX * 8 + QuarterX(j), blockY * 8 + QuarterY(j))
  }

  /** Sub-block `j` of tile (blockX, blockY) writes inside the texture. */
  lemma QuarterInTexture(width: int, height: int, blockX: int, blockY: int, j: int)
    requires 0 <= width && 0 <= height && width % 8 == 0 && height % 8 == 0
    requires 0 <= blockX < width / 8 && 0 <= blockY < height / 8 && 0 <= j < 4
    ensures 4 <= width && 0 <= QuarterOrigin(width, blockX, blockY, j)
    ensures RowStart(QuarterOrigin(width, blockX, blockY, j), width, 3) + 4 <= width * height
  {
    TileInTexture(width, height, blockX, blockY);
    var x0, y0 := blockX * 8 + QuarterX(j), blockY * 8 + QuarterY(j);
    MulMono(0, y0, width);
    IdxShift(width, x0, y0, 3, 3);
    IdxBelow(width, x0 + 3, y0 + 3, height);
  }

  /** Cell (r, c) of sub-block `j`'s square is the index of a texel of the texture whose place
      is that cell of that sub-block. */
  lemma QuarterCellPlace(width: int, height: int, blockX: int, blockY: int, j: int, r: int, c: int)
    requires 0 <= width && 0 <= height && width % 8 == 0 && height % 8 == 0
    requires 0 <= blockX < width / 8 && 0 <= blockY < height / 8 && 0 <= j < 4 && 0 <= r < 4 && 0 <= c < 4
    ensures var i := Tiling.Cell(QuarterOrigin(width, blockX, blockY, j), width, r, c);
            0 <= i < width * height && 0 <= i % width < width && 0 <= i / width < height &&
            DxtPlaceOf(width, i % width, i / width) == TextureWalker.Place(DxtOfs(width, blockX, blockY, j), r, c)
  {
    var x0, y0 := blockX * 8 + QuarterX(j), blockY * 8 + QuarterY(j);
    TileInTexture(width, height, blockX, blockY);
    IdxShift(width, x0, y0, c, r);
    var i := Idx(width, x0 + c, y0 + r);
    MulMono(0, y0 + r, width);
    IdxBelow(width, x0 + c, y0 + r, height);
    IdxDivMod(width, x0 + c, y0 + r);
    assert i % width == x0 + c && i / width == y0 + r;
    DxtPlaceOfCall(width, blockX, blockY, j, r, c);
  }

  /** The decoded texture holds at cell (r, c) of sub-block `j`'s square what the sub-block
      decodes there. */
  lemma QuarterCellIsImage(src: seq<u8>, width: int, height: int, blockX: int, blockY: int, j: int, r: int, c: int)
    requires DxtFits(src, width, height)
    requires 0 <= blockX < width / 8 && 0 <= blockY < height / 8 && 0 <= j < 4 && 0 <= r < 4 && 0 <= c < 4
    requires 0 <= DxtOfs(width, blockX, blockY, j) && DxtOfs(width, blockX, blockY, j) + 8 <= |src|
    ensures var i := Tiling.Cell(QuarterOrigin(width, blockX, blockY, j), width, r, c);
            0 <= i < width * height && DxtImage(src, width, height)[i] == DxtTexel(src, DxtOfs(width, blockX, blockY, j), r, c)
  {
    QuarterCellPlace(width, height, blockX, blockY, j, r, c);
  }

  /** The quarters done after `j` sub-blocks grow by exactly the square of sub-block `j`. */
  lemma QuarterDone(j: int, c: int, r: int)
    requires 0 <= j < 4 && 0 <= c < 8 && 0 <= r < 8
    ensures Tiling.InnerDone(Tiling.Quadrants, c, r, j + 1) <==>
            Tiling.InnerDone(Tiling.Quadrants, c, r, j) || (QuarterY(j) <= r < QuarterY(j) + 4 && QuarterX(j) <= c < QuarterX(j) + 4)
  {
  }

  /** One sub-block keeps the buffer decoded: its square now holds the decoded texels and the
      rest is as before, so one more quarter of the tile is done. */
  lemma QuarterStep(img: seq<u32>, width: int, height: int, cur: seq<u32>, next: seq<u32>, org: seq<u32>,
                    blockX: int, blockY: int, j: int)
    requires 0 <= width && 0 <= height && width % 8 == 0 && height % 8 == 0
    requires 0 <= blockX < width / 8 && 0 <= blockY < height / 8 && 0 <= j < 4
    requires Tiling.Decoded(cur, org, img, width, height, Tiling.Quadrants, 8, 8, blockY * 8, blockX * 8, j)
    requires Tiling.WroteRect(next, img, QuarterOrigin(width, blockX, blockY, j), width, 4, 4)
    requires Tiling.KeptOutside(next, cur, QuarterOrigin(width, blockX, blockY, j), width, 4, 4)
    ensures Tiling.Decoded(next, org, img, width, height, Tiling.Quadrants, 8, 8, blockY * 8, blockX * 8, j + 1)
  {
    TileInTexture(width, height, blockX, blockY);
    var x, y := blockX * 8, blockY * 8;
    var x0, y0 := x + QuarterX(j), y + QuarterY(j);
    forall px, py | 0 <= px < width && 0 <= py < height
      ensures Tiling.Done(Tiling.Quadrants, 8, 8, y, x, j + 1, px, py) <==>
              Tiling.Done(Tiling.Quadrants, 8, 8, y, x, j, px, py) || (y0 <= py < y0 + 4 && x0 <= px < x0 + 4)
    {
      if y <= py < y + 8 && x <= px < x + 8 {
        QuarterDone(j, px - x, py - y);
      }
    }
    Tiling.RectStep(cur, next, org, img, width, height, Tiling.Quadrants, 8, 8, y, x, j, j + 1, x0, y0, 4, 4);
  }

  /** What DecodeDXTBlock wrote for sub-block `j` of tile (blockX, blockY) takes the walk one
      quarter further. */
  lemma QuarterDecoded(src: seq<u8>, width: int, height: int, cur: seq<u32>, next: seq<u32>, org: seq<u32>,
                       blockX: int, blockY: int, j: int)
    requires DxtFits(src, width, height)
    requires 0 <= blockX < width / 8 && 0 <= blockY < height / 8 && 0 <= j < 4
    requires 0 <= DxtOfs(width, blockX, blockY, j) && DxtOfs(width, blockX, blockY, j) + 8 <= |src|
    requires Tiling.Decoded(cur, org, DxtImage(src, width, height), width, height, Tiling.Quadrants, 8, 8,
                            blockY * 8, blockX * 8, j)
    requires |next| == |cur|
    requires forall r, c | 0 <= r < 4 && 0 <= c < 4 && 0 <= Tiling.Cell(QuarterOrigin(width, blockX, blockY, j), width, r, c) < |next| ::
               next[Tiling.Cell(QuarterOrigin(width, blockX, blockY, j), width, r, c)] ==
               DxtTexel(src, DxtOfs(width, blockX, blockY, j), r, c)
    requires forall i | 0 <= i < |cur| && !Written(i, QuarterOrigin(width, blockX, blockY, j), width, 4, 4) :: next[i] == cur[i]
    ensures Tiling.Decoded(next, org, DxtImage(src, width, height), width, height, Tiling.Quadrants, 8, 8,
                           blockY * 8, blockX * 8, j + 1)
  {
    var img := DxtImage(src, width, height);
    var d := QuarterOrigin(width, blockX, blockY, j);
    forall r, c | 0 <= r < 4 && 0 <= c < 4 && 0 <= Tiling.Cell(d, width, r, c) < |next| && Tiling.Cell(d, width, r, c) < |img|
      ensures next[Tiling.Cell(d, width, r, c)] == img[Tiling.Cell(d, width, r, c)]
    {
      QuarterCellIsImage(src, width, height, blockX, blockY, j, r, c);
    }
    QuarterStep(img, width, height, cur, next, org, blockX, blockY, j);
  }

  /** One DecodeDXTBlock call of the walk: sub-block `j` of tile (blockX, blockY), read at
      source offset `o` and written at texel index `d` with the texture's width as pitch. The
      walk is one quarter further afterwards. */
  method DecodeQuarter(dst: array<u32>, d: int, src: seq<u8>, o: int, width: int, height: int,
                       ghost blockX: int, ghost blockY: int, ghost j: int, ghost org: seq<u32>)
    requires DxtFits(src, width, height) && 0 <= blockX < width / 8 && 0 <= blockY < height / 8 && 0 <= j < 4
    requires d == QuarterOrigin(width, blockX, blockY, j) && o == DxtOfs(width, blockX, blockY, j)
    requires Tiling.Decoded(dst[..], org, DxtImage(src, width, height), width, height, Tiling.Quadrants, 8, 8,
                            blockY * 8, blockX * 8, j)
    modifies dst
    ensures o + 8 == DxtOfs(width, blockX, blockY, j + 1)
    ensures Tiling.Decoded(dst[..], org, DxtImage(src, width, height), width, height, Tiling.Quadrants, 8, 8,
                           blockY * 8, blockX * 8, j + 1)
  {
    ghost var before := dst[..];
    QuarterInTexture(width, height, blockX, blockY, j);
    DxtOfsBound(width, height, blockX, blockY, j);
    DecodeDXTBlock(dst, d, src, o, width);
    QuarterDecoded(src, width, height, before, dst[..], org, blockX, blockY, j);
    DxtOfsSteps(width, blockX, blockY, j);
  }

  /** Where the two sub-blocks of half `half` (0 the upper, 1 the lower) of the tile at (x, y)
      start, as DecodeDXT_Generic computes them. */
  lemma HalfOrigins(width: int, x: int, y: int, blockX: int, blockY: int, half: int)
    requires x == blockX * 8 && y == blockY * 8 && 0 <= half < 2
    ensures QuarterOrigin(width, blockX, blockY, 2 * half) == (y + 4 * half) * width + x
    ensures QuarterOrigin(width, blockX, blockY, 2 * half + 1) == (y + 4 * half) * width + x + 4
  {
    assert QuarterX(2 * half) == 0 && QuarterX(2 * half + 1) == 4;
    assert QuarterY(2 * half) == 4 * half && QuarterY(2 * half + 1) == 4 * half;
  }

  /** Two of the four DecodeDXTBlock calls of one tile: sub-blocks 2 * half and 2 * half + 1,
      at source offset `o`. */
  method DecodeHalf(dst: array<u32>, src: seq<u8>, o: int, width: int, height: int, x: int, y: int,
                    ghost blockX: int, ghost blockY: int, half: int, ghost org: seq<u32>)
    requires DxtFits(src, width, height) && 0 <= blockX < width / 8 && 0 <= blockY < height / 8
    requires x == blockX * 8 && y == blockY * 8 && 0 <= half < 2 && o == DxtOfs(width, blockX, blockY, 2 * half)
    requires Tiling.Decoded(dst[..], org, DxtImage(src, width, height), width, height, Tiling.Quadrants, 8, 8, y, x, 2 * half)
    modifies dst
    ensures o + 16 == DxtOfs(width, blockX, blockY, 2 * half + 2)
    ensures Tiling.Decoded(dst[..], org, DxtImage(src, width, height), width, height, Tiling.Quadrants, 8, 8, y, x, 2 * half + 2)
  {
    HalfOrigins(width, x, y, blockX, blockY, half);
    DecodeQuarter(dst, (y + 4 * half) * width + x, src, o, width, height, blockX, blockY, 2 * half, org);
    DecodeQuarter(dst, (y + 4 * half) * width + x + 4, src, o + 8, width, height, blockX, blockY, 2 * half + 1, org);
  }

  /** The body of DecodeDXT's inner loop: the four DecodeDXTBlock calls for tile
      (blockX, blockY), at source offset `o`, which finish that tile. */
  method DecodeTile(dst: array<u32>, src: seq<u8>, o: int, width: int, height: int, x: int, y: int,
                    ghost blockX: int, ghost blockY: int, ghost org: seq<u32>)
    requires DxtFits(src, width, height) && 0 <= blockX < width / 8 && 0 <= blockY < height / 8
    requires x == blockX * 8 && y == blockY * 8 && o == DxtOfs(width, blockX, blockY, 0)
    requires Tiling.Decoded(dst[..], org, DxtImage(src, width, height), width, height, Tiling.Quadrants, 8, 8, y, x, 0)
    modifies dst
    ensures o + 32 == DxtOfs(width, blockX + 1, blockY, 0)
    ensures Tiling.Decoded(dst[..], org, DxtImage(src, width, height), width, height, Tiling.Quadrants, 8, 8, y, x + 8, 0)
  {
    DecodeHalf(dst, src, o, width, height, x, y, blockX, blockY, 0, org);
    DecodeHalf(dst, src, o + 16, width, height, x, y, blockX, blockY, 1, org);
    DxtOfsSteps(width, blockX, blockY, 0);
    Tiling.NextBlock(dst[..], org, DxtImage(src, width, height), width, height, Tiling.Quadrants, 8, 8, y, x, 4);
  }

  /** DecodeDXT_Generic: walks the 8x8 tiles of a width x height CMPR texture. The first
      width * height entries of `dst` become the decoded texture; the rest is untouched. */
  method DecodeDXT(dst: array<u32>, src: seq<u8>, width: int, height: int)
    requires DxtFits(src, width, height) && width * height <= dst.Length
    modifies dst
    ensures dst[..width * height] == DxtImage(src, width, height)
    ensures forall i | width * height <= i < dst.Length :: dst[i] == old(dst[i])
  {
    ghost var img := DxtImage(src, width, height);
    Tiling.Start(dst[..], img, width, height, Tiling.Quadrants, 8, 8);
    var y, ofs := 0, 0;
    ghost var blockY := 0;
    while y < height
      invariant 0 <= blockY && y == blockY * 8 && y <= height
      invariant ofs == DxtOfs(width, 0, blockY, 0)
      invariant Tiling.Decoded(dst[..], old(dst[..]), img, width, height, Tiling.Quadrants, 8, 8, y, 0, 0)
    {
      BlockCount(height, 8, blockY);
      var x := 0;
      ghost var blockX := 0;
      while x < width
        invariant 0 <= blockX && x == blockX * 8 && x <= width
        invariant ofs == DxtOfs(width, blockX, blockY, 0)
        invariant Tiling.Decoded(dst[..], old(dst[..]), img, width, height, Tiling.Quadrants, 8, 8, y, x, 0)
      {
        BlockCount(width, 8, blockX);
        DecodeTile(dst, src, ofs, width, height, x, y, blockX, blockY, old(dst[..]));
        ofs := ofs + 32;
        x := x + 8;
        blockX := blockX + 1;
      }
      DivModUnique(width, 8, width / 8, 0);
      DxtOfsSteps(width, blockX, blockY, 0);
      Tiling.NextRow(dst[..], old(dst[..]), img, width, height, Tiling.Quadrants, 8, 8, y);
      y := y + 8;
      blockY := blockY + 1;
    }
    Tiling.Finish(dst[..], old(dst[..]), img, width, height, Tiling.Quadrants, 8, 8);
  }
}
