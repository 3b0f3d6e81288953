// The generic tiled texture walker (the DecodeTexture template) and the table of its
// instantiations. A texture is stored as blocks of block_width x block_height texels, block
// rows top to bottom and blocks left to right; each block is a run of block lines of
// bytes_per_block_line bytes. The walker calls a block-line decoder for every group of
// block_lines_per_call lines and writes the texels into a row-major width x height buffer.
//
// The template's function-pointer parameter becomes the LineKind variant; the palette
// format that the C4, C8 and C14X2 instantiations carry as a template argument is the
// variant's field.

module TextureWalker {
  import opened Bytes
  import opened TextureFormats
  import opened BlockDecoders
  import opened Arith
  import Tiling

  /** The block-line decoders of the generic backend. */
  datatype LineKind =
    | LineI4 | LineI8 | LineIA4
    | Line16(pixel: TlutFormat)   // IA8, RGB565 and RGB5A3, whose lines differ only in the pixel format
    | LineRGBA8
    | LineC4(tlut: TlutFormat) | LineC8(tlut: TlutFormat) | LineC14X2(tlut: TlutFormat)

  /** The template arguments of one instantiation: block width and height in texels, bytes
      per block line, and block lines per call. */
  datatype Layout = Layout(bw: int, bh: int, bpl: int, lpc: int)

  /** The template arguments each decoder is instantiated with. Every call decodes either one
      line of a block or (RGBA8) the whole block. */
  function LayoutOf(k: LineKind): (l: Layout)
    ensures l.bw in {4, 8} && l.bh in {4, 8} && l.bpl in {4, 8, 16}
    ensures l.lpc == 1 || l.lpc == l.bh
  {
    match k
    case LineI4 => Layout(8, 8, 4, 1)
    case LineI8 => Layout(8, 4, 8, 1)
    case LineIA4 => Layout(8, 4, 8, 1)
    case Line16(_) => Layout(4, 4, 8, 1)
    case LineRGBA8 => Layout(4, 4, 16, 4)
    case LineC4(_) => Layout(8, 8, 4, 1)
    case LineC8(_) => Layout(8, 4, 8, 1)
    case LineC14X2(_) => Layout(4, 4, 8, 1)
  }

  /** The palette is large enough for every index the format can hold. */
  predicate TlutFits(k: LineKind, tlut: seq<u16>)
  {
    match k
    case LineC4(_) => |tlut| >= 16
    case LineC8(_) => |tlut| >= 0x100
    case LineC14X2(_) => |tlut| >= 0x4000
    case _ => true
  }

  /** The texel that one call with source offset `s` writes at row `r` (below
      block_lines_per_call) and column `c` (below block_width) of its rectangle. */
  function CallTexel(k: LineKind, src: seq<u8>, tlut: seq<u16>, s: int, r: int, c: int): u32
    requires 0 <= s && s + LayoutOf(k).lpc * LayoutOf(k).bpl <= |src| && TlutFits(k, tlut)
    requires 0 <= r < LayoutOf(k).lpc && 0 <= c < LayoutOf(k).bw
  {
    match k
    case LineI4 => I4Texel(src, s, c)
    case LineI8 => I8Texel(src, s, c)
    case LineIA4 => IA4Texel(src, s, c)
    case Line16(fmt) => Direct16Texel(fmt, src, s, c)
    case LineRGBA8 => RGBA8Texel(src, s, r, c)
    case LineC4(fmt) => C4Texel(fmt, src, s, tlut, c)
    case LineC8(fmt) => C8Texel(fmt, src, s, tlut, c)
    case LineC14X2(fmt) => C14X2Texel(fmt, src, s, tlut, c)
  }

  /** Calls the block-line decoder the variant names: the `decode_block_line` call of the
      template, writing at `dst + d` from `src + s`. */
  method DecodeBlockLine(k: LineKind, dst: array<u32>, d: int, src: seq<u8>, s: int, tlut: seq<u16>, width: int)
    requires 0 <= d && 0 <= s && s + LayoutOf(k).lpc * LayoutOf(k).bpl <= |src| && TlutFits(k, tlut)
    requires LayoutOf(k).bw <= width && RowStart(d, width, LayoutOf(k).lpc - 1) + LayoutOf(k).bw <= dst.Length
    modifies dst
    ensures forall r, c | 0 <= r < LayoutOf(k).lpc && 0 <= c < LayoutOf(k).bw &&
                          0 <= Tiling.Cell(d, width, r, c) < dst.Length ::
              dst[Tiling.Cell(d, width, r, c)] == CallTexel(k, src, tlut, s, r, c)
    ensures forall i | 0 <= i < dst.Length && !Written(i, d, width, LayoutOf(k).lpc, LayoutOf(k).bw) ::
              dst[i] == old(dst[i])
  {
    match k
    case LineI4 => DecodeBytesI4(dst, d, src, s);
    case LineI8 => DecodeBytesI8(dst, d, src, s);
    case LineIA4 => DecodeBytesIA4(dst, d, src, s);
    case Line16(fmt) => DecodeBytesDirect16(fmt, dst, d, src, s);
    case LineRGBA8 => DecodeBytesRGBA8(dst, d, src, s, width);
    case LineC4(fmt) => DecodeBytesC4(fmt, dst, d, src, s, tlut);
    case LineC8(fmt) => DecodeBytesC8(fmt, dst, d, src, s, tlut);
    case LineC14X2(fmt) => DecodeBytesC14X2(fmt, dst, d, src, s, tlut);
  }

  /** Source offset of the call for block (blockX, blockY) starting at block line `iy`: the blocks
      before it, `width / block_width` per block row, then the lines before it in its block. */
  function CallOfs(l: Layout, width: int, blockX: int, blockY: int, iy: int): int
    requires l.bw > 0
  {
    ((blockY * (width / l.bw) + blockX) * l.bh + iy) * l.bpl
  }

  /** Bytes the walker reads for a width x height texture. */
  function SourceBytes(l: Layout, width: int, height: int): int
    requires l.bw > 0 && l.bh > 0
  {
    (height / l.bh) * (width / l.bw) * l.bh * l.bpl
  }

  /** What the walker needs of its inputs: whole blocks, enough source bytes and a large
      enough palette. */
  predicate Fits(k: LineKind, src: seq<u8>, tlut: seq<u16>, width: int, height: int)
  {
    0 <= width && 0 <= height && width % LayoutOf(k).bw == 0 && height % LayoutOf(k).bh == 0 &&
    |src| >= SourceBytes(LayoutOf(k), width, height) && TlutFits(k, tlut)
  }

  /** Every call of the walk reads inside the texture's bytes. */
  lemma {:induction false} OfsBound(l: Layout, width: int, height: int, blockX: int, blockY: int, iy: int)
    requires l.bw > 0 && l.bh > 0 && l.bpl > 0 && l.lpc > 0 && 0 <= width && 0 <= height
    requires 0 <= blockX < width / l.bw && 0 <= blockY < height / l.bh && 0 <= iy && iy + l.lpc <= l.bh
    ensures 0 <= CallOfs(l, width, blockX, blockY, iy)
    ensures CallOfs(l, width, blockX, blockY, iy) + l.lpc * l.bpl <= SourceBytes(l, width, height)
  {
    var nbx, nby := width / l.bw, height / l.bh;
    var b := blockY * nbx + blockX;
    assert 0 <= b;
    MulMono(0, b, l.bh);
    MulMono(0, b * l.bh + iy, l.bpl);
    assert CallOfs(l, width, blockX, blockY, iy) + l.lpc * l.bpl == (b * l.bh + iy + l.lpc) * l.bpl;
    MulMono(b * l.bh + iy + l.lpc, b * l.bh + l.bh, l.bpl);
    assert (b * l.bh + l.bh) * l.bpl == (b + 1) * (l.bh * l.bpl);
    MulMono(blockY + 1, nby, nbx);
    assert b + 1 <= nby * nbx;
    MulMono(b + 1, nby * nbx, l.bh * l.bpl);
    assert nby * nbx * (l.bh * l.bpl) == SourceBytes(l, width, height);
  }

  /** Where a texel comes from: the source offset of the call that writes it, and its row
      and column in that call's rectangle. */
  datatype Place = Place(ofs: int, r: int, c: int)

  /** The place of texel (px, py): the call of block (px / block_width, py / block_height)
      that covers its row within the block. */
  function PlaceOf(l: Layout, width: int, px: int, py: int): Place
    requires l.bw > 0 && l.bh > 0 && l.lpc > 0
  {
    var row := py % l.bh;
    Place(CallOfs(l, width, px / l.bw, py / l.bh, row - row % l.lpc), row % l.lpc, px % l.bw)
  }

  /** The call for block (blockX, blockY) at block line `iy` is the place of every texel of its
      rectangle. */
  lemma PlaceOfCall(l: Layout, width: int, blockX: int, blockY: int, iy: int, r: int, c: int)
    requires l.bw > 0 && l.bh > 0 && (l.lpc == 1 || l.lpc == l.bh)
    requires 0 <= iy && iy + l.lpc <= l.bh && (l.lpc == 1 || iy == 0)
    requires 0 <= r < l.lpc && 0 <= c < l.bw
    ensures PlaceOf(l, width, blockX * l.bw + c, blockY * l.bh + iy + r) == Place(CallOfs(l, width, blockX, blockY, iy), r, c)
  {
    var px, py := blockX * l.bw + c, blockY * l.bh + iy + r;
    DivModUnique(px, l.bw, blockX, c);
    DivModUnique(py, l.bh, blockY, iy + r);
    var row := iy + r;
    if l.lpc == 1 {
      DivModUnique(row, 1, row, 0);
    } else {
      DivModUnique(row, l.lpc, 0, r);
    }
  }

  /** Every texel's place lies inside the texture's bytes and inside its call's rectangle. */
  lemma PlaceInRange(l: Layout, width: int, height: int, px: int, py: int)
    requires l.bw > 0 && l.bh > 0 && l.bpl > 0 && (l.lpc == 1 || l.lpc == l.bh)
    requires 0 <= width && 0 <= height && width % l.bw == 0 && height % l.bh == 0
    requires 0 <= px < width && 0 <= py < height
    ensures var p := PlaceOf(l, width, px, py);
            0 <= p.ofs && p.ofs + l.lpc * l.bpl <= SourceBytes(l, width, height) &&
            0 <= p.r < l.lpc && 0 <= p.c < l.bw
  {
    var row := py % l.bh;
    DivModUnique(width, l.bw, width / l.bw, 0);
    DivModUnique(height, l.bh, height / l.bh, 0);
    DivBelow(px, l.bw, width / l.bw);
    DivBelow(py, l.bh, height / l.bh);
    CallOfRow(l, row);
    OfsBound(l, width, height, px / l.bw, py / l.bh, row - row % l.lpc);
  }

  /** Row `row` of a block is row `row % lpc` of the call that starts at block line
      `row - row % lpc`, and that call lies inside the block. */
  lemma CallOfRow(l: Layout, row: int)
    requires l.bh > 0 && (l.lpc == 1 || l.lpc == l.bh) && 0 <= row < l.bh
    ensures 0 <= row % l.lpc < l.lpc && 0 <= row - row % l.lpc && row - row % l.lpc + l.lpc <= l.bh
  {
    if l.lpc == 1 {
      DivModUnique(row, 1, row, 0);
    } else {
      DivModUnique(row, l.lpc, 0, row);
    }
  }

  /** The texel at (px, py) of the decoded texture: what the call at its place writes there. */
  function TexelAt(k: LineKind, src: seq<u8>, tlut: seq<u16>, width: int, height: int, px: int, py: int): u32
    requires Fits(k, src, tlut, width, height) && 0 <= px < width && 0 <= py < height
  {
    var p := PlaceOf(LayoutOf(k), width, px, py);
    PlaceInRange(LayoutOf(k), width, height, px, py);
    CallTexel(k, src, tlut, p.ofs, p.r, p.c)
  }

  /** The texel at (px, py) is the one the call at its place decodes at its row and column. */
  lemma TexelAtPlace(k: LineKind, src: seq<u8>, tlut: seq<u16>, width: int, height: int, px: int, py: int)
    requires Fits(k, src, tlut, width, height) && 0 <= px < width && 0 <= py < height
    ensures var p := PlaceOf(LayoutOf(k), width, px, py);
            0 <= p.ofs && p.ofs + LayoutOf(k).lpc * LayoutOf(k).bpl <= |src| &&
            0 <= p.r < LayoutOf(k).lpc && 0 <= p.c < LayoutOf(k).bw &&
            TexelAt(k, src, tlut, width, height, px, py) == CallTexel(k, src, tlut, p.ofs, p.r, p.c)
  {
    PlaceInRange(LayoutOf(k), width, height, px, py);
  }

  /** The decoded texture, row-major. */
  function DecodedImage(k: LineKind, src: seq<u8>, tlut: seq<u16>, width: int, height: int): (img: seq<u32>)
    requires Fits(k, src, tlut, width, height)
    ensures |img| == width * height
  {
    seq(width * height, i requires 0 <= i < width * height =>
      IdxOfIndex(width, height, i);
      TexelAt(k, src, tlut, width, height, i % width, i / width))
  }

  /** The decoded image holds at the index of (px, py) the texel at (px, py). */
  lemma ImageAt(k: LineKind, src: seq<u8>, tlut: seq<u16>, width: int, height: int, px: int, py: int)
    requires Fits(k, src, tlut, width, height) && 0 <= px < width && 0 <= py < height
    ensures 0 <= Idx(width, px, py) < width * height
    ensures DecodedImage(k, src, tlut, width, height)[Idx(width, px, py)] == TexelAt(k, src, tlut, width, height, px, py)
  {
    var i := Idx(width, px, py);
    IdxBelow(width, px, py, height);
    MulMono(0, py, width);
    IdxDivMod(width, px, py);
    assert i % width == px && i / width == py;
    IdxOfIndex(width, height, i);
    assert DecodedImage(k, src, tlut, width, height)[i] == TexelAt(k, src, tlut, width, height, i % width, i / width);
  }

  /** A block of the walk lies inside the texture. */
  lemma BlockInTexture(l: Layout, width: int, height: int, blockX: int, blockY: int)
    requires l.bw > 0 && l.bh > 0 && 0 <= width && 0 <= height && width % l.bw == 0 && height % l.bh == 0
    requires 0 <= blockX < width / l.bw && 0 <= blockY < height / l.bh
    ensures (blockX + 1) * l.bw <= width && (blockY + 1) * l.bh <= height
  {
    DivModUnique(width, l.bw, width / l.bw, 0);
    DivModUnique(height, l.bh, height / l.bh, 0);
    MulMono(blockX + 1, width / l.bw, l.bw);
    MulMono(blockY + 1, height / l.bh, l.bh);
  }

  /** The texel at column `c`, row `r` of the rectangle of the call of block (blockX, blockY)
      at block line `iy` is the texel the decoded texture has there. */
  lemma CallCoversTexel(k: LineKind, src: seq<u8>, tlut: seq<u16>, width: int, height: int,
                        blockX: int, blockY: int, iy: int, r: int, c: int)
    requires Fits(k, src, tlut, width, height)
    requires 0 <= blockX < width / LayoutOf(k).bw && 0 <= blockY < height / LayoutOf(k).bh
    requires 0 <= iy && iy + LayoutOf(k).lpc <= LayoutOf(k).bh && (LayoutOf(k).lpc == 1 || iy == 0)
    requires 0 <= r < LayoutOf(k).lpc && 0 <= c < LayoutOf(k).bw
    ensures blockX * LayoutOf(k).bw + c < width && blockY * LayoutOf(k).bh + iy + r < height
    ensures 0 <= CallOfs(LayoutOf(k), width, blockX, blockY, iy) &&
            CallOfs(LayoutOf(k), width, blockX, blockY, iy) + LayoutOf(k).lpc * LayoutOf(k).bpl <= |src|
    ensures TexelAt(k, src, tlut, width, height, blockX * LayoutOf(k).bw + c, blockY * LayoutOf(k).bh + iy + r) ==
            CallTexel(k, src, tlut, CallOfs(LayoutOf(k), width, blockX, blockY, iy), r, c)
  {
    var l := LayoutOf(k);
    BlockInTexture(l, width, height, blockX, blockY);
    OfsBound(l, width, height, blockX, blockY, iy);
    PlaceOfCall(l, width, blockX, blockY, iy, r, c);
  }

  /** The call for block (blockX, blockY) at block line `iy` writes inside the texture. */
  lemma CallInTexture(l: Layout, width: int, height: int, blockX: int, blockY: int, iy: int)
    requires l.bw > 0 && l.bh > 0 && 0 <= width && 0 <= height && width % l.bw == 0 && height % l.bh == 0
    requires 0 <= blockX < width / l.bw && 0 <= blockY < height / l.bh
    requires 0 <= iy && 0 < l.lpc && iy + l.lpc <= l.bh
    ensures l.bw <= width && 0 <= Idx(width, blockX * l.bw, blockY * l.bh + iy)
    ensures RowStart(Idx(width, blockX * l.bw, blockY * l.bh + iy), width, l.lpc - 1) + l.bw <= width * height
  {
    BlockInTexture(l, width, height, blockX, blockY);
    MulMono(0, blockX, l.bw);
    MulMono(1, blockX + 1, l.bw);
    MulMono(0, blockY * l.bh + iy, width);
    var x0, y0 := blockX * l.bw, blockY * l.bh + iy;
    IdxShift(width, x0, y0, l.bw - 1, l.lpc - 1);
    IdxBelow(width, x0 + l.bw - 1, y0 + l.lpc - 1, height);
  }

  /** How the source offset advances: by one call's bytes per call, from the last line of a
      block to the next block, and from the last block of a block row to the next row. */
  lemma OfsSteps(l: Layout, width: int, blockX: int, blockY: int, iy: int)
    requires l.bw > 0
    ensures CallOfs(l, width, blockX, blockY, iy) + l.lpc * l.bpl == CallOfs(l, width, blockX, blockY, iy + l.lpc)
    ensures CallOfs(l, width, blockX, blockY, l.bh) == CallOfs(l, width, blockX + 1, blockY, 0)
    ensures CallOfs(l, width, width / l.bw, blockY, 0) == CallOfs(l, width, 0, blockY + 1, 0)
  {
    var b := blockY * (width / l.bw) + blockX;
    assert (b * l.bh + iy + l.lpc) * l.bpl == (b * l.bh + iy) * l.bpl + l.lpc * l.bpl;
    assert (b * l.bh + l.bh) * l.bpl == ((b + 1) * l.bh + 0) * l.bpl;
    assert blockY * (width / l.bw) + width / l.bw == (blockY + 1) * (width / l.bw) + 0;
  }

  /** Cell (r, c) of the rectangle of the call for block (blockX, blockY) at block line `iy`
      is the index of a texel of the texture whose place is that cell of that call. */
  lemma CellPlace(l: Layout, width: int, height: int, blockX: int, blockY: int, iy: int, r: int, c: int)
    requires l.bw > 0 && l.bh > 0 && (l.lpc == 1 || l.lpc == l.bh)
    requires 0 <= width && 0 <= height && width % l.bw == 0 && height % l.bh == 0
    requires 0 <= blockX < width / l.bw && 0 <= blockY < height / l.bh
    requires 0 <= iy && iy + l.lpc <= l.bh && (l.lpc == 1 || iy == 0)
    requires 0 <= r < l.lpc && 0 <= c < l.bw
    ensures var i := Tiling.Cell(Idx(width, blockX * l.bw, blockY * l.bh + iy), width, r, c);
            0 <= i < width * height && 0 <= i % width < width && 0 <= i / width < height &&
            PlaceOf(l, width, i % width, i / width) == Place(CallOfs(l, width, blockX, blockY, iy), r, c)
  {
    var x0, y0 := blockX * l.bw, blockY * l.bh + iy;
    BlockInTexture(l, width, height, blockX, blockY);
    IdxShift(width, x0, y0, c, r);
    var i := Idx(width, x0 + c, y0 + r);
    MulMono(0, blockX, l.bw);
    MulMono(0, blockY, l.bh);
    MulMono(0, y0 + r, width);
    IdxBelow(width, x0 + c, y0 + r, height);
    IdxDivMod(width, x0 + c, y0 + r);
    PlaceOfCall(l, width, blockX, blockY, iy, r, c);
  }

  /** The decoded texture holds at each index the texel of that index's column and row. */
  lemma ImageAtIndex(k: LineKind, src: seq<u8>, tlut: seq<u16>, width: int, height: int, i: int)
    requires Fits(k, src, tlut, width, height) && 0 <= i < width * height
    requires 0 <= i % width < width && 0 <= i / width < height
    ensures DecodedImage(k, src, tlut, width, height)[i] == TexelAt(k, src, tlut, width, height, i % width, i / width)
  {
  }

  /** The decoded texture holds at cell (r, c) of a call's rectangle what the call writes there. */
  lemma CellIsImage(k: LineKind, src: seq<u8>, tlut: seq<u16>, width: int, height: int,
                    blockX: int, blockY: int, iy: int, r: int, c: int)
    requires Fits(k, src, tlut, width, height)
    requires 0 <= blockX < width / LayoutOf(k).bw && 0 <= blockY < height / LayoutOf(k).bh
    requires 0 <= iy && iy + LayoutOf(k).lpc <= LayoutOf(k).bh && (LayoutOf(k).lpc == 1 || iy == 0)
    requires 0 <= r < LayoutOf(k).lpc && 0 <= c < LayoutOf(k).bw
    requires 0 <= CallOfs(LayoutOf(k), width, blockX, blockY, iy) &&
             CallOfs(LayoutOf(k), width, blockX, blockY, iy) + LayoutOf(k).lpc * LayoutOf(k).bpl <= |src|
    ensures var d := Idx(width, blockX * LayoutOf(k).bw, blockY * LayoutOf(k).bh + iy);
            0 <= Tiling.Cell(d, width, r, c) < width * height &&
            DecodedImage(k, src, tlut, width, height)[Tiling.Cell(d, width, r, c)] ==
            CallTexel(k, src, tlut, CallOfs(LayoutOf(k), width, blockX, blockY, iy), r, c)
  {
    var l := LayoutOf(k);
    CellPlace(l, width, height, blockX, blockY, iy, r, c);
    var i := Tiling.Cell(Idx(width, blockX * l.bw, blockY * l.bh + iy), width, r, c);
    ImageAtIndex(k, src, tlut, width, height, i);
  }

  /** A call that wrote its texels wrote into its rectangle the values of the decoded texture. */
  lemma CallWritesImage(k: LineKind, src: seq<u8>, tlut: seq<u16>, width: int, height: int,
                        next: seq<u32>, blockX: int, blockY: int, iy: int)
    requires Fits(k, src, tlut, width, height)
    requires 0 <= blockX < width / LayoutOf(k).bw && 0 <= blockY < height / LayoutOf(k).bh
    requires 0 <= iy && iy + LayoutOf(k).lpc <= LayoutOf(k).bh && (LayoutOf(k).lpc == 1 || iy == 0)
    requires 0 <= CallOfs(LayoutOf(k), width, blockX, blockY, iy) &&
             CallOfs(LayoutOf(k), width, blockX, blockY, iy) + LayoutOf(k).lpc * LayoutOf(k).bpl <= |src|
    requires forall r, c | 0 <= r < LayoutOf(k).lpc && 0 <= c < LayoutOf(k).bw &&
                           0 <= Tiling.Cell(Idx(width, blockX * LayoutOf(k).bw, blockY * LayoutOf(k).bh + iy), width, r, c) < |next| ::
               next[Tiling.Cell(Idx(width, blockX * LayoutOf(k).bw, blockY * LayoutOf(k).bh + iy), width, r, c)] ==
               CallTexel(k, src, tlut, CallOfs(LayoutOf(k), width, blockX, blockY, iy), r, c)
    ensures Tiling.WroteRect(next, DecodedImage(k, src, tlut, width, height),
                             Idx(width, blockX * LayoutOf(k).bw, blockY * LayoutOf(k).bh + iy), width, LayoutOf(k).lpc, LayoutOf(k).bw)
  {
    var l := LayoutOf(k);
    var img := DecodedImage(k, src, tlut, width, height);
    var x0, y0 := blockX * l.bw, blockY * l.bh + iy;
    var d := Idx(width, x0, y0);
    forall r, c | 0 <= r < l.lpc && 0 <= c < l.bw && 0 <= Tiling.Cell(d, width, r, c) < |next| &&
                  Tiling.Cell(d, width, r, c) < |img|
      ensures next[Tiling.Cell(d, width, r, c)] == img[Tiling.Cell(d, width, r, c)]
    {
      CellIsImage(k, src, tlut, width, height, blockX, blockY, iy, r, c);
    }
  }

  /** One call of the walk keeps the buffer decoded: its rectangle now holds the decoded
      texels and the rest is as before, so exactly the texels up to its last line are done. */
  lemma LineStep(l: Layout, img: seq<u32>, width: int, height: int,
                 cur: seq<u32>, next: seq<u32>, org: seq<u32>, blockX: int, blockY: int, iy: int)
    requires l.bw > 0 && l.bh > 0 && 0 <= width && 0 <= height && width % l.bw == 0 && height % l.bh == 0
    requires 0 <= blockX < width / l.bw && 0 <= blockY < height / l.bh
    requires 0 <= iy && 0 < l.lpc && iy + l.lpc <= l.bh
    requires Tiling.Decoded(cur, org, img, width, height, Tiling.Rows, l.bw, l.bh, blockY * l.bh, blockX * l.bw, iy)
    requires Tiling.WroteRect(next, img, Idx(width, blockX * l.bw, blockY * l.bh + iy), width, l.lpc, l.bw)
    requires Tiling.KeptOutside(next, cur, Idx(width, blockX * l.bw, blockY * l.bh + iy), width, l.lpc, l.bw)
    ensures Tiling.Decoded(next, org, img, width, height, Tiling.Rows, l.bw, l.bh, blockY * l.bh, blockX * l.bw, iy + l.lpc)
  {
    BlockInTexture(l, width, height, blockX, blockY);
    MulMono(0, blockX, l.bw);
    MulMono(0, blockY, l.bh);
    var x0, y0 := blockX * l.bw, blockY * l.bh + iy;
    Tiling.RectStep(cur, next, org, img, width, height, Tiling.Rows, l.bw, l.bh, blockY * l.bh, x0, iy, iy + l.lpc,
                    x0, y0, l.lpc, l.bw);
  }

  /** The calls for one block of the walk: the innermost loop of DecodeTexture, which decodes
      block (blockX, blockY) with block_height / block_lines_per_call calls and advances the
      source offset past the block. */
  method DecodeBlock(k: LineKind, dst: array<u32>, src: seq<u8>, tlut: seq<u16>, width: int, height: int,
                     x: int, y: int, ofs0: int, ghost blockX: int, ghost blockY: int,
                     ghost org: seq<u32>, ghost img: seq<u32>)
      returns (ofs: int)
    requires Fits(k, src, tlut, width, height) && img == DecodedImage(k, src, tlut, width, height)
    requires 0 <= blockX < width / LayoutOf(k).bw && 0 <= blockY < height / LayoutOf(k).bh
    requires x == blockX * LayoutOf(k).bw && y == blockY * LayoutOf(k).bh
    requires ofs0 == CallOfs(LayoutOf(k), width, blockX, blockY, 0)
    requires Tiling.Decoded(dst[..], org, img, width, height, Tiling.Rows, LayoutOf(k).bw, LayoutOf(k).bh,
                            blockY * LayoutOf(k).bh, blockX * LayoutOf(k).bw, 0)
    modifies dst
    ensures ofs == CallOfs(LayoutOf(k), width, blockX, blockY, LayoutOf(k).bh)
    ensures Tiling.Decoded(dst[..], org, img, width, height, Tiling.Rows, LayoutOf(k).bw, LayoutOf(k).bh,
                           blockY * LayoutOf(k).bh, blockX * LayoutOf(k).bw, LayoutOf(k).bh)
  {
    var l := LayoutOf(k);
    var iy := 0;
    ofs := ofs0;
    while iy < l.bh
      invariant 0 <= iy <= l.bh && (l.lpc == 1 || iy == 0 || iy == l.bh)
      invariant ofs == CallOfs(l, width, blockX, blockY, iy)
      invariant Tiling.Decoded(dst[..], org, img, width, height, Tiling.Rows, l.bw, l.bh, y, x, iy)
    {
      CallInTexture(l, width, height, blockX, blockY, iy);
      OfsBound(l, width, height, blockX, blockY, iy);
      ghost var before := dst[..];
      DecodeBlockLine(k, dst, (y + iy) * width + x, src, ofs, tlut, width);
      CallWritesImage(k, src, tlut, width, height, dst[..], blockX, blockY, iy);
      LineStep(l, img, width, height, before, dst[..], org, blockX, blockY, iy);
      OfsSteps(l, width, blockX, blockY, iy);
      iy := iy + l.lpc;
      ofs := ofs + l.lpc * l.bpl;
    }
  }

  /** DecodeTexture: walks the blocks of a width x height texture and decodes each with the
      block-line decoder of `k`. The first width * height entries of `dst` become the decoded
      texture; the rest of `dst` is untouched. */
  method DecodeTexture(k: LineKind, dst: array<u32>, src: seq<u8>, tlut: seq<u16>, width: int, height: int)
    requires Fits(k, src, tlut, width, height) && width * height <= dst.Length
    modifies dst
    ensures dst[..width * height] == DecodedImage(k, src, tlut, width, height)
    ensures forall i | width * height <= i < dst.Length :: dst[i] == old(dst[i])
  {
    var l := LayoutOf(k);
    ghost var img := DecodedImage(k, src, tlut, width, height);
    Tiling.Start(dst[..], img, width, height, Tiling.Rows, l.bw, l.bh);
    var y, ofs := 0, 0;
    ghost var blockY := 0;
    while y < height
      invariant 0 <= blockY && y == blockY * l.bh && y <= height
      invariant ofs == CallOfs(l, width, 0, blockY, 0)
      invariant Tiling.Decoded(dst[..], old(dst[..]), img, width, height, Tiling.Rows, l.bw, l.bh, y, 0, 0)
    {
      BlockCount(height, l.bh, blockY);
      var x := 0;
      ghost var blockX := 0;
      while x < width
        invariant 0 <= blockX && x == blockX * l.bw && x <= width
        invariant ofs == CallOfs(l, width, blockX, blockY, 0)
        invariant Tiling.Decoded(dst[..], old(dst[..]), img, width, height, Tiling.Rows, l.bw, l.bh, y, x, 0)
      {
        BlockCount(width, l.bw, blockX);
        ofs := DecodeBlock(k, dst, src, tlut, width, height, x, y, ofs, blockX, blockY, old(dst[..]), img);
        OfsSteps(l, width, blockX, blockY, 0);
        Tiling.NextBlock(dst[..], old(dst[..]), img, width, height, Tiling.Rows, l.bw, l.bh, y, x, l.bh);
        x := x + l.bw;
        blockX := blockX + 1;
      }
      DivModUnique(width, l.bw, width / l.bw, 0);
      OfsSteps(l, width, blockX, blockY, 0);
      Tiling.NextRow(dst[..], old(dst[..]), img, width, height, Tiling.Rows, l.bw, l.bh, y);
      y := y + l.bh;
      blockY := blockY + 1;
    }
    Tiling.Finish(dst[..], old(dst[..]), img, width, height, Tiling.Rows, l.bw, l.bh);
  }
}
