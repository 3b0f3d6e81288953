# Dolphin texture decoding, heart-rate monitor and HLE helpers in Dafny

This project models three parts of the Dolphin GameCube/Wii emulator and proves properties of
them:

- **The texture decoding library** (`VideoCommon/TextureDecoder*`):
  - the `TextureFormat` and `TlutFormat` enumerations and their flags;
  - the size, block, palette, EFB-copy and name tables;
  - the 16-bit pixel decoders (IA8, RGB565, RGB5A3) and `MakeRGBA`;
  - the generic block-line decoders for I4, I8, IA4, IA8, RGB565, RGB5A3, RGBA8, C4, C8 and C14X2;
  - the `DecodeTexture` tile walker and the CMPR (DXT1-like) decoder;
  - the decoder table that `Init`/`InitGeneric` fill and that `Decode` dispatches through;
  - the single-texel decoder `DecodeTexel`;
  - the two-bank RGBA8 decoder for texture memory.

  The walkers are methods over an `array<u32>`. Each is proved to leave exactly the decoded
  image, a function of the source bytes, in the first `width * height` entries. `DecodeTexel` is proved to agree
  with that image at every texel of every directly readable format.
- **The emulated USB heart-rate monitor** (`HeartRateMonitor.cpp`): a class holding `m_state`,
  with its interrupt transfer (alternating idle and heart-rate reports), its control transfer
  (a command parser that can reset the state) and its constant descriptors.
- **Three HLE helpers** (`HLE_Misc.cpp`):
  - `UnimplementedFunction`;
  - the Gecko icache-flush counter, which saturates after five frames;
  - `GeckoReturnTrampoline`, which restores registers from a stack frame in guest memory;
  - the I8 tile swizzle of `THPVideoDecode`.

  The PowerPC state is a class with the fields these helpers touch. Guest memory is a class
  over a byte map.

Integers are unbounded in Dafny. The model therefore writes out each C cast (`u16`, `u32`
truncation) and each bit operation as division and remainder by powers of two. Dafny's `/` on
non-negative operands is C's `>>`. The CMPR interpolation shifts signed differences, and
`Dxt.Third` gives them flooring semantics, which is what an arithmetic shift does.

Three helpers are not part of this model and are taken as follows:

- `Convert3To8`, `Convert4To8`, `Convert5To8` and `Convert6To8` replicate bits. This is the
  definition the SIMD decoder spells out.
- `Common::swap16` exchanges the two bytes of a 16-bit value.
- Host 16-bit loads are little-endian.

The `// TODO: Looks wrong` at `TextureDecoder_Common.cpp:722` does not describe a bug.
`DecodeRGBA8FromTmem` passes the width minus one, and `(width - 1) / 4 + 1` is the number of
4-texel blocks per row for every width (`TexelAgreement.TmemBlocksPerRow`).

## Model

| member | source | states |
|---|---|---|
| TextureFormats.Value | Source/Core/VideoCommon/TextureDecoder.h:16-61 | every texture format code is below 0x40, so it indexes the 64-entry name table |
| TextureFormats.FromValue | Source/Core/VideoCommon/TextureDecoder.h:16-61 | a code that decodes to a format is that format's code |
| TextureFormats.FromValueRoundTrip | Source/Core/VideoCommon/TextureDecoder.h:16-61 | decoding a format's code gives the format back, so the codes are distinct |
| TextureFormats.FromValueNone | Source/Core/VideoCommon/TextureDecoder.h:16-61 | a code that decodes to nothing is the code of no format |
| TextureFormats.FlagsClassifyFormats | Source/Core/VideoCommon/TextureDecoder.h:31-60 | flag 0x10 is set exactly in the depth formats and 0x20 exactly in the copy-only formats; the directly readable formats carry neither |
| TextureFormats.DepthIsColourWithFlag | Source/Core/VideoCommon/TextureDecoder.h:31-36 | Z8, Z16 and Z24X8 are I8, IA8 and RGBA8 with flag 0x10, and masking with 0xF gives the colour format back |
| TextureFormats.DirectFormatsIndexDecoderTable | Source/Core/VideoCommon/TextureDecoder.h:19-29 | the formats the texture mapper reads are exactly those with codes below 15, the size of the decoder table |
| TextureFormats.TlutValue | Source/Core/VideoCommon/TextureDecoder.h:63-68 | palette format codes lie in 0..2 |
| TextureFormats.TlutValueInjective | Source/Core/VideoCommon/TextureDecoder.h:63-68 | the three palette formats have distinct codes, so they index the three-entry C4, C8 and C14 tables one to one |
| TextureTables.TexelSizeInNibbles | Source/Core/VideoCommon/TextureDecoder_Common.cpp:25-93 | the texel size is 1, 2, 4 or 8 nibbles; an unknown code gives 1 |
| TextureTables.TexelSizeIgnoresHighBits | Source/Core/VideoCommon/TextureDecoder_Common.cpp:27 | the code is masked with 0x3f, so adding any multiple of 64 gives the same size |
| TextureTables.TextureSizeInBytes | Source/Core/VideoCommon/TextureDecoder_Common.cpp:95-98 | for non-negative dimensions, the size is half the nibble count rounded up |
| TextureTables.BlockWidthInTexels | Source/Core/VideoCommon/TextureDecoder_Common.cpp:100-166 | block widths are 4 or 8 texels; an unknown code gives 8 |
| TextureTables.BlockHeightInTexels | Source/Core/VideoCommon/TextureDecoder_Common.cpp:168-234 | block heights are 4 or 8 texels; an unknown code gives 4 |
| TextureTables.BlocksAreOneTmemLine | Source/Core/VideoCommon/TextureDecoder_Common.cpp:25-234 | every listed format has 32-byte blocks (one TMEM line), except RGBA8 and Z24X8, which have 64 |
| TextureTables.YuvaFallsToDefaults | Source/Core/VideoCommon/TextureDecoder_Common.cpp:25-234 | GX_CTF_YUVA8 is missing from all three tables and gets the defaults: 1 nibble per texel in 8x4 blocks of 16 bytes |
| TextureTables.PaletteSize | Source/Core/VideoCommon/TextureDecoder_Common.cpp:237-250 | palette sizes are 0, 32, 512 or 32768 bytes |
| TextureTables.EfbCopyBaseFormat | Source/Core/VideoCommon/TextureDecoder_Common.cpp:255-301 | every format an EFB copy produces maps to one of I4, I8, IA4, IA8, RGB565, RGB5A3 or RGBA8 |
| TextureTables.EfbCopyBaseFormatIdempotent | Source/Core/VideoCommon/TextureDecoder_Common.cpp:255-301 | taking the base format twice gives the same result as once, for every code, including the `format & 0xf` fallback |
| TextureTables.Z8HAgreesWithZ8 | Source/Core/VideoCommon/TextureDecoder.h:56 | GX_CTF_Z8H and GX_TF_Z8 get the same size, block, palette and base-format entries |
| TextureTables.HexName | Source/Core/VideoCommon/TextureDecoder_Common.cpp:311-324 | an unnamed slot holds "0x" followed by the two upper-case hex digits of the code |
| TextureTables.TextureFormatNameAsWritten | Source/Core/VideoCommon/TextureDecoder_Common.cpp:309-327 | the name table as written gives slots 0x38 and 0x3B placeholder names |
| TextureTables.NameTableMissesTwoFormats | Source/Core/VideoCommon/TextureDecoder_Common.cpp:322 | GX_CTF_Z8H (0x38) and GX_CTF_Z16R (0x3B) are formats, yet the table names them "0x38" and "0x3B" |
| TextureTables.TextureFormatName | Source/Core/VideoCommon/TextureDecoder_Common.cpp:309-327 | with the two slots corrected, a code that names a format has that format's name and any other code its placeholder |
| TextureTables.NamesDistinguishFormats | Source/Core/VideoCommon/TextureDecoder_Common.cpp:309-327 | a corrected name begins with "0x" exactly when the code names no format |
| TextureTables.NameTablesAgreeElsewhere | Source/Core/VideoCommon/TextureDecoder_Common.cpp:309-327 | the corrected table differs from the original only at 0x38 and 0x3B |
| TextureTables.TlutFormatName | Source/Core/VideoCommon/TextureDecoder_Common.cpp:329-334 | the three palette formats are named IA8, RGB565 and RGB5A3, and the fourth slot "0x03" |
| Bytes.U16 | Source/Core/VideoCommon/TextureDecoder_Common.cpp:465-468 | the truncating u16 cast leaves every value that fits unchanged |
| Bytes.U32 | Source/Core/VideoCommon/TextureDecoder_Common.cpp:468 | the truncating u32 cast leaves every value that fits unchanged |
| Bytes.Swap16 | Source/Core/VideoCommon/TextureDecoder_Internal.h:83 | the swap exchanges the high and low bytes |
| Bytes.Swap16Involutive | Source/Core/VideoCommon/TextureDecoder_Internal.h:83 | swapping twice gives the value back |
| Bytes.LoadU16 | Source/Core/VideoCommon/TextureDecoder_Generic.cpp:49-51 | a host load takes its low byte from the first byte in memory and its high byte from the second |
| Bytes.SwappedLoadIsBigEndian | Source/Core/VideoCommon/TextureDecoder_Generic.cpp:104 | a swapped host load is the big-endian value of the two bytes |
| Bytes.Convert3To8Bits | Source/Core/VideoCommon/TextureDecoder_Internal.h:72 | the 3-bit input fills bits 7-5 and 4-2 of the result, and its top two bits fill bits 1-0 |
| Bytes.Convert4To8Bits | Source/Core/VideoCommon/TextureDecoder_Internal.h:73-75 | both nibbles of the result equal the 4-bit input |
| Bytes.Convert5To8Bits | Source/Core/VideoCommon/TextureDecoder_Internal.h:53-55 | the 5-bit input is the top of the byte, and its top three bits the bottom |
| Bytes.Convert6To8Bits | Source/Core/VideoCommon/TextureDecoder_Internal.h:54 | the 6-bit input is the top of the byte, and its top two bits the bottom |
| Bytes.ConvertInjective | Source/Core/VideoCommon/TextureDecoder_Internal.h:53-75 | for each of the 3-, 4-, 5- and 6-bit expanders, distinct inputs expand to distinct bytes |
| Bytes.WordBytes | Source/Core/Core/HLE/HLE_Misc.cpp:60 | a word has four bytes in memory |
| Bytes.BigEndianOfWordBytes | Source/Core/Core/HLE/HLE_Misc.cpp:51-60 | splitting a word into its big-endian bytes and joining them gives the word back |
| Bytes.WordBytesOfBigEndian | Source/Core/Core/HLE/HLE_Misc.cpp:51-60 | joining four bytes and splitting the word gives the same bytes |
| TexturePixels.MakeRGBAChannels | Source/Core/VideoCommon/TextureDecoder_Internal.h:97-100 | with channels in 0..255, the packed texel has r, g, b and a in bytes 0 to 3 |
| TexturePixels.MakeRGBAOfChannels | Source/Core/VideoCommon/TextureDecoder_Internal.h:97-100 | every texel is the packing of its own four channels |
| TexturePixels.ChannelsDetermineTexel | Source/Core/VideoCommon/TextureDecoder_Internal.h:97-100 | texels with equal channels are equal, so MakeRGBA is injective |
| TexturePixels.IA8Channels | Source/Core/VideoCommon/TextureDecoder_Internal.h:43-48 | alpha is the high byte, and red, green and blue are all the low byte |
| TexturePixels.RGB565Channels | Source/Core/VideoCommon/TextureDecoder_Internal.h:50-58 | alpha is 0xFF; red, green and blue take bits 15-11, 10-5 and 4-0 as their top bits |
| TexturePixels.Bit15 | Source/Core/VideoCommon/TextureDecoder_Internal.h:63 | bit 15 is set exactly for values of at least 0x8000 |
| TexturePixels.RGB5A3Channels | Source/Core/VideoCommon/TextureDecoder_Internal.h:60-78 | with bit 15 set: opaque, with three 5-bit fields; otherwise: a 3-bit alpha from bits 14-12 and three 4-bit fields |
| TexturePixels.DecodePixelOfLoad | Source/Core/VideoCommon/TextureDecoder_Internal.h:80-95 | decoding a host load decodes the big-endian value of the two bytes; for IA8 the first byte is the alpha and the second the intensity |
| TexturePixels.DecodeRoundTrips | Source/Core/VideoCommon/TextureDecoder_Internal.h:43-58 | IA8 and RGB565 decoding loses nothing: re-packing the texel gives the value back |
| TexturePixels.RGB5A3FullAlphaCollides | Source/Core/VideoCommon/TextureDecoder_Internal.h:60-78 | 0x7FFF and 0xFFFF both decode to opaque white, so RGB5A3 is not injective across its two halves |
| TexturePixels.RGB5A3HalvesInjective | Source/Core/VideoCommon/TextureDecoder_Internal.h:60-78 | within each half of the range, distinct values decode to distinct texels |
| TexturePixels.OpaqueFields | Source/Core/VideoCommon/TextureDecoder_Internal.h:63-69 | an opaque RGB5A3 value is the flag bit plus its three 5-bit fields |
| TexturePixels.TranslucentFields | Source/Core/VideoCommon/TextureDecoder_Internal.h:70-76 | a translucent RGB5A3 value is its 3-bit alpha plus its three 4-bit fields |
| BlockDecoders.Nibble | Source/Core/VideoCommon/TextureDecoder_Generic.cpp:21-22 | a nibble lies in 0..15 |
| BlockDecoders.NibblePair | Source/Core/VideoCommon/TextureDecoder_Generic.cpp:19-25 | texels 2k and 2k + 1 of a 4-bit line are the high and the low nibble of byte k |
| BlockDecoders.NibbleAt | Source/Core/VideoCommon/TextureDecoder_Generic.cpp:83-88 | a 4-bit texel index lies in 0..15, which C4 palettes cover |
| BlockDecoders.GreyTexelChannels | Source/Core/VideoCommon/TextureDecoder_Generic.cpp:17-35 | an I8 texel has all four bytes equal to its source byte; an odd I4 texel's bytes all equal the expanded low nibble |
| BlockDecoders.IA4TexelChannels | Source/Core/VideoCommon/TextureDecoder_Generic.cpp:37-45 | alpha is the expanded high nibble, and red, green and blue the expanded low nibble |
| BlockDecoders.Direct16TexelBytes | Source/Core/VideoCommon/TextureDecoder_Generic.cpp:47-66 | texel c of an IA8, RGB565 or RGB5A3 line is the colour of the big-endian value of bytes 2c and 2c + 1 |
| BlockDecoders.RGBA8TexelChannels | Source/Core/VideoCommon/TextureDecoder_Generic.cpp:68-78 | texel (c, r) takes A and R from bytes 8r + 2c and 8r + 2c + 1, and G and B from the same positions 32 bytes on |
| BlockDecoders.RGBA8TexelBytes | Source/Core/VideoCommon/TextureDecoder_Generic.cpp:68-78 | the RGBA8 texel is MakeRGBA of those four bytes |
| BlockDecoders.C14IndexIsLow14Bits | Source/Core/VideoCommon/TextureDecoder_Generic.cpp:104-105 | the C14X2 index is the low 14 bits of the big-endian value, so it lies below 16384 |
| BlockDecoders.I4Pair | Source/Core/VideoCommon/TextureDecoder_Generic.cpp:17-26 | byte i gives two grey texels, the expanded high nibble first |
| BlockDecoders.DecodeByteI4 | Source/Core/VideoCommon/TextureDecoder_Generic.cpp:21-24 | one loop pass writes texels 2i and 2i + 1 and nothing else |
| BlockDecoders.DecodeBytesI4 | Source/Core/VideoCommon/TextureDecoder_Generic.cpp:17-26 | writes the eight I4 texels of the line and nothing else |
| BlockDecoders.DecodeBytesI8 | Source/Core/VideoCommon/TextureDecoder_Generic.cpp:28-35 | writes the eight I8 texels and nothing else |
| BlockDecoders.DecodeBytesIA4 | Source/Core/VideoCommon/TextureDecoder_Generic.cpp:37-45 | writes the eight IA4 texels and nothing else |
| BlockDecoders.DecodeBytesDirect16 | Source/Core/VideoCommon/TextureDecoder_Generic.cpp:47-66 | writes the four IA8, RGB565 or RGB5A3 texels and nothing else |
| BlockDecoders.RowsInOrder | Source/Core/VideoCommon/TextureDecoder_Generic.cpp:74 | rows one pitch apart do not overlap when the pitch covers a row |
| BlockDecoders.DecodeRowRGBA8 | Source/Core/VideoCommon/TextureDecoder_Generic.cpp:72-76 | the inner loop writes the four texels of one block row and nothing else |
| BlockDecoders.DecodeBytesRGBA8 | Source/Core/VideoCommon/TextureDecoder_Generic.cpp:68-78 | writes the 4x4 block at row pitch `width` and nothing outside it |
| BlockDecoders.C4Pair | Source/Core/VideoCommon/TextureDecoder_Generic.cpp:85-87 | byte x gives the palette colours of its high and then its low nibble |
| BlockDecoders.DecodeByteC4 | Source/Core/VideoCommon/TextureDecoder_Generic.cpp:85-87 | one loop pass writes texels 2x and 2x + 1 and nothing else |
| BlockDecoders.DecodeBytesC4 | Source/Core/VideoCommon/TextureDecoder_Generic.cpp:80-89 | writes the eight C4 texels and nothing else |
| BlockDecoders.DecodeBytesC8 | Source/Core/VideoCommon/TextureDecoder_Generic.cpp:91-96 | writes the eight C8 texels and nothing else |
| BlockDecoders.DecodeBytesC14X2 | Source/Core/VideoCommon/TextureDecoder_Generic.cpp:98-107 | writes the four C14X2 texels and nothing else |
| TextureWalker.LayoutOf | Source/Core/VideoCommon/TextureDecoder_Generic.cpp:180-196 | every instantiation has blocks 4 or 8 texels wide and high, with 4, 8 or 16 bytes per block line |
| TextureWalker.DecodeBlockLine | Source/Core/VideoCommon/TextureDecoder_Internal.h:26 | one `decode_block_line` call writes its rectangle with the call's texels and nothing outside it |
| TextureWalker.OfsBound | Source/Core/VideoCommon/TextureDecoder_Internal.h:19-29 | when the dimensions are multiples of the block size, every call reads inside the texture's bytes |
| TextureWalker.OfsSteps | Source/Core/VideoCommon/TextureDecoder_Internal.h:19-29 | `ofs` advances by one call's bytes per call and runs on from block to block and from row to row, so block (bx, by), line iy is read at ((by * (width / bw) + bx) * bh + iy) * bytes_per_block_line |
| TextureWalker.PlaceOfCall | Source/Core/VideoCommon/TextureDecoder_Internal.h:19-29 | the call for block (bx, by), line iy is the source of every texel of its rectangle |
| TextureWalker.PlaceInRange | Source/Core/VideoCommon/TextureDecoder_Internal.h:19-29 | every texel is written by a call inside the source, at a row and column inside that call's rectangle |
| TextureWalker.CallOfRow | Source/Core/VideoCommon/TextureDecoder_Internal.h:23-24 | every row of a block belongs to exactly one call, which lies inside the block |
| TextureWalker.TexelAtPlace | Source/Core/VideoCommon/TextureDecoder_Internal.h:19-29 | the texel at (px, py) is what the call at its place decodes at its row and column |
| TextureWalker.DecodedImage | Source/Core/VideoCommon/TextureDecoder_Internal.h:19-29 | the decoded image has width * height texels |
| TextureWalker.ImageAt | Source/Core/VideoCommon/TextureDecoder_Internal.h:19-29 | the decoded image holds at index y * width + x the texel at (x, y) |
| TextureWalker.BlockInTexture | Source/Core/VideoCommon/TextureDecoder_Internal.h:19-21 | every block of the walk lies inside the texture |
| TextureWalker.CallCoversTexel | Source/Core/VideoCommon/TextureDecoder_Internal.h:26 | each cell of a call's rectangle is a texel of the texture, and the call decodes that texel's value |
| TextureWalker.CallInTexture | Source/Core/VideoCommon/TextureDecoder_Internal.h:26 | each call writes inside the width * height destination, starting at index (y + iy) * width + x |
| TextureWalker.CellPlace | Source/Core/VideoCommon/TextureDecoder_Internal.h:26 | cell (r, c) of a call's rectangle is the index of a texel whose place is that cell of that call |
| TextureWalker.ImageAtIndex | Source/Core/VideoCommon/TextureDecoder_Internal.h:19-29 | the image holds at index i the texel of column i % width and row i / width |
| TextureWalker.CellIsImage | Source/Core/VideoCommon/TextureDecoder_Internal.h:26 | the decoded image holds at each cell of a call's rectangle what the call writes there |
| TextureWalker.CallWritesImage | Source/Core/VideoCommon/TextureDecoder_Internal.h:26 | a call that wrote its texels wrote the decoded image's values into its rectangle |
| TextureWalker.LineStep | Source/Core/VideoCommon/TextureDecoder_Internal.h:23-27 | after one more call, exactly the texels up to the call's last line hold their decoded value; the rest are unchanged |
| TextureWalker.DecodeBlock | Source/Core/VideoCommon/TextureDecoder_Internal.h:23-27 | the innermost loop decodes one whole block and advances `ofs` to the next block |
| TextureWalker.DecodeTexture | Source/Core/VideoCommon/TextureDecoder_Internal.h:14-30 | the walk leaves the decoded image in the first width * height entries of `dst` and touches nothing else |
| Tiling.WrittenIsRect | Source/Core/VideoCommon/TextureDecoder_Internal.h:26 | the indices a call writes are exactly the texels of its rectangle |
| Tiling.WrittenInImage | Source/Core/VideoCommon/TextureDecoder_Internal.h:26 | a rectangle inside the image writes only indices of the image |
| Tiling.Start | Source/Core/VideoCommon/TextureDecoder_Internal.h:19 | before the walk no texel is written |
| Tiling.RectStep | Source/Core/VideoCommon/TextureDecoder_Internal.h:26 | a call that writes exactly the rectangle the step adds keeps the buffer decoded up to the walk's position |
| Tiling.NothingDoneAtStart | Source/Core/VideoCommon/TextureDecoder_Internal.h:23 | no texel of a block is written before its first call |
| Tiling.NextBlock | Source/Core/VideoCommon/TextureDecoder_Internal.h:21 | once a block is complete, the walk moves on to the next block of the row |
| Tiling.NextRow | Source/Core/VideoCommon/TextureDecoder_Internal.h:19 | once a block row is complete, the walk moves on to the next block row |
| Tiling.Finish | Source/Core/VideoCommon/TextureDecoder_Internal.h:19-29 | after the last block row the image part of the buffer is the decoded image, and the rest is as it was |
| Dxt.ThirdBetween | Source/Core/VideoCommon/TextureDecoder_Generic.cpp:131-136 | moving 3/8 of the difference from either endpoint stays between the endpoints |
| Dxt.ThirdInByte | Source/Core/VideoCommon/TextureDecoder_Generic.cpp:132-136 | both interpolated channels are bytes |
| Dxt.EndpointChannels | Source/Core/VideoCommon/TextureDecoder_Generic.cpp:127-128 | colors[0] and colors[1] are the expanded endpoints with alpha 255, in both palette kinds |
| Dxt.FourColourChannels | Source/Core/VideoCommon/TextureDecoder_Generic.cpp:129-137 | with c1 > c2, colors[2] and colors[3] are opaque and lie 3/8 of the way from each endpoint towards the other |
| Dxt.ThreeColourChannels | Source/Core/VideoCommon/TextureDecoder_Generic.cpp:138-146 | otherwise colors[2] is the rounded average, opaque, and colors[3] the same colour with alpha 0 |
| Dxt.PaletteAlpha | Source/Core/VideoCommon/TextureDecoder_Generic.cpp:127-146 | colors[0..2] are always opaque; colors[3] is opaque exactly when c1 > c2 and transparent otherwise |
| Dxt.PaletteEndpoints | Source/Core/VideoCommon/TextureDecoder_Generic.cpp:118-128 | the endpoints are the byte-swapped RGB565 values, expanded field by field |
| Dxt.InterpolatedBetweenEndpoints | Source/Core/VideoCommon/TextureDecoder_Generic.cpp:131-136 | each interpolated channel lies between the endpoints' channels |
| Dxt.Selector | Source/Core/VideoCommon/TextureDecoder_Generic.cpp:153 | a selector lies in 0..3 |
| Dxt.SelectorsMakeLine | Source/Core/VideoCommon/TextureDecoder_Generic.cpp:150-155 | a row byte is its four selectors, with the most significant bit pair for column 0 |
| Dxt.ShiftedSelector | Source/Core/VideoCommon/TextureDecoder_Generic.cpp:153-154 | after x shifts of `val <<= 2`, `(val >> 6) & 3` is the selector of column x |
| Dxt.DxtTexelAlpha | Source/Core/VideoCommon/TextureDecoder_Generic.cpp:129-155 | a CMPR texel is transparent exactly when c1 <= c2 and its selector is 3; every other texel has alpha 255 |
| Dxt.DecodeDXTRow | Source/Core/VideoCommon/TextureDecoder_Generic.cpp:150-156 | one row writes its four texels from the palette and nothing else |
| Dxt.DecodeDXTRows | Source/Core/VideoCommon/TextureDecoder_Generic.cpp:148-157 | the row loop writes the 4x4 block at row pitch `pitch` and nothing outside it |
| Dxt.DecodeDXTPalette | Source/Core/VideoCommon/TextureDecoder_Generic.cpp:118-146 | the computed colours are the palette of the two endpoints |
| Dxt.DerivedColours | Source/Core/VideoCommon/TextureDecoder_Generic.cpp:129-146 | the two branches compute the four-colour and the three-colour palette |
| Dxt.DecodeDXTBlock | Source/Core/VideoCommon/TextureDecoder_Generic.cpp:116-158 | each texel (c, r) of the block gets the palette entry its selector names; nothing outside the block changes |
| Dxt.DxtOfsBound | Source/Core/VideoCommon/TextureDecoder_Generic.cpp:160-176 | every sub-block read lies inside the texture's 32 bytes per tile |
| Dxt.DxtOfsSteps | Source/Core/VideoCommon/TextureDecoder_Generic.cpp:167-173 | `src` advances by 8 per sub-block, so each tile consumes exactly four sub-blocks and the next tile continues after them |
| Dxt.DxtPlaceOfCall | Source/Core/VideoCommon/TextureDecoder_Generic.cpp:166-172 | sub-block j of a tile is the source of every texel of its 4x4 square, in the order top-left, top-right, bottom-left, bottom-right |
| Dxt.DxtPlaceInRange | Source/Core/VideoCommon/TextureDecoder_Generic.cpp:160-176 | every texel is read from a sub-block inside the source |
| Dxt.DxtImage | Source/Core/VideoCommon/TextureDecoder_Generic.cpp:160-176 | the decoded CMPR image has width * height texels |
| Dxt.DxtImageAt | Source/Core/VideoCommon/TextureDecoder_Generic.cpp:160-176 | the decoded image holds at y * width + x the texel at (x, y) |
| Dxt.TileInTexture | Source/Core/VideoCommon/TextureDecoder_Generic.cpp:162-164 | every 8x8 tile of the walk lies inside the texture |
| Dxt.QuarterInTexture | Source/Core/VideoCommon/TextureDecoder_Generic.cpp:166-172 | each sub-block writes inside the destination |
| Dxt.QuarterCellPlace | Source/Core/VideoCommon/TextureDecoder_Generic.cpp:166-172 | each cell of a sub-block's square is a texel whose place is that cell |
| Dxt.QuarterCellIsImage | Source/Core/VideoCommon/TextureDecoder_Generic.cpp:166-172 | the decoded image holds at each cell what the sub-block decodes there |
| Dxt.QuarterDone | Source/Core/VideoCommon/TextureDecoder_Generic.cpp:166-172 | each sub-block adds exactly its quarter to the written part of the tile |
| Dxt.QuarterStep | Source/Core/VideoCommon/TextureDecoder_Generic.cpp:166-172 | after one more sub-block, exactly one more quarter of the tile holds decoded texels |
| Dxt.QuarterDecoded | Source/Core/VideoCommon/TextureDecoder_Generic.cpp:166-173 | what DecodeDXTBlock writes for a sub-block takes the walk one quarter further |
| Dxt.DecodeQuarter | Source/Core/VideoCommon/TextureDecoder_Generic.cpp:166-167 | one DecodeDXTBlock call and `src += 8` take the walk one quarter further |
| Dxt.HalfOrigins | Source/Core/VideoCommon/TextureDecoder_Generic.cpp:166-172 | the four destinations y * width + x, + 4, (y + 4) * width + x and + 4 are the sub-blocks' squares |
| Dxt.DecodeHalf | Source/Core/VideoCommon/TextureDecoder_Generic.cpp:166-173 | two calls decode the upper or the lower half of a tile |
| Dxt.DecodeTile | Source/Core/VideoCommon/TextureDecoder_Generic.cpp:166-173 | the four calls decode one whole tile and advance `src` by 32 bytes |
| Dxt.DecodeDXT | Source/Core/VideoCommon/TextureDecoder_Generic.cpp:160-176 | the walk leaves the decoded CMPR image in the first width * height entries of `dst` and touches nothing else |
| TextureDecode.EveryDirectFormatHasDecoder | Source/Core/VideoCommon/TextureDecoder_Common.cpp:401-410 | after Init and InitGeneric, a slot below 15 has a decoder exactly when its code names a format, and that format is directly readable |
| TextureDecode.PaletteFormatSelectsDecoder | Source/Core/VideoCommon/TextureDecoder_Common.cpp:386-399 | the palette format changes the decoder exactly for C4, C8 and C14X2 |
| TextureDecode.WalkerAgreesWithTables | Source/Core/VideoCommon/TextureDecoder_Generic.cpp:180-196 | each walker's block shape and block bytes match the format tables, and its palette requirement is PaletteSize / 2 entries |
| TextureDecode.CmprAgreesWithTables | Source/Core/VideoCommon/TextureDecoder_Generic.cpp:187 | the CMPR decoder's 8x8 tiles of 32 bytes are the blocks the tables give CMPR |
| TextureDecode.WholeBlocksSize | Source/Core/VideoCommon/TextureDecoder_Common.cpp:95-98 | whole blocks hold exactly the bytes of the size formula |
| TextureDecode.SourceSizeAgreesWithTables | Source/Core/VideoCommon/TextureDecoder_Internal.h:19-29 | for dimensions that are multiples of the block size, the walk consumes exactly GetTextureSizeInBytes bytes |
| TextureDecode.DecodedTexture | Source/Core/VideoCommon/TextureDecoder_Common.cpp:412-421 | the texture Decode produces has width * height texels |
| TextureDecode.Decode | Source/Core/VideoCommon/TextureDecoder_Common.cpp:412-421 | dispatches through the decoder table with the given palette format, and leaves the decoded texture in `dst` |
| TexelDecode.TexelBytes | Source/Core/VideoCommon/TextureDecoder_Common.cpp:459 | the four bytes a texel is stored as pack back into the texel |
| TexelDecode.BytesOfMakeRGBA | Source/Core/VideoCommon/TextureDecoder_Common.cpp:481-551 | storing a texel made of four channels writes those channels, red first |
| TexelDecode.CmprTexelIsPaletteEntry | Source/Core/VideoCommon/TextureDecoder_Common.cpp:638-711 | DecodeTexel's switch over colorSel picks the same colour as the block decoder's palette lookup |
| TexelDecode.TexelValue | Source/Core/VideoCommon/TextureDecoder_Common.cpp:446-714 | DecodeTexel produces a texel exactly for the formats the texture mapper reads |
| TexelDecode.TexelValueOfHalfword | Source/Core/VideoCommon/TextureDecoder_Common.cpp:553-617 | an IA8, RGB565 or RGB5A3 texel is the pixel decoder applied to the halfword at the texel's offset |
| TexelDecode.IA8TexelAsWritten | Source/Core/VideoCommon/TextureDecoder_Common.cpp:553-567 | as written, the IA8 case takes alpha from the second byte and intensity from the first |
| TexelDecode.StoreTexel | Source/Core/VideoCommon/TextureDecoder_Common.cpp:710 | `*dst32 = color` writes the texel's four bytes and nothing else |
| TexelDecode.StoreChannels | Source/Core/VideoCommon/TextureDecoder_Common.cpp:496-499 | the byte stores write the texel of the four channels and nothing else |
| TexelDecode.DecodeTexel | Source/Core/VideoCommon/TextureDecoder_Common.cpp:446-714 | writes the texel of (s, t) at `dst`, or leaves `dst` untouched for a format it does not handle |
| TexelDecode.TmemTexel | Source/Core/VideoCommon/TextureDecoder_Common.cpp:734-737 | R and A come from the AR bank and G and B from the GB bank, at the same offset |
| TexelDecode.DecodeTexelRGBA8FromTmem | Source/Core/VideoCommon/TextureDecoder_Common.cpp:716-738 | writes the four bytes of the texel at its halfword offset and nothing else |
| TexelDecode.TmemImage | Source/Core/VideoCommon/TextureDecoder_Common.cpp:740-751 | the decoded texture has four bytes per texel |
| TexelDecode.TmemImageAt | Source/Core/VideoCommon/TextureDecoder_Common.cpp:740-751 | texel (x, y) occupies bytes 4 * (y * width + x) to + 3, in row-major order |
| TexelDecode.TmemRowIsImage | Source/Core/VideoCommon/TextureDecoder_Common.cpp:743-750 | row y of the texture is the run of 4 * width bytes from 4 * y * width |
| TexelDecode.DecodeRGBA8FromTmem | Source/Core/VideoCommon/TextureDecoder_Common.cpp:740-751 | the loop leaves the decoded texture in the first 4 * width * height bytes and nothing else changes |
| TexelDecode.DecodeTmemRow | Source/Core/VideoCommon/TextureDecoder_Common.cpp:745-749 | the inner loop writes one row of texels and nothing else |
| TexelAgreement.BlocksPerRow | Source/Core/VideoCommon/TextureDecoder_Common.cpp:467 | `((width - 1) >> 3) + 1` counts the blocks of a row exactly when the width is a multiple of the block width |
| TexelAgreement.BlockCoordsBelow | Source/Core/VideoCommon/TextureDecoder_Common.cpp:465-467 | for textures up to 1024 texels, the block coordinates and blocks per row fit the u16 variables |
| TexelAgreement.GridIndexBounds | Source/Core/VideoCommon/TextureDecoder_Common.cpp:468 | the block index fits u16 and the block base fits u32 |
| TexelAgreement.ByteOffsetIsPlace | Source/Core/VideoCommon/TextureDecoder_Common.cpp:502-551 | I8, C8 and IA4 read byte ((t >> 2) * widthBlks + (s >> 3)) * 32 + (t & 3) * 8 + (s & 7), the walker's byte for that texel |
| TexelAgreement.NibbleOffsetIsPlace | Source/Core/VideoCommon/TextureDecoder_Common.cpp:463-500 | I4 and C4 read the walker's nibble for the texel |
| TexelAgreement.HalfwordOffsetIsPlace | Source/Core/VideoCommon/TextureDecoder_Common.cpp:553-617 | the 16-bit formats read the walker's halfword for the texel |
| TexelAgreement.RGBA8OffsetIsPlace | Source/Core/VideoCommon/TextureDecoder_Common.cpp:619-636 | RGBA8 reads the pair at 8r + 2c of the walker's block for the texel |
| TexelAgreement.CmprOffsetIsPlace | Source/Core/VideoCommon/TextureDecoder_Common.cpp:638-655 | CMPR reads the walker's sub-block for the texel |
| TexelAgreement.ByteFormatsAgree | Source/Core/VideoCommon/TextureDecoder_Common.cpp:502-551 | for I8, IA4 and C8, DecodeTexel gives the walker's texel |
| TexelAgreement.NibbleFormatsAgree | Source/Core/VideoCommon/TextureDecoder_Common.cpp:463-500 | for I4 and C4, DecodeTexel gives the walker's texel |
| TexelAgreement.NibbleAtPlace | Source/Core/VideoCommon/TextureDecoder_Common.cpp:463-500 | the nibble DecodeTexel reads for a texel is the nibble the walker's call reads for it |
| TexelAgreement.I4Agrees | Source/Core/VideoCommon/TextureDecoder_Common.cpp:481-500 | for I4, DecodeTexel gives the walker's texel |
| TexelAgreement.C4Agrees | Source/Core/VideoCommon/TextureDecoder_Common.cpp:463-479 | for C4, DecodeTexel gives the walker's texel |
| TexelAgreement.HalfwordFormatsAgree | Source/Core/VideoCommon/TextureDecoder_Common.cpp:553-617 | for IA8, RGB565, RGB5A3 and C14X2, DecodeTexel gives the walker's texel (IA8 with the byte swap) |
| TexelAgreement.Direct16Agrees | Source/Core/VideoCommon/TextureDecoder_Common.cpp:553-567 | for IA8, RGB565 and RGB5A3, DecodeTexel gives the walker's texel |
| TexelAgreement.C14X2Agrees | Source/Core/VideoCommon/TextureDecoder_Common.cpp:569-585 | for C14X2, DecodeTexel gives the walker's texel |
| TexelAgreement.RGBA8Agrees | Source/Core/VideoCommon/TextureDecoder_Common.cpp:619-636 | for RGBA8, DecodeTexel gives the walker's texel |
| TexelAgreement.CmprAgrees | Source/Core/VideoCommon/TextureDecoder_Common.cpp:638-711 | for CMPR, DecodeTexel gives the CMPR walker's texel |
| TexelAgreement.TexelAgreesWithDecode | Source/Core/VideoCommon/TextureDecoder_Common.cpp:446-714 | for every directly readable format, DecodeTexel at (x, y) with the width minus one gives the texel Decode writes at y * width + x |
| TexelAgreement.IA8AsWrittenAgreesOnlyOnEqualBytes | Source/Core/VideoCommon/TextureDecoder_Common.cpp:553-567 | the original IA8 case agrees with Decode at a texel exactly when its two bytes are equal |
| TexelAgreement.IA8Sample | Source/Core/VideoCommon/TextureDecoder_Common.cpp:553-567 | a 4x4 IA8 texture whose first texel has bytes 0x12 and 0x34 |
| TexelAgreement.IA8SampleShowsSwap | Source/Core/VideoCommon/TextureDecoder_Common.cpp:553-567 | that texture is one Decode accepts, and its first texel's bytes differ, so the original DecodeTexel disagrees there |
| TexelAgreement.FirstTexelOffset | Source/Core/VideoCommon/TextureDecoder_Common.cpp:553-567 | texel (0, 0) is read at offset 0 |
| TexelAgreement.TmemBlocksPerRow | Source/Core/VideoCommon/TextureDecoder_Common.cpp:721-722 | with the width minus one passed in, widthBlks is the width divided by 4, rounded up |
| TexelAgreement.TmemOffsetAt | Source/Core/VideoCommon/TextureDecoder_Common.cpp:719-730 | texel (x, y) is read at halfword (y % 4) * 4 + x % 4 of its block, with blocks in row-major order |
| TexelAgreement.TmemFitsWhenLargeEnough | Source/Core/VideoCommon/TextureDecoder_Common.cpp:740-751 | banks of 32 bytes per 4x4 block, partial blocks rounded up, hold every texel |
| TexelAgreement.TmemOffsetBelow | Source/Core/VideoCommon/TextureDecoder_Common.cpp:729-733 | each texel's halfword ends inside the banks |
| TexelAgreement.BlockInGrid | Source/Core/VideoCommon/TextureDecoder_Common.cpp:723-730 | a halfword of a block of the grid ends inside the grid |
| TexelAgreement.TmemOffsetsDistinct | Source/Core/VideoCommon/TextureDecoder_Common.cpp:719-730 | distinct texels are read from distinct halfwords |
| HeartRate.GetDeviceDescriptor | Source/Core/Core/IOS/USB/Emulated/HeartRateMonitor.cpp:13-31 | vendor 0x21A4, product 0xAC40, and as many configurations as GetConfigurations lists |
| HeartRate.GetConfigurations | Source/Core/Core/IOS/USB/Emulated/HeartRateMonitor.cpp:33-47 | one configuration, listing as many interfaces as GetInterfaces returns and a total length covering its descriptors |
| HeartRate.GetInterfaces | Source/Core/Core/IOS/USB/Emulated/HeartRateMonitor.cpp:49-63 | one HID (class 3) interface, listing as many endpoints as GetEndpoints returns |
| HeartRate.GetEndpoints | Source/Core/Core/IOS/USB/Emulated/HeartRateMonitor.cpp:65-77 | one interrupt IN endpoint, number 1 (address 0x81), with 16-byte packets |
| HeartRate.IntrReplies | Source/Core/Core/IOS/USB/Emulated/HeartRateMonitor.cpp:148-182 | n transfers give n replies |
| HeartRate.ClearDeviceBits | Source/Core/Core/IOS/USB/Emulated/HeartRateMonitor.cpp:124 | `& ~0x60` clears bits 5 and 6 and keeps the others |
| HeartRate.ClearDeviceBitsIsCommandByte | Source/Core/Core/IOS/USB/Emulated/HeartRateMonitor.cpp:124-125 | a masked byte is 0x14 exactly for 0x14, 0x34, 0x54 and 0x74 |
| HeartRate.ClassifyReset | Source/Core/Core/IOS/USB/Emulated/HeartRateMonitor.cpp:124-128 | the reset command is recognised exactly when byte 1 is 0x13 and byte 0 is 0x14 whatever bits 5 and 6 are |
| HeartRate.OnlyResetChangesState | Source/Core/Core/IOS/USB/Emulated/HeartRateMonitor.cpp:117-137 | a parsed reset command sets the state to 0; pairing, disconnect and every other command leave it unchanged |
| HeartRate.StateStaysBinary | Source/Core/Core/IOS/USB/Emulated/HeartRateMonitor.cpp:155-181 | from state 0 or 1, every transfer gives state 0 or 1, and two interrupt transfers restore the starting state |
| HeartRate.RepliesAlternate | Source/Core/Core/IOS/USB/Emulated/HeartRateMonitor.cpp:155-180 | consecutive interrupt replies alternate between the idle report and the heart-rate report |
| HeartRate.RepliesFitEndpoint | Source/Core/Core/IOS/USB/Emulated/HeartRateMonitor.cpp:155-180 | every reply fits one packet of the interrupt endpoint |
| HeartRate.HeartRateMonitor.constructor | Source/Core/Core/IOS/USB/Emulated/HeartRateMonitor.cpp:9-11 | a new device is in state 0 |
| HeartRate.HeartRateMonitor.SubmitIntrTransfer | Source/Core/Core/IOS/USB/Emulated/HeartRateMonitor.cpp:148-182 | in state 0, sixteen 0x80 bytes of length 16, then state 1; otherwise 15 bytes with 0x7B, 0x0C, 0x20, 0x20 at 0x0B..0x0E, then state 0; completion after 1000 us |
| HeartRate.HeartRateMonitor.SubmitCtrlTransfer | Source/Core/Core/IOS/USB/Emulated/HeartRateMonitor.cpp:113-140 | the state follows the parsed command, and every control transfer completes with the message's full length |
| HleMisc.U32Shift | Source/Core/Core/HLE/HLE_Misc.cpp:52-60 | u32 arithmetic: truncating before an addition changes nothing |
| HleMisc.ReadHeld32 | Source/Core/Core/HLE/HLE_Misc.cpp:51 | reading a stored word gives the word |
| HleMisc.ReadHeld64 | Source/Core/Core/HLE/HLE_Misc.cpp:82-83 | reading a stored doubleword gives it, high word first |
| HleMisc.Write32 | Source/Core/Core/HLE/HLE_Misc.cpp:60 | a write stores the word's four bytes big-endian and changes no other byte |
| HleMisc.ReadWritten32 | Source/Core/Core/HLE/HLE_Misc.cpp:51-60 | a written word reads back unchanged |
| HleMisc.Memory.constructor | Source/Core/Core/HLE/HLE_Misc.cpp:51 | memory starts with the given bytes |
| HleMisc.Memory.HostWriteU32 | Source/Core/Core/HLE/HLE_Misc.cpp:60 | the byte map becomes the written map |
| HleMisc.PowerPCState.constructor | Source/Core/Core/HLE/HLE_Misc.cpp:28 | a fresh state has 32 zero registers and paired singles and no icache resets |
| HleMisc.PowerPCState.ResetICache | Source/Core/Core/HLE/HLE_Misc.cpp:62 | counts one more icache reset and leaves the registers alone |
| HleMisc.UnimplementedFunction | Source/Core/Core/HLE/HLE_Misc.cpp:25-30 | npc becomes LR and nothing else changes |
| HleMisc.FlushStepCounts | Source/Core/Core/HLE/HLE_Misc.cpp:51-60 | the call returns early exactly when the counter is 5; below 5 it counts up; above 5, or below MAGIC through wrap-around, it restarts at 1; every stored counter lies in 1..5 |
| HleMisc.ResetsFromCounter | Source/Core/Core/HLE/HLE_Misc.cpp:45-62 | from counter k <= 5, n calls reset the icache min(n, 5 - k) times |
| HleMisc.FiveResetsFromMagic | Source/Core/Core/HLE/HLE_Misc.cpp:45-62 | starting from MAGIC, the icache is reset on exactly the first five calls |
| HleMisc.ResetsAtMostFive | Source/Core/Core/HLE/HLE_Misc.cpp:45-62 | whatever the stored id, no run of calls resets the icache more than five times |
| HleMisc.GeckoCodeHandlerICacheFlush | Source/Core/Core/HLE/HLE_Misc.cpp:40-63 | with counter 5 nothing is written or reset; otherwise the next id is stored at the installer base and the icache is reset once |
| HleMisc.ReadFrame | Source/Core/Core/HLE/HLE_Misc.cpp:75-84 | the frame read back holds fourteen paired singles |
| HleMisc.ReadSavedFrame | Source/Core/Core/HLE/HLE_Misc.cpp:75-84 | reading back a saved frame gives exactly the saved SP, PC, LR, CR and paired singles |
| HleMisc.GeckoReturnTrampoline | Source/Core/Core/HLE/HLE_Misc.cpp:69-85 | gpr[1], npc, LR and CR come from SP+8, +12, +16 and +20; ps[i] for i < 14 from SP+24+16i and SP+32+16i; nothing else changes |
| HleMisc.RestorePairedSingles | Source/Core/Core/HLE/HLE_Misc.cpp:80-84 | the loop restores ps[0..13] from the frame and leaves ps[14..31] alone |
| HleMisc.TileOfOffset | Source/Core/Core/HLE/HLE_Misc.cpp:130-133 | the column and row read back from byte (x, y)'s swizzled offset are x and y |
| HleMisc.OffsetOfTile | Source/Core/Core/HLE/HLE_Misc.cpp:130-133 | every swizzled offset is the offset of its own column and row |
| HleMisc.TileInPlane | Source/Core/Core/HLE/HLE_Misc.cpp:130-133 | every offset of the swizzled plane reads a byte inside the plane |
| HleMisc.OffsetInPlane | Source/Core/Core/HLE/HLE_Misc.cpp:130-133 | every byte of the plane lands inside the swizzled plane |
| HleMisc.Swizzled | Source/Core/Core/HLE/HLE_Misc.cpp:129-133 | the swizzled plane has as many bytes as the plane |
| HleMisc.SwizzledAt | Source/Core/Core/HLE/HLE_Misc.cpp:129-133 | byte (x, y) lands at (((y / 4) * (w / 8) + x / 8) * 4 + y % 4) * 8 + x % 8 |
| HleMisc.SwizzleIsBijection | Source/Core/Core/HLE/HLE_Misc.cpp:129-133 | distinct bytes land at distinct offsets and every offset receives a byte, so each byte is copied exactly once |
| HleMisc.TileLineByte | Source/Core/Core/HLE/HLE_Misc.cpp:132-133 | byte c of tile line iy goes from (y + iy) * width + x + c to the line's destination + c |
| HleMisc.TileLineAt | Source/Core/Core/HLE/HLE_Misc.cpp:133 | each byte the memcpy copies is the swizzled byte at its destination |
| HleMisc.TileLine | Source/Core/Core/HLE/HLE_Misc.cpp:133 | the memcpy reads eight bytes inside the plane, and they are the swizzled bytes at the line's destination |
| HleMisc.Memcpy | Source/Core/Core/HLE/HLE_Misc.cpp:133 | copies n bytes and changes nothing else |
| HleMisc.TileInRange | Source/Core/Core/HLE/HLE_Misc.cpp:131-132 | a whole tile lies inside the swizzled plane |
| HleMisc.SwizzleTile | Source/Core/Core/HLE/HLE_Misc.cpp:132-133 | the four lines of a tile extend the swizzled prefix by 32 bytes |
| HleMisc.SwizzleTileRow | Source/Core/Core/HLE/HLE_Misc.cpp:131-133 | a row of tiles extends the swizzled prefix by 4 * width bytes |
| HleMisc.TileRowInPlane | Source/Core/Core/HLE/HLE_Misc.cpp:130-132 | each tile row starts where the previous one ended and lies inside the plane |
| HleMisc.AllTileRows | Source/Core/Core/HLE/HLE_Misc.cpp:130 | height / 4 tile rows fill the plane |
| HleMisc.SwizzlePlane | Source/Core/Core/HLE/HLE_Misc.cpp:129-133 | the loop leaves the swizzled plane at the front of `dst` and touches nothing beyond |
| HleMisc.PlanesAreTiled | Source/Core/Core/HLE/HLE_Misc.cpp:121-122 | in a frame of 16x8 macroblocks, the luma and the half-size chroma planes are whole 8x4 tiles |
| HleMisc.SwizzlePlaneOf | Source/Core/Core/HLE/HLE_Misc.cpp:119-134 | plane 0 is swizzled at full size and planes 1 and 2 at half width and height |
| HleMisc.THPVideoDecode | Source/Core/Core/HLE/HLE_Misc.cpp:119-141 | all three planes are swizzled to their destinations, gpr[3] becomes 0 and npc becomes LR |
| HleMisc.SwizzledPlaneDecodesAsI8 | Source/Core/Core/HLE/HLE_Misc.cpp:129-133 | decoding the swizzled plane as an I8 texture gives each plane byte back as a grey texel at its own position |

## Left out

- The SSE/AVX2 decoders of `TextureDecoder_x64.cpp` and `InitX64`: only the generic decoders, which the SIMD paths are tested against, are modelled.
- `DrawOverlay` and the `TexFmt_Overlay_Enable` branch of `Decode`: the font table it draws from is not part of this model.
- `PanicAlert` on unknown formats: only the value returned after it is modelled.
- The global `s_tlutfmt` in `Decode`: the palette format is passed to the decoder instead.
- The function-pointer tables: `Init` and `InitGeneric` become a table from format to decoder variant, and the pointers' uninitialised slots become `Unset`.
- `DecodePixel<format>` and `DecodePixel_Paletted` return 0 for palette formats other than the three: `TlutFormat` has only the three values, so that branch is not modelled.
- The `Convert*To8` helpers, `Common::swap16` and host endianness are not part of this model: they are taken as bit replication, a byte swap and little-endian loads.
- TextureWalker.DecodeTexture: only dimensions that are whole multiples of the block size; for other sizes the source writes and reads past the texture.
- Dxt.DecodeDXT: only dimensions that are multiples of 8, for the same reason.
- TexelAgreement.TexelAgreesWithDecode: proved only for textures of at most 1024 texels each way, where the u16 block variables of DecodeTexel cannot wrap; the same bound holds for the other agreement and TMEM lemmas.
- TexelDecode.DecodeTexel models the corrected IA8 case; the original is TexelDecode.IA8TexelAsWritten (see Findings).
- TextureTables.TextureSizeInBytes: its bound is stated only for non-negative dimensions.
- HeartRate: logging, `Attach`, `CancelTransfer`, `ChangeInterface`, `GetNumberOfAltSettings`, `SetAltSetting` and the bulk and isochronous transfers only log or return constants.
- HeartRate.HeartRateMonitor.SubmitIntrTransfer and SubmitCtrlTransfer: `FillBuffer` and `ScheduleTransferCompletion` become the returned bytes, length and delay.
- HleMisc: guest memory is a byte map in which missing bytes read as 0; address translation and MMU faults are not modelled.
- HleMisc: the values of `Gecko::INSTALLER_BASE_ADDRESS` and `Gecko::MAGIC_GAMEID` come from headers that are not part of this model; the model uses 0x80001800 and 0xD01F1BAD.
- HleMisc.PowerPCState.ResetICache: the instruction cache is a reset counter.
- `HBReload`: it only calls `CPU().Break()` and `Host_Message`.
- HleMisc.THPVideoDecode: the ffmpeg decode, the `ASSERT`s and the translation of gpr[4..6] into host pointers are replaced by the decoded planes and three destination arrays; only frames of whole 16x8 macroblocks are covered.
- `JitAsm.cpp`, `SWRenderer.cpp` and the other context files: they emit native code or call into libraries.

## Findings

| source | as written | input that shows it | evidently intended | confidence | as-written member | corrected member |
|---|---|---|---|---|---|---|
| Source/Core/VideoCommon/TextureDecoder_Common.cpp:553-567 | DecodeTexel's IA8 case hands the host (little-endian) load to `DecodePixel_IA8` without `swap16`, so alpha comes from the second byte in memory | a 4x4 IA8 texture starting with bytes 0x12, 0x34: DecodeTexel gives texel (0, 0) alpha 0x34 and intensity 0x12, whereas Decode gives alpha 0x12 and intensity 0x34 | byte-swap first, as `DecodePixel<GX_TL_IA8>` and the RGB565 and RGB5A3 cases do, so the texel matches Decode | not executed | TexelAgreement.IA8AsWrittenAgreesOnlyOnEqualBytes | TexelAgreement.TexelAgreesWithDecode |
| Source/Core/VideoCommon/TextureDecoder_Common.cpp:322 | the name table holds "0x38" and "0x3B" in the slots of GX_CTF_Z8H and GX_CTF_Z16R | code 0x38 (GX_CTF_Z8H) is named "0x38"; code 0x3B (GX_CTF_Z16R) is named "0x3B" | each format of the enumeration has its own name, as every other slot does (e.g. "CZ8H" and "CZ16R") | not executed | TextureTables.NameTableMissesTwoFormats | TextureTables.NamesDistinguishFormats |
