// High-level emulation helpers: functions that replace guest code by acting directly on the
// PowerPC state and guest memory.

module HleMisc {
  import opened Bytes
  import opened Arith
  import opened TextureFormats
  import opened TexturePixels
  import TextureWalker

  // ---------------------------------------------------------------- guest memory

  /** Guest memory as the MMU's host accessors see it: bytes by 32-bit address. A byte the map
      does not hold reads as 0. */
  function ByteAt(m: map<u32, u8>, a: u32): u8
  {
    if a in m then m[a] else 0
  }

  /** HostRead_U32: four bytes from `a` upwards, big-endian, addresses wrapping at 2^32. */
  function Read32(m: map<u32, u8>, a: u32): u32
  {
    BigEndian32(ByteAt(m, a), ByteAt(m, U32(a + 1)), ByteAt(m, U32(a + 2)), ByteAt(m, U32(a + 3)))
  }

  /** HostRead_U64: the word at `a` is the high half, the word at `a + 4` the low half. */
  function Read64(m: map<u32, u8>, a: u32): u64
  {
    Read32(m, a) * 0x1_0000_0000 + Read32(m, U32(a + 4))
  }

  /** Memory holds `v` big-endian at `a`. */
  predicate Holds32(m: map<u32, u8>, a: u32, v: u32)
  {
    ByteAt(m, a) == v / 0x100_0000 && ByteAt(m, U32(a + 1)) == v / 0x1_0000 % 0x100 &&
    ByteAt(m, U32(a + 2)) == v / 0x100 % 0x100 && ByteAt(m, U32(a + 3)) == v % 0x100
  }

  predicate Holds64(m: map<u32, u8>, a: u32, v: u64)
  {
    Holds32(m, a, v / 0x1_0000_0000) && Holds32(m, U32(a + 4), v % 0x1_0000_0000)
  }

  /** U32 respects addition: truncating before adding `k` changes nothing. */
  lemma U32Shift(x: int, k: int)
    ensures U32(U32(x) + k) == U32(x + k)
  {
    var q := (x + k) / 0x1_0000_0000;
    DivModUnique(x, 0x1_0000_0000, x / 0x1_0000_0000, U32(x));
    DivModUnique(U32(x) + k, 0x1_0000_0000, q - x / 0x1_0000_0000, (x + k) % 0x1_0000_0000);
  }

  /** Reading a held word gives it back. */
  lemma ReadHeld32(m: map<u32, u8>, a: u32, v: u32)
    requires Holds32(m, a, v)
    ensures Read32(m, a) == v
  {
    BigEndianOfWordBytes(v);
  }

  lemma ReadHeld64(m: map<u32, u8>, a: u32, v: u64)
    requires Holds64(m, a, v)
    ensures Read64(m, a) == v
  {
    ReadHeld32(m, a, v / 0x1_0000_0000);
    ReadHeld32(m, U32(a + 4), v % 0x1_0000_0000);
  }

  /** HostWrite_U32 on the byte map: the four bytes of `v`, most significant first. */
  function Write32(m: map<u32, u8>, a: u32, v: u32): (w: map<u32, u8>)
    ensures Holds32(w, a, v)
    ensures forall b: u32 | b != a && b != U32(a + 1) && b != U32(a + 2) && b != U32(a + 3) :: ByteAt(w, b) == ByteAt(m, b)
  {
    U32Shift(a, 1);
    m[a := v / 0x100_0000][U32(a + 1) := v / 0x1_0000 % 0x100][U32(a + 2) := v / 0x100 % 0x100][U32(a + 3) := v % 0x100]
  }

  /** A word written to memory reads back unchanged. */
  lemma ReadWritten32(m: map<u32, u8>, a: u32, v: u32)
    ensures Read32(Write32(m, a, v), a) == v
  {
    ReadHeld32(Write32(m, a, v), a, v);
  }

  class Memory {
    var bytes: map<u32, u8>

    constructor (bytes0: map<u32, u8>)
      ensures bytes == bytes0
    {
      bytes := bytes0;
    }

    method HostWriteU32(v: u32, a: u32)
      modifies this
      ensures bytes == Write32(old(bytes), a, v)
    {
      bytes := Write32(bytes, a, v);
    }
  }

  // ---------------------------------------------------------------- processor state

  /** A paired-single register: two 64-bit halves, kept as raw bits. */
  datatype PairedSingle = PairedSingle(ps0: u64, ps1: u64)

  /** The parts of the PowerPC state the helpers touch. `lr` is the link register (an SPR),
      `cr` the condition register as the 32-bit value cr.Set receives, and `icacheResets`
      counts the calls of iCache.Reset(). */
  class PowerPCState {
    var npc: u32
    const gpr: array<u32>
    var lr: u32
    var cr: u32
    const ps: array<PairedSingle>
    var icacheResets: nat

    predicate Valid()
      reads this
    {
      gpr.Length == 32 && ps.Length == 32
    }

    constructor ()
      ensures Valid() && fresh(gpr) && fresh(ps)
      ensures npc == 0 && lr == 0 && cr == 0 && icacheResets == 0
      ensures forall i | 0 <= i < 32 :: gpr[i] == 0 && ps[i] == PairedSingle(0, 0)
    {
      npc, lr, cr, icacheResets := 0, 0, 0, 0;
      gpr := new u32[32](_ => 0);
      ps := new PairedSingle[32](_ => PairedSingle(0, 0));
    }

    method ResetICache()
      modifies this
      ensures icacheResets == old(icacheResets) + 1
      ensures npc == old(npc) && lr == old(lr) && cr == old(cr)
    {
      icacheResets := icacheResets + 1;
    }
  }

  // ---------------------------------------------------------------- UnimplementedFunction

  /** UnimplementedFunction: returns to the caller at once by jumping to the link register;
      nothing else changes (the gpr and ps arrays are not even in the frame). */
  method UnimplementedFunction(ppc: PowerPCState)
    modifies ppc
    ensures ppc.npc == old(ppc.lr)
    ensures ppc.lr == old(ppc.lr) && ppc.cr == old(ppc.cr) && ppc.icacheResets == old(ppc.icacheResets)
  {
    ppc.npc := ppc.lr;
  }

  // ---------------------------------------------------------------- Gecko icache flush

  /** Gecko::INSTALLER_BASE_ADDRESS and Gecko::MAGIC_GAMEID. */
  const INSTALLER_BASE_ADDRESS: u32 := 0x8000_1800
  const MAGIC_GAMEID: u32 := 0xD01F_1BAD

  /** How many frames have been flushed: the stored game id minus the magic value, in u32
      arithmetic, so that an id below the magic value counts as a very large number. */
  function Counter(gameid: u32): u32
  {
    U32(gameid - MAGIC_GAMEID)
  }

  /** One GeckoCodeHandlerICacheFlush call on stored id `gameid`: None when it returns early,
      otherwise the id it stores (the icache is then reset). */
  function FlushStep(gameid: u32): Option<u32>
  {
    if Counter(gameid) == 5 then None
    else Some(U32((if Counter(gameid) > 5 then MAGIC_GAMEID else gameid) + 1))
  }

  /** The counter stops at 5, counts up below it, and restarts at 1 from anything above it;
      every stored value counts between 1 and 5. */
  lemma FlushStepCounts(gameid: u32)
    ensures FlushStep(gameid).None? <==> Counter(gameid) == 5
    ensures Counter(gameid) < 5 ==> FlushStep(gameid).Some? && Counter(FlushStep(gameid).value) == Counter(gameid) + 1
    ensures Counter(gameid) > 5 ==> FlushStep(gameid) == Some(MAGIC_GAMEID + 1) && Counter(MAGIC_GAMEID + 1) == 1
    ensures FlushStep(gameid).Some? ==> 1 <= Counter(FlushStep(gameid).value) <= 5
  {
    if Counter(gameid) < 5 {
      U32Shift(gameid + 1, 0 - MAGIC_GAMEID as int);
      U32Shift(gameid - MAGIC_GAMEID, 1);
    }
  }

  /** The icache resets of `n` consecutive calls starting from stored id `gameid`. */
  function Resets(gameid: u32, n: nat): nat
    decreases n
  {
    if n == 0 then 0
    else match FlushStep(gameid)
      case None => Resets(gameid, n - 1)
      case Some(next) => 1 + Resets(next, n - 1)
  }

  function Min(a: int, b: int): int
  {
    if a < b then a else b
  }

  /** From counter k <= 5, n calls reset the icache min(n, 5 - k) times. */
  lemma {:induction false} ResetsFromCounter(gameid: u32, n: nat)
    requires Counter(gameid) <= 5
    ensures Resets(gameid, n) == Min(n, 5 - Counter(gameid))
    decreases n
  {
    FlushStepCounts(gameid);
    if n > 0 && Counter(gameid) < 5 {
      ResetsFromCounter(FlushStep(gameid).value, n - 1);
    } else if n > 0 {
      ResetsFromCounter(gameid, n - 1);
    }
  }

  /** Starting from the magic id, the icache is reset on exactly the first five calls. */
  lemma FiveResetsFromMagic(n: nat)
    ensures Resets(MAGIC_GAMEID, n) == Min(n, 5)
  {
    ResetsFromCounter(MAGIC_GAMEID, n);
  }

  /** Whatever the stored id, no run of calls resets the icache more than five times. */
  lemma ResetsAtMostFive(gameid: u32, n: nat)
    ensures Resets(gameid, n) <= 5
  {
    FlushStepCounts(gameid);
    if Counter(gameid) <= 5 {
      ResetsFromCounter(gameid, n);
    } else if n > 0 {
      ResetsFromCounter(MAGIC_GAMEID + 1, n - 1);
    }
  }

  /** GeckoCodeHandlerICacheFlush: reads the stored id at the installer base; unless the
      counter has reached 5, stores the next id there and resets the icache. */
  method GeckoCodeHandlerICacheFlush(ppc: PowerPCState, mem: Memory)
    modifies ppc, mem
    ensures var step := FlushStep(Read32(old(mem.bytes), INSTALLER_BASE_ADDRESS));
            match step
            case None => mem.bytes == old(mem.bytes) && ppc.icacheResets == old(ppc.icacheResets)
            case Some(next) => mem.bytes == Write32(old(mem.bytes), INSTALLER_BASE_ADDRESS, next) &&
                               Read32(mem.bytes, INSTALLER_BASE_ADDRESS) == next &&
                               ppc.icacheResets == old(ppc.icacheResets) + 1
    ensures ppc.npc == old(ppc.npc) && ppc.lr == old(ppc.lr) && ppc.cr == old(ppc.cr)
  {
    var gameid := Read32(mem.bytes, INSTALLER_BASE_ADDRESS);
    if U32(gameid - MAGIC_GAMEID) == 5 {
      return;
    } else if U32(gameid - MAGIC_GAMEID) > 5 {
      gameid := MAGIC_GAMEID;
    }
    mem.HostWriteU32(U32(gameid + 1), INSTALLER_BASE_ADDRESS);
    ReadWritten32(old(mem.bytes), INSTALLER_BASE_ADDRESS, U32(gameid + 1));
    ppc.ResetICache();
  }

  // ---------------------------------------------------------------- GeckoReturnTrampoline

  /** Address of the k-th 64-bit slot of the code handler's stack frame: SP + 24 + 8k. */
  function FrameSlot(sp: u32, k: int): u32
  {
    U32(sp + 24 + 8 * k)
  }

  /** What the code handler saved in its stack frame before the invisible branch. */
  datatype Frame = Frame(sp: u32, pc: u32, lr: u32, cr: u32, ps: seq<PairedSingle>)

  /** The frame as the trampoline reads it back from `sp`. */
  function ReadFrame(m: map<u32, u8>, sp: u32): (f: Frame)
    ensures |f.ps| == 14
  {
    Frame(Read32(m, U32(sp + 8)), Read32(m, U32(sp + 12)), Read32(m, U32(sp + 16)), Read32(m, U32(sp + 20)),
          seq(14, i => SavedPair(m, sp, i)))
  }

  /** Paired single i of the frame: ps0 from slot 2i, ps1 from slot 2i + 1. */
  function SavedPair(m: map<u32, u8>, sp: u32, i: int): PairedSingle
  {
    PairedSingle(Read64(m, FrameSlot(sp, 2 * i)), Read64(m, FrameSlot(sp, 2 * i + 1)))
  }

  /** Memory holds frame `f` at `sp`: the stack pointer, pc, LR and CR words at SP+8..SP+20,
      then ps0 and ps1 of fourteen paired singles from SP+24 on. */
  predicate HoldsFrame(m: map<u32, u8>, sp: u32, f: Frame)
  {
    |f.ps| == 14 &&
    Holds32(m, U32(sp + 8), f.sp) && Holds32(m, U32(sp + 12), f.pc) &&
    Holds32(m, U32(sp + 16), f.lr) && Holds32(m, U32(sp + 20), f.cr) &&
    forall i | 0 <= i < 14 :: Holds64(m, FrameSlot(sp, 2 * i), f.ps[i].ps0) && Holds64(m, FrameSlot(sp, 2 * i + 1), f.ps[i].ps1)
  }

  /** Reading back a saved frame gives exactly the saved values. */
  lemma ReadSavedFrame(m: map<u32, u8>, sp: u32, f: Frame)
    requires HoldsFrame(m, sp, f)
    ensures ReadFrame(m, sp) == f
  {
    ReadHeld32(m, U32(sp + 8), f.sp);
    ReadHeld32(m, U32(sp + 12), f.pc);
    ReadHeld32(m, U32(sp + 16), f.lr);
    ReadHeld32(m, U32(sp + 20), f.cr);
    var g := ReadFrame(m, sp);
    forall i | 0 <= i < 14
      ensures g.ps[i] == f.ps[i]
    {
      ReadHeld64(m, FrameSlot(sp, 2 * i), f.ps[i].ps0);
      ReadHeld64(m, FrameSlot(sp, 2 * i + 1), f.ps[i].ps1);
    }
  }

  /** GeckoReturnTrampoline: restores r1, pc, LR, CR and the first fourteen paired singles
      from the stack frame at the current r1. */
  method GeckoReturnTrampoline(ppc: PowerPCState, mem: Memory)
    requires ppc.Valid()
    modifies ppc, ppc.gpr, ppc.ps
    ensures var f := ReadFrame(mem.bytes, old(ppc.gpr[1]));
            ppc.gpr[..] == old(ppc.gpr[..])[1 := f.sp] && ppc.npc == f.pc && ppc.lr == f.lr && ppc.cr == f.cr &&
            ppc.ps[..14] == f.ps && ppc.ps[14..] == old(ppc.ps[14..])
    ensures ppc.icacheResets == old(ppc.icacheResets)
  {
    var sp: int := ppc.gpr[1];
    ppc.gpr[1] := Read32(mem.bytes, U32(sp + 8));
    ppc.npc := Read32(mem.bytes, U32(sp + 12));
    ppc.lr := Read32(mem.bytes, U32(sp + 16));
    ppc.cr := Read32(mem.bytes, U32(sp + 20));
    RestorePairedSingles(ppc.ps, mem.bytes, sp);
  }

  /** The loop of GeckoReturnTrampoline: ps[i] for i < 14 from the slots 2i and 2i + 1. */
  method RestorePairedSingles(ps: array<PairedSingle>, m: map<u32, u8>, sp: u32)
    requires ps.Length == 32
    modifies ps
    ensures ps[..14] == ReadFrame(m, sp).ps && ps[14..] == old(ps[14..])
  {
    for i := 0 to 14
      invariant forall j | 0 <= j < i :: ps[j] == SavedPair(m, sp, j)
      invariant forall j | i <= j < 32 :: ps[j] == old(ps[j])
    {
      ps[i] := SavedPair(m, sp, i);
    }
  }

  // ---------------------------------------------------------------- THP plane swizzle

  /** A width x height plane that the swizzle covers in whole 8x4 tiles. */
  predicate PlaneFits(src: seq<u8>, width: int, height: int)
  {
    0 <= width && 0 <= height && width % 8 == 0 && height % 4 == 0 && |src| == width * height
  }

  /** Where the swizzle puts byte (x, y) of a plane: tile (x / 8, y / 4), tile line y % 4,
      column x % 8, eight bytes per tile line and four lines per tile. */
  function SwizzleOffset(width: int, x: int, y: int): int
  {
    (((y / 4) * (width / 8) + x / 8) * 4 + y % 4) * 8 + x % 8
  }

  /** The plane column and row of the byte that lands at swizzled offset k. */
  function TileX(width: int, k: int): int
    requires width >= 8
  {
    (k / 32 % (width / 8)) * 8 + k % 8
  }

  function TileY(width: int, k: int): int
    requires width >= 8
  {
    (k / 32 / (width / 8)) * 4 + k % 32 / 8
  }

  /** The plane index read for swizzled offset k. */
  function SourceIndex(width: int, k: int): int
    requires width >= 8
  {
    Idx(width, TileX(width, k), TileY(width, k))
  }

  /** TileX and TileY undo SwizzleOffset. */
  lemma TileOfOffset(width: int, x: int, y: int)
    requires width >= 8 && width % 8 == 0 && 0 <= x < width && 0 <= y
    ensures TileX(width, SwizzleOffset(width, x, y)) == x && TileY(width, SwizzleOffset(width, x, y)) == y
  {
    var bpr := width / 8;
    DivModUnique(width, 8, bpr, 0);
    var t, line, c := (y / 4) * bpr + x / 8, y % 4, x % 8;
    var k := (t * 4 + line) * 8 + c;
    assert k == SwizzleOffset(width, x, y);
    DivModUnique(k, 32, t, line * 8 + c);
    DivModUnique(line * 8 + c, 8, line, c);
    DivModUnique(k, 8, t * 4 + line, c);
    DivModUnique(t, bpr, y / 4, x / 8);
  }

  /** SwizzleOffset undoes TileX and TileY. */
  lemma OffsetOfTile(width: int, k: int)
    requires width >= 8 && width % 8 == 0 && 0 <= k
    ensures SwizzleOffset(width, TileX(width, k), TileY(width, k)) == k
  {
    var bpr := width / 8;
    var t, r := k / 32, k % 32;
    var line, c := r / 8, r % 8;
    DivModUnique(k, 8, 4 * t + line, c);
    var ty, tx := t / bpr, t % bpr;
    DivModUnique(tx * 8 + c, 8, tx, c);
    DivModUnique(ty * 4 + line, 4, ty, line);
    assert ((ty * bpr + tx) * 4 + line) * 8 + c == k;
  }

  /** Every swizzled offset of the plane reads a byte inside it. */
  lemma TileInPlane(width: int, height: int, k: int)
    requires 0 <= width && 0 <= height && width % 8 == 0 && height % 4 == 0 && 0 <= k < width * height
    ensures width >= 8 && 0 <= TileX(width, k) < width && 0 <= TileY(width, k) < height
  {
    if width < 8 {
      assert width == 0;
    }
    var bpr, rows := width / 8, height / 4;
    DivModUnique(width, 8, bpr, 0);
    DivModUnique(height, 4, rows, 0);
    assert width * height == (rows * bpr) * 32;
    var t := k / 32;
    DivBelow(k, 32, rows * bpr);
    DivBelow(t, bpr, rows);
    DivBelow(k % 32, 8, 4);
    MulMono(t % bpr, bpr - 1, 8);
    MulMono(t / bpr, rows - 1, 4);
  }

  /** Every byte of the plane lands inside the swizzled plane. */
  lemma OffsetInPlane(width: int, height: int, x: int, y: int)
    requires 0 <= width && 0 <= height && width % 8 == 0 && height % 4 == 0
    requires 0 <= x < width && 0 <= y < height
    ensures 0 <= SwizzleOffset(width, x, y) < width * height
  {
    var bpr, rows := width / 8, height / 4;
    DivModUnique(width, 8, bpr, 0);
    DivModUnique(height, 4, rows, 0);
    BlockCount(width, 8, x / 8);
    BlockCount(height, 4, y / 4);
    var t := (y / 4) * bpr + x / 8;
    MulMono(y / 4 + 1, rows, bpr);
    assert t + 1 <= rows * bpr;
    assert width * height == rows * bpr * 32;
  }

  /** The swizzled plane: what the loop leaves in the first width * height destination bytes. */
  function Swizzled(src: seq<u8>, width: int, height: int): (dst: seq<u8>)
    requires PlaneFits(src, width, height)
    ensures |dst| == width * height
  {
    seq(width * height, k requires 0 <= k < width * height =>
      TileInPlane(width, height, k);
      IdxBelow(width, TileX(width, k), TileY(width, k), height);
      src[SourceIndex(width, k)])
  }

  /** Byte (x, y) lands inside the swizzled plane, and the swizzled plane holds it there. */
  lemma SwizzledAt(src: seq<u8>, width: int, height: int, x: int, y: int)
    requires PlaneFits(src, width, height) && 0 <= x < width && 0 <= y < height
    ensures 0 <= Idx(width, x, y) < width * height
    ensures 0 <= SwizzleOffset(width, x, y) < width * height
    ensures Swizzled(src, width, height)[SwizzleOffset(width, x, y)] == src[Idx(width, x, y)]
  {
    IdxBelow(width, x, y, height);
    MulMono(0, y, width);
    OffsetInPlane(width, height, x, y);
    TileOfOffset(width, x, y);
  }

  /** Each plane byte is copied exactly once: different bytes land at different offsets, and
      every offset of the swizzled plane is the landing place of some byte. */
  lemma SwizzleIsBijection(src: seq<u8>, width: int, height: int, x: int, y: int, x2: int, y2: int, k: int)
    requires PlaneFits(src, width, height)
    requires 0 <= x < width && 0 <= y < height && 0 <= x2 < width && 0 <= y2 < height && 0 <= k < width * height
    ensures SwizzleOffset(width, x, y) == SwizzleOffset(width, x2, y2) ==> x == x2 && y == y2
    ensures width >= 8 && 0 <= TileX(width, k) < width && 0 <= TileY(width, k) < height &&
            SwizzleOffset(width, TileX(width, k), TileY(width, k)) == k
  {
    if width >= 8 {
      TileOfOffset(width, x, y);
      TileOfOffset(width, x2, y2);
    }
    TileInPlane(width, height, k);
    OffsetOfTile(width, k);
  }

  /** Byte c of line iy of tile (tx, ty): where it lands and where it comes from. */
  lemma TileLineByte(src: seq<u8>, width: int, height: int, ty: int, tx: int, iy: int, c: int)
    requires PlaneFits(src, width, height) && 0 <= ty && 4 * ty + 4 <= height && 0 <= tx < width / 8
    requires 0 <= iy < 4 && 0 <= c < 8
    ensures SwizzleOffset(width, 8 * tx + c, 4 * ty + iy) == ((ty * (width / 8) + tx) * 4 + iy) * 8 + c
    ensures Idx(width, 8 * tx + c, 4 * ty + iy) == (4 * ty + iy) * width + 8 * tx + c
    ensures 0 <= 8 * tx + c < width && 0 <= 4 * ty + iy < height
  {
    DivModUnique(width, 8, width / 8, 0);
    DivModUnique(8 * tx + c, 8, tx, c);
    DivModUnique(4 * ty + iy, 4, ty, iy);
  }

  /** Byte c of one tile line, at destination offset d + c and plane index o + c. */
  lemma TileLineAt(src: seq<u8>, width: int, height: int, ty: int, tx: int, iy: int, d: int, o: int, c: int)
    requires PlaneFits(src, width, height) && 0 <= ty && 4 * ty + 4 <= height && 0 <= tx < width / 8 && 0 <= iy < 4
    requires d == ((ty * (width / 8) + tx) * 4 + iy) * 8 && o == (4 * ty + iy) * width + 8 * tx && 0 <= c < 8
    ensures 0 <= o + c < width * height && 0 <= d + c < width * height
    ensures Swizzled(src, width, height)[d + c] == src[o + c]
  {
    TileLineByte(src, width, height, ty, tx, iy, c);
    SwizzledAt(src, width, height, 8 * tx + c, 4 * ty + iy);
  }

  /** One line of a tile: the memcpy reads eight bytes inside the plane, and they are the
      swizzled bytes at the line's destination. */
  lemma TileLine(src: seq<u8>, width: int, height: int, ty: int, tx: int, iy: int, d: int, o: int)
    requires PlaneFits(src, width, height) && 0 <= ty && 4 * ty + 4 <= height && 0 <= tx < width / 8 && 0 <= iy < 4
    requires d == ((ty * (width / 8) + tx) * 4 + iy) * 8 && o == (4 * ty + iy) * width + 8 * tx
    ensures 0 <= o && o + 8 <= width * height && 0 <= d && d + 8 <= width * height
    ensures Swizzled(src, width, height)[d..d + 8] == src[o..o + 8]
  {
    TileLineAt(src, width, height, ty, tx, iy, d, o, 0);
    TileLineAt(src, width, height, ty, tx, iy, d, o, 7);
    var line, bytes := Swizzled(src, width, height)[d..d + 8], src[o..o + 8];
    forall c | 0 <= c < 8
      ensures line[c] == bytes[c]
    {
      TileLineAt(src, width, height, ty, tx, iy, d, o, c);
    }
  }

  /** memcpy(dst + d, src + o, n). */
  method Memcpy(dst: array<u8>, d: int, src: seq<u8>, o: int, n: int)
    requires 0 <= d && 0 <= n && d + n <= dst.Length && 0 <= o && o + n <= |src|
    modifies dst
    ensures dst[d..d + n] == src[o..o + n]
    ensures forall i | 0 <= i < dst.Length && !(d <= i < d + n) :: dst[i] == old(dst[i])
  {
    for j := 0 to n
      invariant dst[d..d + j] == src[o..o + j]
      invariant forall i | 0 <= i < dst.Length && !(d <= i < d + j) :: dst[i] == old(dst[i])
    {
      dst[d + j] := src[o + j];
    }
  }

  /** A whole tile of the swizzled plane lies inside it. */
  lemma TileInRange(src: seq<u8>, width: int, height: int, ty: int, tx: int)
    requires PlaneFits(src, width, height) && 0 <= ty && 4 * ty + 4 <= height && 0 <= tx < width / 8
    ensures 0 <= (ty * (width / 8) + tx) * 32 && (ty * (width / 8) + tx) * 32 + 32 <= width * height
  {
    TileLineByte(src, width, height, ty, tx, 3, 7);
    OffsetInPlane(width, height, 8 * tx + 7, 4 * ty + 3);
  }

  /** One tile of the swizzle loop: its four lines, at destination `d` onwards. */
  method SwizzleTile(dst: array<u8>, d: int, src: seq<u8>, width: int, height: int, x: int, y: int,
                     ghost tx: int, ghost ty: int)
    requires PlaneFits(src, width, height) && width * height <= dst.Length
    requires 0 <= ty && y == 4 * ty && y + 4 <= height && 0 <= tx < width / 8 && x == 8 * tx
    requires d == (ty * (width / 8) + tx) * 32 && d + 32 <= width * height
    requires forall i | 0 <= i < d :: dst[i] == Swizzled(src, width, height)[i]
    modifies dst
    ensures forall i | 0 <= i < d + 32 :: dst[i] == Swizzled(src, width, height)[i]
    ensures forall i | d + 32 <= i < dst.Length :: dst[i] == old(dst[i])
  {
    var p := d;
    for iy := 0 to 4
      invariant p == d + 8 * iy
      invariant forall i | 0 <= i < p :: dst[i] == Swizzled(src, width, height)[i]
      invariant forall i | p <= i < dst.Length :: dst[i] == old(dst[i])
    {
      var o := (y + iy) * width + x;
      TileLine(src, width, height, ty, tx, iy, p, o);
      Memcpy(dst, p, src, o, 8);
      p := p + 8;
    }
    TileLine(src, width, height, ty, tx, 3, d + 24, (y + 3) * width + x);
  }

  /** One row of tiles of the swizzle loop (tile row `ty`, starting at destination `d0`). */
  method SwizzleTileRow(dst: array<u8>, d0: int, src: seq<u8>, width: int, height: int, y: int, ghost ty: int)
    requires PlaneFits(src, width, height) && width * height <= dst.Length
    requires 0 <= ty && y == 4 * ty && y + 4 <= height && d0 == ty * (width / 8) * 32
    requires 0 <= d0 && d0 + 4 * width <= width * height
    requires forall i | 0 <= i < d0 :: dst[i] == Swizzled(src, width, height)[i]
    modifies dst
    ensures forall i | 0 <= i < d0 + 4 * width :: dst[i] == Swizzled(src, width, height)[i]
    ensures forall i | d0 + 4 * width <= i < dst.Length :: dst[i] == old(dst[i])
  {
    DivModUnique(width, 8, width / 8, 0);
    if width > 0 {
      TileInRange(src, width, height, ty, 0);
    }
    var d, x := d0, 0;
    ghost var tx := 0;
    while x < width
      invariant 0 <= tx && x == 8 * tx && x <= width && d == d0 + 32 * tx && d <= width * height
      invariant forall i | 0 <= i < d :: dst[i] == Swizzled(src, width, height)[i]
      invariant forall i | d <= i < dst.Length :: dst[i] == old(dst[i])
    {
      BlockCount(width, 8, tx);
      assert d == (ty * (width / 8) + tx) * 32;
      TileInRange(src, width, height, ty, tx);
      SwizzleTile(dst, d, src, width, height, x, y, tx, ty);
      d := d + 32;
      x, tx := x + 8, tx + 1;
    }
    assert tx == width / 8 && d == d0 + 4 * width;
    if width > 0 {
      TileInRange(src, width, height, ty, width / 8 - 1);
      assert (ty * (width / 8) + (width / 8 - 1)) * 32 + 32 == d;
    }
  }

  /** Tile row `ty` of a plane, 4 * width bytes, starts at ty * (width / 8) * 32 and ends
      inside the plane. */
  lemma TileRowInPlane(width: int, height: int, ty: int)
    requires 0 <= width && width % 8 == 0 && 0 <= ty && 4 * ty + 4 <= height
    ensures ty * (width / 8) * 32 == 4 * width * ty
    ensures 0 <= ty * (width / 8) * 32 && ty * (width / 8) * 32 + 4 * width <= width * height
    ensures (ty + 1) * (width / 8) * 32 == ty * (width / 8) * 32 + 4 * width
  {
    DivModUnique(width, 8, width / 8, 0);
    assert (width / 8) * 32 == 4 * width;
    MulMono(0, ty, 4 * width);
    MulMono(4 * (ty + 1), height, width);
  }

  /** After height / 4 tile rows the whole plane is written. */
  lemma AllTileRows(width: int, height: int, ty: int)
    requires 0 <= width && width % 8 == 0 && 0 <= height && 4 * ty == height
    ensures ty * (width / 8) * 32 == width * height
  {
    DivModUnique(width, 8, width / 8, 0);
    assert (width / 8) * 32 == 4 * width;
  }

  /** The I8 swizzle of one plane: copies it in 8x4 tiles, eight bytes per memcpy, to the
      front of `dst`, which then holds the swizzled plane; the rest of `dst` is untouched. */
  method SwizzlePlane(dst: array<u8>, src: seq<u8>, width: int, height: int)
    requires PlaneFits(src, width, height) && width * height <= dst.Length
    modifies dst
    ensures dst[..width * height] == Swizzled(src, width, height)
    ensures forall i | width * height <= i < dst.Length :: dst[i] == old(dst[i])
  {
    var d, y := 0, 0;
    ghost var ty := 0;
    while y < height
      invariant 0 <= ty && y == 4 * ty && y <= height && d == ty * (width / 8) * 32
      invariant forall i | 0 <= i < d :: dst[i] == Swizzled(src, width, height)[i]
      invariant forall i | d <= i < dst.Length :: dst[i] == old(dst[i])
    {
      BlockCount(height, 4, ty);
      TileRowInPlane(width, height, ty);
      SwizzleTileRow(dst, d, src, width, height, y, ty);
      d := d + 4 * width;
      y, ty := y + 4, ty + 1;
    }
    AllTileRows(width, height, ty);
  }

  /** The width of plane `plane` of a YUV 4:2:0 frame: the chroma planes are half as wide. */
  function PlaneWidth(plane: int, width: int): int
  {
    if plane == 0 then width else width / 2
  }

  function PlaneHeight(plane: int, height: int): int
  {
    if plane == 0 then height else height / 2
  }

  /** `dst` starts with the swizzled width x height plane `src`. */
  predicate HoldsSwizzled(dst: array<u8>, src: seq<u8>, width: int, height: int)
    reads dst
  {
    PlaneFits(src, width, height) && width * height <= dst.Length && dst[..width * height] == Swizzled(src, width, height)
  }

  /** One pass of THPVideoDecode's plane loop: plane 0 is the full-size luma plane, planes 1
      and 2 the half-size chroma planes. */
  method SwizzlePlaneOf(dst: array<u8>, src: seq<u8>, plane: int, width: int, height: int)
    requires 0 <= width && 0 <= height && width % 16 == 0 && height % 8 == 0
    requires |src| == PlaneWidth(plane, width) * PlaneHeight(plane, height) <= dst.Length
    modifies dst
    ensures HoldsSwizzled(dst, src, PlaneWidth(plane, width), PlaneHeight(plane, height))
  {
    var planeWidth := if plane != 0 then width / 2 else width;
    var planeHeight := if plane != 0 then height / 2 else height;
    assert planeWidth == PlaneWidth(plane, width) && planeHeight == PlaneHeight(plane, height);
    PlanesAreTiled(width, height);
    SwizzlePlane(dst, src, planeWidth, planeHeight);
  }

  /** A frame of whole 16x8 macroblocks has luma and chroma planes of whole 8x4 tiles. */
  lemma PlanesAreTiled(width: int, height: int)
    requires 0 <= width && 0 <= height && width % 16 == 0 && height % 8 == 0
    ensures width % 8 == 0 && height % 4 == 0 && (width / 2) % 8 == 0 && (height / 2) % 4 == 0
  {
    var qw, qh := width / 16, height / 8;
    DivModUnique(width, 16, qw, 0);
    DivModUnique(height, 8, qh, 0);
    DivModUnique(width, 8, 2 * qw, 0);
    DivModUnique(height, 4, 2 * qh, 0);
    DivModUnique(width, 2, 8 * qw, 0);
    DivModUnique(height, 2, 4 * qh, 0);
    DivModUnique(8 * qw, 8, qw, 0);
    DivModUnique(4 * qh, 4, qh, 0);
  }

  /** THPVideoDecode after the frame has been decoded: swizzles the luma and both chroma
      planes to their destinations, reports success in r3 and returns to the caller. */
  method THPVideoDecode(ppc: PowerPCState, planes: seq<seq<u8>>, width: int, height: int,
                        dsts: seq<array<u8>>)
    requires ppc.Valid() && |planes| == 3 && |dsts| == 3
    requires 0 <= width && 0 <= height && width % 16 == 0 && height % 8 == 0
    requires forall p | 0 <= p < 3 :: |planes[p]| == PlaneWidth(p, width) * PlaneHeight(p, height) &&
                                      PlaneWidth(p, width) * PlaneHeight(p, height) <= dsts[p].Length
    requires dsts[0] != dsts[1] && dsts[0] != dsts[2] && dsts[1] != dsts[2]
    modifies ppc, ppc.gpr, dsts[0], dsts[1], dsts[2]
    ensures forall p | 0 <= p < 3 :: HoldsSwizzled(dsts[p], planes[p], PlaneWidth(p, width), PlaneHeight(p, height))
    ensures ppc.gpr[..] == old(ppc.gpr[..])[3 := 0] && ppc.npc == old(ppc.lr)
    ensures ppc.lr == old(ppc.lr) && ppc.cr == old(ppc.cr) && ppc.icacheResets == old(ppc.icacheResets)
  {
    for plane := 0 to 3
      invariant forall p | 0 <= p < plane :: HoldsSwizzled(dsts[p], planes[p], PlaneWidth(p, width), PlaneHeight(p, height))
      invariant ppc.gpr[..] == old(ppc.gpr[..]) && ppc.npc == old(ppc.npc)
      invariant ppc.lr == old(ppc.lr) && ppc.cr == old(ppc.cr) && ppc.icacheResets == old(ppc.icacheResets)
    {
      SwizzlePlaneOf(dsts[plane], planes[plane], plane, width, height);
    }
    ppc.gpr[3] := 0;
    ppc.npc := ppc.lr;
  }

  /** The swizzled layout is the I8 texture layout: decoding a swizzled plane as an I8
      texture gives every plane byte back as a grey texel at its own position. */
  lemma SwizzledPlaneDecodesAsI8(src: seq<u8>, width: int, height: int, x: int, y: int)
    requires PlaneFits(src, width, height) && 0 <= x < width && 0 <= y < height
    ensures TextureWalker.Fits(TextureWalker.LineI8, Swizzled(src, width, height), [], width, height)
    ensures 0 <= Idx(width, x, y) < width * height
    ensures TextureWalker.DecodedImage(TextureWalker.LineI8, Swizzled(src, width, height), [], width, height)[Idx(width, x, y)] ==
            Grey(src[Idx(width, x, y)])
  {
    var sw := Swizzled(src, width, height);
    var l := TextureWalker.LayoutOf(TextureWalker.LineI8);
    DivModUnique(width, 8, width / 8, 0);
    DivModUnique(height, 4, height / 4, 0);
    assert TextureWalker.SourceBytes(l, width, height) == width * height;
    TextureWalker.ImageAt(TextureWalker.LineI8, sw, [], width, height, x, y);
    var p := TextureWalker.PlaceOf(l, width, x, y);
    assert p.ofs + p.c == SwizzleOffset(width, x, y);
    SwizzledAt(src, width, height, x, y);
  }
}
