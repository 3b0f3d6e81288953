// The geometry shared by the tiled texture walkers. A walker visits the blocks of the
// image row by row, left to right, and within a block makes a fixed number of calls, each
// writing a rectangle of texels. The predicates below say which texels have been written at
// a given point of the walk and that exactly those hold their decoded value.

module Tiling {
  import opened Bytes
  import opened BlockDecoders
  import opened Arith

  /** How the calls of one block share it out. Rows: each call writes whole rows, top down,
      and `n` counts the rows done. Quadrants: an 8x8 block is written as its four 4x4
      quarters in reading order, and `n` counts the quarters done. */
  datatype Split = Rows | Quadrants

  /** Whether the texel at column `c`, row `r` of the current block is written after `n` steps. */
  predicate InnerDone(split: Split, c: int, r: int, n: int)
  {
    match split
    case Rows => r < n
    case Quadrants => (r / 4) * 2 + c / 4 < n
  }

  /** Whether texel (px, py) has been written when the walk is at the block whose top-left
      texel is (x, y) and has made `n` steps inside it: all block rows above, all blocks to
      the left in this block row, and the part of the current block done so far. */
  predicate Done(split: Split, bw: int, bh: int, y: int, x: int, n: int, px: int, py: int)
  {
    py < y || (py < y + bh && (px < x || (px < x + bw && InnerDone(split, px - x, py - y, n))))
  }

  /** `cur` is the buffer `org` after the walk reached (y, x, n): texels written so far hold
      their value in the decoded image `img`, every other entry is as it was. */
  ghost predicate Decoded(cur: seq<u32>, org: seq<u32>, img: seq<u32>, width: int, height: int,
                          split: Split, bw: int, bh: int, y: int, x: int, n: int)
  {
    0 <= width && 0 <= height && |img| == width * height && |cur| == |org| && width * height <= |cur| &&
    (forall px, py | 0 <= px < width && 0 <= py < height ::
       Arith.IdxBelow(width, px, py, height);
       (Done(split, bw, bh, y, x, n, px, py) ==> cur[Idx(width, px, py)] == img[Idx(width, px, py)]) &&
       (!Done(split, bw, bh, y, x, n, px, py) ==> cur[Idx(width, px, py)] == org[Idx(width, px, py)])) &&
    (forall i | width * height <= i < |cur| :: cur[i] == org[i])
  }

  /** Index of column `c` of row `r` of a call writing at `d` with row pitch `pitch`. */
  function Cell(d: int, pitch: int, r: int, c: int): int
  {
    RowStart(d, pitch, r) + c
  }

  /** A call at index `d` wrote the decoded value into each texel of its `rows` x `cols` rectangle. */
  ghost predicate WroteRect(cur: seq<u32>, img: seq<u32>, d: int, width: int, rows: int, cols: int)
  {
    forall r, c | 0 <= r < rows && 0 <= c < cols && 0 <= Cell(d, width, r, c) < |cur| &&
                  Cell(d, width, r, c) < |img| ::
      cur[Cell(d, width, r, c)] == img[Cell(d, width, r, c)]
  }

  /** A call at index `d` changed nothing outside its rectangle. */
  ghost predicate KeptOutside(after: seq<u32>, before: seq<u32>, d: int, width: int, rows: nat, cols: int)
  {
    |after| == |before| &&
    forall i | 0 <= i < |before| && !Written(i, d, width, rows, cols) :: after[i] == before[i]
  }

  /** The indices a call at texel (x0, y0) writes are exactly the texels of its rectangle. */
  lemma {:induction false} WrittenIsRect(width: int, x0: int, y0: int, rows: nat, cols: int, px: int, py: int)
    requires 0 <= x0 && 0 <= cols && x0 + cols <= width && 0 <= px < width
    ensures Written(Idx(width, px, py), Idx(width, x0, y0), width, rows, cols) <==>
            y0 <= py < y0 + rows && x0 <= px < x0 + cols
  {
    if rows > 0 {
      WrittenIsRect(width, x0, y0, rows - 1, cols, px, py);
      Arith.IdxShift(width, x0, y0, 0, rows - 1);
      Arith.IdxInRun(width, x0, y0 + rows - 1, cols, px, py);
    }
  }

  /** A rectangle inside the image writes only indices of the image. */
  lemma {:induction false} WrittenInImage(width: int, height: int, x0: int, y0: int, rows: nat, cols: int, i: int)
    requires 0 <= x0 && 0 <= cols && x0 + cols <= width && 0 <= y0 && y0 + rows <= height
    requires Written(i, Idx(width, x0, y0), width, rows, cols)
    ensures i < width * height
  {
    if Written(i, Idx(width, x0, y0), width, rows - 1, cols) {
      WrittenInImage(width, height, x0, y0, rows - 1, cols, i);
    } else {
      Arith.IdxShift(width, x0, y0, 0, rows - 1);
      Arith.MulMono(y0 + rows, height, width);
    }
  }

  /** Nothing is written before the walk starts. */
  lemma Start(cur: seq<u32>, img: seq<u32>, width: int, height: int, split: Split, bw: int, bh: int)
    requires 0 <= width && 0 <= height && |img| == width * height && width * height <= |cur|
    ensures Decoded(cur, cur, img, width, height, split, bw, bh, 0, 0, 0)
  {
    forall px, py | 0 <= px < width && 0 <= py < height
      ensures !Done(split, bw, bh, 0, 0, 0, px, py)
    {
      NothingDoneAtStart(split, px, py);
    }
  }

  /** One call: if it writes the decoded values of a rectangle and nothing else, and the
      rectangle is what the step adds to the written texels, the walk stays decoded. */
  lemma RectStep(cur: seq<u32>, next: seq<u32>, org: seq<u32>, img: seq<u32>, width: int, height: int,
                 split: Split, bw: int, bh: int, y: int, x: int, n: int, n': int,
                 x0: int, y0: int, rows: nat, cols: int)
    requires Decoded(cur, org, img, width, height, split, bw, bh, y, x, n)
    requires 0 <= x0 && 0 <= cols && x0 + cols <= width && 0 <= y0 && y0 + rows <= height
    requires WroteRect(next, img, Idx(width, x0, y0), width, rows, cols)
    requires KeptOutside(next, cur, Idx(width, x0, y0), width, rows, cols)
    requires forall px, py | 0 <= px < width && 0 <= py < height ::
               Done(split, bw, bh, y, x, n', px, py) <==>
               Done(split, bw, bh, y, x, n, px, py) || (y0 <= py < y0 + rows && x0 <= px < x0 + cols)
    ensures Decoded(next, org, img, width, height, split, bw, bh, y, x, n')
  {
    forall px, py | 0 <= px < width && 0 <= py < height
      ensures (Arith.IdxBelow(width, px, py, height);
               (Done(split, bw, bh, y, x, n', px, py) ==> next[Idx(width, px, py)] == img[Idx(width, px, py)]) &&
               (!Done(split, bw, bh, y, x, n', px, py) ==> next[Idx(width, px, py)] == org[Idx(width, px, py)]))
    {
      Arith.IdxBelow(width, px, py, height);
      WrittenIsRect(width, x0, y0, rows, cols, px, py);
      if y0 <= py < y0 + rows && x0 <= px < x0 + cols {
        Arith.IdxShift(width, x0, y0, px - x0, py - y0);
        assert Cell(Idx(width, x0, y0), width, py - y0, px - x0) == Idx(width, px, py);
        assert next[Cell(Idx(width, x0, y0), width, py - y0, px - x0)] ==
               img[Cell(Idx(width, x0, y0), width, py - y0, px - x0)];
      }
    }
    forall i | width * height <= i < |next|
      ensures next[i] == org[i]
    {
      if Written(i, Idx(width, x0, y0), width, rows, cols) {
        WrittenInImage(width, height, x0, y0, rows, cols, i);
      }
    }
  }

  /** No texel of a block is done before its first step. */
  lemma NothingDoneAtStart(split: Split, c: int, r: int)
    requires 0 <= c && 0 <= r
    ensures !InnerDone(split, c, r, 0)
  {
  }

  /** Once every texel of the current block is done, the walk moves to the next block. */
  lemma NextBlock(cur: seq<u32>, org: seq<u32>, img: seq<u32>, width: int, height: int,
                  split: Split, bw: int, bh: int, y: int, x: int, full: int)
    requires 0 <= bw
    requires Decoded(cur, org, img, width, height, split, bw, bh, y, x, full)
    requires forall c, r | 0 <= c < bw && 0 <= r < bh :: InnerDone(split, c, r, full)
    ensures Decoded(cur, org, img, width, height, split, bw, bh, y, x + bw, 0)
  {
    forall px, py | 0 <= px < width && 0 <= py < height
      ensures Done(split, bw, bh, y, x, full, px, py) == Done(split, bw, bh, y, x + bw, 0, px, py)
    {
      if y <= py < y + bh && x <= px < x + bw {
        assert InnerDone(split, px - x, py - y, full);
      } else if y <= py && x + bw <= px {
        NothingDoneAtStart(split, px - x - bw, py - y);
      }
    }
  }

  /** Once a whole block row is done, the walk moves to the start of the next block row. */
  lemma NextRow(cur: seq<u32>, org: seq<u32>, img: seq<u32>, width: int, height: int,
                split: Split, bw: int, bh: int, y: int)
    requires 0 <= bh
    requires Decoded(cur, org, img, width, height, split, bw, bh, y, width, 0)
    ensures Decoded(cur, org, img, width, height, split, bw, bh, y + bh, 0, 0)
  {
    forall px, py | 0 <= px < width && 0 <= py < height
      ensures Done(split, bw, bh, y, width, 0, px, py) == Done(split, bw, bh, y + bh, 0, 0, px, py)
    {
      if y + bh <= py {
        NothingDoneAtStart(split, px, py - y - bh);
      }
    }
  }

  /** When the walk has passed the last block row, the image part of the buffer is the
      decoded image and the rest of the buffer is untouched. */
  lemma Finish(cur: seq<u32>, org: seq<u32>, img: seq<u32>, width: int, height: int,
               split: Split, bw: int, bh: int)
    requires Decoded(cur, org, img, width, height, split, bw, bh, height, 0, 0)
    ensures cur[..width * height] == img
    ensures forall i | width * height <= i < |cur| :: cur[i] == org[i]
  {
    forall i | 0 <= i < width * height
      ensures cur[i] == img[i]
    {
      Arith.IdxOfIndex(width, height, i);
      assert Done(split, bw, bh, height, 0, 0, i % width, i / width);
    }
  }
}
