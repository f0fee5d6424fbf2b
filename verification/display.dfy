/** The 64x32 monochrome frame buffer and the sprite XOR-blit of the draw
    instruction. The buffer is one flat row-major sequence of byte cells,
    as in the source; a drawn pixel at column `x + col` of row `y + row`
    lands on cell `x + col + (y + row) * 64`, with no wrap-around. */
module Display {

  const Width := 64
  const Height := 32
  const Cells := 2048 // Width * Height

  /** The cleared frame buffer. */
  function Blank(): (d: seq<bv8>)
    ensures |d| == Cells
    ensures forall k :: 0 <= k < Cells ==> d[k] == 0
  {
    seq(Cells, _ => 0)
  }

  /** Every cell is 0 or 1. */
  predicate Binary(d: seq<bv8>) {
    forall k :: 0 <= k < |d| ==> d[k] == 0 || d[k] == 1
  }

  /** The eight pixels of a sprite row, leftmost first: entry `col` tests
      the row against the mask `0x80 >> col`. */
  function Pixels(b: bv8): (p: seq<bool>)
    ensures |p| == 8
  {
    [ (b & 0x80) != 0, (b & 0x40) != 0, (b & 0x20) != 0, (b & 0x10) != 0,
      (b & 0x08) != 0, (b & 0x04) != 0, (b & 0x02) != 0, (b & 0x01) != 0 ]
  }

  /** Bit `col` of a sprite row, counted from the most significant bit. */
  predicate PixelSet(b: bv8, col: nat)
    requires col < 8
  {
    Pixels(b)[col]
  }

  /** The table of pixels is the shifted-mask test of the source. */
  lemma PixelSetIsMaskTest(b: bv8, col: nat)
    requires col < 8
    ensures PixelSet(b, col) <==> (b & ((0x80 as bv8) >> col)) != 0
  {
  }

  /** The flat buffer index of sprite pixel (row, col) drawn at (x, y). */
  function CellIndex(x: nat, y: nat, row: nat, col: nat): nat {
    x + col + (y + row) * 64
  }

  /** Pixel (row, col) of the sprite is set. */
  predicate Hit(sprite: seq<bv8>, row: int, col: int) {
    0 <= row < |sprite| && 0 <= col < 8 && PixelSet(sprite[row], col)
  }

  /** Every set pixel of the sprite lands inside the buffer. */
  predicate Fits(sprite: seq<bv8>, x: nat, y: nat) {
    forall row, col :: 0 <= row < |sprite| && 0 <= col < 8 && PixelSet(sprite[row], col) ==>
      CellIndex(x, y, row, col) < Cells
  }

  /** Cell k lies under some set pixel of the sprite drawn at (x, y). */
  ghost predicate Covered(sprite: seq<bv8>, x: nat, y: nat, k: int) {
    exists row, col :: Hit(sprite, row, col) && CellIndex(x, y, row, col) == k
  }

  /** Some set pixel of the sprite lands on a nonzero cell of `d`. */
  ghost predicate Collides(d: seq<bv8>, sprite: seq<bv8>, x: nat, y: nat)
    requires |d| == Cells && Fits(sprite, x, y)
  {
    exists row, col :: Hit(sprite, row, col) && d[CellIndex(x, y, row, col)] != 0
  }

  /** The buffer after a blit, and the collision flag written to VF. */
  datatype Blit = Blit(cells: seq<bv8>, vf: bv8)

  /** A drawn cell: its low bit is inverted. */
  function Flip(c: bv8): bv8 {
    c ^ 1
  }

  /** The inner loop over the eight columns `col..7` of one sprite row whose
      column 0 lands on cell `base`: each set bit first raises the flag if
      its cell is nonzero, then flips the cell's low bit. A cell past the
      end of the buffer is skipped; the draw instruction faults before it
      blits a sprite that does not fit, so that case never arises there. */
  function DrawRow(d: seq<bv8>, vf: bv8, bits: seq<bool>, base: nat, col: nat): (r: Blit)
    requires |bits| == 8
    requires col <= 8
    ensures |r.cells| == |d|
    decreases 8 - col
  {
    if col == 8 then Blit(d, vf)
    else if bits[col] && base + col < |d| then
      var k := base + col;
      DrawRow(d[k := Flip(d[k])], if d[k] != 0 then 1 else vf, bits, base, col + 1)
    else
      DrawRow(d, vf, bits, base, col + 1)
  }

  /** The outer loop over the sprite rows `row..`. */
  function DrawRows(d: seq<bv8>, vf: bv8, sprite: seq<bv8>, x: nat, y: nat, row: nat): (r: Blit)
    requires row <= |sprite|
    ensures |r.cells| == |d|
    decreases |sprite| - row
  {
    if row == |sprite| then Blit(d, vf)
    else
      var r1 := DrawRow(d, vf, Pixels(sprite[row]), CellIndex(x, y, row, 0), 0);
      DrawRows(r1.cells, r1.vf, sprite, x, y, row + 1)
  }

  /** The draw instruction's blit: the flag starts at 0, then every row is
      drawn in order. */
  function Draw(d: seq<bv8>, sprite: seq<bv8>, x: nat, y: nat): (r: Blit)
    requires |d| == Cells && Fits(sprite, x, y)
    ensures |r.cells| == Cells
  {
    DrawRows(d, 0, sprite, x, y, 0)
  }

  /** Cell k is not under a set bit of the row drawn from `base`. */
  predicate ClearOfRow(bits: seq<bool>, base: nat, k: int)
    requires |bits| == 8
  {
    !(base <= k < base + 8 && bits[k - base])
  }

  /** The row loop leaves alone every cell outside the set bits of
      columns `col..7`. */
  lemma {:induction false} DrawRowKeeps(d: seq<bv8>, vf: bv8, bits: seq<bool>, base: nat, col: nat, k: int)
    requires |bits| == 8
    requires col <= 8 && 0 <= k < |d| && (k < base + col || ClearOfRow(bits, base, k))
    ensures DrawRow(d, vf, bits, base, col).cells[k] == d[k]
    decreases 8 - col
  {
    if col < 8 {
      var j := base + col;
      if bits[col] && j < |d| {
        DrawRowKeeps(d[j := Flip(d[j])], if d[j] != 0 then 1 else vf, bits, base, col + 1, k);
      } else {
        DrawRowKeeps(d, vf, bits, base, col + 1, k);
      }
    }
  }

  /** The row loop flips each cell inside the buffer under a set bit of
      columns `col..7`. */
  lemma {:induction false} DrawRowFlips(d: seq<bv8>, vf: bv8, bits: seq<bool>, base: nat, col: nat, c: nat)
    requires |bits| == 8
    requires col <= c < 8 && bits[c] && base + c < |d|
    ensures DrawRow(d, vf, bits, base, col).cells[base + c] == Flip(d[base + c])
    decreases 8 - col
  {
    var j := base + col;
    if bits[col] && j < |d| {
      var d1 := d[j := Flip(d[j])];
      var vf1: bv8 := if d[j] != 0 then 1 else vf;
      if c == col {
        DrawRowKeeps(d1, vf1, bits, base, col + 1, j);
      } else {
        DrawRowFlips(d1, vf1, bits, base, col + 1, c);
      }
    } else {
      DrawRowFlips(d, vf, bits, base, col + 1, c);
    }
  }

  /** Some set bit of columns `col..7` of a sprite row lands on a nonzero
      cell inside the buffer. */
  predicate RowCollides(d: seq<bv8>, bits: seq<bool>, base: nat, col: nat)
    requires |bits| == 8
    decreases 8 - col
  {
    col < 8 &&
    ((bits[col] && base + col < |d| && d[base + col] != 0) || RowCollides(d, bits, base, col + 1))
  }

  /** RowCollides looks only at the cells from `base + col` on. */
  lemma {:induction false} RowCollidesAgree(d: seq<bv8>, e: seq<bv8>, bits: seq<bool>, base: nat, col: nat)
    requires |bits| == 8
    requires |d| == |e| && forall k :: base + col <= k < |d| ==> d[k] == e[k]
    ensures RowCollides(d, bits, base, col) == RowCollides(e, bits, base, col)
    decreases 8 - col
  {
    if col < 8 {
      RowCollidesAgree(d, e, bits, base, col + 1);
    }
  }

  /** A set bit at column `c` over a nonzero cell is a collision in every
      column range that includes `c`. */
  lemma {:induction false} RowCollidesAt(d: seq<bv8>, bits: seq<bool>, base: nat, col: nat, c: nat)
    requires |bits| == 8
    requires col <= c < 8 && bits[c] && base + c < |d| && d[base + c] != 0
    ensures RowCollides(d, bits, base, col)
    decreases 8 - col
  {
    if col < c {
      RowCollidesAt(d, bits, base, col + 1, c);
    }
  }

  /** A collision in columns `col..7` has a column that witnesses it. */
  lemma {:induction false} RowCollidesWitness(d: seq<bv8>, bits: seq<bool>, base: nat, col: nat) returns (c: nat)
    requires |bits| == 8
    requires RowCollides(d, bits, base, col)
    ensures col <= c < 8 && bits[c] && base + c < |d| && d[base + c] != 0
    decreases 8 - col
  {
    if bits[col] && base + col < |d| && d[base + col] != 0 {
      c := col;
    } else {
      c := RowCollidesWitness(d, bits, base, col + 1);
    }
  }

  /** The row loop keeps the flag at 0 or 1 and raises it iff one of the
      cells under the set bits of columns `col..7` was nonzero beforehand. */
  lemma {:induction false} DrawRowFlag(d: seq<bv8>, vf: bv8, bits: seq<bool>, base: nat, col: nat)
    requires |bits| == 8
    requires col <= 8 && (vf == 0 || vf == 1)
    ensures DrawRow(d, vf, bits, base, col).vf == 0 || DrawRow(d, vf, bits, base, col).vf == 1
    ensures DrawRow(d, vf, bits, base, col).vf == 1 <==> vf == 1 || RowCollides(d, bits, base, col)
    decreases 8 - col
  {
    if col < 8 {
      var k := base + col;
      if bits[col] && k < |d| {
        var d1 := d[k := Flip(d[k])];
        DrawRowFlag(d1, if d[k] != 0 then 1 else vf, bits, base, col + 1);
        RowCollidesAgree(d, d1, bits, base, col + 1);
      } else {
        DrawRowFlag(d, vf, bits, base, col + 1);
      }
    }
  }

  /** No set pixel of rows `row..` of the sprite lands on cell k. */
  predicate ClearFrom(sprite: seq<bv8>, x: nat, y: nat, row: nat, k: int)
    decreases |sprite| - row
  {
    row >= |sprite| ||
    (ClearOfRow(Pixels(sprite[row]), CellIndex(x, y, row, 0), k) && ClearFrom(sprite, x, y, row + 1, k))
  }

  /** The pixels of different sprite rows land on different cells. */
  lemma RowsApart(x: nat, y: nat, i: nat, c: nat, i': nat, c': nat)
    requires c < 8 && c' < 8 && i < i'
    ensures CellIndex(x, y, i, c) + 8 <= CellIndex(x, y, i', c')
  {
  }

  /** A cell above row `row` of the sprite is clear of it and every row below. */
  lemma {:induction false} ClearAbove(sprite: seq<bv8>, x: nat, y: nat, row: nat, k: int)
    requires k < CellIndex(x, y, row, 0)
    ensures ClearFrom(sprite, x, y, row, k)
    decreases |sprite| - row
  {
    if row < |sprite| {
      ClearAbove(sprite, x, y, row + 1, k);
    }
  }

  /** A cell under no set pixel is clear of every row. */
  lemma {:induction false} ClearOfUncovered(sprite: seq<bv8>, x: nat, y: nat, row: nat, k: int)
    requires !Covered(sprite, x, y, k)
    ensures ClearFrom(sprite, x, y, row, k)
    decreases |sprite| - row
  {
    if row < |sprite| {
      var base := CellIndex(x, y, row, 0);
      if base <= k < base + 8 {
        assert !Hit(sprite, row, k - base) by {
          assert CellIndex(x, y, row, k - base) == k;
        }
      }
      ClearOfUncovered(sprite, x, y, row + 1, k);
    }
  }

  /** The row loops leave alone every cell outside the set pixels of rows `row..`. */
  lemma {:induction false} DrawRowsKeeps(d: seq<bv8>, vf: bv8, sprite: seq<bv8>, x: nat, y: nat, row: nat, k: int)
    requires row <= |sprite| && 0 <= k < |d| && ClearFrom(sprite, x, y, row, k)
    ensures DrawRows(d, vf, sprite, x, y, row).cells[k] == d[k]
    decreases |sprite| - row
  {
    if row < |sprite| {
      var base := CellIndex(x, y, row, 0);
      var r1 := DrawRow(d, vf, Pixels(sprite[row]), base, 0);
      DrawRowKeeps(d, vf, Pixels(sprite[row]), base, 0, k);
      DrawRowsKeeps(r1.cells, r1.vf, sprite, x, y, row + 1, k);
    }
  }

  /** The row loops flip each cell inside the buffer under a set pixel of
      row `row`. */
  lemma DrawRowsFlipsHere(d: seq<bv8>, vf: bv8, sprite: seq<bv8>, x: nat, y: nat, row: nat, c: nat)
    requires row < |sprite| && c < 8 && PixelSet(sprite[row], c) && CellIndex(x, y, row, c) < |d|
    ensures DrawRows(d, vf, sprite, x, y, row).cells[CellIndex(x, y, row, c)] == Flip(d[CellIndex(x, y, row, c)])
  {
    var base := CellIndex(x, y, row, 0);
    var r1 := DrawRow(d, vf, Pixels(sprite[row]), base, 0);
    var k := CellIndex(x, y, row, c);
    DrawRowFlips(d, vf, Pixels(sprite[row]), base, 0, c);
    ClearAbove(sprite, x, y, row + 1, k);
    DrawRowsKeeps(r1.cells, r1.vf, sprite, x, y, row + 1, k);
  }

  /** The row loops flip each cell inside the buffer under a set pixel of
      rows `row..`. */
  lemma {:induction false} DrawRowsFlips(d: seq<bv8>, vf: bv8, sprite: seq<bv8>, x: nat, y: nat, row: nat, i: nat, c: nat)
    requires row <= i < |sprite| && c < 8 && PixelSet(sprite[i], c) && CellIndex(x, y, i, c) < |d|
    ensures DrawRows(d, vf, sprite, x, y, row).cells[CellIndex(x, y, i, c)] == Flip(d[CellIndex(x, y, i, c)])
    decreases |sprite| - row
  {
    if i == row {
      DrawRowsFlipsHere(d, vf, sprite, x, y, row, c);
    } else {
      var base := CellIndex(x, y, row, 0);
      var r1 := DrawRow(d, vf, Pixels(sprite[row]), base, 0);
      RowsApart(x, y, row, 7, i, c);
      DrawRowKeeps(d, vf, Pixels(sprite[row]), base, 0, CellIndex(x, y, i, c));
      DrawRowsFlips(r1.cells, r1.vf, sprite, x, y, row + 1, i, c);
    }
  }

  /** Some set pixel of rows `row..` of the sprite lands on a nonzero cell
      inside the buffer. */
  predicate CollidesFrom(d: seq<bv8>, sprite: seq<bv8>, x: nat, y: nat, row: nat)
    decreases |sprite| - row
  {
    row < |sprite| &&
    (RowCollides(d, Pixels(sprite[row]), CellIndex(x, y, row, 0), 0) || CollidesFrom(d, sprite, x, y, row + 1))
  }

  /** CollidesFrom looks only at the cells from row `row` on. */
  lemma {:induction false} CollidesFromAgree(d: seq<bv8>, e: seq<bv8>, sprite: seq<bv8>, x: nat, y: nat, row: nat)
    requires |d| == |e| && forall k :: CellIndex(x, y, row, 0) <= k < |d| ==> d[k] == e[k]
    ensures CollidesFrom(d, sprite, x, y, row) == CollidesFrom(e, sprite, x, y, row)
    decreases |sprite| - row
  {
    if row < |sprite| {
      RowCollidesAgree(d, e, Pixels(sprite[row]), CellIndex(x, y, row, 0), 0);
      CollidesFromAgree(d, e, sprite, x, y, row + 1);
    }
  }

  /** A set pixel of row `i` over a nonzero cell is a collision in every
      row range that includes `i`. */
  lemma {:induction false} CollidesFromAt(d: seq<bv8>, sprite: seq<bv8>, x: nat, y: nat, row: nat, i: nat, c: nat)
    requires row <= i < |sprite| && c < 8 && PixelSet(sprite[i], c)
    requires CellIndex(x, y, i, c) < |d| && d[CellIndex(x, y, i, c)] != 0
    ensures CollidesFrom(d, sprite, x, y, row)
    decreases |sprite| - row
  {
    if row < i {
      CollidesFromAt(d, sprite, x, y, row + 1, i, c);
    } else {
      RowCollidesAt(d, Pixels(sprite[row]), CellIndex(x, y, row, 0), 0, c);
    }
  }

  /** A collision in rows `row..` has a pixel that witnesses it. */
  lemma {:induction false} CollidesFromWitness(d: seq<bv8>, sprite: seq<bv8>, x: nat, y: nat, row: nat)
    returns (i: nat, c: nat)
    requires CollidesFrom(d, sprite, x, y, row)
    ensures row <= i < |sprite| && c < 8 && PixelSet(sprite[i], c)
    ensures CellIndex(x, y, i, c) < |d| && d[CellIndex(x, y, i, c)] != 0
    decreases |sprite| - row
  {
    var base := CellIndex(x, y, row, 0);
    if RowCollides(d, Pixels(sprite[row]), base, 0) {
      i := row;
      c := RowCollidesWitness(d, Pixels(sprite[row]), base, 0);
    } else {
      i, c := CollidesFromWitness(d, sprite, x, y, row + 1);
    }
  }

  /** The row loops keep the flag at 0 or 1 and raise it iff a set pixel of
      rows `row..` lands on a cell that was nonzero before the blit. */
  lemma {:induction false} DrawRowsFlag(d: seq<bv8>, vf: bv8, sprite: seq<bv8>, x: nat, y: nat, row: nat)
    requires row <= |sprite| && (vf == 0 || vf == 1)
    ensures DrawRows(d, vf, sprite, x, y, row).vf == 0 || DrawRows(d, vf, sprite, x, y, row).vf == 1
    ensures DrawRows(d, vf, sprite, x, y, row).vf == 1 <==> vf == 1 || CollidesFrom(d, sprite, x, y, row)
    decreases |sprite| - row
  {
    if row < |sprite| {
      var base := CellIndex(x, y, row, 0);
      var r1 := DrawRow(d, vf, Pixels(sprite[row]), base, 0);
      DrawRowFlag(d, vf, Pixels(sprite[row]), base, 0);
      DrawRowsFlag(r1.cells, r1.vf, sprite, x, y, row + 1);
      forall k | CellIndex(x, y, row + 1, 0) <= k < |d|
        ensures r1.cells[k] == d[k]
      {
        DrawRowKeeps(d, vf, Pixels(sprite[row]), base, 0, k);
      }
      CollidesFromAgree(r1.cells, d, sprite, x, y, row + 1);
    }
  }

  /** The blit flips exactly the cells under the set pixels of the sprite:
      each such cell becomes its old value XOR 1, every other cell keeps
      its value. */
  lemma DrawCells(d: seq<bv8>, sprite: seq<bv8>, x: nat, y: nat)
    requires |d| == Cells && Fits(sprite, x, y)
    ensures forall row, col :: Hit(sprite, row, col) ==>
      Draw(d, sprite, x, y).cells[CellIndex(x, y, row, col)] == d[CellIndex(x, y, row, col)] ^ 1
    ensures forall k :: 0 <= k < Cells && !Covered(sprite, x, y, k) ==> Draw(d, sprite, x, y).cells[k] == d[k]
  {
    forall row, col | Hit(sprite, row, col)
      ensures Draw(d, sprite, x, y).cells[CellIndex(x, y, row, col)] == d[CellIndex(x, y, row, col)] ^ 1
    {
      DrawRowsFlips(d, 0, sprite, x, y, 0, row, col);
    }
    forall k | 0 <= k < Cells && !Covered(sprite, x, y, k)
      ensures Draw(d, sprite, x, y).cells[k] == d[k]
    {
      ClearOfUncovered(sprite, x, y, 0, k);
      DrawRowsKeeps(d, 0, sprite, x, y, 0, k);
    }
  }

  /** The blit's flag is 1 if some set pixel lands on a nonzero cell, and 0
      otherwise. */
  lemma DrawFlag(d: seq<bv8>, sprite: seq<bv8>, x: nat, y: nat)
    requires |d| == Cells && Fits(sprite, x, y)
    ensures Draw(d, sprite, x, y).vf == 0 || Draw(d, sprite, x, y).vf == 1
    ensures Draw(d, sprite, x, y).vf == 1 <==> Collides(d, sprite, x, y)
  {
    DrawRowsFlag(d, 0, sprite, x, y, 0);
    if Collides(d, sprite, x, y) {
      var row, col :| Hit(sprite, row, col) && d[CellIndex(x, y, row, col)] != 0;
      CollidesFromAt(d, sprite, x, y, 0, row, col);
    }
    if CollidesFrom(d, sprite, x, y, 0) {
      var row, col := CollidesFromWitness(d, sprite, x, y, 0);
      assert Hit(sprite, row, col);
    }
  }

  /** A blit on the blank buffer never collides: it sets the cells under
      the set pixels to 1 and leaves every other cell 0. */
  lemma DrawOnBlank(sprite: seq<bv8>, x: nat, y: nat)
    requires Fits(sprite, x, y)
    ensures Draw(Blank(), sprite, x, y).vf == 0
    ensures forall row, col :: Hit(sprite, row, col) ==> Draw(Blank(), sprite, x, y).cells[CellIndex(x, y, row, col)] == 1
    ensures forall k :: 0 <= k < Cells && !Covered(sprite, x, y, k) ==> Draw(Blank(), sprite, x, y).cells[k] == 0
  {
    DrawCells(Blank(), sprite, x, y);
    DrawFlag(Blank(), sprite, x, y);
  }

  /** A blit keeps a 0/1 buffer 0/1. */
  lemma DrawKeepsBinary(d: seq<bv8>, sprite: seq<bv8>, x: nat, y: nat)
    requires |d| == Cells && Fits(sprite, x, y) && Binary(d)
    ensures Binary(Draw(d, sprite, x, y).cells)
  {
    DrawCells(d, sprite, x, y);
    var r := Draw(d, sprite, x, y).cells;
    forall k | 0 <= k < Cells
      ensures r[k] == 0 || r[k] == 1
    {
      if Covered(sprite, x, y, k) {
        var row, col :| Hit(sprite, row, col) && CellIndex(x, y, row, col) == k;
      }
    }
  }

  /** Drawing the same sprite twice at the same place restores the buffer,
      and the second blit collides exactly where a set pixel lands on a
      cell that did not hold 1 before the first. */
  lemma DrawTwice(d: seq<bv8>, sprite: seq<bv8>, x: nat, y: nat)
    requires |d| == Cells && Fits(sprite, x, y)
    ensures Draw(Draw(d, sprite, x, y).cells, sprite, x, y).cells == d
    ensures Draw(Draw(d, sprite, x, y).cells, sprite, x, y).vf == 1 <==>
      exists row, col :: Hit(sprite, row, col) && d[CellIndex(x, y, row, col)] != 1
  {
    var d1 := Draw(d, sprite, x, y).cells;
    var d2 := Draw(d1, sprite, x, y).cells;
    DrawCells(d, sprite, x, y);
    DrawCells(d1, sprite, x, y);
    forall k | 0 <= k < Cells
      ensures d2[k] == d[k]
    {
      if Covered(sprite, x, y, k) {
        var row, col :| Hit(sprite, row, col) && CellIndex(x, y, row, col) == k;
        assert d2[k] == (d[k] ^ 1) ^ 1;
      }
    }
    DrawFlag(d1, sprite, x, y);
    if Collides(d1, sprite, x, y) {
      var row, col :| Hit(sprite, row, col) && d1[CellIndex(x, y, row, col)] != 0;
      assert d[CellIndex(x, y, row, col)] != 1;
    }
    if exists row, col :: Hit(sprite, row, col) && d[CellIndex(x, y, row, col)] != 1 {
      var row, col :| Hit(sprite, row, col) && d[CellIndex(x, y, row, col)] != 1;
      assert d1[CellIndex(x, y, row, col)] != 0;
    }
  }
}
