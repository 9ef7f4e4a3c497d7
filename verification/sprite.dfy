/**
 * `Cpu::draw` (DXYN): XOR a sprite of n bytes read from memory at I onto
 * the display at column Vx mod 64, row Vy mod 32.
 *
 * The Rust loops are kept as they are written:
 * - VF is set to 0 first; then each set bit flips its pixel and sets VF to
 *   the pixel's old value (1 on a collision, 0 otherwise), so VF ends as the
 *   old value of the LAST set bit drawn, not "any collision".
 * - A row stops after column 63 (clipping, no wrap).
 * - The row loop stops after display row 30 unless drawing started on row
 *   31; then the later rows lie below the display and index past it, which
 *   panics unless their bits are clear, so `DrawSafe` requires that.
 * - Only the rows read must lie in memory: DXY0 reads none and runs with
 *   any I.
 *
 * `RowPass` and `RowsLoop` follow the loops; `Flipped` and `LastHit` state
 * the effect in closed form, and `Draw`'s contract connects the two.
 */
module Sprite {
  import opened Machine
  import opened State

  /** The display and VF, the two things the loops write. */
  datatype Canvas = Canvas(disp: Display, vf: Byte)

  /** Bit `j` of `b` counted from the most significant end, as `Msb0` iterates. */
  function Bit(b: Byte, j: int): (r: int)
    requires 0 <= j < 8
    ensures r == 0 || r == 1
  {
    BitOf(b, 7 - j)
  }

  /** The number of sprite columns drawn from column `sx` before the clip at 63. */
  function Width(sx: int): (w: int)
    requires 0 <= sx < COLUMNS
    ensures 1 <= w <= 8 && sx + w <= COLUMNS
  {
    if sx + 8 <= COLUMNS then 8 else COLUMNS - sx
  }

  /**
   * One past the last sprite row the row loop reads: all `n` rows when
   * drawing starts on the bottom row, otherwise no row past display row 30.
   */
  function RowsEnd(sy: int, n: int): (e: int)
    requires 0 <= sy < ROWS && 0 <= n
    ensures 0 <= e <= n
    ensures sy != ROWS - 1 ==> sy + e <= ROWS - 1
    ensures sy != ROWS - 1 && e < n ==> sy + e == ROWS - 1
  {
    if sy == ROWS - 1 || sy + n <= ROWS - 1 then n else ROWS - 1 - sy
  }

  /** No bit of `b` falls on a drawn column. */
  predicate RowBlank(b: Byte, sx: int)
    requires 0 <= sx < COLUMNS
  {
    forall k :: 0 <= k < Width(sx) ==> Bit(b, k) == 0
  }

  /** Sprite row `r`: the byte at I + r. */
  function SpriteByte(mem: seq<Byte>, index: nat, r: nat): Byte
    requires index + r < |mem|
  {
    mem[index + r]
  }

  /**
   * Sprite rows `lo` to `hi - 1` lie in memory; an empty range reads
   * nothing, so it holds for any index.
   */
  predicate InMemory(mem: seq<Byte>, index: nat, lo: nat, hi: nat)
  {
    lo < hi ==> index + hi <= |mem|
  }

  /**
   * Sprite rows `lo` to `hi - 1` lie in memory, and those that fall below
   * the display have no bit on a drawn column.
   */
  predicate RowsSafe(mem: seq<Byte>, index: nat, sx: int, sy: int, lo: nat, hi: nat)
    requires 0 <= sx < COLUMNS
  {
    && InMemory(mem, index, lo, hi)
    && forall r: nat :: lo <= r < hi && sy + r >= ROWS ==> RowBlank(SpriteByte(mem, index, r), sx)
  }

  predicate Shaped(d: Display)
  {
    |d| == COLUMNS && forall col :: 0 <= col < COLUMNS ==> |d[col]| == ROWS
  }

  function Put(d: Display, col: int, row: int, v: Byte): (d': Display)
    requires Shaped(d) && 0 <= col < COLUMNS && 0 <= row < ROWS
    ensures Shaped(d')
  {
    var column: seq<Byte> := d[col][row := v];
    d[col := column]
  }

  /** The last set bit among positions `lo` to `hi - 1`, or -1 when there is none. */
  function LastSet(b: Byte, lo: int, hi: int): (k: int)
    requires 0 <= lo && hi <= 8
    ensures k == -1 || (lo <= k < hi && Bit(b, k) == 1)
    ensures k == -1 ==> forall j :: lo <= j < hi ==> Bit(b, j) == 0
    ensures k != -1 ==> forall j :: k < j < hi ==> Bit(b, j) == 0
    decreases hi - lo
  {
    if hi <= lo then -1
    else if Bit(b, hi - 1) == 1 then hi - 1
    else LastSet(b, lo, hi - 1)
  }

  /** Looking from the front: the last set bit from `lo` on is found after `lo`, or it is `lo`. */
  lemma {:induction false} LastSetSplit(b: Byte, lo: int, hi: int)
    requires 0 <= lo < hi <= 8
    ensures LastSet(b, lo, hi) ==
              if LastSet(b, lo + 1, hi) != -1 then LastSet(b, lo + 1, hi)
              else if Bit(b, lo) == 1 then lo else -1
    decreases hi - lo
  {
    if hi - 1 > lo && Bit(b, hi - 1) != 1 {
      LastSetSplit(b, lo, hi - 1);
    }
  }

  /**
   * One iteration of the bit loop: a set bit on a lit pixel clears it and
   * sets VF to 1; a set bit on a dark pixel lights it and sets VF to 0; a
   * clear bit does nothing.
   */
  function BitStep(cv: Canvas, b: Byte, sx: int, y: int, j: int): (r: Canvas)
    requires Shaped(cv.disp) && 0 <= sx < COLUMNS && 0 <= j < Width(sx) && 0 <= y
    requires Bit(b, j) == 1 ==> y < ROWS
    ensures Shaped(r.disp)
  {
    var x := sx + j;
    var on := Bit(b, j) == 1;
    if on && cv.disp[x][y] == 1 then Canvas(Put(cv.disp, x, y, 0), 1)
    else if on && cv.disp[x][y] == 0 then Canvas(Put(cv.disp, x, y, 1), 0)
    else cv
  }

  /** On a 0/1 display a step flips the pixel under a set bit and puts its old value in VF. */
  lemma BitStepEffect(cv: Canvas, b: Byte, sx: int, y: int, j: int)
    requires ValidDisplay(cv.disp) && 0 <= sx < COLUMNS && 0 <= j < Width(sx) && 0 <= y
    requires Bit(b, j) == 1 ==> y < ROWS
    ensures Bit(b, j) == 1 ==>
              BitStep(cv, b, sx, y, j) == Canvas(Put(cv.disp, sx + j, y, 1 - cv.disp[sx + j][y] as int), cv.disp[sx + j][y])
    ensures Bit(b, j) != 1 ==> BitStep(cv, b, sx, y, j) == cv
  {
  }

  /**
   * The inner loop over the 8 bits of one sprite byte, from bit `j` on,
   * drawing at column `sx + j` of row `y` and stopping after column 63.
   */
  function RowPass(cv: Canvas, b: Byte, sx: int, y: int, j: int): (r: Canvas)
    requires Shaped(cv.disp)
    requires 0 <= sx < COLUMNS && 0 <= j <= 8 && (j < 8 ==> sx + j < COLUMNS) && 0 <= y
    requires y >= ROWS ==> forall k :: j <= k < Width(sx) ==> Bit(b, k) == 0
    ensures Shaped(r.disp)
    decreases 8 - j
  {
    if j == 8 then cv
    else
      var cv1 := BitStep(cv, b, sx, y, j);
      if sx + j == COLUMNS - 1 then cv1 else RowPass(cv1, b, sx, y, j + 1)
  }

  /**
   * `d'` is `d` with the pixels of row `y` flipped under the set bits of `b`
   * from bit `j` on, in the drawn columns.
   */
  predicate RowFlipped(d: Display, d': Display, b: Byte, sx: int, y: int, j: int)
    requires Shaped(d) && Shaped(d') && 0 <= sx < COLUMNS && 0 <= j
  {
    forall col, row :: 0 <= col < COLUMNS && 0 <= row < ROWS ==>
      d'[col][row] ==
        if row == y && sx + j <= col < sx + Width(sx) && Bit(b, col - sx) == 1
        then 1 - d[col][row] as int else d[col][row]
  }

  lemma FlipKeepsBinary(d: Display, d': Display, b: Byte, sx: int, y: int, j: int)
    requires ValidDisplay(d) && Shaped(d') && 0 <= sx < COLUMNS && 0 <= j
    requires RowFlipped(d, d', b, sx, y, j)
    ensures ValidDisplay(d')
  {
  }

  /** One step of the bit loop, from the effect of the rest of the loop. */
  lemma RowFlipStep(d: Display, d1: Display, r: Display, b: Byte, sx: int, y: int, j: int)
    requires ValidDisplay(d) && Shaped(d1) && Shaped(r)
    requires 0 <= sx < COLUMNS && 0 <= j < Width(sx) && 0 <= y
    requires Bit(b, j) == 1 ==> y < ROWS && d1 == Put(d, sx + j, y, 1 - d[sx + j][y] as int)
    requires Bit(b, j) != 1 ==> d1 == d
    requires RowFlipped(d1, r, b, sx, y, j + 1)
    ensures RowFlipped(d, r, b, sx, y, j)
  {
  }

  /** The pixels written by one pass over a sprite byte. */
  lemma {:induction false} RowPassDisplay(cv: Canvas, b: Byte, sx: int, y: int, j: int)
    requires ValidDisplay(cv.disp)
    requires 0 <= sx < COLUMNS && 0 <= j <= 8 && (j < 8 ==> sx + j < COLUMNS) && 0 <= y
    requires y >= ROWS ==> forall k :: j <= k < Width(sx) ==> Bit(b, k) == 0
    ensures RowFlipped(cv.disp, RowPass(cv, b, sx, y, j).disp, b, sx, y, j)
    ensures ValidDisplay(RowPass(cv, b, sx, y, j).disp)
    decreases 8 - j
  {
    var r := RowPass(cv, b, sx, y, j);
    if j == 8 {
      assert r == cv;
    } else {
      assert j < Width(sx);
      var cv1 := BitStep(cv, b, sx, y, j);
      BitStepEffect(cv, b, sx, y, j);
      if sx + j == COLUMNS - 1 {
        assert r == cv1 && Width(sx) == j + 1;
      } else {
        assert ValidDisplay(cv1.disp);
        RowPassDisplay(cv1, b, sx, y, j + 1);
        assert r == RowPass(cv1, b, sx, y, j + 1);
      }
      RowFlipStep(cv.disp, cv1.disp, r.disp, b, sx, y, j);
    }
    FlipKeepsBinary(cv.disp, r.disp, b, sx, y, j);
  }

  /**
   * One turn of the bit loop: bit `j` is drawn giving `cv1`, and the loop
   * either stops there (`last`, after column 63) or goes on from bit `j + 1`.
   */
  lemma RowPassNext(cv: Canvas, b: Byte, sx: int, y: int, j: int) returns (cv1: Canvas, last: bool)
    requires ValidDisplay(cv.disp)
    requires 0 <= sx < COLUMNS && 0 <= j < 8 && sx + j < COLUMNS && 0 <= y
    requires y >= ROWS ==> forall k :: j <= k < Width(sx) ==> Bit(b, k) == 0
    ensures ValidDisplay(cv1.disp) && j < Width(sx)
    ensures Bit(b, j) == 1 ==> y < ROWS && cv1.vf == cv.disp[sx + j][y]
    ensures Bit(b, j) != 1 ==> cv1.vf == cv.vf
    ensures forall col, row :: 0 <= col < COLUMNS && 0 <= row < ROWS && col != sx + j ==>
              cv1.disp[col][row] == cv.disp[col][row]
    ensures last <==> j + 1 == Width(sx)
    ensures last ==> RowPass(cv, b, sx, y, j) == cv1
    ensures !last ==> j + 1 < 8 && sx + j + 1 < COLUMNS && RowPass(cv, b, sx, y, j) == RowPass(cv1, b, sx, y, j + 1)
  {
    cv1 := BitStep(cv, b, sx, y, j);
    BitStepEffect(cv, b, sx, y, j);
    last := sx + j == COLUMNS - 1 || j == 7;
  }

  /** The flag left by one pass over a sprite byte: the old value of its last flipped pixel. */
  lemma {:induction false} RowPassFlag(cv: Canvas, b: Byte, sx: int, y: int, j: int)
    requires ValidDisplay(cv.disp)
    requires 0 <= sx < COLUMNS && 0 <= j <= 8 && (j < 8 ==> sx + j < COLUMNS) && 0 <= y
    requires y >= ROWS ==> forall k :: j <= k < Width(sx) ==> Bit(b, k) == 0
    ensures LastSet(b, j, Width(sx)) != -1 ==> y < ROWS
    ensures RowPass(cv, b, sx, y, j).vf ==
              var k := LastSet(b, j, Width(sx));
              if k == -1 then cv.vf else cv.disp[sx + k][y]
    decreases 8 - j
  {
    if j < 8 {
      var cv1, last := RowPassNext(cv, b, sx, y, j);
      LastSetSplit(b, j, Width(sx));
      var k := LastSet(b, j + 1, Width(sx));
      if !last {
        RowPassFlag(cv1, b, sx, y, j + 1);
        assert k != -1 ==> cv1.disp[sx + k][y] == cv.disp[sx + k][y];
      } else {
        assert k == -1;
      }
    }
  }

  /** The pixels and the flag written by a whole pass over a sprite byte. */
  lemma RowPassEffect(cv: Canvas, b: Byte, sx: int, y: int) returns (r: Canvas)
    requires ValidDisplay(cv.disp) && 0 <= sx < COLUMNS && 0 <= y
    requires y >= ROWS ==> RowBlank(b, sx)
    ensures r == RowPass(cv, b, sx, y, 0)
    ensures ValidDisplay(r.disp) && RowFlipped(cv.disp, r.disp, b, sx, y, 0)
    ensures forall col, row :: 0 <= col < COLUMNS && 0 <= row < ROWS && row != y ==> r.disp[col][row] == cv.disp[col][row]
    ensures var k := LastSet(b, 0, Width(sx));
            && (k != -1 ==> y < ROWS)
            && r.vf == if k == -1 then cv.vf else cv.disp[sx + k][y]
  {
    r := RowPass(cv, b, sx, y, 0);
    RowPassDisplay(cv, b, sx, y, 0);
    RowPassFlag(cv, b, sx, y, 0);
  }

  /** Whether sprite rows `lo` to `hi - 1` put a set bit on the pixel at (col, row). */
  predicate Flipped(mem: seq<Byte>, index: nat, sx: int, sy: int, lo: nat, hi: nat, col: int, row: int)
    requires 0 <= sx < COLUMNS && InMemory(mem, index, lo, hi)
  {
    && sx <= col < sx + Width(sx)
    && sy + lo <= row < sy + hi
    && Bit(SpriteByte(mem, index, row - sy), col - sx) == 1
  }

  /**
   * The old value of the pixel under the last set bit of sprite rows `lo`
   * to `hi - 1`, in drawing order (last row first, last column first), or
   * -1 when no drawn bit is set.
   */
  function LastHit(d: Display, mem: seq<Byte>, index: nat, sx: int, sy: int, lo: nat, hi: nat): (h: int)
    requires Shaped(d) && 0 <= sx < COLUMNS && 0 <= sy && lo <= hi
    requires RowsSafe(mem, index, sx, sy, lo, hi)
    ensures h == -1 || 0 <= h
    decreases hi - lo
  {
    if hi <= lo then -1
    else
      var k := LastSet(SpriteByte(mem, index, hi - 1), 0, Width(sx));
      if k != -1 then d[sx + k][sy + hi - 1]
      else LastHit(d, mem, index, sx, sy, lo, hi - 1)
  }

  /** Looking from the front: the last hit from row `lo` on is in a later row, or in row `lo`. */
  lemma {:induction false} LastHitSplit(d: Display, mem: seq<Byte>, index: nat, sx: int, sy: int, lo: nat, hi: nat)
    requires Shaped(d) && 0 <= sx < COLUMNS && 0 <= sy && lo < hi
    requires RowsSafe(mem, index, sx, sy, lo, hi)
    ensures var k := LastSet(SpriteByte(mem, index, lo), 0, Width(sx));
            LastHit(d, mem, index, sx, sy, lo, hi) ==
              if LastHit(d, mem, index, sx, sy, lo + 1, hi) != -1 then LastHit(d, mem, index, sx, sy, lo + 1, hi)
              else if k != -1 then d[sx + k][sy + lo] else -1
    decreases hi - lo
  {
    if hi - 1 > lo && LastSet(SpriteByte(mem, index, hi - 1), 0, Width(sx)) == -1 {
      LastHitSplit(d, mem, index, sx, sy, lo, hi - 1);
    }
  }

  /** `LastHit` reads only the display rows of the sprite rows it scans. */
  lemma {:induction false} LastHitFrame(d: Display, d': Display, mem: seq<Byte>, index: nat, sx: int, sy: int, lo: nat, hi: nat)
    requires Shaped(d) && Shaped(d') && 0 <= sx < COLUMNS && 0 <= sy && lo <= hi
    requires RowsSafe(mem, index, sx, sy, lo, hi)
    requires forall col, row :: 0 <= col < COLUMNS && sy + lo <= row < sy + hi && row < ROWS ==>
               d[col][row] == d'[col][row]
    ensures LastHit(d, mem, index, sx, sy, lo, hi) == LastHit(d', mem, index, sx, sy, lo, hi)
    decreases hi - lo
  {
    if hi > lo {
      LastHitFrame(d, d', mem, index, sx, sy, lo, hi - 1);
    }
  }

  /**
   * The outer loop over sprite rows from row `i` on, drawing row `i` at
   * display row `sy + i` and stopping after display row 30.
   */
  function RowsLoop(cv: Canvas, mem: seq<Byte>, index: nat, sx: int, sy: int, i: nat, n: Nibble): (r: Canvas)
    requires Shaped(cv.disp) && 0 <= sx < COLUMNS && 0 <= sy < ROWS && i <= n
    requires sy == ROWS - 1 || sy + i <= ROWS - 2
    requires RowsSafe(mem, index, sx, sy, i, RowsEnd(sy, n))
    ensures Shaped(r.disp)
    decreases n - i
  {
    if i == n then cv
    else
      var cv1 := RowPass(cv, SpriteByte(mem, index, i), sx, sy + i, 0);
      if sy + i + 1 == ROWS - 1 then cv1
      else RowsLoop(cv1, mem, index, sx, sy, i + 1, n)
  }

  /** `d'` is `d` with every pixel under a set bit of sprite rows `lo` to `hi - 1` flipped. */
  predicate RowsFlipped(d: Display, d': Display, mem: seq<Byte>, index: nat, sx: int, sy: int, lo: nat, hi: nat)
    requires Shaped(d) && Shaped(d') && 0 <= sx < COLUMNS && InMemory(mem, index, lo, hi)
  {
    forall col, row :: 0 <= col < COLUMNS && 0 <= row < ROWS ==>
      d'[col][row] ==
        if Flipped(mem, index, sx, sy, lo, hi, col, row)
        then 1 - d[col][row] as int else d[col][row]
  }

  /** One step of the row loop, from the effect of the rest of the loop. */
  lemma RowsFlipStep(d: Display, d1: Display, r: Display, mem: seq<Byte>, index: nat, sx: int, sy: int, lo: nat, hi: nat)
    requires ValidDisplay(d) && Shaped(d1) && Shaped(r) && 0 <= sx < COLUMNS && lo < hi && index + hi <= |mem|
    requires RowFlipped(d, d1, SpriteByte(mem, index, lo), sx, sy + lo, 0)
    requires RowsFlipped(d1, r, mem, index, sx, sy, lo + 1, hi)
    ensures RowsFlipped(d, r, mem, index, sx, sy, lo, hi)
  {
  }

  lemma RowsFlipKeepsBinary(d: Display, d': Display, mem: seq<Byte>, index: nat, sx: int, sy: int, lo: nat, hi: nat)
    requires ValidDisplay(d) && Shaped(d') && 0 <= sx < COLUMNS && InMemory(mem, index, lo, hi)
    requires RowsFlipped(d, d', mem, index, sx, sy, lo, hi)
    ensures ValidDisplay(d')
  {
  }

  /** Sprite rows `lo` to `lo - 1` flip nothing. */
  lemma RowsFlipLast(d: Display, d1: Display, mem: seq<Byte>, index: nat, sx: int, sy: int, lo: nat)
    requires ValidDisplay(d) && Shaped(d1) && 0 <= sx < COLUMNS && index + lo < |mem|
    requires RowFlipped(d, d1, SpriteByte(mem, index, lo), sx, sy + lo, 0)
    ensures RowsFlipped(d, d1, mem, index, sx, sy, lo, lo + 1)
  {
  }

  /** `RowsLoop` from row `i` is the pass over row `i` followed by the loop from row `i + 1`, if any. */
  lemma RowsLoopUnfold(cv: Canvas, cv1: Canvas, mem: seq<Byte>, index: nat, sx: int, sy: int, i: nat, n: Nibble)
    requires Shaped(cv.disp) && 0 <= sx < COLUMNS && 0 <= sy < ROWS && i < n
    requires sy == ROWS - 1 || sy + i <= ROWS - 2
    requires RowsSafe(mem, index, sx, sy, i, RowsEnd(sy, n))
    requires sy + i >= ROWS ==> RowBlank(SpriteByte(mem, index, i), sx)
    requires cv1 == RowPass(cv, SpriteByte(mem, index, i), sx, sy + i, 0)
    ensures if sy + i + 1 == ROWS - 1 then
              RowsEnd(sy, n) == i + 1 && RowsLoop(cv, mem, index, sx, sy, i, n) == cv1
            else
              && (sy == ROWS - 1 || sy + i + 1 <= ROWS - 2)
              && RowsSafe(mem, index, sx, sy, i + 1, RowsEnd(sy, n))
              && RowsLoop(cv, mem, index, sx, sy, i, n) == RowsLoop(cv1, mem, index, sx, sy, i + 1, n)
  {
  }

  /** One row of a safe range: it lies in memory, and it is blank if it falls below the display. */
  lemma RowsSafeRow(mem: seq<Byte>, index: nat, sx: int, sy: int, lo: nat, hi: nat, r: nat)
    requires 0 <= sx < COLUMNS && RowsSafe(mem, index, sx, sy, lo, hi) && lo <= r < hi
    ensures index + r < |mem|
    ensures sy + r >= ROWS ==> RowBlank(SpriteByte(mem, index, r), sx)
  {
  }

  /**
   * One turn of the row loop: sprite row `i` is drawn at display row
   * `sy + i` giving `cv1`; the loop stops there (`last`) after display
   * row 30. `RowsLoopUnfold` says how the loop goes on.
   */
  lemma RowsLoopPass(cv: Canvas, mem: seq<Byte>, index: nat, sx: int, sy: int, i: nat)
      returns (cv1: Canvas, last: bool)
    requires ValidDisplay(cv.disp) && 0 <= sx < COLUMNS && 0 <= sy < ROWS && index + i < |mem|
    requires sy + i >= ROWS ==> RowBlank(SpriteByte(mem, index, i), sx)
    ensures cv1 == RowPass(cv, SpriteByte(mem, index, i), sx, sy + i, 0)
    ensures ValidDisplay(cv1.disp)
    ensures RowFlipped(cv.disp, cv1.disp, SpriteByte(mem, index, i), sx, sy + i, 0)
    ensures forall col, row :: 0 <= col < COLUMNS && sy + i < row < ROWS ==> cv1.disp[col][row] == cv.disp[col][row]
    ensures var k := LastSet(SpriteByte(mem, index, i), 0, Width(sx));
            && (k != -1 ==> sy + i < ROWS)
            && cv1.vf == if k == -1 then cv.vf else cv.disp[sx + k][sy + i]
    ensures last <==> sy + i + 1 == ROWS - 1
  {
    cv1 := RowPassEffect(cv, SpriteByte(mem, index, i), sx, sy + i);
    last := sy + i + 1 == ROWS - 1;
  }

  /**
   * One turn of the row loop: the pass over row `i`, then either the end
   * of the loop (`last`, after display row 30) or the loop from row `i + 1`.
   */
  lemma RowsLoopNext(cv: Canvas, mem: seq<Byte>, index: nat, sx: int, sy: int, i: nat, n: Nibble)
      returns (cv1: Canvas, last: bool)
    requires ValidDisplay(cv.disp) && 0 <= sx < COLUMNS && 0 <= sy < ROWS && i < n
    requires sy == ROWS - 1 || sy + i <= ROWS - 2
    requires RowsSafe(mem, index, sx, sy, i, RowsEnd(sy, n))
    ensures ValidDisplay(cv1.disp)
    ensures RowFlipped(cv.disp, cv1.disp, SpriteByte(mem, index, i), sx, sy + i, 0)
    ensures forall col, row :: 0 <= col < COLUMNS && sy + i < row < ROWS ==> cv1.disp[col][row] == cv.disp[col][row]
    ensures var k := LastSet(SpriteByte(mem, index, i), 0, Width(sx));
            && (k != -1 ==> sy + i < ROWS)
            && cv1.vf == if k == -1 then cv.vf else cv.disp[sx + k][sy + i]
    ensures last <==> sy + i + 1 == ROWS - 1
    ensures last ==> RowsEnd(sy, n) == i + 1 && RowsLoop(cv, mem, index, sx, sy, i, n) == cv1
    ensures !last ==>
              && (sy == ROWS - 1 || sy + i + 1 <= ROWS - 2)
              && RowsSafe(mem, index, sx, sy, i + 1, RowsEnd(sy, n))
              && RowsLoop(cv, mem, index, sx, sy, i, n) == RowsLoop(cv1, mem, index, sx, sy, i + 1, n)
  {
    RowsSafeRow(mem, index, sx, sy, i, RowsEnd(sy, n), i);
    cv1, last := RowsLoopPass(cv, mem, index, sx, sy, i);
    RowsLoopUnfold(cv, cv1, mem, index, sx, sy, i, n);
  }

  /** The pixels of one turn of the row loop followed by the rest of it. */
  lemma RowsDisplayStep(d: Display, d1: Display, r: Display, last: bool, mem: seq<Byte>, index: nat, sx: int, sy: int, i: nat, e: nat)
    requires ValidDisplay(d) && ValidDisplay(d1) && Shaped(r) && 0 <= sx < COLUMNS && i < e && index + e <= |mem|
    requires RowFlipped(d, d1, SpriteByte(mem, index, i), sx, sy + i, 0)
    requires last ==> e == i + 1 && r == d1
    requires !last ==> ValidDisplay(r) && RowsFlipped(d1, r, mem, index, sx, sy, i + 1, e)
    ensures ValidDisplay(r) && RowsFlipped(d, r, mem, index, sx, sy, i, e)
  {
    if last {
      RowsFlipLast(d, d1, mem, index, sx, sy, i);
    } else {
      RowsFlipStep(d, d1, r, mem, index, sx, sy, i, e);
    }
    RowsFlipKeepsBinary(d, r, mem, index, sx, sy, i, e);
  }

  /** The pixels written by the row loop. */
  lemma {:induction false} RowsLoopDisplay(cv: Canvas, mem: seq<Byte>, index: nat, sx: int, sy: int, i: nat, n: Nibble)
    requires ValidDisplay(cv.disp) && 0 <= sx < COLUMNS && 0 <= sy < ROWS && i <= n
    requires sy == ROWS - 1 || sy + i <= ROWS - 2
    requires RowsSafe(mem, index, sx, sy, i, RowsEnd(sy, n))
    ensures var r := RowsLoop(cv, mem, index, sx, sy, i, n);
            && ValidDisplay(r.disp)
            && RowsFlipped(cv.disp, r.disp, mem, index, sx, sy, i, RowsEnd(sy, n))
    decreases n - i
  {
    if i < n {
      var e := RowsEnd(sy, n);
      var cv1, last := RowsLoopNext(cv, mem, index, sx, sy, i, n);
      var r := RowsLoop(cv, mem, index, sx, sy, i, n);
      if last {
        RowsDisplayStep(cv.disp, cv1.disp, r.disp, true, mem, index, sx, sy, i, e);
      } else {
        RowsLoopDisplay(cv1, mem, index, sx, sy, i + 1, n);
        RowsDisplayStep(cv.disp, cv1.disp, r.disp, false, mem, index, sx, sy, i, e);
      }
    }
  }

  /** The flag of one turn of the row loop followed by the rest of it. */
  lemma RowsFlagStep(d: Display, d1: Display, v: int, v1: int, rv: int, last: bool,
                     mem: seq<Byte>, index: nat, sx: int, sy: int, i: nat, e: nat)
    requires Shaped(d) && Shaped(d1) && 0 <= sx < COLUMNS && 0 <= sy && i < e
    requires RowsSafe(mem, index, sx, sy, i, e)
    requires forall col, row :: 0 <= col < COLUMNS && sy + i < row < ROWS ==> d1[col][row] == d[col][row]
    requires var k := LastSet(SpriteByte(mem, index, i), 0, Width(sx));
             && (k != -1 ==> sy + i < ROWS)
             && v1 == if k == -1 then v else d[sx + k][sy + i]
    requires last ==> e == i + 1 && rv == v1
    requires !last ==> rv == var h := LastHit(d1, mem, index, sx, sy, i + 1, e); if h == -1 then v1 else h
    ensures rv == var h := LastHit(d, mem, index, sx, sy, i, e); if h == -1 then v else h
  {
    LastHitSplit(d, mem, index, sx, sy, i, e);
    if !last {
      LastHitFrame(d, d1, mem, index, sx, sy, i + 1, e);
    }
  }

  /** The flag left by the row loop: the old value of the last pixel flipped, if any. */
  lemma {:induction false} RowsLoopFlag(cv: Canvas, mem: seq<Byte>, index: nat, sx: int, sy: int, i: nat, n: Nibble)
    requires ValidDisplay(cv.disp) && 0 <= sx < COLUMNS && 0 <= sy < ROWS && i <= n
    requires sy == ROWS - 1 || sy + i <= ROWS - 2
    requires RowsSafe(mem, index, sx, sy, i, RowsEnd(sy, n))
    ensures RowsLoop(cv, mem, index, sx, sy, i, n).vf ==
              var h := LastHit(cv.disp, mem, index, sx, sy, i, RowsEnd(sy, n));
              if h == -1 then cv.vf else h
    decreases n - i
  {
    if i < n {
      var e := RowsEnd(sy, n);
      var cv1, last := RowsLoopNext(cv, mem, index, sx, sy, i, n);
      var r := RowsLoop(cv, mem, index, sx, sy, i, n);
      if last {
        RowsFlagStep(cv.disp, cv1.disp, cv.vf, cv1.vf, r.vf, true, mem, index, sx, sy, i, e);
      } else {
        RowsLoopFlag(cv1, mem, index, sx, sy, i + 1, n);
        RowsFlagStep(cv.disp, cv1.disp, cv.vf, cv1.vf, r.vf, false, mem, index, sx, sy, i, e);
      }
    }
  }

  /** The sprite origin: Vx mod 64 and Vy mod 32. */
  function Origin(c: Cpu, x: Nibble, y: Nibble): (o: (int, int))
    requires Valid(c)
    ensures 0 <= o.0 < COLUMNS && 0 <= o.1 < ROWS
  {
    (c.reg[x] % COLUMNS, c.reg[y] % ROWS)
  }

  /** The memory reads and display writes of DXYN stay in bounds. */
  predicate DrawSafe(c: Cpu, x: Nibble, y: Nibble, n: Nibble)
    requires Valid(c)
  {
    var (sx, sy) := Origin(c, x, y);
    RowsSafe(c.mem, c.index, sx, sy, 0, RowsEnd(sy, n))
  }

  /**
   * `draw`: every pixel under a set sprite bit in the drawn rows and
   * columns is flipped and every other pixel is kept; VF ends as the old
   * value of the last pixel flipped, 0 when none is; nothing else changes.
   */
  function Draw(c: Cpu, x: Nibble, y: Nibble, n: Nibble): (c': Cpu)
    requires Valid(c) && DrawSafe(c, x, y, n)
    ensures Valid(c') && c' == c.(disp := c'.disp, reg := c'.reg) && RegsKept(c, c', {VF})
    ensures var (sx, sy) := Origin(c, x, y);
            var hi := RowsEnd(sy, n);
            && (forall col, row :: 0 <= col < COLUMNS && 0 <= row < ROWS ==>
                  c'.disp[col][row] ==
                    if Flipped(c.mem, c.index, sx, sy, 0, hi, col, row)
                    then 1 - c.disp[col][row] as int else c.disp[col][row])
            && c'.reg[VF] == (var h := LastHit(c.disp, c.mem, c.index, sx, sy, 0, hi);
                              if h == -1 then 0 else h)
  {
    var (sx, sy) := Origin(c, x, y);
    var cv := Canvas(c.disp, 0);
    RowsLoopDisplay(cv, c.mem, c.index, sx, sy, 0, n);
    RowsLoopFlag(cv, c.mem, c.index, sx, sy, 0, n);
    var r := RowsLoop(cv, c.mem, c.index, sx, sy, 0, n);
    c.(disp := r.disp, reg := c.reg[VF := r.vf])
  }
}

module SpriteFacts {
  import opened Machine
  import opened State
  import opened Sprite

  /** On a display with the drawn rows flipped, every hit sees the opposite pixel. */
  lemma {:induction false} LastHitFlipped(d: Display, d': Display, mem: seq<Byte>, index: nat, sx: int, sy: int, lo: nat, m: nat, hi: nat)
    requires ValidDisplay(d) && Shaped(d') && 0 <= sx < COLUMNS && 0 <= sy && lo <= m <= hi
    requires RowsSafe(mem, index, sx, sy, lo, hi)
    requires RowsFlipped(d, d', mem, index, sx, sy, lo, hi)
    ensures var h := LastHit(d, mem, index, sx, sy, lo, m);
            LastHit(d', mem, index, sx, sy, lo, m) == if h == -1 then -1 else 1 - h
    decreases m - lo
  {
    if m > lo {
      var k := LastSet(SpriteByte(mem, index, m - 1), 0, Width(sx));
      if k == -1 {
        LastHitFlipped(d, d', mem, index, sx, sy, lo, m - 1, hi);
      } else {
        assert sy + m - 1 < ROWS;
        assert Flipped(mem, index, sx, sy, lo, hi, sx + k, sy + m - 1);
      }
    }
  }

  /** On a blank display no pixel is hit lit. */
  lemma {:induction false} LastHitBlank(d: Display, mem: seq<Byte>, index: nat, sx: int, sy: int, lo: nat, hi: nat)
    requires ValidDisplay(d) && 0 <= sx < COLUMNS && 0 <= sy && lo <= hi
    requires RowsSafe(mem, index, sx, sy, lo, hi)
    requires forall col, row :: 0 <= col < COLUMNS && 0 <= row < ROWS ==> d[col][row] == 0
    ensures LastHit(d, mem, index, sx, sy, lo, hi) <= 0
    decreases hi - lo
  {
    if hi > lo {
      var k := LastSet(SpriteByte(mem, index, hi - 1), 0, Width(sx));
      if k == -1 {
        LastHitBlank(d, mem, index, sx, sy, lo, hi - 1);
      } else {
        assert sy + hi - 1 < ROWS;
      }
    }
  }

  /**
   * Below display row 31 the bounds hold whenever the sprite lies in
   * memory: only a sprite starting on the bottom row reads rows that are
   * off the display.
   */
  lemma DrawSafeAwayFromBottom(c: Cpu, x: Nibble, y: Nibble, n: Nibble)
    requires Valid(c) && c.index + n <= MEMORY_SIZE && Origin(c, x, y).1 != ROWS - 1
    ensures DrawSafe(c, x, y, n)
  {
  }

  /**
   * DXY0 reads no sprite byte, so it is in bounds whatever I holds, even
   * past memory: it only clears VF and keeps the display.
   */
  lemma EmptySpriteReadsNoMemory(c: Cpu, x: Nibble, y: Nibble)
    requires Valid(c)
    ensures DrawSafe(c, x, y, 0)
    ensures Draw(c, x, y, 0) == c.(reg := c.reg[VF := 0])
  {
    var c' := Draw(c, x, y, 0);
    DisplayExt(c'.disp, c.disp);
  }

  /** Drawing never wraps: pixels left of or above the origin keep their values. */
  lemma DrawDoesNotWrap(c: Cpu, x: Nibble, y: Nibble, n: Nibble)
    requires Valid(c) && DrawSafe(c, x, y, n)
    ensures var (sx, sy) := Origin(c, x, y);
            forall col, row :: 0 <= col < COLUMNS && 0 <= row < ROWS && (col < sx || row < sy) ==>
              Draw(c, x, y, n).disp[col][row] == c.disp[col][row]
  {
  }

  /** The row loop stops after row 30, so row 31 is drawn only by a sprite that starts on it. */
  lemma BottomRowOnlyFromBottom(c: Cpu, x: Nibble, y: Nibble, n: Nibble)
    requires Valid(c) && DrawSafe(c, x, y, n) && Origin(c, x, y).1 != ROWS - 1
    ensures forall col :: 0 <= col < COLUMNS ==> Draw(c, x, y, n).disp[col][ROWS - 1] == c.disp[col][ROWS - 1]
  {
  }

  /** Drawing the same sprite at the same place twice restores the display. */
  lemma DrawTwiceRestores(c: Cpu, x: Nibble, y: Nibble, n: Nibble)
    requires Valid(c) && DrawSafe(c, x, y, n) && x != VF && y != VF
    ensures DrawSafe(Draw(c, x, y, n), x, y, n)
    ensures Draw(Draw(c, x, y, n), x, y, n).disp == c.disp
  {
    var c1 := Draw(c, x, y, n);
    assert Origin(c1, x, y) == Origin(c, x, y);
    var c2 := Draw(c1, x, y, n);
    DisplayExt(c2.disp, c.disp);
  }

  /**
   * On a blank display a draw reports no collision, and drawing the same
   * sprite again reports one as soon as any drawn bit is set.
   */
  lemma SecondDrawCollides(c: Cpu, x: Nibble, y: Nibble, n: Nibble)
    requires Valid(c) && DrawSafe(c, x, y, n) && x != VF && y != VF
    requires forall col, row :: 0 <= col < COLUMNS && 0 <= row < ROWS ==> c.disp[col][row] == 0
    ensures Draw(c, x, y, n).reg[VF] == 0
    ensures DrawSafe(Draw(c, x, y, n), x, y, n)
    ensures var (sx, sy) := Origin(c, x, y);
            Draw(Draw(c, x, y, n), x, y, n).reg[VF] ==
              if LastHit(c.disp, c.mem, c.index, sx, sy, 0, RowsEnd(sy, n)) == -1 then 0 else 1
  {
    var (sx, sy) := Origin(c, x, y);
    var e := RowsEnd(sy, n);
    LastHitBlank(c.disp, c.mem, c.index, sx, sy, 0, e);
    var c1 := Draw(c, x, y, n);
    assert Origin(c1, x, y) == (sx, sy);
    LastHitFlipped(c.disp, c1.disp, c.mem, c.index, sx, sy, 0, e, e);
  }

  /**
   * VF is the old value of the last pixel flipped only: sprite 0xC0 drawn
   * over a lit pixel followed by a dark one erases the lit pixel, yet leaves
   * VF at 0.
   */
  lemma CollisionCanBeMasked(c: Cpu, x: Nibble, y: Nibble)
    requires Valid(c) && c.index < MEMORY_SIZE && c.mem[c.index] == 0xC0
    requires Origin(c, x, y).0 + 1 < COLUMNS
    requires c.disp[Origin(c, x, y).0][Origin(c, x, y).1] == 1
    requires c.disp[Origin(c, x, y).0 + 1][Origin(c, x, y).1] == 0
    ensures DrawSafe(c, x, y, 1)
    ensures Draw(c, x, y, 1).disp[Origin(c, x, y).0][Origin(c, x, y).1] == 0
    ensures Draw(c, x, y, 1).reg[VF] == 0
  {
    var (sx, sy) := Origin(c, x, y);
    assert SpriteByte(c.mem, c.index, 0) == 0xC0;
    assert Bit(0xC0, 0) == 1 && Bit(0xC0, 1) == 1;
    assert forall j :: 2 <= j < 8 ==> Bit(0xC0, j) == 0;
    assert LastSet(0xC0, 0, Width(sx)) == 1 by {
      LastSetSplit(0xC0, 0, Width(sx));
      LastSetSplit(0xC0, 1, Width(sx));
    }
    assert Flipped(c.mem, c.index, sx, sy, 0, RowsEnd(sy, 1), sx, sy);
  }
}
