/** A mode-4 pixel buffer: 240 x 160 pixels of 8-bit palette indices, two
    pixels packed into each 16-bit cell (even column in the low byte, odd
    column in the high byte). */
module Surface {
  import opened Geometry

  const CELLS: int := WIDTH * HEIGHT / 2

  /** One 16-bit storage cell and one 8-bit palette index. */
  type Cell = bv16

  type Buffer = b: seq<Cell> | |b| == CELLS witness seq(CELLS, _ => 0)

  /** `(row * WIDTH + col) >> 1`, the cell holding pixel (row, col). */
  function Offset(row: int, col: int): (k: int)
    requires InCanvas(row, col)
    ensures 0 <= k < CELLS
    ensures k == row * (WIDTH / 2) + col / 2
  {
    (row * WIDTH + col) / 2
  }

  function HighByte(c: Cell): bv8 { (c >> 8) as bv8 }
  function LowByte(c: Cell): bv8 { (c & 0xFF) as bv8 }

  /** The palette index shown at pixel (row, col). */
  function PixelAt(buf: Buffer, row: int, col: int): bv8
    requires InCanvas(row, col)
  {
    var cell := buf[Offset(row, col)];
    if col % 2 == 1 then HighByte(cell) else LowByte(cell)
  }

  /** Two pixels share a cell exactly when they are horizontal neighbours
      `2j` and `2j + 1` of the same row. */
  lemma SameCell(r1: int, c1: int, r2: int, c2: int)
    requires InCanvas(r1, c1) && InCanvas(r2, c2)
    ensures Offset(r1, c1) == Offset(r2, c2) <==> r1 == r2 && c1 / 2 == c2 / 2
  {
  }

  /** `put_pixel`: read the cell, replace the byte selected by the column's
      parity, write the cell back.  Pixel (row, col) now shows `color`; every
      other pixel, including the one sharing the cell, and every other cell
      are as before. */
  function PutPixel(buf: Buffer, row: int, col: int, color: bv8): (r: Buffer)
    requires InCanvas(row, col)
    ensures forall k :: 0 <= k < CELLS && k != Offset(row, col) ==> r[k] == buf[k]
    ensures col % 2 == 1 ==> (HighByte(r[Offset(row, col)]) == color
                              && LowByte(r[Offset(row, col)]) == LowByte(buf[Offset(row, col)]))
    ensures col % 2 == 0 ==> (LowByte(r[Offset(row, col)]) == color
                              && HighByte(r[Offset(row, col)]) == HighByte(buf[Offset(row, col)]))
    ensures forall r2, c2 | InCanvas(r2, c2) ::
              PixelAt(r, r2, c2) == if r2 == row && c2 == col then color else PixelAt(buf, r2, c2)
  {
    var offset := Offset(row, col);
    var r := buf[offset := Pack(buf[offset], col % 2 == 1, color)];
    PutPixelReadBack(buf, r, row, col, color);
    r
  }

  /** The read-modify-write of one cell: `(color << 8) | (pixel & 0x00ff)` for an
      odd column, `(pixel & 0xff00) | color` for an even one. */
  function Pack(pixel: Cell, odd: bool, color: bv8): (c: Cell)
    ensures odd ==> HighByte(c) == color && LowByte(c) == LowByte(pixel)
    ensures !odd ==> LowByte(c) == color && HighByte(c) == HighByte(pixel)
  {
    if odd then ((color as bv16) << 8) | (pixel & 0x00FF)
    else (pixel & 0xFF00) | (color as bv16)
  }

  lemma PutPixelReadBack(buf: Buffer, r: Buffer, row: int, col: int, color: bv8)
    requires InCanvas(row, col)
    requires forall k :: 0 <= k < CELLS && k != Offset(row, col) ==> r[k] == buf[k]
    requires r[Offset(row, col)] == Pack(buf[Offset(row, col)], col % 2 == 1, color)
    ensures forall r2, c2 | InCanvas(r2, c2) ::
              PixelAt(r, r2, c2) == if r2 == row && c2 == col then color else PixelAt(buf, r2, c2)
  {
    forall r2, c2 | InCanvas(r2, c2)
      ensures PixelAt(r, r2, c2) == if r2 == row && c2 == col then color else PixelAt(buf, r2, c2)
    {
      SameCell(row, col, r2, c2);
    }
  }

  /** A cell holds its two pixels: the odd one in the high byte, the even one in
      the low byte, so the pixels of a buffer determine every cell. */
  lemma CellFromPixels(buf: Buffer, k: int)
    requires 0 <= k < CELLS
    ensures InCanvas(k / 120, 2 * (k % 120)) && InCanvas(k / 120, 2 * (k % 120) + 1)
    ensures buf[k] == ((PixelAt(buf, k / 120, 2 * (k % 120) + 1) as bv16) << 8)
                      | (PixelAt(buf, k / 120, 2 * (k % 120)) as bv16)
  {
    var row, j := k / 120, k % 120;
    assert Offset(row, 2 * j) == k && Offset(row, 2 * j + 1) == k;
    var c := buf[k];
    assert c == ((HighByte(c) as bv16) << 8) | (LowByte(c) as bv16);
  }

  /** Buffers that agree on every pixel are equal. */
  lemma PixelsDetermineBuffer(a: Buffer, b: Buffer)
    requires forall row, col | InCanvas(row, col) :: PixelAt(a, row, col) == PixelAt(b, row, col)
    ensures a == b
  {
    forall k | 0 <= k < CELLS
      ensures a[k] == b[k]
    {
      CellFromPixels(a, k);
      CellFromPixels(b, k);
    }
  }

  /** The cell value of two neighbouring pixels both painted `color`. */
  function Fill(color: bv8): (c: Cell)
    ensures HighByte(c) == color && LowByte(c) == color
  {
    ((color as bv16) << 8) | (color as bv16)
  }

  /** Every pixel shows `color`. */
  ghost predicate Uniform(buf: Buffer, color: bv8) {
    forall row, col | InCanvas(row, col) :: PixelAt(buf, row, col) == color
  }

  /** A uniformly painted buffer is the buffer whose every cell is `Fill(color)`. */
  lemma UniformIsFilled(buf: Buffer, color: bv8)
    requires Uniform(buf, color)
    ensures buf == seq(CELLS, _ => Fill(color))
  {
    var f: Buffer := seq(CELLS, _ => Fill(color));
    forall row, col | InCanvas(row, col)
      ensures PixelAt(f, row, col) == color
    {
    }
    PixelsDetermineBuffer(buf, f);
  }
}
