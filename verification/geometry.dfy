/** Canvas geometry, the fixed-width integer types of the C program, and the
    `rectangle` record shared by the paddles, the ball and the score tallies. */
module Geometry {

  /** Canvas size in pixels (mode 4, 240 x 160). */
  const WIDTH: int := 240
  const HEIGHT: int := 160

  /** `unsigned short`, `signed short` and `unsigned int` of the target. */
  type u16 = x: int | 0 <= x < 0x1_0000
  type i16 = x: int | -0x8000 <= x < 0x8000
  type u32 = x: int | 0 <= x < 0x1_0000_0000

  /** Conversion of an int result back into an `unsigned short` (wraps modulo 2^16). */
  function Wrap16(x: int): (r: u16)
    ensures 0 <= x < 0x1_0000 ==> r == x
    ensures x < 0 && -0x1_0000 <= x ==> r == x + 0x1_0000
  {
    x % 0x1_0000
  }

  /** Conversion of an int result back into an `unsigned int` (wraps modulo 2^32). */
  function Wrap32(x: int): (r: u32)
    ensures 0 <= x < 0x1_0000_0000 ==> r == x
    ensures x == 0x1_0000_0000 ==> r == 0
  {
    x % 0x1_0000_0000
  }

  /** `struct rectangle`; the fields are declared in the order x, y, height, width,
      so a positional initializer `{10, 60, 30, 5, c}` gives height 30 and width 5. */
  datatype Rect = Rect(x: u16, y: u16, height: u16, width: u16, color: bv8)

  predicate InCanvas(row: int, col: int) {
    0 <= row < HEIGHT && 0 <= col < WIDTH
  }

  /** The rectangle lies entirely on the canvas. */
  predicate OnCanvas(s: Rect) {
    s.x + s.width <= WIDTH && s.y + s.height <= HEIGHT
  }

  /** Pixel (row, col) is painted when `s` is filled. */
  predicate InRect(s: Rect, row: int, col: int) {
    s.y <= row < s.y + s.height && s.x <= col < s.x + s.width
  }

  /** `intersects`: true unless one of the four strict separations holds.  The
      right and bottom edges are `x + width` and `y + height`, computed in `int`
      after promotion, so they never wrap.  The result is characterised as the
      overlap of the closed extents on both axes. */
  function Intersects(a: Rect, b: Rect): (r: bool)
    ensures r <==> (Max(a.x, b.x) <= Min(a.x + a.width, b.x + b.width)
                    && Max(a.y, b.y) <= Min(a.y + a.height, b.y + b.height))
  {
    var aRight := a.x + a.width;
    var aBottom := a.y + a.height;
    var bRight := b.x + b.width;
    var bBottom := b.y + b.height;
    !(aRight < b.x || a.x > bRight || aBottom < b.y || a.y > bBottom)
  }

  function Max(a: int, b: int): int { if a < b then b else a }
  function Min(a: int, b: int): int { if a < b then a else b }

  /** Point (px, py) lies in the closed box [x, x + width] x [y, y + height]. */
  predicate InClosedBox(s: Rect, px: int, py: int) {
    s.x <= px <= s.x + s.width && s.y <= py <= s.y + s.height
  }

  /** Two rectangles intersect exactly when their closed boxes share a point. */
  lemma IntersectsIffSharedPoint(a: Rect, b: Rect)
    ensures Intersects(a, b) <==> exists px, py :: InClosedBox(a, px, py) && InClosedBox(b, px, py)
  {
    if Intersects(a, b) {
      var px, py := Max(a.x, b.x), Max(a.y, b.y);
      assert InClosedBox(a, px, py) && InClosedBox(b, px, py);
    }
  }

  /** The test does not depend on the order of its arguments. */
  lemma IntersectsSymmetric(a: Rect, b: Rect)
    ensures Intersects(a, b) == Intersects(b, a)
  {
  }

  /** Every rectangle intersects itself, even one of zero size. */
  lemma IntersectsReflexive(a: Rect)
    ensures Intersects(a, a)
  {
  }

  /** Edges that touch count as contact (the comparisons are non-strict), while a
      one-pixel gap is a separation. */
  lemma TouchingEdgesIntersect(a: Rect, b: Rect)
    requires a.x + a.width == b.x
    requires a.y == b.y
    ensures Intersects(a, b)
    ensures b.x < 0xFFFF ==> !Intersects(a, b.(x := b.x + 1))
  {
  }
}
