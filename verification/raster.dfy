/** Drawing built on `put_pixel`: filled rectangles, full-screen clear, the
    dashed net, the score tallies, and the drawing half of `draw_ball`. */
module Raster {
  import opened Geometry
  import opened Surface
  import opened Physics

  /** `draw_rectangle`: every pixel of `[y, y + height) x [x, x + width)` takes
      the rectangle's color, row by row; all other pixels keep theirs.  The
      rectangle must lie on the canvas: the offset computation of `put_pixel`
      is not bounds-checked. */
  method DrawRectangle(buf: Buffer, s: Rect) returns (r: Buffer)
    requires OnCanvas(s)
    ensures forall row, col | InCanvas(row, col) ::
              PixelAt(r, row, col) == if InRect(s, row, col) then s.color else PixelAt(buf, row, col)
  {
    r := buf;
    var row := s.y;
    while row < s.y + s.height
      invariant s.y <= row <= s.y + s.height
      invariant forall r2, c2 | InCanvas(r2, c2) ::
                  PixelAt(r, r2, c2) == if s.y <= r2 < row && s.x <= c2 < s.x + s.width then s.color
                                        else PixelAt(buf, r2, c2)
    {
      var col := s.x;
      while col < s.x + s.width
        invariant s.x <= col <= s.x + s.width
        invariant forall r2, c2 | InCanvas(r2, c2) ::
                    PixelAt(r, r2, c2) == if (s.y <= r2 < row && s.x <= c2 < s.x + s.width)
                                             || (r2 == row && s.x <= c2 < col) then s.color
                                          else PixelAt(buf, r2, c2)
      {
        r := PutPixel(r, row, col, s.color);
        col := col + 1;
      }
      row := row + 1;
    }
  }

  /** `clear_screen`: every pixel of the canvas takes `color`, which leaves
      every cell holding `color` in both bytes. */
  method ClearScreen(buf: Buffer, color: bv8) returns (r: Buffer)
    ensures Uniform(r, color)
    ensures r == seq(CELLS, _ => Fill(color))
  {
    r := buf;
    var row := 0;
    while row < HEIGHT
      invariant 0 <= row <= HEIGHT
      invariant forall r2, c2 | InCanvas(r2, c2) && r2 < row :: PixelAt(r, r2, c2) == color
    {
      var col := 0;
      while col < WIDTH
        invariant 0 <= col <= WIDTH
        invariant forall r2, c2 | InCanvas(r2, c2) && (r2 < row || (r2 == row && c2 < col)) ::
                    PixelAt(r, r2, c2) == color
      {
        r := PutPixel(r, row, col, color);
        col := col + 1;
      }
      row := row + 1;
    }
    UniformIsFilled(r, color);
  }

  /** Row painted by `draw_net`: the source passes `WIDTH / 2` as the row
      argument of `put_pixel`, so the dashes run along row 120. */
  const NET_ROW: int := WIDTH / 2

  /** Pixel (row, col) is part of the net: row 120, columns below 160, in
      dashes of 4 pixels every 8. */
  predicate OnNet(row: int, col: int) {
    row == NET_ROW && 0 <= col < HEIGHT && col % 8 < 4
  }

  /** `draw_net`: for y = 0, 8, ..., 152 and i = 0..3, pixel (120, y + i) takes
      `white`; nothing else changes. */
  method DrawNet(buf: Buffer, white: bv8) returns (r: Buffer)
    ensures forall row, col | InCanvas(row, col) ::
              PixelAt(r, row, col) == if OnNet(row, col) then white else PixelAt(buf, row, col)
  {
    r := buf;
    var x := NET_ROW;
    var y := 0;
    while y < HEIGHT
      invariant 0 <= y <= HEIGHT && y % 8 == 0
      invariant forall r2, c2 | InCanvas(r2, c2) ::
                  PixelAt(r, r2, c2) == if OnNet(r2, c2) && c2 < y then white else PixelAt(buf, r2, c2)
    {
      var i := 0;
      while i < 4
        invariant 0 <= i <= 4
        invariant forall r2, c2 | InCanvas(r2, c2) ::
                    PixelAt(r, r2, c2) == if OnNet(r2, c2) && c2 < y + i then white else PixelAt(buf, r2, c2)
      {
        r := PutPixel(r, x, y + i, white);
        i := i + 1;
      }
      y := y + 8;
    }
  }

  /** Largest tallies that stay on the canvas: player tally `i` starts at
      x = 230 - 8(i + 1), which wraps below zero for i = 28; CPU tally `i`
      ends at x = 15 + 8i, which passes the right edge for i = 29. */
  const MAX_PLAYER_TALLIES: int := 28
  const MAX_CPU_TALLIES: int := 29

  /** The rectangle of the player's tally `i`: 5 x 3 pixels at row 5, placed
      from the right edge leftward. */
  function PlayerTally(i: nat, color: bv8): (t: Rect)
    requires i < MAX_PLAYER_TALLIES
    ensures OnCanvas(t)
  {
    Rect(WIDTH - 10 - (i + 1) * 8, 5, 3, 5, color)
  }

  /** The rectangle of the CPU's tally `i`, placed from the left edge rightward. */
  function CpuTally(i: nat, color: bv8): (t: Rect)
    requires i < MAX_CPU_TALLIES
    ensures OnCanvas(t)
  {
    Rect(10 + i * 8, 5, 3, 5, color)
  }

  /** Pixel (row, col) is covered by one of the first `n` player tallies. */
  predicate InPlayerTallies(n: nat, row: int, col: int)
    requires n <= MAX_PLAYER_TALLIES
  {
    n > 0 && (InPlayerTallies(n - 1, row, col) || InRect(PlayerTally(n - 1, 0), row, col))
  }

  predicate InCpuTallies(n: nat, row: int, col: int)
    requires n <= MAX_CPU_TALLIES
  {
    n > 0 && (InCpuTallies(n - 1, row, col) || InRect(CpuTally(n - 1, 0), row, col))
  }

  /** `draw_score`: one tally per point, the player's first, then the CPU's,
      so a pixel covered by both shows the CPU's color. */
  method DrawScore(buf: Buffer, playerScore: u16, cpuScore: u16, playerColor: bv8, cpuColor: bv8)
    returns (r: Buffer)
    requires playerScore <= MAX_PLAYER_TALLIES && cpuScore <= MAX_CPU_TALLIES
    ensures forall row, col | InCanvas(row, col) ::
              PixelAt(r, row, col) == if InCpuTallies(cpuScore, row, col) then cpuColor
                                      else if InPlayerTallies(playerScore, row, col) then playerColor
                                      else PixelAt(buf, row, col)
  {
    r := buf;
    var i := 0;
    while i < playerScore
      invariant 0 <= i <= playerScore
      invariant forall r2, c2 | InCanvas(r2, c2) ::
                  PixelAt(r, r2, c2) == if InPlayerTallies(i, r2, c2) then playerColor else PixelAt(buf, r2, c2)
    {
      r := DrawRectangle(r, PlayerTally(i, playerColor));
      i := i + 1;
    }
    ghost var mid := r;
    i := 0;
    while i < cpuScore
      invariant 0 <= i <= cpuScore
      invariant forall r2, c2 | InCanvas(r2, c2) ::
                  PixelAt(r, r2, c2) == if InCpuTallies(i, r2, c2) then cpuColor else PixelAt(mid, r2, c2)
    {
      r := DrawRectangle(r, CpuTally(i, cpuColor));
      i := i + 1;
    }
  }

  /** `draw_ball`: the physics step, then the ball drawn at its new place. */
  method DrawBall(buf: Buffer, ball: Rect, player: Rect, cpu: Rect, v: Velocity)
    returns (r: Buffer, next: BallState)
    requires ball.width <= WIDTH && ball.height <= HEIGHT
    ensures next == MoveBall(ball, player, cpu, v)
    ensures OnCanvas(next.ball)
    ensures forall row, col | InCanvas(row, col) ::
              PixelAt(r, row, col) == if InRect(next.ball, row, col) then ball.color else PixelAt(buf, row, col)
  {
    next := MoveBall(ball, player, cpu, v);
    r := DrawRectangle(buf, next.ball);
  }
}
