/** The ball update performed at the start of `draw_ball`: one step of motion,
    wall clamping and reflection, then the paddle bounces. */
module Physics {
  import opened Geometry

  /** The ball's velocity, two `signed short` components. */
  datatype Velocity = Velocity(dx: i16, dy: i16)

  predicate Unit(d: int) { d == 1 || d == -1 }

  /** `-d` on a `signed short`: negation in `int`, converted back modulo 2^16,
      so -32768 is the only value whose negation wraps (to itself). */
  function Negate(d: i16): (r: i16)
    ensures d != -0x8000 ==> r + d == 0
    ensures d == -0x8000 ==> r == d
    ensures Unit(d) ==> Unit(r) && r != d
  {
    if d == -0x8000 then d else -d
  }

  /** The moved coordinate touches or crosses a wall of an axis of length
      `limit`.  On an unsigned coordinate `p <= 0` means `p == 0`. */
  predicate WallHit(p: u16, size: u16, limit: int) {
    p == 0 || p + size >= limit
  }

  /** One axis of the wall resolution: clamp to 0 at the low wall, otherwise
      to `limit - size` at the high wall (stored back into `unsigned short`),
      negating the velocity component in both cases. */
  function Reflect(p: u16, size: u16, limit: int, d: i16): (r: (u16, i16))
    ensures size <= limit ==> r.0 + size <= limit
    ensures !WallHit(p, size, limit) ==> r == (p, d)
    ensures WallHit(p, size, limit) ==> r.1 == Negate(d)
    ensures p == 0 ==> r.0 == 0
    ensures p != 0 && p + size >= limit ==> r.0 == Wrap16(limit - size)
  {
    if p == 0 then (0, Negate(d))
    else if p + size >= limit then (Wrap16(limit - size), Negate(d))
    else (p, d)
  }

  datatype BallState = BallState(ball: Rect, v: Velocity)

  /** The x coordinate after the position update `ball->x += *dx`. */
  function MovedX(ball: Rect, v: Velocity): u16 { Wrap16(ball.x + v.dx) }
  function MovedY(ball: Rect, v: Velocity): u16 { Wrap16(ball.y + v.dy) }

  /** The ball physics of `draw_ball`, in the order of the source: integrate,
      resolve the side walls, resolve top and bottom, force `dx = 1` on contact
      with the player's paddle, and finally force `dx = -1` on contact with the
      CPU's paddle (which therefore wins when both touch). */
  function MoveBall(ball: Rect, player: Rect, cpu: Rect, v: Velocity): (r: BallState)
    // only the position moves; size and color are kept
    ensures r.ball == ball.(x := r.ball.x, y := r.ball.y)
    // the ball ends on the canvas whenever it fits on it
    ensures ball.width <= WIDTH ==> r.ball.x + ball.width <= WIDTH
    ensures ball.height <= HEIGHT ==> r.ball.y + ball.height <= HEIGHT
    // a wall hit clamps the ball exactly against that wall
    ensures MovedX(ball, v) == 0 ==> r.ball.x == 0
    ensures MovedX(ball, v) != 0 && MovedX(ball, v) + ball.width >= WIDTH ==> r.ball.x == Wrap16(WIDTH - ball.width)
    ensures MovedY(ball, v) == 0 ==> r.ball.y == 0
    ensures MovedY(ball, v) != 0 && MovedY(ball, v) + ball.height >= HEIGHT ==> r.ball.y == Wrap16(HEIGHT - ball.height)
    // away from the walls the ball moves by exactly its velocity
    ensures !WallHit(MovedX(ball, v), ball.width, WIDTH) ==> r.ball.x == MovedX(ball, v)
    ensures !WallHit(MovedY(ball, v), ball.height, HEIGHT) ==> r.ball.y == MovedY(ball, v)
    // paddles never touch dy: only the top and bottom walls do
    ensures r.v.dy == (if WallHit(MovedY(ball, v), ball.height, HEIGHT) then Negate(v.dy) else v.dy)
    // the CPU's paddle is checked last and wins
    ensures Intersects(r.ball, cpu) ==> r.v.dx == -1
    ensures Intersects(r.ball, player) && !Intersects(r.ball, cpu) ==> r.v.dx == 1
    // without paddle contact only a side wall changes dx
    ensures !Intersects(r.ball, player) && !Intersects(r.ball, cpu) ==>
              r.v.dx == (if WallHit(MovedX(ball, v), ball.width, WIDTH) then Negate(v.dx) else v.dx)
    // unit velocities stay unit
    ensures Unit(v.dx) && Unit(v.dy) ==> Unit(r.v.dx) && Unit(r.v.dy)
  {
    var (x, dx) := Reflect(MovedX(ball, v), ball.width, WIDTH, v.dx);
    var (y, dy) := Reflect(MovedY(ball, v), ball.height, HEIGHT, v.dy);
    var moved := ball.(x := x, y := y);
    var dx1 := if Intersects(moved, player) then 1 else dx;
    var dx2 := if Intersects(moved, cpu) then -1 else dx1;
    BallState(moved, Velocity(dx2, dy))
  }

  /** With no wall and no paddle in reach the ball keeps its velocity. */
  lemma FreeFlightKeepsVelocity(ball: Rect, player: Rect, cpu: Rect, v: Velocity)
    requires !WallHit(MovedX(ball, v), ball.width, WIDTH)
    requires !WallHit(MovedY(ball, v), ball.height, HEIGHT)
    requires !Intersects(MoveBall(ball, player, cpu, v).ball, player)
    requires !Intersects(MoveBall(ball, player, cpu, v).ball, cpu)
    ensures MoveBall(ball, player, cpu, v) == BallState(ball.(x := MovedX(ball, v), y := MovedY(ball, v)), v)
  {
  }

  /** A ball at x = 0 still moving left wraps to x = 65535 in `unsigned short`;
      the left-wall test `x <= 0` misses it and the right-wall test catches it,
      so the ball is placed against the RIGHT wall and its dx turns to +1. */
  lemma WrapCaughtByRightWall(ball: Rect, player: Rect, cpu: Rect, v: Velocity)
    requires ball.x == 0 && v.dx == -1 && ball.width <= WIDTH
    requires var r := MoveBall(ball, player, cpu, v);
             !Intersects(r.ball, player) && !Intersects(r.ball, cpu)
    ensures MovedX(ball, v) == 0xFFFF
    ensures MoveBall(ball, player, cpu, v).ball.x == WIDTH - ball.width
    ensures MoveBall(ball, player, cpu, v).v.dx == 1
  {
  }

  /** A ball that reaches x = 0 from x = 1 is clamped there and sent right. */
  lemma LeftWallClamp(ball: Rect, player: Rect, cpu: Rect, v: Velocity)
    requires ball.x == 1 && v.dx == -1
    requires var r := MoveBall(ball, player, cpu, v);
             !Intersects(r.ball, cpu)
    ensures MoveBall(ball, player, cpu, v).ball.x == 0
    ensures MoveBall(ball, player, cpu, v).v.dx == 1
  {
  }

  /** The player's paddle as set up by `main` (x 10, y 60, height 30, width 5)
      and a 2 x 2 ball at (12, 70) moving left: after the step the ball still
      touches the paddle and is sent right. */
  lemma PaddleBounceScenario(dy: i16)
    requires Unit(dy)
    ensures var r := MoveBall(Rect(12, 70, 2, 2, 2), Rect(10, 60, 30, 5, 0), Rect(220, 60, 30, 5, 1), Velocity(-1, dy));
            r.ball.x == 11 && r.v == Velocity(1, dy)
  {
  }
}
