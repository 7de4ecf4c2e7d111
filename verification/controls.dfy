/** Paddle control: the player's paddle follows the active-low button register,
    the CPU's paddle tracks the ball one pixel per frame. */
module Controls {
  import opened Geometry
  import opened Bits

  /** Button masks of the key register (bit positions 6 and 7). */
  const BUTTON_UP: u16 := 64
  const BUTTON_DOWN: u16 := 128

  /** `button_pressed`: the key register is active-low, so a button is held
      when its bit reads 0.  `reg` is the value read from the register. */
  function ButtonPressed(reg: u16, button: u16): (pressed: bool)
    ensures button == BUTTON_DOWN ==> (pressed <==> Bit(reg, 7) == 0)
    ensures button == BUTTON_UP ==> (pressed <==> Bit(reg, 6) == 0)
  {
    ButtonMasks();
    MaskedBitClear(reg, 7);
    MaskedBitClear(reg, 6);
    BitAnd(reg, button) == 0
  }

  /** For a single-bit mask `1 << k`, the button counts as pressed exactly when
      bit `k` of the register is clear. */
  lemma ButtonPressedIffBitClear(reg: u16, k: nat)
    requires k < 16
    ensures Pow2(k) < 0x1_0000
    ensures ButtonPressed(reg, Pow2(k)) <==> Bit(reg, k) == 0
  {
    Pow2Monotone(k, 15);
    assert Pow2(15) == 0x8000;
    MaskedBitClear(reg, k);
  }

  lemma {:induction false} Pow2Monotone(j: nat, k: nat)
    requires j <= k
    ensures Pow2(j) <= Pow2(k)
  {
    if j < k {
      Pow2Monotone(j, k - 1);
    }
  }

  lemma ButtonMasks()
    ensures BUTTON_UP == Pow2(6) && BUTTON_DOWN == Pow2(7)
  {
  }

  /** Predicates for "DOWN is held" and "UP is held", stated on the register bits. */
  predicate DownHeld(reg: u16) { Bit(reg, 7) == 0 }
  predicate UpHeld(reg: u16) { Bit(reg, 6) == 0 }

  /** `handle_buttons`: DOWN moves the paddle one pixel down while its bottom
      edge is above the canvas bottom; then UP moves it one pixel up while it is
      below the top.  Only `y` changes. */
  function HandleButtons(s: Rect, reg: u16): (r: Rect)
    ensures r == s.(y := r.y)
    ensures -1 <= r.y - s.y <= 1
    ensures s.y + s.height <= HEIGHT ==> r.y + r.height <= HEIGHT
    ensures !DownHeld(reg) && !UpHeld(reg) ==> r == s
    ensures DownHeld(reg) && !UpHeld(reg) ==> r.y == (if s.y + s.height < HEIGHT then s.y + 1 else s.y)
    ensures !DownHeld(reg) && UpHeld(reg) ==> r.y == (if s.y > 0 then s.y - 1 else s.y)
    ensures DownHeld(reg) && UpHeld(reg) && s.y + s.height < HEIGHT ==> r.y == s.y
    ensures DownHeld(reg) && UpHeld(reg) && s.y + s.height >= HEIGHT ==> r.y == (if s.y > 0 then s.y - 1 else s.y)
  {
    ButtonMasks();
    ButtonPressedIffBitClear(reg, 7);
    ButtonPressedIffBitClear(reg, 6);
    var s1 := if ButtonPressed(reg, BUTTON_DOWN) && s.y + s.height < HEIGHT then s.(y := s.y + 1) else s;
    if ButtonPressed(reg, BUTTON_UP) && s1.y > 0 then s1.(y := s1.y - 1) else s1
  }

  /** `handle_cpu`: the CPU paddle steps one pixel toward the ball, comparing the
      ball's top edge with the paddle's top edge, and never leaves the canvas. */
  function HandleCpu(cpu: Rect, ball: Rect): (r: Rect)
    ensures r == cpu.(y := r.y)
    ensures -1 <= r.y - cpu.y <= 1
    ensures r.y > cpu.y ==> ball.y > cpu.y
    ensures r.y < cpu.y ==> ball.y < cpu.y
    ensures r.y == cpu.y <==> (ball.y == cpu.y
                               || (ball.y > cpu.y && cpu.y + cpu.height >= HEIGHT)
                               || (ball.y < cpu.y && cpu.y == 0))
    ensures cpu.y + cpu.height <= HEIGHT ==> r.y + r.height <= HEIGHT
  {
    if ball.y > cpu.y && cpu.y + cpu.height < HEIGHT then
      cpu.(y := cpu.y + 1)
    else if ball.y < cpu.y && cpu.y > 0 then
      cpu.(y := cpu.y - 1)
    else
      cpu
  }

  /** Tracking closes the gap: when the paddle moves, the distance between the
      two top edges shrinks by exactly one. */
  lemma CpuClosesGap(cpu: Rect, ball: Rect)
    ensures var r := HandleCpu(cpu, ball);
            r.y != cpu.y ==> Dist(r.y, ball.y) + 1 == Dist(cpu.y, ball.y)
  {
  }

  function Dist(a: int, b: int): nat { if a < b then b - a else a - b }
}
