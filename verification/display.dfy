/** Double buffering: two pixel buffers and bit 4 of the display control
    register, which selects the one on screen. */
module Display {

  /** The two buffers of mode 4, at the start and the middle of video memory. */
  datatype BufferId = Front | Back

  /** `SHOW_BACK`: bit 4 of `display_control`. */
  const SHOW_BACK: bv32 := 0x10
  /** `MODE4 | BG2`, the value `main` stores before the first frame. */
  const MODE4: bv32 := 0x0004
  const BG2: bv32 := 0x0400

  /** The buffer the display control word puts on screen. */
  function Displayed(control: bv32): BufferId {
    if control & SHOW_BACK == 0 then Front else Back
  }

  function Other(b: BufferId): BufferId {
    if b == Front then Back else Front
  }

  datatype Flip = Flip(next: BufferId, control: bv32)

  /** `flip_buffers`: given the buffer just drawn, clear `SHOW_BACK` when it is
      the front buffer and set it otherwise, then return the other buffer as
      the next draw target.  No other bit of the control word changes. */
  function FlipBuffers(drawn: BufferId, control: bv32): (r: Flip)
    ensures r.next == Other(drawn) && r.next != drawn
    ensures r.control & !SHOW_BACK == control & !SHOW_BACK
    ensures drawn == Front ==> r.control & SHOW_BACK == 0
    ensures drawn == Back ==> r.control & SHOW_BACK == SHOW_BACK
    ensures Displayed(r.control) == drawn
    ensures Displayed(r.control) != r.next
  {
    if drawn == Front then Flip(Back, control & !SHOW_BACK)
    else Flip(Front, control | SHOW_BACK)
  }

  /** Bit `k` of a 32-bit word. */
  function Bit32(w: bv32, k: bv32): bool
    requires k < 32
  {
    (w >> k) & 1 == 1
  }

  /** Flipping touches bit 4 alone: every other bit of the control word is
      carried over. */
  lemma FlipKeepsOtherBits(drawn: BufferId, control: bv32, k: bv32)
    requires k < 32 && k != 4
    ensures Bit32(FlipBuffers(drawn, control).control, k) == Bit32(control, k)
    ensures Bit32(FlipBuffers(drawn, control).control, 4) == (drawn == Back)
  {
  }

  /** Two flips bring the draw target back to where it started, with the
      other buffer on screen and the remaining bits untouched. */
  lemma FlipTwice(drawn: BufferId, control: bv32)
    ensures var f1 := FlipBuffers(drawn, control);
            var f2 := FlipBuffers(f1.next, f1.control);
            f2.next == drawn && Displayed(f2.control) == Other(drawn)
            && f2.control & !SHOW_BACK == control & !SHOW_BACK
  {
  }
}
