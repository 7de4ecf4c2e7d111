# Pong on a mode-4 framebuffer, modelled in Dafny

This project models the simulation and rendering core of a two-paddle ball
game written for a 240 x 160 display with 8-bit palette indices, double
buffering and an active-low key register. Everything is integer logic over
explicit state. The memory-mapped registers become plain values:

- the display control word is a `bv32`;
- the key register is a `u16` passed in each frame;
- the two pixel buffers are sequences of 19200 sixteen-bit cells, two pixels per cell.

Modules, leaf first:

- `Geometry`: canvas constants and the C integer types (`u16`, `i16`, `u32`, with explicit wrap-around). Also `struct rectangle`, whose fields are in the source's order x, y, height, width, and the `intersects` box test.
- `Bits`: the C `&` on non-negative integers and its single-bit view.
- `Controls`: `button_pressed`, `handle_buttons`, `handle_cpu`.
- `Physics`: the ball update at the start of `draw_ball`.
- `Surface`: the packed pixel buffer and `put_pixel`.
- `Raster`: `draw_rectangle`, `clear_screen`, `draw_net`, `draw_score`, and `draw_ball` as physics followed by drawing.
- `Display`: `flip_buffers`.
- `Scoring`: `checkVictory` and the edge-detecting score block of `main`.
- `Game`: `resetGame`, the setup in `main`, and one iteration of the frame loop as a step function, with the invariant it keeps.

Behaviour of the code that is easy to misread:

- The CPU paddle compares the ball's top edge with the paddle's top edge, not the ball's centre (pong.c:118, 123).
- A ball at the left edge (`x <= 10`) gives 0 from `checkVictory`, and `main` then increments `playerScore` (pong.c:294, 418-419). The tallies of `playerScore` start at the right edge of the screen and grow leftward (pong.c:340).
- `draw_net` passes `WIDTH / 2` as the row argument. The net is therefore a dashed horizontal line on row 120, at columns below 160 whose remainder by 8 is below 4 (pong.c:360-363).
- The positional initializers give the paddles height 30 and width 5 (pong.c:110, 380-381).
- One physics step moves the ball by one pixel. A ball at x = 5 reaches x = 4, not the wall.
- Coordinates are `unsigned short`, so `x <= 0` means `x == 0`. A ball at x = 0 still moving left wraps to 65535, and the right-wall test catches it. That ball is placed against the right wall (`Physics.WrapCaughtByRightWall`).

## Model

| member | source | states |
|---|---|---|
| Geometry.Intersects | pong.c:217-229 | the four-separation test is true exactly when the closed x-extents and the closed y-extents both overlap |
| Geometry.IntersectsIffSharedPoint | pong.c:217-229 | two rectangles intersect iff their closed boxes share a point |
| Geometry.IntersectsSymmetric | pong.c:217-229 | the test gives the same answer with its arguments swapped |
| Geometry.IntersectsReflexive | pong.c:217-229 | every rectangle intersects itself |
| Geometry.TouchingEdgesIntersect | pong.c:225 | rectangles at the same y whose edges touch (`a.x + a.width == b.x`) intersect; a one-pixel gap separates them |
| Bits.BitAndPow2 | pong.c:71 | `a & (1 << k)` is `1 << k` times bit k of `a` |
| Bits.MaskedBitClear | pong.c:74 | `(a & (1 << k)) == 0` iff bit k of `a` is clear |
| Controls.ButtonPressed | pong.c:68-82 | for the DOWN mask (bit 7) and the UP mask (bit 6), the button counts as pressed iff its register bit is 0 (active low) |
| Controls.ButtonPressedIffBitClear | pong.c:68-82 | with a single-bit mask, a button counts as pressed iff its register bit is 0 (active low) |
| Controls.HandleButtons | pong.c:201-214 | only `y` changes, by at most one. DOWN alone steps down while there is room below, UP alone steps up while y > 0, no button keeps the paddle. Both with room below give net 0. A paddle on the canvas stays on it |
| Controls.HandleCpu | pong.c:115-127 | only `y` changes, by at most one, toward the ball's top edge. It holds still exactly when aligned or blocked by the canvas edge, and stays on the canvas |
| Controls.CpuClosesGap | pong.c:118-126 | when the CPU paddle moves, the distance between the top edges shrinks by one |
| Physics.Negate | pong.c:244 | negation of a `signed short`: `r + d == 0` for every d except -32768, the only value whose negation wraps (to itself); a unit velocity becomes the opposite unit |
| Physics.Reflect | pong.c:241-257 | one axis of wall handling: a coordinate of 0 stays at 0, otherwise a coordinate with `p + size >= limit` is clamped to exactly `limit - size` (as `unsigned short`); a wall hit negates the component, no hit leaves position and component as moved; a ball that fits ends within `[0, limit - size]` |
| Physics.MoveBall | pong.c:237-267 | ball stays on the canvas; only position and velocity change; a wall hit clamps the moved coordinate to exactly 0 at the left/top wall, else to `240 - width` at the right wall and `160 - height` at the bottom wall; unit velocities stay unit; dy changes only on a top/bottom hit; CPU contact forces dx = -1, player contact alone dx = +1, otherwise only a side wall flips dx |
| Physics.FreeFlightKeepsVelocity | pong.c:238-267 | with no wall hit and no paddle contact the ball moves by its velocity and the velocity is unchanged |
| Physics.WrapCaughtByRightWall | pong.c:238-248 | from x = 0 moving left, the coordinate wraps to 65535 and the right-wall branch puts the ball at `240 - width` with dx = +1 |
| Physics.LeftWallClamp | pong.c:242-244 | from x = 1 moving left, the ball is clamped to x = 0 and sent right (unless the CPU paddle touches it) |
| Physics.PaddleBounceScenario | pong.c:259-262 | a 2 x 2 ball at (12, 70) moving left against the player's starting paddle is sent right and keeps dy |
| Surface.Offset | pong.c:133 | the cell of pixel (row, col) is `row * 120 + col / 2`, inside the 19200-cell buffer |
| Surface.SameCell | pong.c:133 | two on-canvas pixels share a cell iff they are in the same row and their columns have the same half |
| Surface.Pack | pong.c:139-148 | an odd column's byte goes to the high half, an even column's to the low half; the sibling byte is kept |
| Surface.PutPixel | pong.c:130-149 | afterwards pixel (row, col) shows `color` and every other pixel, the sibling included, and every other cell is unchanged |
| Surface.PixelsDetermineBuffer | pong.c:139-148 | two buffers that agree on every canvas pixel are equal, cell for cell |
| Surface.UniformIsFilled | pong.c:280-291 | a buffer showing one color everywhere holds that color in both bytes of every cell |
| Raster.DrawRectangle | pong.c:152-165 | exactly the pixels of `[y, y + height) x [x, x + width)` take the rectangle's color; all others keep theirs |
| Raster.ClearScreen | pong.c:280-291 | every pixel takes the color, and every cell equals that color in both bytes |
| Raster.DrawNet | pong.c:359-366 | exactly the pixels of row 120 at columns below 160 with remainder below 4 mod 8 turn white; all others keep theirs |
| Raster.PlayerTally | pong.c:340-344 | the player's tally i (i < 28) lies on the canvas |
| Raster.CpuTally | pong.c:350-354 | the CPU's tally i (i < 29) lies on the canvas |
| Raster.DrawScore | pong.c:334-357 | pixels in a CPU tally show the CPU color, otherwise pixels in a player tally show the player color, and all others keep theirs |
| Raster.DrawBall | pong.c:232-275 | the ball moves as `MoveBall` says, ends on the canvas, and exactly its new rectangle is painted in its color |
| Display.FlipBuffers | pong.c:183-198 | returns the other buffer. Clears `SHOW_BACK` for the front buffer and sets it for the back one, keeping all other bits. The buffer just drawn goes on screen and the new draw target is never the one displayed |
| Display.FlipKeepsOtherBits | pong.c:189-195 | every bit of the control word except bit 4 is carried over; bit 4 is set iff the back buffer was drawn |
| Display.FlipTwice | pong.c:183-198 | two flips restore the draw target and show the other buffer |
| Scoring.CheckVictory | pong.c:293-301 | exactly one outcome: left goal iff x <= 10, right goal iff x >= 230, in play iff 10 < x < 230 |
| Scoring.CheckVictoryCode | pong.c:293-301 | the integer code of the outcome is 0 iff x <= 10, 1 iff x >= 230, and 2 otherwise |
| Scoring.ScoreFrame | pong.c:415-429 | scores and resets exactly when the outcome changes to a goal, and afterwards remembers this frame's outcome. Below 65535 scores never decrease and at most one grows, by one |
| Scoring.RunCountsEdges | pong.c:415-429 | over any run of frames each score grows by the number of frames entering its goal outcome from a different one |
| Scoring.HeldGoalScoresOnce | pong.c:417-425 | a goal outcome held for n >= 1 frames scores once, not n times |
| Scoring.InPlayRearms | pong.c:427-429 | one in-play frame re-arms the detector so that the next goal frame scores |
| Game.ResetEntities | pong.c:304-331 | ball to (120, 80). dx = 1 iff bit 0 of the frame counter is set, else -1; dy likewise with bit 1. Both paddles to y = 70, nothing else of them changes, handicap 0 |
| Game.ServePeriodFour | pong.c:313-323 | the serve direction depends only on the frame counter modulo 4 |
| Game.ResetGame | pong.c:304-332 | resets the entities as above and leaves both buffers uniformly the background color |
| Game.FrameEntities | pong.c:406-429 | the entities a frame draws: the CPU paddle after `handle_cpu`; on a scoring frame the ball at the centre, served along bits 0 and 1 of the advanced frame counter, handicap 0 and both paddles at y = 70, otherwise ball, velocity, player and handicap unchanged |
| Game.Step | pong.c:399-448 | one frame: the counter advances mod 2^32, the score memory holds the frame's outcome. A scoring frame credits a left-edge ball (x <= 10) to the player and a right-edge ball (x >= 230) to the CPU, and clears the handicap flag; otherwise scores and flag are kept. The CPU paddle tracks the ball and returns to y = 70 on a scoring frame. The ball then moves by `MoveBall` against those entities, and the buttons act last on the player's paddle. The drawn buffer goes on screen, the other becomes the draw target, and the other control bits are kept |
| Game.StepCreditsScorer | pong.c:415-425 | a frame credits a left-edge ball (x <= 10) to the player and a right-edge ball (x >= 230) to the CPU, each only when the outcome changes to that goal, with unsigned-short wrap; that frame clears the handicap flag, otherwise it is kept |
| Game.Init | pong.c:372-396 | the state `main` sets up: paddles 30 tall and 5 wide, scores 0, score memory in play, drawing the front buffer while the front buffer is displayed; it satisfies the frame invariant |
| Game.StepPreservesInv | pong.c:401-447 | paddles and ball stay on the canvas with their sizes and columns, and velocities stay unit, for any button input |
| Game.FrameDrawsOnCanvas | pong.c:431-435 | both paddles and the ball drawn in a frame lie on the canvas (the score tallies are not covered) |
| Game.StepScores | pong.c:415-429 | below 65535, per frame scores never decrease and their total grows by one exactly on a scoring transition |
| Game.ScoringFrameServesFromCentre | pong.c:424-435 | after a scoring frame the ball is one pixel from the centre on both axes and back in play |

## Left out

- `wait_vblank` (pong.c:59-65) busy-waits on the scanline register. It only affects timing and changes no state.
- The `while (1)` loop is modelled as one iteration, `Game.Step`. Runs of frames are modelled only for the score block (`Scoring.Run`).
- `add_color` (pong.c:91-105) writes the hardware palette and is not modelled. `Game.Init` uses the indices it returns (0, 1, 2 for player, CPU and ball), because the call order fixes them.
- `update_screen` (pong.c:170-180) is not modelled. Its 3-pixel erase margin leaves the canvas near the edges, and the offset then wraps and writes outside the buffer. For this reason `Game.Step` carries no pixel buffers: the per-frame drawing is modelled by the separate `Raster` methods.
- The unused `randVal` read (pong.c:310) and the commented-out handicap code (pong.c:408-413) have no effect and are not modelled. `cpuHandicap` is kept only as the value `resetGame` zeroes.
- Raster.DrawScore: requires `playerScore <= 28` and `cpuScore <= 29`, because only those tallies lie on the canvas. A larger player tally's x wraps in `unsigned short`, and a larger CPU tally runs past the right edge.
- Surface.PutPixel: requires an on-canvas pixel. The source computes an unchecked `unsigned short` offset and relies on its callers. `Raster.DrawRectangle` and `Raster.DrawBall` likewise require on-canvas rectangles.
- Scoring.ScoreFrame: the monotonicity clause assumes scores below 65535. At 65535 an `unsigned short` score wraps to 0, and the contract states that wrap explicitly.
- Controls.ButtonPressed: `button_pressed` returns 0 or 1. The model returns a boolean, and `Geometry.Intersects` does the same.
- The `short` loop counters of the drawing loops are modelled as unbounded integers. On on-canvas rectangles they never leave the `short` range.
- Physics.Negate: negating a `signed short` of -32768 wraps to -32768. That conversion is implementation-defined in C; the model uses the usual two's-complement result.
