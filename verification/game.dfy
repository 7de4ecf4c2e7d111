/** The game: `resetGame`, the setup at the top of `main`, and one iteration
    of its frame loop as a step function over explicit state. */
module Game {
  import opened Geometry
  import opened Bits
  import opened Surface
  import opened Raster
  import opened Physics
  import opened Controls
  import opened Scoring
  import opened Display

  /** Position `resetGame` gives the ball (the canvas centre) and the paddles. */
  const CENTER_X: int := 120
  const CENTER_Y: int := 80
  const PADDLE_RESET_Y: int := 70

  /** The entity state `resetGame` writes back to its caller. */
  datatype Reset = Reset(ball: Rect, player: Rect, cpu: Rect, v: Velocity, cpuHandicap: u16)

  /** The entity part of `resetGame`: centre the ball, serve along the
      directions chosen by bits 0 and 1 of the frame counter, bring both
      paddles to y = 70 and clear the handicap flag. */
  function ResetEntities(ball: Rect, player: Rect, cpu: Rect, frameCounter: u32): (r: Reset)
    ensures r.ball == ball.(x := CENTER_X, y := CENTER_Y)
    ensures Unit(r.v.dx) && Unit(r.v.dy)
    ensures r.v.dx == 1 <==> frameCounter % 2 == 1
    ensures r.v.dy == 1 <==> (frameCounter / 2) % 2 == 1
    ensures r.player == player.(y := PADDLE_RESET_Y) && r.cpu == cpu.(y := PADDLE_RESET_Y)
    ensures r.cpuHandicap == 0
  {
    BitAndPow2(frameCounter, 0);
    BitAndPow2(frameCounter, 1);
    LowBits(frameCounter);
    var dx := if BitAnd(frameCounter, 1) != 0 then 1 else -1;
    var dy := if BitAnd(frameCounter, 2) != 0 then 1 else -1;
    Reset(ball.(x := CENTER_X, y := CENTER_Y), player.(y := PADDLE_RESET_Y), cpu.(y := PADDLE_RESET_Y),
          Velocity(dx, dy), 0)
  }

  /** Serve directions repeat with period 4 in the frame counter. */
  lemma ServePeriodFour(ball: Rect, player: Rect, cpu: Rect, fc: u32)
    requires fc + 4 < 0x1_0000_0000
    ensures ResetEntities(ball, player, cpu, fc + 4).v == ResetEntities(ball, player, cpu, fc).v
  {
    assert (fc + 4) % 2 == fc % 2;
    assert ((fc + 4) / 2) % 2 == (fc / 2) % 2;
  }

  /** `resetGame`: the entity reset together with clearing both buffers to
      `black`. */
  method ResetGame(black: bv8, ball: Rect, player: Rect, cpu: Rect, frameCounter: u32,
                   front: Buffer, back: Buffer)
    returns (r: Reset, front': Buffer, back': Buffer)
    ensures r == ResetEntities(ball, player, cpu, frameCounter)
    ensures Uniform(front', black) && Uniform(back', black)
    ensures front' == back'
  {
    r := ResetEntities(ball, player, cpu, frameCounter);
    front' := ClearScreen(front, black);
    back' := ClearScreen(back, black);
  }

  /** Everything `main` keeps across frames. */
  datatype Game = Game(
    player: Rect, cpu: Rect, ball: Rect, v: Velocity,
    scores: Scores, cpuHandicap: u16, frameCounter: u32,
    drawing: BufferId, control: bv32)

  /** Palette indices returned by the six `add_color` calls of `main`, in order. */
  const PLAYER_COLOR: bv8 := 0
  const CPU_COLOR: bv8 := 1
  const BALL_COLOR: bv8 := 2

  /** The state before the first frame: with the fields in the order x, y,
      height, width, both paddles are 30 pixels tall and 5 wide. */
  function Init(): (g: Game)
    ensures g.player.height == 30 && g.player.width == 5 && g.cpu.height == 30 && g.cpu.width == 5
    ensures g.scores == Scores(0, 0, InPlay) && g.drawing == Front && Displayed(g.control) == Front
    ensures Inv(g)
  {
    Game(Rect(10, 60, 30, 5, PLAYER_COLOR), Rect(220, 60, 30, 5, CPU_COLOR), Rect(120, 80, 2, 2, BALL_COLOR),
         Velocity(-1, -1), Scores(0, 0, InPlay), 1, 0, Front, MODE4 | BG2)
  }

  /** The entities as they stand when a frame draws them: the CPU paddle has
      tracked the ball, and on a scoring frame `resetGame` has then served the
      ball and brought both paddles to y = 70 (the ball's position is decided
      before any of this, since `handle_cpu` does not move it). */
  function FrameEntities(g: Game): (e: Reset)
    ensures var reset := ScoreFrame(g.scores, CheckVictory(g.ball)).reset;
            && e.cpu == (if reset then HandleCpu(g.cpu, g.ball).(y := PADDLE_RESET_Y) else HandleCpu(g.cpu, g.ball))
            && e.player == (if reset then g.player.(y := PADDLE_RESET_Y) else g.player)
            && (reset ==>
                  && e.ball == g.ball.(x := CENTER_X, y := CENTER_Y) && e.cpuHandicap == 0
                  && (e.v.dx == 1 <==> Wrap32(g.frameCounter + 1) % 2 == 1)
                  && (e.v.dy == 1 <==> (Wrap32(g.frameCounter + 1) / 2) % 2 == 1)
                  && Unit(e.v.dx) && Unit(e.v.dy))
            && (!reset ==> e.ball == g.ball && e.v == g.v && e.cpuHandicap == g.cpuHandicap)
  {
    var cpu := HandleCpu(g.cpu, g.ball);
    if ScoreFrame(g.scores, CheckVictory(g.ball)).reset then ResetEntities(g.ball, g.player, cpu, Wrap32(g.frameCounter + 1))
    else Reset(g.ball, g.player, cpu, g.v, g.cpuHandicap)
  }

  /** One iteration of the frame loop of `main`, with the key register's value
      for this frame.  `Game` holds no pixel buffers: the drawing of a frame is
      modelled by the `Raster` methods.  The state changes in source order:
      frame counter, CPU paddle, scoring (and reset), ball physics, player
      paddle, buffer flip. */
  function Step(g: Game, buttons: u16): (r: Game)
    ensures r.frameCounter == Wrap32(g.frameCounter + 1)
    ensures r.scores.lastVictory == CheckVictory(g.ball)
    // the score block decides the scores: a left-edge ball credits the player,
    // a right-edge ball the CPU, each only on a change of outcome
    ensures r.scores == ScoreFrame(g.scores, CheckVictory(g.ball)).scores
    // `resetGame` clears the handicap flag; otherwise it is kept
    ensures r.cpuHandicap == FrameEntities(g).cpuHandicap
    ensures r.drawing == Other(g.drawing) && Displayed(r.control) == g.drawing
    ensures r.control & !SHOW_BACK == g.control & !SHOW_BACK
    ensures r.player.x == g.player.x && r.cpu.x == g.cpu.x
    // the CPU paddle tracks the ball before the goal check, and a scoring
    // frame then returns it to y = 70
    ensures r.cpu == (if ScoreFrame(g.scores, CheckVictory(g.ball)).reset
                      then HandleCpu(g.cpu, g.ball).(y := PADDLE_RESET_Y) else HandleCpu(g.cpu, g.ball))
    // the ball moves against the moved CPU paddle and the player's paddle
    // before the buttons act on it
    ensures var e := FrameEntities(g);
            BallState(r.ball, r.v) == MoveBall(e.ball, e.player, e.cpu, e.v)
    // the buttons act last, on the player's paddle as drawn
    ensures r.player == HandleButtons(FrameEntities(g).player, buttons)
  {
    var e := FrameEntities(g);
    var moved := MoveBall(e.ball, e.player, e.cpu, e.v);
    var player := HandleButtons(e.player, buttons);
    var flip := FlipBuffers(g.drawing, g.control);
    Game(player, e.cpu, moved.ball, moved.v, ScoreFrame(g.scores, CheckVictory(g.ball)).scores, e.cpuHandicap,
         Wrap32(g.frameCounter + 1), flip.next, flip.control)
  }

  /** Which score a frame credits: a ball at the left edge (`x <= 10`) gives the
      player a point, one at the right edge (`x >= 230`) gives the CPU a point,
      each only on the frame the outcome changes to that goal, and that frame
      also clears the handicap flag. */
  lemma StepCreditsScorer(g: Game, buttons: u16)
    ensures var r := Step(g, buttons);
            var reset := (g.ball.x <= 10 && g.scores.lastVictory != LeftGoal)
                         || (g.ball.x >= 230 && g.scores.lastVictory != RightGoal);
            && r.scores.playerScore == (if reset && g.ball.x <= 10 then Wrap16(g.scores.playerScore + 1) else g.scores.playerScore)
            && r.scores.cpuScore == (if reset && g.ball.x >= 230 then Wrap16(g.scores.cpuScore + 1) else g.scores.cpuScore)
            && r.cpuHandicap == (if reset then 0 else g.cpuHandicap)
  {
  }

  /** What every frame keeps true: sizes and columns as set up by `main`, every
      entity on the canvas, and a unit velocity on both axes. */
  predicate Inv(g: Game) {
    && g.player.x == 10 && g.player.height == 30 && g.player.width == 5 && g.player.y + 30 <= HEIGHT
    && g.cpu.x == 220 && g.cpu.height == 30 && g.cpu.width == 5 && g.cpu.y + 30 <= HEIGHT
    && g.ball.width == 2 && g.ball.height == 2 && OnCanvas(g.ball)
    && Unit(g.v.dx) && Unit(g.v.dy)
  }

  /** The frame step preserves the invariant, whatever the buttons. */
  lemma StepPreservesInv(g: Game, buttons: u16)
    requires Inv(g)
    ensures Inv(Step(g, buttons))
  {
  }

  /** Both paddles and the ball drawn in a frame lie on the canvas: the paddles
      after the CPU move and the possible reset, and the ball after its physics
      step.  (The score tallies are not covered: past 28 and 29 points they
      leave the canvas.) */
  lemma FrameDrawsOnCanvas(g: Game)
    requires Inv(g)
    ensures var e := FrameEntities(g);
            OnCanvas(e.player) && OnCanvas(e.cpu)
            && OnCanvas(MoveBall(e.ball, e.player, e.cpu, e.v).ball)
  {
  }

  /** Scores never decrease from one frame to the next and at most one of them
      grows, by one, exactly when the game is reset. */
  lemma StepScores(g: Game, buttons: u16)
    requires g.scores.playerScore < 0xFFFF && g.scores.cpuScore < 0xFFFF
    ensures var r := Step(g, buttons);
            g.scores.playerScore <= r.scores.playerScore && g.scores.cpuScore <= r.scores.cpuScore
            && Total(r.scores) <= Total(g.scores) + 1
            && (Total(r.scores) == Total(g.scores) + 1 <==>
                  CheckVictory(g.ball) != InPlay && CheckVictory(g.ball) != g.scores.lastVictory)
  {
  }

  /** A scoring frame serves the ball from the centre of the canvas. */
  lemma ScoringFrameServesFromCentre(g: Game, buttons: u16)
    requires Inv(g)
    requires CheckVictory(g.ball) != InPlay && CheckVictory(g.ball) != g.scores.lastVictory
    ensures var r := Step(g, buttons);
            Dist(r.ball.x, CENTER_X) == 1 && Dist(r.ball.y, CENTER_Y) == 1
            && CheckVictory(r.ball) == InPlay
  {
  }
}
