/** The scoring state machine: `checkVictory` classifies the ball position and
    the block of `main` that follows it counts a point only on the frame the
    classification changes to a goal. */
module Scoring {
  import opened Geometry

  /** Result of `checkVictory`: 0 when the ball is at the left edge, 1 at the
      right edge, 2 while it is in play. */
  datatype Outcome = LeftGoal | RightGoal | InPlay {
    function Code(): (c: int)
      ensures 0 <= c <= 2
    {
      match this
      case LeftGoal => 0
      case RightGoal => 1
      case InPlay => 2
    }
  }

  const LEFT_GOAL_X: int := 10
  const RIGHT_GOAL_X: int := 230

  /** `checkVictory`: exactly one of the three outcomes, decided by the ball's
      left edge alone. */
  function CheckVictory(ball: Rect): (o: Outcome)
    ensures o == LeftGoal <==> ball.x <= LEFT_GOAL_X
    ensures o == RightGoal <==> ball.x >= RIGHT_GOAL_X
    ensures o == InPlay <==> LEFT_GOAL_X < ball.x < RIGHT_GOAL_X
  {
    if ball.x <= LEFT_GOAL_X then LeftGoal
    else if ball.x >= RIGHT_GOAL_X then RightGoal
    else InPlay
  }

  /** The integer `checkVictory` returns: 0 when `x <= 10`, 1 when `x >= 230`,
      2 otherwise. */
  lemma CheckVictoryCode(ball: Rect)
    ensures CheckVictory(ball).Code() == (if ball.x <= LEFT_GOAL_X then 0 else if ball.x >= RIGHT_GOAL_X then 1 else 2)
  {
  }

  /** The scores and the edge detector's memory, all `unsigned short` in `main`.
      A left-edge outcome increments `playerScore`, whose tallies `draw_score`
      draws from the right edge of the screen leftward. */
  datatype Scores = Scores(playerScore: u16, cpuScore: u16, lastVictory: Outcome)

  /** `reset` tells whether `resetGame` runs in this frame. */
  datatype ScoreStep = ScoreStep(scores: Scores, reset: bool)

  function Total(t: Scores): int { t.playerScore + t.cpuScore }

  /** The score block of `main` for one frame's outcome. */
  function ScoreFrame(t: Scores, result: Outcome): (r: ScoreStep)
    // the memory always ends up holding this frame's outcome
    ensures r.scores.lastVictory == result
    // a point is counted, and the game reset, exactly on a change to a goal
    ensures r.reset <==> result != InPlay && result != t.lastVictory
    ensures r.scores.playerScore == if r.reset && result == LeftGoal then Wrap16(t.playerScore + 1) else t.playerScore
    ensures r.scores.cpuScore == if r.reset && result == RightGoal then Wrap16(t.cpuScore + 1) else t.cpuScore
    // below the 16-bit limit scores never decrease and at most one grows, by one
    ensures t.playerScore < 0xFFFF && t.cpuScore < 0xFFFF ==>
              t.playerScore <= r.scores.playerScore && t.cpuScore <= r.scores.cpuScore
              && Total(r.scores) == Total(t) + (if r.reset then 1 else 0)
  {
    if result != InPlay && result != t.lastVictory then
      match result
      case LeftGoal => ScoreStep(Scores(Wrap16(t.playerScore + 1), t.cpuScore, result), true)
      case RightGoal => ScoreStep(Scores(t.playerScore, Wrap16(t.cpuScore + 1), result), true)
    else if result == InPlay then
      ScoreStep(t.(lastVictory := InPlay), false)
    else
      ScoreStep(t, false)
  }

  /** The score block applied to the outcomes of consecutive frames. */
  function Run(t: Scores, results: seq<Outcome>): Scores
    decreases |results|
  {
    if results == [] then t else Run(ScoreFrame(t, results[0]).scores, results[1..])
  }

  /** Number of frames in `results` whose outcome is `side` while the previous
      frame's outcome (`prev` for the first) was not: the rising edges. */
  function Edges(prev: Outcome, results: seq<Outcome>, side: Outcome): nat
    decreases |results|
  {
    if results == [] then 0
    else (if results[0] == side && results[0] != prev then 1 else 0) + Edges(results[0], results[1..], side)
  }

  /** Over any run of frames, each score grows by the number of rising edges
      into its goal outcome, and the memory holds the last outcome. */
  lemma {:induction false} RunCountsEdges(t: Scores, results: seq<Outcome>)
    requires t.playerScore + |results| < 0x1_0000 && t.cpuScore + |results| < 0x1_0000
    ensures Run(t, results).playerScore == t.playerScore + Edges(t.lastVictory, results, LeftGoal)
    ensures Run(t, results).cpuScore == t.cpuScore + Edges(t.lastVictory, results, RightGoal)
    ensures Run(t, results).lastVictory == if results == [] then t.lastVictory else results[|results| - 1]
    decreases |results|
  {
    if results != [] {
      var t1 := ScoreFrame(t, results[0]).scores;
      RunCountsEdges(t1, results[1..]);
      if |results| > 1 {
        assert results[1..][|results[1..]| - 1] == results[|results| - 1];
      }
    }
  }

  /** A run that keeps repeating the outcome it started from has no rising edge. */
  lemma {:induction false} NoEdgesWhileHeld(g: Outcome, n: nat, side: Outcome)
    ensures Edges(g, seq(n, _ => g), side) == 0
  {
    if n > 0 {
      assert seq(n, _ => g)[1..] == seq(n - 1, _ => g);
      NoEdgesWhileHeld(g, n - 1, side);
    }
  }

  /** An outcome held for n >= 1 frames after a different one scores exactly one
      point for its side, not n, and leaves the other score alone. */
  lemma HeldGoalScoresOnce(t: Scores, g: Outcome, n: nat)
    requires g != InPlay && t.lastVictory != g && n >= 1
    requires t.playerScore + n < 0x1_0000 && t.cpuScore + n < 0x1_0000
    ensures var r := Run(t, seq(n, _ => g));
            r.playerScore == t.playerScore + (if g == LeftGoal then 1 else 0)
            && r.cpuScore == t.cpuScore + (if g == RightGoal then 1 else 0)
            && r.lastVictory == g
  {
    var rs := seq(n, _ => g);
    RunCountsEdges(t, rs);
    assert rs[1..] == seq(n - 1, _ => g);
    NoEdgesWhileHeld(g, n - 1, LeftGoal);
    NoEdgesWhileHeld(g, n - 1, RightGoal);
  }

  /** One in-play frame re-arms the detector: the next goal frame scores again. */
  lemma InPlayRearms(t: Scores, g: Outcome)
    requires g != InPlay
    ensures ScoreFrame(ScoreFrame(t, InPlay).scores, g).reset
  {
  }
}
