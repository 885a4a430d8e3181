/**
 * The game physics of pong.py, a self-playing pong for a small handheld
 * display: two paddles that follow the ball (sometimes the wrong way), a
 * ball that bounces off the top and bottom of the field, scoring at the
 * side edges and a reset when a player reaches fifteen points.
 *
 * Each call of `random.random()` becomes a boolean parameter: `silly` for
 * the paddle's wrong-way move, `newLr`/`newUd` for the fresh ball direction
 * after a point.  Drawing, the backlight, buttons and the QR code are not
 * modelled.
 */
module Pong {
  import opened Common

  /** Paddle height (`pheight`). */
  const PHEIGHT: int := 50
  /** Paddle rows: `ypos` starts at 130 and stays between 92 and 190. */
  const START_Y: int := 130
  const PADDLE_MIN: int := 92
  const PADDLE_MAX: int := 190
  /** The ball is 20 pixels square. */
  const BALL: int := 20
  /** The score that wins (`high`). */
  const HIGH: int := 15

  // ---------------------------------------------------------------------------
  // Paddles
  // ---------------------------------------------------------------------------

  /** The vertical extent of a paddle: its top row and its bottom row. */
  datatype Paddle = Paddle(ypos: int, ybottom: int)

  const START: Paddle := Paddle(START_Y, START_Y + PHEIGHT)

  /** The bottom row is the top row plus the paddle height. */
  predicate Sane(p: Paddle) { p.ybottom == p.ypos + PHEIGHT }

  /** A sane paddle whose top row is within its limits. */
  predicate InField(p: Paddle) { Sane(p) && PADDLE_MIN <= p.ypos <= PADDLE_MAX }

  /** `moveUp`: one row up unless already at row 92; the bottom row follows. */
  function Up(p: Paddle): (r: Paddle)
    ensures Sane(r)
    ensures Min(p.ypos, PADDLE_MIN) <= r.ypos <= p.ypos && p.ypos - r.ypos <= 1
    ensures r.ypos < p.ypos <==> p.ypos > PADDLE_MIN
  {
    var y := if p.ypos > PADDLE_MIN then p.ypos - 1 else p.ypos;
    Paddle(y, y + PHEIGHT)
  }

  /** `moveDown`: one row down unless already at row 190; the bottom row follows. */
  function Down(p: Paddle): (r: Paddle)
    ensures Sane(r)
    ensures p.ypos <= r.ypos <= Max(p.ypos, PADDLE_MAX) && r.ypos - p.ypos <= 1
    ensures r.ypos > p.ypos <==> p.ypos < PADDLE_MAX
  {
    var y := if p.ypos < PADDLE_MAX then p.ypos + 1 else p.ypos;
    Paddle(y, y + PHEIGHT)
  }

  /**
   * The body of `move` once the paddle is on the ball's side: towards the
   * ball when the paddle is above it, away from it when `silly`; then the
   * same test for a paddle below the ball, made on the updated position.
   */
  function Follow(p: Paddle, bally: int, silly: bool): Paddle
  {
    var p1 := if p.ybottom < bally then (if silly then Up(p) else Down(p)) else p;
    if p1.ypos > bally + BALL then (if silly then Down(p1) else Up(p1)) else p1
  }

  /** `move` reacts only on the side the ball travels to: left (`xpos == 0`) when `lr`, right (`xpos == 300`) otherwise. */
  predicate Active(xpos: int, lr: bool)
  {
    (xpos == 0 && lr) || (xpos == 300 && !lr)
  }

  function Moved(xpos: int, p: Paddle, lr: bool, bally: int, silly: bool): Paddle
  {
    if Active(xpos, lr) then Follow(p, bally, silly) else p
  }

  /** A paddle in its field stays there and moves by at most one row per call. */
  lemma FollowOneRow(p: Paddle, bally: int, silly: bool)
    requires InField(p)
    ensures InField(Follow(p, bally, silly))
    ensures -1 <= Follow(p, bally, silly).ypos - p.ypos <= 1
  {
    var p1 := if p.ybottom < bally then (if silly then Up(p) else Down(p)) else p;
    assert p.ybottom < bally ==> p1.ypos <= bally + BALL;
  }

  /**
   * Without the random wrong-way move, a paddle steps towards the ball
   * when the ball is wholly below or wholly above it, within its limits,
   * and keeps still when they overlap; with it, it steps away.
   */
  lemma FollowDirection(p: Paddle, bally: int, silly: bool)
    requires InField(p)
    ensures var r := Follow(p, bally, silly).ypos;
      if p.ybottom < bally then r == (if silly then Max(p.ypos - 1, PADDLE_MIN) else Min(p.ypos + 1, PADDLE_MAX))
      else if p.ypos > bally + BALL then r == (if silly then Min(p.ypos + 1, PADDLE_MAX) else Max(p.ypos - 1, PADDLE_MIN))
      else r == p.ypos
  {
    FollowOneRow(p, bally, silly);
  }

  /**
   * `collision`: the top or the bottom row of the ball lies within the
   * paddle; for a sane paddle that is exactly a top row between 20 rows
   * above the paddle and the paddle's bottom row.
   */
  function Hits(p: Paddle, bally: int): (r: bool)
    ensures r <==> (p.ypos <= bally <= p.ybottom || p.ypos <= bally + BALL <= p.ybottom)
    ensures Sane(p) ==> (r <==> p.ypos - BALL <= bally <= p.ybottom)
  {
    (p.ypos <= bally <= p.ybottom) || (p.ypos <= bally + BALL <= p.ybottom)
  }

  class Player {
    const xpos: int
    var ypos: int
    var score: int
    var ybottom: int

    function Pos(): Paddle
      reads this
    {
      Paddle(ypos, ybottom)
    }

    constructor (xp: int)
      ensures xpos == xp && Pos() == START && score == 0
    {
      xpos := xp;
      ypos := START_Y;
      score := 0;
      ybottom := START_Y + PHEIGHT;
    }

    method Reset()
      modifies this`ypos, this`ybottom, this`score
      ensures Pos() == START && score == 0
    {
      ypos := START_Y;
      score := 0;
      ybottom := ypos + PHEIGHT;
    }

    method MoveUp()
      modifies this`ypos, this`ybottom
      ensures Pos() == Up(old(Pos()))
    {
      if ypos > PADDLE_MIN {
        ypos := ypos - 1;
      }
      ybottom := ypos + PHEIGHT;
    }

    method MoveDown()
      modifies this`ypos, this`ybottom
      ensures Pos() == Down(old(Pos()))
    {
      if ypos < PADDLE_MAX {
        ypos := ypos + 1;
      }
      ybottom := ypos + PHEIGHT;
    }

    method Move(lr: bool, bally: int, silly: bool)
      modifies this`ypos, this`ybottom
      ensures Pos() == Moved(xpos, old(Pos()), lr, bally, silly)
    {
      if Active(xpos, lr) {
        var ballybot := bally + BALL;
        if ybottom < bally {
          if silly {
            MoveUp();
          } else {
            MoveDown();
          }
        }
        if ypos > ballybot {
          if silly {
            MoveDown();
          } else {
            MoveUp();
          }
        }
      }
    }

    method AddScore()
      modifies this`score
      ensures score == old(score) + 1
    {
      score := score + 1;
    }
  }

  // ---------------------------------------------------------------------------
  // The ball
  // ---------------------------------------------------------------------------

  /** Ball position (top-left corner) and direction: `lr` travels left, `ud` travels up. */
  datatype Ball = Ball(x: int, y: int, lr: bool, ud: bool)

  /** Who a ball step credits with a point. */
  datatype Scorer = Nobody | FirstPlayer | SecondPlayer

  datatype BallStep = BallStep(ball: Ball, scorer: Scorer)

  /**
   * `moveBall`: one pixel across, or past an edge the point to the player
   * opposite and a fresh ball at (160, 120) with directions `newLr` and
   * `newUd`; then one pixel up or down, turning at rows 220 and 92.
   */
  function StepBall(b: Ball, newLr: bool, newUd: bool): BallStep
  {
    var h :=
      if !b.lr then (if b.x > 280 then BallStep(Ball(160, 120, newLr, newUd), FirstPlayer) else BallStep(b.(x := b.x + 1), Nobody))
      else (if b.x < 20 then BallStep(Ball(160, 120, newLr, newUd), SecondPlayer) else BallStep(b.(x := b.x - 1), Nobody));
    var c := h.ball;
    var v :=
      if !c.ud then (if c.y > 220 then c.(ud := true, y := c.y - 1) else c.(y := c.y + 1))
      else (if c.y < 92 then c.(ud := false, y := c.y + 1) else c.(y := c.y - 1));
    BallStep(v, h.scorer)
  }

  /**
   * The horizontal rule: the right edge credits the first player, the left
   * edge the second, and either recentres the ball; otherwise the ball
   * moves one pixel in its direction of travel and keeps it.
   */
  lemma StepBallAcross(b: Ball, newLr: bool, newUd: bool)
    ensures var r := StepBall(b, newLr, newUd);
      (r.scorer == FirstPlayer <==> !b.lr && b.x > 280) &&
      (r.scorer == SecondPlayer <==> b.lr && b.x < 20) &&
      (r.scorer != Nobody ==> r.ball.x == 160 && r.ball.lr == newLr) &&
      (r.scorer == Nobody ==> r.ball.x == b.x + (if b.lr then -1 else 1) && r.ball.lr == b.lr)
  {
  }

  /**
   * The vertical rule: the ball always moves one row; without a point it
   * turns exactly when it has passed row 220 going down or row 92 going up;
   * after a point it ends on row 119 or 121.
   */
  lemma StepBallUpDown(b: Ball, newLr: bool, newUd: bool)
    ensures var r := StepBall(b, newLr, newUd);
      (r.scorer == Nobody ==> (r.ball.y - b.y == 1 || b.y - r.ball.y == 1)) &&
      (r.scorer == Nobody ==> (r.ball.ud != b.ud <==> (!b.ud && b.y > 220) || (b.ud && b.y < 92))) &&
      (r.scorer != Nobody ==> r.ball.y == 119 || r.ball.y == 121)
  {
  }

  /** The ball's corner stays within columns 19 to 281 and rows 91 to 221. */
  predicate BallInField(b: Ball) { 19 <= b.x <= 281 && 91 <= b.y <= 221 }

  lemma StepBallInField(b: Ball, newLr: bool, newUd: bool)
    requires BallInField(b)
    ensures BallInField(StepBall(b, newLr, newUd).ball)
  {
  }

  /**
   * `moveBall` on the players: the ball step, with the point added to the
   * player it credits (once, even if both names denote one player).
   */
  method MoveBall(ballx: int, bally: int, lr: bool, ud: bool, p1s: Player, p2s: Player, newLr: bool, newUd: bool)
    returns (x: int, y: int, lr2: bool, ud2: bool)
    modifies p1s`score, p2s`score
    ensures var s := StepBall(Ball(ballx, bally, lr, ud), newLr, newUd);
      Ball(x, y, lr2, ud2) == s.ball &&
      (p1s != p2s ==> p1s.score == old(p1s.score) + Credit(s.scorer, FirstPlayer) && p2s.score == old(p2s.score) + Credit(s.scorer, SecondPlayer)) &&
      (p1s == p2s ==> p1s.score == old(p1s.score) + Credit(s.scorer, FirstPlayer) + Credit(s.scorer, SecondPlayer))
  {
    x, y, lr2, ud2 := ballx, bally, lr, ud;
    if !lr2 {
      if x > 280 {
        x, y := 160, 120;
        p1s.AddScore();
        lr2, ud2 := newLr, newUd;
      } else {
        x := x + 1;
      }
    } else {
      if x < 20 {
        x, y := 160, 120;
        p2s.AddScore();
        lr2, ud2 := newLr, newUd;
      } else {
        x := x - 1;
      }
    }
    if !ud2 {
      if y > 220 {
        ud2 := true;
        y := y - 1;
      } else {
        y := y + 1;
      }
    } else {
      if y < 92 {
        ud2 := false;
        y := y + 1;
      } else {
        y := y - 1;
      }
    }
  }

  function Credit(s: Scorer, who: Scorer): int
  {
    if s == who then 1 else 0
  }

  /**
   * `detectCollision`: the direction flips when the ball is at column 20
   * and meets the left paddle, or at column 280 and meets the right one.
   */
  function DetectCollision(bx: int, bally: int, q1: Paddle, q2: Paddle, lr: bool): (r: bool)
    ensures r != lr <==> (bx == 20 && Hits(q1, bally)) || (bx == 280 && Hits(q2, bally))
  {
    var a := if bx == 20 && Hits(q1, bally) then !lr else lr;
    if bx == 280 && Hits(q2, bally) then !a else a
  }

  // ---------------------------------------------------------------------------
  // The main loop
  // ---------------------------------------------------------------------------

  /** Everything one pass of the main loop reads and writes. */
  datatype GameState = GameState(q1: Paddle, q2: Paddle, s1: int, s2: int, ball: Ball)

  /**
   * The moves of one pass: both paddles move (the left one at column 0,
   * the right one at column 300) against the ball's current row, the ball
   * steps and credits a point, and the direction is checked against the
   * moved paddles.
   */
  function Play(s: GameState, silly1: bool, silly2: bool, newLr: bool, newUd: bool): GameState
  {
    var q1 := Moved(0, s.q1, s.ball.lr, s.ball.y, silly1);
    var q2 := Moved(300, s.q2, s.ball.lr, s.ball.y, silly2);
    var st := StepBall(s.ball, newLr, newUd);
    var lr := DetectCollision(st.ball.x, st.ball.y, q1, q2, st.ball.lr);
    GameState(q1, q2, s.s1 + Credit(st.scorer, FirstPlayer), s.s2 + Credit(st.scorer, SecondPlayer), st.ball.(lr := lr))
  }

  /** The end of a pass: a score of fifteen resets both players and puts the ball at (160, 100). */
  function Settle(s: GameState): GameState
  {
    if s.s1 == HIGH || s.s2 == HIGH then GameState(START, START, 0, 0, s.ball.(x := 160, y := 100)) else s
  }

  /** One pass of the main loop. */
  function Round(s: GameState, silly1: bool, silly2: bool, newLr: bool, newUd: bool): GameState
  {
    Settle(Play(s, silly1, silly2, newLr, newUd))
  }

  /** Between passes: paddles in their field, scores below fifteen, the ball in its field. */
  predicate Playing(s: GameState)
  {
    InField(s.q1) && InField(s.q2) && 0 <= s.s1 < HIGH && 0 <= s.s2 < HIGH && BallInField(s.ball)
  }

  lemma RoundKeepsPlaying(s: GameState, silly1: bool, silly2: bool, newLr: bool, newUd: bool)
    requires Playing(s)
    ensures Playing(Round(s, silly1, silly2, newLr, newUd))
  {
    FollowOneRow(s.q1, s.ball.y, silly1);
    FollowOneRow(s.q2, s.ball.y, silly2);
    StepBallInField(s.ball, newLr, newUd);
  }

  /**
   * The win rule: when a point brings either score to fifteen, both
   * players start over and the ball is at (160, 100); otherwise exactly
   * the credited player's score goes up by one.
   */
  lemma RoundScores(s: GameState, silly1: bool, silly2: bool, newLr: bool, newUd: bool)
    requires Playing(s)
    ensures var st := StepBall(s.ball, newLr, newUd);
      var r := Round(s, silly1, silly2, newLr, newUd);
      var won := (st.scorer == FirstPlayer && s.s1 == HIGH - 1) || (st.scorer == SecondPlayer && s.s2 == HIGH - 1);
      (won ==> r.s1 == 0 && r.s2 == 0 && r.q1 == START && r.q2 == START && r.ball.x == 160 && r.ball.y == 100) &&
      (!won ==> r.s1 == s.s1 + Credit(st.scorer, FirstPlayer) && r.s2 == s.s2 + Credit(st.scorer, SecondPlayer))
  {
  }

  class Game {
    const p1: Player
    const p2: Player
    var x: int
    var y: int
    var lorr: bool
    var uord: bool

    function State(): GameState
      reads this, p1, p2
    {
      GameState(p1.Pos(), p2.Pos(), p1.score, p2.score, Ball(x, y, lorr, uord))
    }

    predicate Valid()
      reads this, p1, p2
    {
      p1 != p2 && p1.xpos == 0 && p2.xpos == 300 && Playing(State())
    }

    /** The initialisation before the loop, with the first directions drawn as `lr` and `ud`. */
    constructor (lr: bool, ud: bool)
      ensures Valid() && fresh(p1) && fresh(p2)
      ensures State() == GameState(START, START, 0, 0, Ball(160, 100, lr, ud))
    {
      p1 := new Player(0);
      p2 := new Player(300);
      lorr, uord := lr, ud;
      x, y := 160, 100;
    }

    /** One pass of the main loop. */
    method Tick(silly1: bool, silly2: bool, newLr: bool, newUd: bool)
      requires Valid()
      modifies this, p1, p2
      ensures Valid()
      ensures State() == Round(old(State()), silly1, silly2, newLr, newUd)
    {
      RoundKeepsPlaying(State(), silly1, silly2, newLr, newUd);
      PlayPass(silly1, silly2, newLr, newUd);
      if p1.score == HIGH || p2.score == HIGH {
        p1.Reset();
        p2.Reset();
        x := 160;
        y := 100;
      }
    }

    method PlayPass(silly1: bool, silly2: bool, newLr: bool, newUd: bool)
      requires p1 != p2 && p1.xpos == 0 && p2.xpos == 300
      modifies this, p1, p2
      ensures State() == Play(old(State()), silly1, silly2, newLr, newUd)
    {
      p1.Move(lorr, y, silly1);
      p2.Move(lorr, y, silly2);
      var q1, q2 := p1.Pos(), p2.Pos();
      x, y, lorr, uord := MoveBall(x, y, lorr, uord, p1, p2, newLr, newUd);
      assert p1.Pos() == q1 && p2.Pos() == q2;
      lorr := DetectCollision(x, y, q1, q2, lorr);
    }
  }
}
