/** Arkanoid: a paddle at the bottom of the window, a ball and a wall of 5 x 20 bricks. A
    brick the ball hits disappears; the ball that falls past the paddle costs a life. */
module Arkanoid {
  import opened Common

  const PlayerMaxLife := 5
  const Lines := 5
  const BricksPerLine := 20
  const BrickCount := Lines * BricksPerLine

  /** Brick size: 800 / 20 by 40. */
  const BrickWidth: real := (800 / BricksPerLine) as real
  const BrickHeight: real := 40.0
  const InitialDownPosition: real := 50.0

  /** The paddle: 800 / 10 by 20, centred at height 450 * 7 / 8 (integer arithmetic). */
  const PaddleWidth: real := (800 / 10) as real
  const PaddleHeight: real := 20.0
  const PaddleY: real := (450 * 7 / 8) as real
  /** The height of a ball waiting on the paddle. */
  const LaunchY: real := (450 * 7 / 8 - 30) as real

  const BallRadiusInt := 7
  const BallRadius: real := BallRadiusInt as real
  /** The face tolerance `ball.radius * 2 / 3`, computed on ints: 4. */
  const Tolerance: real := (BallRadiusInt * 2 / 3) as real

  /** The game state. The bricks never move, so only their `active` flags are state; brick
      `(i, j)` is `bricks[i * 20 + j]`. The paddle's height never changes either. */
  datatype State = State(
    paddleX: real, life: int,
    ballPos: Vec, ballSpeed: Vec, ballActive: bool,
    bricks: seq<bool>,
    gameOver: bool, pause: bool)

  predicate Shaped(s: State) { |s.bricks| == BrickCount }

  /** The centre InitGame gives brick `k`: (40 j + 20, 40 i + 50) for row i and column j. */
  function BrickCentre(k: int): (c: Vec)
    requires 0 <= k < BrickCount
    ensures 20.0 <= c.x <= 780.0 && 50.0 <= c.y <= 210.0
  {
    Vec((k % BricksPerLine) as real * BrickWidth + BrickWidth / 2.0,
        (k / BricksPerLine) as real * BrickHeight + InitialDownPosition)
  }

  function Abs(x: real): real { if x < 0.0 then -x else x }

  /** InitGame. It leaves `pause` alone; UpdateGame clears `gameOver` after calling it. */
  function InitGame(s: State): (r: State)
    ensures Shaped(r) && forall k | 0 <= k < BrickCount :: r.bricks[k]
    ensures r.life == PlayerMaxLife && !r.ballActive && r.ballSpeed == Vec(0.0, 0.0)
    ensures r.paddleX == 400.0 && r.ballPos == Vec(400.0, LaunchY)
    ensures r.gameOver == s.gameOver && r.pause == s.pause
  {
    State(800.0 / 2.0, PlayerMaxLife, Vec(800.0 / 2.0, LaunchY), Vec(0.0, 0.0), false,
          seq(BrickCount, _ => true), s.gameOver, s.pause)
  }

  // ---------------------------------------------------------------------------------
  // Paddle and ball movement
  // ---------------------------------------------------------------------------------

  /** Paddle movement: LEFT held moves 5 left, then the left edge is clamped; RIGHT held moves
      5 right, then the right edge is clamped. */
  function MovePaddle(x: real, input: Input): (r: real)
    ensures 0.0 <= r - PaddleWidth / 2.0 && r + PaddleWidth / 2.0 <= 800.0
    ensures 45.0 < x < 755.0 ==>
      r == x - (if input.left == HoldDown then 5.0 else 0.0) + (if input.right == HoldDown then 5.0 else 0.0)
  {
    var x1 := if input.left == HoldDown then x - 5.0 else x;
    var x2 := if x1 - PaddleWidth / 2.0 <= 0.0 then PaddleWidth / 2.0 else x1;
    var x3 := if input.right == HoldDown then x2 + 5.0 else x2;
    if x3 + PaddleWidth / 2.0 >= 800.0 then 800.0 - PaddleWidth / 2.0 else x3
  }

  /** Launch and movement: SPACE launches a waiting ball straight up at speed 5; a moving ball
      advances by its speed and a waiting ball sits on the paddle. */
  function MoveBall(s: State, input: Input): (r: State)
    ensures r == s.(ballPos := r.ballPos, ballSpeed := r.ballSpeed, ballActive := r.ballActive)
    ensures r.ballActive <==> s.ballActive || input.space == PressedDown
    ensures !s.ballActive && input.space == PressedDown ==>
      r.ballSpeed == Vec(0.0, -5.0) && r.ballPos == s.ballPos.Add(Vec(0.0, -5.0))
    ensures !r.ballActive ==> r.ballPos == Vec(s.paddleX, LaunchY) && r.ballSpeed == s.ballSpeed
    ensures s.ballActive ==> r.ballPos == s.ballPos.Add(s.ballSpeed) && r.ballSpeed == s.ballSpeed
  {
    var s1 := if !s.ballActive && input.space == PressedDown then s.(ballActive := true, ballSpeed := Vec(0.0, -5.0)) else s;
    if s1.ballActive then s1.(ballPos := s1.ballPos.Add(s1.ballSpeed))
    else s1.(ballPos := Vec(s1.paddleX, LaunchY))
  }

  /** The ball touches the bottom edge. */
  predicate AtBottom(p: Vec) { p.y + BallRadius >= 450.0 }

  /** The walls: the side walls negate the horizontal speed, the top wall the vertical speed,
      and the bottom edge stops the ball, makes it wait for a new launch and costs a life. */
  function Walls(s: State): (r: State)
    ensures r.ballPos == s.ballPos && r.bricks == s.bricks && r.paddleX == s.paddleX
    ensures r.gameOver == s.gameOver && r.pause == s.pause
    ensures r.life == s.life - (if AtBottom(s.ballPos) then 1 else 0)
    ensures AtBottom(s.ballPos) ==> !r.ballActive && r.ballSpeed == Vec(0.0, 0.0)
    ensures !AtBottom(s.ballPos) ==>
      r.ballActive == s.ballActive &&
      Abs(r.ballSpeed.x) == Abs(s.ballSpeed.x) && Abs(r.ballSpeed.y) == Abs(s.ballSpeed.y)
  {
    var p := s.ballPos;
    var s1 := if p.x + BallRadius >= 800.0 || p.x - BallRadius <= 0.0 then s.(ballSpeed := Vec(-s.ballSpeed.x, s.ballSpeed.y)) else s;
    var s2 := if p.y - BallRadius <= 0.0 then s1.(ballSpeed := Vec(s1.ballSpeed.x, -s1.ballSpeed.y)) else s1;
    if AtBottom(p) then s2.(ballSpeed := Vec(0.0, 0.0), ballActive := false, life := s2.life - 1)
    else s2
  }

  /** The paddle's rectangle. */
  function PaddleRect(x: real): Rect
  {
    Rect(x - PaddleWidth / 2.0, PaddleY - PaddleHeight / 2.0, PaddleWidth, PaddleHeight)
  }

  /** A descending ball that touches the paddle goes back up, with a horizontal speed of up to
      5 that grows with the distance from the paddle's centre. */
  function PaddleBounce(s: State, col: Collisions): (r: State)
    ensures r == s.(ballSpeed := r.ballSpeed)
    ensures s.ballSpeed.y <= 0.0 ==> r == s
    ensures col.circleRec(s.ballPos, BallRadius, PaddleRect(s.paddleX)) && s.ballSpeed.y > 0.0 ==>
      r.ballSpeed.y == -s.ballSpeed.y < 0.0 &&
      (Abs(s.ballPos.x - s.paddleX) <= PaddleWidth / 2.0 ==> Abs(r.ballSpeed.x) <= 5.0)
  {
    if col.circleRec(s.ballPos, BallRadius, PaddleRect(s.paddleX)) && s.ballSpeed.y > 0.0 then
      s.(ballSpeed := Vec((s.ballPos.x - s.paddleX) / (PaddleWidth / 2.0) * 5.0, -s.ballSpeed.y))
    else s
  }

  // ---------------------------------------------------------------------------------
  // Bricks
  // ---------------------------------------------------------------------------------

  /** The four faces, for a ball at `p` with speed `v` and a brick centred at `c`: the ball's
      edge is past the face but was not one step ago, it is within the face's extent plus the
      tolerance, and it is moving towards the face. */
  predicate HitBelow(p: Vec, v: Vec, c: Vec)
  {
    p.y - BallRadius <= c.y + BrickHeight / 2.0 && p.y - BallRadius > c.y + BrickHeight / 2.0 + v.y &&
    Abs(p.x - c.x) < BrickWidth / 2.0 + Tolerance && v.y < 0.0
  }

  predicate HitAbove(p: Vec, v: Vec, c: Vec)
  {
    p.y + BallRadius >= c.y - BrickHeight / 2.0 && p.y + BallRadius < c.y - BrickHeight / 2.0 + v.y &&
    Abs(p.x - c.x) < BrickWidth / 2.0 + Tolerance && v.y > 0.0
  }

  predicate HitLeft(p: Vec, v: Vec, c: Vec)
  {
    p.x + BallRadius >= c.x - BrickWidth / 2.0 && p.x + BallRadius < c.x - BrickWidth / 2.0 + v.x &&
    Abs(p.y - c.y) < BrickHeight / 2.0 + Tolerance && v.x > 0.0
  }

  predicate HitRight(p: Vec, v: Vec, c: Vec)
  {
    p.x - BallRadius <= c.x + BrickWidth / 2.0 && p.x - BallRadius > c.x + BrickWidth / 2.0 + v.x &&
    Abs(p.y - c.y) < BrickHeight / 2.0 + Tolerance && v.x < 0.0
  }

  /** Opposite faces exclude each other: they need opposite speed signs. */
  lemma OppositeFaces(p: Vec, v: Vec, c: Vec)
    ensures !(HitBelow(p, v, c) && HitAbove(p, v, c))
    ensures !(HitLeft(p, v, c) && HitRight(p, v, c))
  {
  }

  /** One brick of the pass: an active brick hit on a horizontal face negates the vertical
      speed, one hit on a vertical face the horizontal speed, and the brick disappears. */
  function VisitBrick(bricks: seq<bool>, p: Vec, v: Vec, k: int): (r: (seq<bool>, Vec))
    requires 0 <= k < BrickCount == |bricks|
    ensures |r.0| == BrickCount && forall m | 0 <= m < BrickCount && m != k :: r.0[m] == bricks[m]
    ensures r.0[k] ==> bricks[k] && r.1 == v
    ensures bricks[k] && !r.0[k] ==>
      (r.1 == Vec(v.x, -v.y) && (HitBelow(p, v, BrickCentre(k)) || HitAbove(p, v, BrickCentre(k)))) ||
      (r.1 == Vec(-v.x, v.y) && (HitLeft(p, v, BrickCentre(k)) || HitRight(p, v, BrickCentre(k))))
    ensures !r.0[k] && bricks[k] <==> bricks[k] && Hit(p, v, BrickCentre(k))
  {
    var c := BrickCentre(k);
    if !bricks[k] then (bricks, v)
    else if HitBelow(p, v, c) then (bricks[k := false], Vec(v.x, -v.y))
    else if HitAbove(p, v, c) then (bricks[k := false], Vec(v.x, -v.y))
    else if HitLeft(p, v, c) then (bricks[k := false], Vec(-v.x, v.y))
    else if HitRight(p, v, c) then (bricks[k := false], Vec(-v.x, v.y))
    else (bricks, v)
  }

  predicate Hit(p: Vec, v: Vec, c: Vec)
  {
    HitBelow(p, v, c) || HitAbove(p, v, c) || HitLeft(p, v, c) || HitRight(p, v, c)
  }

  /** The nested brick loops over the first `n` bricks in row order; the speed a hit changes is
      the speed later bricks are tested with. */
  function BrickPass(bricks: seq<bool>, p: Vec, v: Vec, n: nat): (r: (seq<bool>, Vec))
    requires |bricks| == BrickCount && n <= BrickCount
    ensures |r.0| == BrickCount
    ensures forall m | 0 <= m < BrickCount :: r.0[m] ==> bricks[m]
    ensures forall m | n <= m < BrickCount :: r.0[m] == bricks[m]
    ensures Abs(r.1.x) == Abs(v.x) && Abs(r.1.y) == Abs(v.y)
    ensures r.0 == bricks ==> r.1 == v
  {
    if n == 0 then (bricks, v)
    else
      var t := BrickPass(bricks, p, v, n - 1);
      VisitBrick(t.0, p, t.1, n - 1)
  }

  /** A still ball hits no brick. */
  lemma {:induction false} StillBallHitsNothing(bricks: seq<bool>, p: Vec, n: nat)
    requires |bricks| == BrickCount && n <= BrickCount
    ensures BrickPass(bricks, p, Vec(0.0, 0.0), n) == (bricks, Vec(0.0, 0.0))
  {
    if n > 0 {
      StillBallHitsNothing(bricks, p, n - 1);
    }
  }

  // ---------------------------------------------------------------------------------
  // The frame
  // ---------------------------------------------------------------------------------

  /** No brick is active. */
  predicate Cleared(bricks: seq<bool>)
  {
    forall m | 0 <= m < |bricks| :: !bricks[m]
  }

  /** One unpaused frame of play: paddle, ball, walls, paddle bounce, bricks, and the end
      check. */
  function Play(s: State, input: Input, col: Collisions): (r: State)
    requires Shaped(s)
    ensures Shaped(r) && r.pause == s.pause
    ensures 0.0 <= r.paddleX - PaddleWidth / 2.0 && r.paddleX + PaddleWidth / 2.0 <= 800.0
    ensures r.life == s.life || r.life == s.life - 1
    ensures r.gameOver <==> r.life <= 0 || Cleared(r.bricks)
    ensures forall m | 0 <= m < BrickCount :: r.bricks[m] ==> s.bricks[m]
  {
    var s1 := s.(paddleX := MovePaddle(s.paddleX, input));
    var s2 := MoveBall(s1, input);
    var s3 := Walls(s2);
    var s4 := PaddleBounce(s3, col);
    var b := BrickPass(s4.bricks, s4.ballPos, s4.ballSpeed, BrickCount);
    var s5 := s4.(bricks := b.0, ballSpeed := b.1);
    s5.(gameOver := s5.life <= 0 || Cleared(s5.bricks))
  }

  function UpdateGame(s: State, input: Input, col: Collisions): (r: State)
    requires Shaped(s)
    ensures Shaped(r)
    ensures s.gameOver ==> r == (if input.enter == PressedDown then InitGame(s).(gameOver := false) else s)
    ensures !s.gameOver && s.pause != (input.p == PressedDown) ==> r == s.(pause := true)
    ensures !s.gameOver && s.pause == (input.p == PressedDown) ==> r == Play(s.(pause := false), input, col)
  {
    if !s.gameOver then
      var s1 := if input.p == PressedDown then s.(pause := !s.pause) else s;
      if s1.pause then s1 else Play(s1, input, col)
    else if input.enter == PressedDown then InitGame(s).(gameOver := false)
    else s
  }

  // ---------------------------------------------------------------------------------
  // Invariant
  // ---------------------------------------------------------------------------------

  /** The paddle is inside the window and a waiting ball is still. */
  predicate Inv(s: State)
  {
    Shaped(s) && 40.0 <= s.paddleX <= 760.0 && (!s.ballActive ==> s.ballSpeed == Vec(0.0, 0.0))
  }

  /** A frame keeps the invariant, never brings a brick back, and costs at most one life; a
      ball waiting on the paddle stays out of every wall and brick. */
  lemma UpdateGameInv(s: State, input: Input, col: Collisions)
    requires Inv(s)
    ensures var r := UpdateGame(s, input, col);
      Inv(r) && (!s.gameOver ==> (r.life == s.life || r.life == s.life - 1) &&
                                 forall m | 0 <= m < BrickCount :: r.bricks[m] ==> s.bricks[m])
  {
    if !s.gameOver {
      var s1 := if input.p == PressedDown then s.(pause := !s.pause) else s;
      if !s1.pause {
        WaitingBallInv(s1, input, col);
      }
    }
  }

  lemma WaitingBallInv(s: State, input: Input, col: Collisions)
    requires Inv(s)
    ensures Inv(Play(s, input, col))
  {
    var s1 := s.(paddleX := MovePaddle(s.paddleX, input));
    var s2 := MoveBall(s1, input);
    var s3 := Walls(s2);
    var s4 := PaddleBounce(s3, col);
    if !s4.ballActive {
      assert s4.ballSpeed == Vec(0.0, 0.0);
      StillBallHitsNothing(s4.bricks, s4.ballPos, BrickCount);
    }
  }
}
