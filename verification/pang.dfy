/** Pang: a player walking along the floor fires a vertical harpoon at two big bouncing
    balls. A big ball splits into two medium ones, a medium one into two small ones, and a
    small one vanishes; each is worth 200, 100 or 50 points. Fourteen destroyed is a victory,
    touching any ball is the end. */
module Pang {
  import opened Common
  import opened Space

  /** The source's balls are its meteors; their pools and counters share the asteroid
      games' bookkeeping. */
  type Ball = Meteor

  const PlayerBaseSize: real := 20.0
  const PlayerSpeed: real := 5.0
  const MaxBig := 2
  const MaxMedium := 4
  const MaxSmall := 8
  const AllBalls := MaxBig + MaxMedium + MaxSmall
  const BallsSpeed := 2

  const BigPoints := 200
  const MediumPoints := 100
  const SmallPoints := 50

  const ShotRadius: real := 2.0
  /** The shot disappears once it has been active for this many frames. */
  const ShotLife := 120

  const Gravity: real := 0.25

  /** The single shot. Its radius is 2 and is not kept. */
  datatype Shot = Shot(position: Vec, speed: Vec, lifeSpawn: int, active: bool)

  /** The ball pools. `countMedium` and `countSmall` are the next free slots of the medium
      and small pools; `destroyed` counts balls destroyed. */
  datatype Field = Field(big: seq<Ball>, medium: seq<Ball>, small: seq<Ball>,
                         countMedium: int, countSmall: int, destroyed: int, score: int)

  /** The game's globals. The player stands on the floor, so only its x is kept; `line` is
      where the player stood when the shot was fired. */
  datatype State = State(playerX: real, shot: Shot, line: Vec, field: Field,
                         gameOver: bool, pause: bool, victory: bool, draws: nat)

  // ---------------------------------------------------------------------------------
  // The pools
  // ---------------------------------------------------------------------------------

  /** Between frames: every destroyed big ball has put two medium ones in the next two medium
      slots, and every destroyed medium one two small ones in the next two small slots;
      `destroyed` counts the inactive balls among the used slots, and `score` is their
      points. */
  predicate FieldOk(f: Field)
  {
    |f.big| == MaxBig && |f.medium| == MaxMedium && |f.small| == MaxSmall &&
    f.countMedium == 2 * (MaxBig - CountActive(f.big)) && ActiveBelow(f.medium, f.countMedium) &&
    f.countSmall == 2 * (f.countMedium - CountActive(f.medium)) && ActiveBelow(f.small, f.countSmall) &&
    f.destroyed == (MaxBig - CountActive(f.big)) + (f.countMedium - CountActive(f.medium)) +
                   (f.countSmall - CountActive(f.small)) &&
    f.score == BigPoints * (MaxBig - CountActive(f.big)) + MediumPoints * (f.countMedium - CountActive(f.medium)) +
               SmallPoints * (f.countSmall - CountActive(f.small))
  }

  /** So the fragment slots always lie within the pools, at most 14 balls are destroyed and
      at most 1200 points are scored. */
  lemma FieldBounded(f: Field)
    requires FieldOk(f)
    ensures 0 <= f.countMedium <= MaxMedium && f.countMedium % 2 == 0
    ensures 0 <= f.countSmall <= MaxSmall && f.countSmall % 2 == 0
    ensures 0 <= f.destroyed <= AllBalls
    ensures 0 <= f.score <= MaxBig * BigPoints + MaxMedium * MediumPoints + MaxSmall * SmallPoints
  {
    ActiveBelowCount(f.medium, f.countMedium);
    ActiveBelowCount(f.small, f.countSmall);
  }

  /** Fourteen destroyed is exactly an empty field, worth 1200 points. */
  lemma VictoryIsClearField(f: Field)
    requires FieldOk(f)
    ensures f.destroyed == AllBalls <==>
      CountActive(f.big) == 0 && CountActive(f.medium) == 0 && CountActive(f.small) == 0
    ensures f.destroyed == AllBalls ==> f.score == 1200
  {
    ActiveBelowCount(f.medium, f.countMedium);
    ActiveBelowCount(f.small, f.countSmall);
  }

  // ---------------------------------------------------------------------------------
  // Balls
  // ---------------------------------------------------------------------------------

  /** A ball loop body: an active ball moves by its speed; touching a side wall reverses its
      x speed; touching the ceiling multiplies its y speed by `topBounce`; touching the floor
      reverses its y speed and sets it on the floor; then gravity pulls. */
  function MoveBall(b: Ball, gravity: real, topBounce: real): (r: Ball)
    ensures !b.active ==> r == b
    ensures r.active == b.active && r.radius == b.radius
    ensures b.active ==> r.position.y + b.radius <= ScreenHeight
    ensures b.active ==> r.position.x == b.position.x + b.speed.x
    ensures b.active ==> b.position.y + b.speed.y + b.radius < ScreenHeight ==> r.position.y == b.position.y + b.speed.y
    ensures b.active ==> r.speed.x == b.speed.x || r.speed.x == -b.speed.x
    ensures b.active ==>
      var x := b.position.x + b.speed.x;
      (x + b.radius >= ScreenWidth || x - b.radius <= 0.0 <==> r.speed.x == -b.speed.x * 1.0) || b.speed.x == 0.0
  {
    if b.active then
      var p := b.position.Add(b.speed);
      var sx := if p.x + b.radius >= ScreenWidth || p.x - b.radius <= 0.0 then b.speed.x * -1.0 else b.speed.x;
      var sy := if p.y - b.radius <= 0.0 then b.speed.y * topBounce else b.speed.y;
      var floor := p.y + b.radius >= ScreenHeight;
      b.(position := Vec(p.x, if floor then ScreenHeight - b.radius else p.y),
         speed := Vec(sx, (if floor then sy * -1.0 else sy) + gravity))
    else b
  }

  /** The three ball loops: big balls bounce harder off the ceiling, smaller ones fall
      faster. */
  function MoveBalls(ms: seq<Ball>, gravity: real, topBounce: real): (r: seq<Ball>)
    ensures |r| == |ms| && forall i | 0 <= i < |ms| :: r[i] == MoveBall(ms[i], gravity, topBounce)
  {
    seq(|ms|, i requires 0 <= i < |ms| => MoveBall(ms[i], gravity, topBounce))
  }

  /** Moving keeps every pool's bookkeeping. */
  function MoveField(f: Field): (r: Field)
    requires FieldOk(f)
    ensures FieldOk(r) && r.destroyed == f.destroyed && r.score == f.score
    ensures r.big == MoveBalls(f.big, Gravity, -1.5)
    ensures r.medium == MoveBalls(f.medium, Gravity + 0.12, -1.0)
    ensures r.small == MoveBalls(f.small, Gravity + 0.25, -1.0)
  {
    var r := f.(big := MoveBalls(f.big, Gravity, -1.5), medium := MoveBalls(f.medium, Gravity + 0.12, -1.0),
                small := MoveBalls(f.small, Gravity + 0.25, -1.0));
    SameActiveCount(f.big, r.big);
    SameActiveCount(f.medium, r.medium);
    SameActiveCount(f.small, r.small);
    r
  }

  // ---------------------------------------------------------------------------------
  // The player and the shot
  // ---------------------------------------------------------------------------------

  /** LEFT and RIGHT held move the player by 5; the walls keep its x within [10, 790]. */
  function Walk(x: real, input: Input): (r: real)
    ensures PlayerBaseSize / 2.0 <= r <= ScreenWidth - PlayerBaseSize / 2.0
    ensures var moved := x - (if input.left == HoldDown then PlayerSpeed else 0.0)
                           + (if input.right == HoldDown then PlayerSpeed else 0.0);
      (PlayerBaseSize / 2.0 <= moved <= ScreenWidth - PlayerBaseSize / 2.0 ==> r == moved) &&
      (moved > ScreenWidth - PlayerBaseSize / 2.0 ==> r == ScreenWidth - PlayerBaseSize / 2.0) &&
      (moved < PlayerBaseSize / 2.0 ==> r == PlayerBaseSize / 2.0)
  {
    var x1 := if input.left == HoldDown then x - PlayerSpeed else x;
    var x2 := if input.right == HoldDown then x1 + PlayerSpeed else x1;
    if x2 + PlayerBaseSize / 2.0 > ScreenWidth then ScreenWidth - PlayerBaseSize / 2.0
    else if x2 - PlayerBaseSize / 2.0 < 0.0 then PlayerBaseSize / 2.0
    else x2
  }

  /** SPACE pressed fires the shot, if it is not already flying, from the player's head
      upwards at 5 per frame, and records where the player stands. */
  function Fire(sh: Shot, line: Vec, x: real, h: real, input: Input): (r: (Shot, Vec))
    ensures sh.active ==> r == (sh, line)
    ensures input.space != PressedDown ==> r == (sh, line)
    ensures !sh.active && input.space == PressedDown ==>
      r.0.active && r.0.position == Vec(x, ScreenHeight - h) && r.0.speed.y == PlayerSpeed &&
      r.0.lifeSpawn == sh.lifeSpawn && r.1 == Vec(x, ScreenHeight)
  {
    if input.space == PressedDown && !sh.active then
      (sh.(position := Vec(x, ScreenHeight - h), speed := sh.speed.(y := PlayerSpeed), active := true),
       Vec(x, ScreenHeight))
    else (sh, line)
  }

  /** The shot timer and the shot loop: an active shot counts the frame and rises by its
      speed; it is dropped when it leaves the window by more than its radius, and dropped and
      zeroed once it has lived 120 frames. */
  function ShotFrame(sh: Shot): (r: Shot)
    ensures !sh.active ==> r == sh
    ensures r.active ==>
      sh.active && r.lifeSpawn == sh.lifeSpawn + 1 < ShotLife &&
      r.position == Vec(sh.position.x, sh.position.y - sh.speed.y) && r.speed == sh.speed
    ensures sh.active && !r.active ==> r.lifeSpawn == 0
    ensures sh.active && sh.lifeSpawn + 1 >= ShotLife ==> !r.active
    ensures r.active ==>
      -ShotRadius <= r.position.x <= ScreenWidth + ShotRadius &&
      -ShotRadius <= r.position.y <= ScreenHeight + ShotRadius
  {
    if sh.active then
      var p := Vec(sh.position.x, sh.position.y - sh.speed.y);
      var aged := sh.(lifeSpawn := sh.lifeSpawn + 1, position := p);
      var off := p.x > ScreenWidth + ShotRadius || p.x < 0.0 - ShotRadius ||
                 p.y > ScreenHeight + ShotRadius || p.y < 0.0 - ShotRadius;
      var moved := if off then aged.(active := false, lifeSpawn := 0) else aged;
      if moved.lifeSpawn >= ShotLife then
        moved.(position := Vec(0.0, 0.0), speed := Vec(0.0, 0.0), lifeSpawn := 0, active := false)
      else moved
    else sh
  }

  /** Between frames an active shot has lived fewer than 120 frames and an inactive one has
      a cleared timer. */
  predicate ShotOk(sh: Shot)
  {
    (sh.active ==> 0 <= sh.lifeSpawn < ShotLife) && (!sh.active ==> sh.lifeSpawn == 0)
  }

  // ---------------------------------------------------------------------------------
  // The shot against the balls
  // ---------------------------------------------------------------------------------

  /** The harpoon hits a ball when the ball is active, spans the line's x, and reaches down
      to the shot's tip. */
  predicate Struck(b: Ball, line: Vec, tip: real)
  {
    b.active && b.position.x - b.radius <= line.x && b.position.x + b.radius >= line.x &&
    b.position.y + b.radius >= tip
  }

  predicate HitsAny(ms: seq<Ball>, line: Vec, tip: real)
  {
    exists a | 0 <= a < |ms| :: Struck(ms[a], line, tip)
  }

  /** The first ball of the pool the harpoon hits, or `|ms|`. */
  function FirstStruck(ms: seq<Ball>, line: Vec, tip: real, from: nat): (a: nat)
    requires from <= |ms|
    ensures from <= a <= |ms|
    ensures a < |ms| ==> Struck(ms[a], line, tip)
    ensures forall b | from <= b < a :: !Struck(ms[b], line, tip)
    decreases |ms| - from
  {
    if from == |ms| || Struck(ms[from], line, tip) then from else FirstStruck(ms, line, tip, from + 1)
  }

  /** The two fragments written to slots `k` and `k + 1` at `p`: the even slot gets speed
      `even`, the odd one `odd`. */
  function SpawnPair(ms: seq<Ball>, k: int, p: Vec, even: Vec, odd: Vec): (r: seq<Ball>)
    requires 0 <= k && k + 1 < |ms| && k % 2 == 0 && !ms[k].active && !ms[k + 1].active
    ensures |r| == |ms|
    ensures forall j | 0 <= j < |ms| && j != k && j != k + 1 :: r[j] == ms[j]
    ensures r[k] == ms[k].(position := p, speed := even, active := true)
    ensures r[k + 1] == ms[k + 1].(position := p, speed := odd, active := true)
    ensures CountActive(r) == CountActive(ms) + 2
  {
    var m0 := ms[k].(position := p, speed := even, active := true);
    var m1 := ms[k + 1].(position := p, speed := odd, active := true);
    ActivateCount(ms, k, m0);
    ActivateCount(ms[k := m0], k + 1, m1);
    ms[k := m0][k + 1 := m1]
  }

  /** Taking an active ball out of a pool. */
  function Destroy(ms: seq<Ball>, a: int): (r: seq<Ball>)
    requires 0 <= a < |ms| && ms[a].active
    ensures |r| == |ms| && r[a] == ms[a].(active := false)
    ensures forall j | 0 <= j < |ms| && j != a :: r[j] == ms[j]
    ensures CountActive(ms) >= 1 && CountActive(r) == CountActive(ms) - 1
  {
    DeactivateCount(ms, a, ms[a].(active := false));
    ms[a := ms[a].(active := false)]
  }

  const Speed2: real := BallsSpeed as real

  /** The big-ball loop: the first big ball hit goes, scores 200, and two medium balls take
      the next two medium slots, one moving up-left and one up-right. */
  function StrikeBig(f: Field, line: Vec, tip: real): (r: Field)
    requires FieldOk(f)
    ensures FieldOk(r)
    ensures r.destroyed == f.destroyed + 1 <==> HitsAny(f.big, line, tip)
    ensures !HitsAny(f.big, line, tip) ==> r == f
    ensures HitsAny(f.big, line, tip) ==>
      r.score == f.score + BigPoints && CountActive(r.big) == CountActive(f.big) - 1 &&
      0 <= f.countMedium && f.countMedium + 1 < MaxMedium &&
      r.medium[f.countMedium].speed == Vec(-Speed2, Speed2) && r.medium[f.countMedium + 1].speed == Vec(Speed2, Speed2)
  {
    var a := FirstStruck(f.big, line, tip, 0);
    if a == MaxBig then f
    else
      FieldBounded(f);
      var big := Destroy(f.big, a);
      var medium := SpawnPair(f.medium, f.countMedium, f.big[a].position, Vec(-1.0 * Speed2, Speed2), Vec(Speed2, Speed2));
      f.(big := big, medium := medium, countMedium := f.countMedium + 2,
         destroyed := f.destroyed + 1, score := f.score + BigPoints)
  }

  /** The medium-ball loop: the first medium ball hit goes, scores 100, and two small balls
      take the next two small slots, one moving down-left and one down-right. */
  function StrikeMedium(f: Field, line: Vec, tip: real): (r: Field)
    requires FieldOk(f)
    ensures FieldOk(r)
    ensures r.destroyed == f.destroyed + 1 <==> HitsAny(f.medium, line, tip)
    ensures !HitsAny(f.medium, line, tip) ==> r == f
    ensures HitsAny(f.medium, line, tip) ==>
      r.score == f.score + MediumPoints && CountActive(r.medium) == CountActive(f.medium) - 1 &&
      0 <= f.countSmall && f.countSmall + 1 < MaxSmall &&
      r.small[f.countSmall].speed == Vec(-Speed2, -Speed2) && r.small[f.countSmall + 1].speed == Vec(Speed2, -Speed2)
  {
    var b := FirstStruck(f.medium, line, tip, 0);
    if b == MaxMedium then f
    else
      FieldBounded(f);
      ActiveBelowCount(f.medium, f.countMedium);
      var medium := Destroy(f.medium, b);
      var small := SpawnPair(f.small, f.countSmall, f.medium[b].position, Vec(Speed2 * -1.0, Speed2 * -1.0), Vec(Speed2, Speed2 * -1.0));
      f.(medium := medium, small := small, countSmall := f.countSmall + 2,
         destroyed := f.destroyed + 1, score := f.score + MediumPoints)
  }

  /** The small-ball loop: the first small ball hit goes and scores 50. */
  function StrikeSmall(f: Field, line: Vec, tip: real): (r: Field)
    requires FieldOk(f)
    ensures FieldOk(r)
    ensures r.destroyed == f.destroyed + 1 <==> HitsAny(f.small, line, tip)
    ensures !HitsAny(f.small, line, tip) ==> r == f
    ensures HitsAny(f.small, line, tip) ==>
      r.score == f.score + SmallPoints && CountActive(r.small) == CountActive(f.small) - 1
  {
    var c := FirstStruck(f.small, line, tip, 0);
    if c == MaxSmall then f
    else f.(small := Destroy(f.small, c), destroyed := f.destroyed + 1, score := f.score + SmallPoints)
  }

  /** The shot against the pools. The shot is spent by its first hit and each later pool is
      only tried while it is still flying, so one shot destroys at most one ball. */
  function Strike(f: Field, sh: Shot, line: Vec): (r: Field)
    requires FieldOk(f)
    ensures FieldOk(r)
    ensures r.destroyed == f.destroyed || (sh.active && r.destroyed == f.destroyed + 1)
    ensures r.destroyed == f.destroyed ==> r == f
    ensures sh.active && HitsAny(f.big, line, sh.position.y) ==> r == StrikeBig(f, line, sh.position.y)
  {
    if !sh.active then f
    else
      var tip := sh.position.y;
      var f1 := StrikeBig(f, line, tip);
      if f1.destroyed > f.destroyed then f1
      else
        var f2 := StrikeMedium(f1, line, tip);
        if f2.destroyed > f1.destroyed then f2
        else StrikeSmall(f2, line, tip)
  }

  /** A spent shot. */
  function Spend(sh: Shot): Shot
  {
    sh.(active := false, lifeSpawn := 0)
  }

  // ---------------------------------------------------------------------------------
  // The frame
  // ---------------------------------------------------------------------------------

  /** Between frames. */
  predicate Inv(s: State)
  {
    FieldOk(s.field) && ShotOk(s.shot) && (s.victory ==> s.field.destroyed == AllBalls) &&
    PlayerBaseSize / 2.0 <= s.playerX <= ScreenWidth - PlayerBaseSize / 2.0
  }

  /** Contact between the player's collider, half its height above the floor, and any active
      ball, tested before the balls move. */
  function Contact(f: Field, c: Vec, col: Collisions, gameOver: bool): (r: bool)
    ensures r <==> gameOver || Touches(col, c, f.big) || Touches(col, c, f.medium) || Touches(col, c, f.small)
  {
    var g1 := ContactLoop(col, c, f.big, |f.big|, gameOver);
    var g2 := ContactLoop(col, c, f.medium, |f.medium|, g1);
    ContactLoop(col, c, f.small, |f.small|, g2)
  }

  /** One unpaused frame: the player, the shot, contact, the balls, the shot against the
      balls, and victory once 14 balls are destroyed. `h` is the ship height InitGame
      computes with the host's tangent. */
  function Play(s: State, input: Input, h: real, col: Collisions): (r: State)
    requires Inv(s)
    ensures Inv(r)
    ensures s.field.destroyed <= r.field.destroyed <= s.field.destroyed + 1
    ensures r.playerX == Walk(s.playerX, input)
    ensures r.gameOver <==> Contact(s.field, Vec(r.playerX, ScreenHeight - h / 2.0), col, s.gameOver)
    ensures r.victory <==> s.victory || r.field.destroyed == AllBalls
    ensures r.field.destroyed > s.field.destroyed ==> !r.shot.active && r.shot.lifeSpawn == 0
    ensures r.pause == s.pause && r.draws == s.draws
  {
    var x := Walk(s.playerX, input);
    var fired := Fire(s.shot, s.line, x, h, input);
    var sh := ShotFrame(fired.0);
    var gameOver := Contact(s.field, Vec(x, ScreenHeight - h / 2.0), col, s.gameOver);
    var moved := MoveField(s.field);
    var f := Strike(moved, sh, fired.1);
    var shot := if f.destroyed > moved.destroyed then Spend(sh) else sh;
    s.(playerX := x, shot := shot, line := fired.1, field := f, gameOver := gameOver,
       victory := s.victory || f.destroyed == AllBalls)
  }

  /** One shot takes at most one ball a frame, so the count can never jump past fourteen:
      testing it for equality, as the frame does, is the same as testing it for having
      reached fourteen. */
  lemma VictoryNotSkipped(s: State, input: Input, h: real, col: Collisions)
    requires Inv(s)
    ensures Play(s, input, h, col).victory <==> s.victory || Play(s, input, h, col).field.destroyed >= AllBalls
  {
    FieldBounded(Play(s, input, h, col).field);
  }

  /** UpdateGame. While neither over nor won, P pressed toggles the pause and an unpaused
      frame is played; once over or won, only ENTER does anything, starting a new game. */
  function UpdateGame(s: State, input: Input, rand: RandStream, h: real, col: Collisions): (r: State)
    requires Inv(s)
    requires (s.gameOver || s.victory) && input.enter == PressedDown ==> Eventually(BothMove(rand), s.draws + 2, 2)
    ensures Inv(r)
    ensures !s.gameOver && !s.victory && s.pause != (input.p == PressedDown) ==> r == s.(pause := true)
    ensures !s.gameOver && !s.victory && s.pause == (input.p == PressedDown) ==> r == Play(s.(pause := false), input, h, col)
    ensures (s.gameOver || s.victory) && input.enter != PressedDown ==> r == s
    ensures (s.gameOver || s.victory) && input.enter == PressedDown ==> r == InitGame(s, rand)
  {
    if !s.gameOver && !s.victory then
      var s1 := if input.p == PressedDown then s.(pause := !s.pause) else s;
      if s1.pause then s1 else Play(s1, input, h, col)
    else if input.enter == PressedDown then InitGame(s, rand)
    else s
  }

  // ---------------------------------------------------------------------------------
  // A new game
  // ---------------------------------------------------------------------------------

  /** Both speed draws of the attempt at call `j` are nonzero. */
  predicate BothMoveAt(rand: RandStream, j: nat)
  {
    Draw(rand, j, -BallsSpeed, BallsSpeed) != 0 && Draw(rand, j + 1, -BallsSpeed, BallsSpeed) != 0
  }

  function BothMove(rand: RandStream): nat -> bool { (j: nat) => BothMoveAt(rand, j) }

  /** The call of the accepted speed attempt of the first big ball, which follows its two
      position draws. */
  function SpeedCall(rand: RandStream, k: nat): (j: nat)
    requires Eventually(BothMove(rand), k + 2, 2)
    ensures j >= k + 2 && BothMoveAt(rand, j)
  {
    var j := Resample(BothMove(rand), k + 2, 2);
    assert BothMove(rand)(j);
    j
  }

  /** A big ball at the draws of calls `j` and `j + 1`: x in [40, 760], y in [40, 225]. */
  function BigAt(rand: RandStream, j: nat, speed: Vec): (b: Ball)
    ensures b.active && b.radius == 40.0 && b.speed == speed
    ensures 40.0 <= b.position.x <= 760.0 && 40.0 <= b.position.y <= 225.0
  {
    Meteor(Vec(Draw(rand, j, 40, 760) as real, Draw(rand, j + 1, 40, 225) as real), speed, 40.0, true)
  }

  /** The big balls of a new game. The speed draws start at zero and the loop redraws both
      while either is zero; the second ball finds them already nonzero, so it draws no speed
      and moves exactly like the first. */
  function PlaceBig(rand: RandStream, k: nat): (r: (seq<Ball>, nat))
    requires Eventually(BothMove(rand), k + 2, 2)
    ensures |r.0| == MaxBig && r.1 > k
    ensures r.0[0].speed == r.0[1].speed
    ensures forall i | 0 <= i < MaxBig ::
      r.0[i].active && r.0[i].radius == 40.0 &&
      40.0 <= r.0[i].position.x <= 760.0 && 40.0 <= r.0[i].position.y <= 225.0 &&
      r.0[i].speed.x != 0.0 && r.0[i].speed.y != 0.0 &&
      -Speed2 <= r.0[i].speed.x <= Speed2 && -Speed2 <= r.0[i].speed.y <= Speed2
  {
    var j := SpeedCall(rand, k);
    var v := Vec(Draw(rand, j, -BallsSpeed, BallsSpeed) as real, Draw(rand, j + 1, -BallsSpeed, BallsSpeed) as real);
    ([BigAt(rand, k, v), BigAt(rand, j + 2, v)], j + 4)
  }

  /** A pool of parked, inactive balls of one radius. */
  function Parked(n: nat, radius: real): (ms: seq<Ball>)
    ensures |ms| == n && CountActive(ms) == 0
    ensures forall i | 0 <= i < n :: !ms[i].active && ms[i].radius == radius
  {
    var ms := seq(n, _ => Meteor(Vec(-100.0, -100.0), Vec(0.0, 0.0), radius, false));
    NoneActive(ms);
    ms
  }

  /** InitGame: everything reset, the player at the middle of the floor, the shot cleared,
      two big balls placed and the other pools parked. */
  function InitGame(s: State, rand: RandStream): (r: State)
    requires Eventually(BothMove(rand), s.draws + 2, 2)
    ensures Inv(r)
    ensures !r.gameOver && !r.pause && !r.victory && r.field.destroyed == 0 && r.field.score == 0
    ensures r.field.big == PlaceBig(rand, s.draws).0 && r.draws == PlaceBig(rand, s.draws).1
    ensures CountActive(r.field.medium) == 0 && CountActive(r.field.small) == 0
    ensures r.playerX == ScreenWidth / 2.0 && !r.shot.active && r.line == Vec(0.0, 0.0)
  {
    var placed := PlaceBig(rand, s.draws);
    var big := placed.0;
    assert big[0].active && big[1].active;
    SpawnedCount(big);
    var f := Field(big, Parked(MaxMedium, 20.0), Parked(MaxSmall, 10.0), 0, 0, 0, 0);
    State(ScreenWidth / 2.0, Shot(Vec(0.0, 0.0), Vec(0.0, 0.0), 0, false), Vec(0.0, 0.0), f,
          false, false, false, placed.1)
  }

  /** Two active balls count two. */
  lemma SpawnedCount(ms: seq<Ball>)
    requires |ms| == 2 && ms[0].active && ms[1].active
    ensures CountActive(ms) == 2
  {
    assert ms[..1][..0] == [];
  }
}
