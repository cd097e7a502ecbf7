/** Gold Fever: the player picks up a coin and carries it home while an enemy patrols and,
    once the coin is picked up or the player comes near, chases. Each coin brought home
    scores 100 and makes the enemy faster; being caught outside home ends the game. */
module GoldFever {
  import opened Common

  const PlayerRadius: real := 20.0
  const PlayerSpeed: real := 5.0
  const EnemyRadius: real := 20.0
  /** The enemy notices a player within this distance. */
  const EnemyRadiusBounds: real := 150.0
  const EnemyStartSpeed: real := 3.0
  /** The enemy's speed gain per coin brought home, on each axis. */
  const EnemySpeedUp: real := 0.5
  const CoinRadius := 10
  const CoinValue := 100
  const HomeSize := 50

  /** The enemy, of radius 20: its position, its speed per axis, and its patrol direction. */
  datatype Enemy = Enemy(position: Vec, speed: Vec, moveRight: bool)

  /** The coin (the source's points), of radius 10 and worth 100. */
  datatype Coin = Coin(position: Vec, active: bool)

  /** Home, a 50 by 50 square: `active` once a coin has been picked up, `save` while the
      player was inside it at the end of the last frame. */
  datatype Home = Home(rec: Rect, active: bool, save: bool)

  /** The game's globals. The player's radius and speed never change, so only its position is
      kept. `hiScore` lives across games. */
  datatype State = State(player: Vec, enemy: Enemy, coin: Coin, home: Home, follow: bool,
                         score: int, hiScore: int, gameOver: bool, pause: bool, draws: nat)

  // ---------------------------------------------------------------------------------
  // Movement
  // ---------------------------------------------------------------------------------

  /** Keeps a coordinate `radius` away from the edges at 0 and `edge`: a circle touching an
      edge is set against it. */
  function Clamp(v: real, radius: real, edge: real): (r: real)
    requires 2.0 * radius < edge
    ensures radius <= r <= edge - radius
    ensures radius < v < edge - radius ==> r == v
    ensures v <= radius ==> r == radius
    ensures v >= edge - radius ==> r == edge - radius
  {
    var v1 := if v - radius <= 0.0 then radius else v;
    if v1 + radius >= edge then edge - radius else v1
  }

  /** The arrow keys held move the player by 5 on each axis; the walls keep it inside. */
  function Walk(p: Vec, input: Input): (r: Vec)
    ensures PlayerRadius <= r.x <= ScreenWidth - PlayerRadius
    ensures PlayerRadius <= r.y <= ScreenHeight - PlayerRadius
  {
    var x := p.x + (if input.right == HoldDown then PlayerSpeed else 0.0) - (if input.left == HoldDown then PlayerSpeed else 0.0);
    var y := p.y - (if input.up == HoldDown then PlayerSpeed else 0.0) + (if input.down == HoldDown then PlayerSpeed else 0.0);
    Vec(Clamp(x, PlayerRadius, ScreenWidth), Clamp(y, PlayerRadius, ScreenHeight))
  }

  function Dist(a: real, b: real): real
  {
    if a >= b then a - b else b - a
  }

  /** One axis of the chase: a step toward the target when it is below, then a step back
      when the target is then above. The two tests run one after the other, so a step up that
      would pass the target is taken back, while a step down is always taken. Either way the
      gap never grows past the larger of the old gap and one step. */
  function ChaseAxis(target: real, e: real, speed: real): (r: real)
    requires speed > 0.0
    ensures target >= e + speed ==> r == e + speed
    ensures e < target < e + speed ==> r == e
    ensures target < e ==> r == e - speed
    ensures target == e ==> r == e
    ensures Dist(target, r) <= MaxReal(Dist(target, e), speed)
  {
    var e1 := if target > e then e + speed else e;
    if target < e1 then e1 - speed else e1
  }

  /** The enemy's frame: it chases the player when it has been told to follow or the player
      is within its bounds, unless the player is safe at home; otherwise it patrols sideways.
      Touching a side wall turns the patrol, and the walls keep it inside. */
  function EnemyStep(e: Enemy, p: Vec, follow: bool, save: bool, col: Collisions): (r: Enemy)
    requires e.speed.x > 0.0 && e.speed.y > 0.0
    ensures r.speed == e.speed
    ensures EnemyRadius <= r.position.x <= ScreenWidth - EnemyRadius
    ensures EnemyRadius <= r.position.y <= ScreenHeight - EnemyRadius
    ensures var chase := (follow || col.circles(p, PlayerRadius, e.position, EnemyRadiusBounds)) && !save;
      var moved := if chase then Vec(ChaseAxis(p.x, e.position.x, e.speed.x), ChaseAxis(p.y, e.position.y, e.speed.y))
                   else Vec(e.position.x + (if e.moveRight then e.speed.x else -e.speed.x), e.position.y);
      r.position == Vec(Clamp(moved.x, EnemyRadius, ScreenWidth), Clamp(moved.y, EnemyRadius, ScreenHeight)) &&
      (moved.x - EnemyRadius <= 0.0 ==> r.moveRight) &&
      (moved.x + EnemyRadius >= ScreenWidth ==> !r.moveRight) &&
      (EnemyRadius < moved.x < ScreenWidth - EnemyRadius ==> r.moveRight == e.moveRight)
  {
    var chase := (follow || col.circles(p, PlayerRadius, e.position, EnemyRadiusBounds)) && !save;
    var moved := if chase then Vec(ChaseAxis(p.x, e.position.x, e.speed.x), ChaseAxis(p.y, e.position.y, e.speed.y))
                 else Vec(e.position.x + (if e.moveRight then e.speed.x else -e.speed.x), e.position.y);
    var right1 := if moved.x - EnemyRadius <= 0.0 then true else e.moveRight;
    var right2 := if moved.x + EnemyRadius >= ScreenWidth then false else right1;
    e.(position := Vec(Clamp(moved.x, EnemyRadius, ScreenWidth), Clamp(moved.y, EnemyRadius, ScreenHeight)),
       moveRight := right2)
  }

  // ---------------------------------------------------------------------------------
  // The frame
  // ---------------------------------------------------------------------------------

  /** A coin placed at the draws of calls `k` and `k + 1`, inside the window by its radius. */
  function CoinAt(rand: RandStream, k: nat): (c: Coin)
    ensures c.active
    ensures CoinRadius as real <= c.position.x <= ScreenWidth - CoinRadius as real
    ensures CoinRadius as real <= c.position.y <= ScreenHeight - CoinRadius as real
  {
    Coin(Vec(Draw(rand, k, CoinRadius, 800 - CoinRadius) as real, Draw(rand, k + 1, CoinRadius, 450 - CoinRadius) as real), true)
  }

  /** The enemy's speed at a given score: half a pixel faster per 100 points. */
  function EnemySpeed(score: int): real
  {
    EnemyStartSpeed + EnemySpeedUp * score as real / CoinValue as real
  }

  /** Between frames: the score counts coins brought home, 100 each, and the enemy has
      gained half a pixel per axis for each; the player and the enemy are inside the window;
      the enemy only follows while the coin is carried, and a carried coin means home is
      open; the hi-score is never negative. */
  predicate Inv(s: State)
  {
    s.score >= 0 && s.score % CoinValue == 0 &&
    s.enemy.speed == Vec(EnemySpeed(s.score), EnemySpeed(s.score)) &&
    PlayerRadius <= s.player.x <= ScreenWidth - PlayerRadius &&
    PlayerRadius <= s.player.y <= ScreenHeight - PlayerRadius &&
    (s.follow ==> !s.coin.active) && (!s.coin.active ==> s.home.active) &&
    s.hiScore >= 0
  }

  /** The first part of the frame: the player walks, the enemy moves, the coin is picked up
      when touched (the enemy is told to follow and home opens), and the player is caught
      when the enemy touches it and it was not safe at home last frame; a catch ends the game
      and raises the hi-score to the score. */
  function Chase(s: State, input: Input, col: Collisions): (r: State)
    requires Inv(s)
    ensures Inv(r)
    ensures r.player == Walk(s.player, input)
    ensures r.enemy == EnemyStep(s.enemy, r.player, s.follow, s.home.save, col)
    ensures var caught := col.circles(r.player, PlayerRadius, r.enemy.position, EnemyRadius) && !s.home.save;
      (r.gameOver <==> s.gameOver || caught) &&
      r.hiScore == (if caught && s.hiScore < s.score then s.score else s.hiScore)
    ensures r.coin == s.coin.(active := s.coin.active && !col.circles(r.player, PlayerRadius, s.coin.position, CoinRadius as real))
    ensures r.follow == (s.follow || (s.coin.active && !r.coin.active))
    ensures r.home.rec == s.home.rec && r.home.save == s.home.save
    ensures r.score == s.score && r.draws == s.draws && r.pause == s.pause
  {
    var p := Walk(s.player, input);
    var e := EnemyStep(s.enemy, p, s.follow, s.home.save, col);
    var picked := col.circles(p, PlayerRadius, s.coin.position, CoinRadius as real) && s.coin.active;
    var caught := col.circles(p, PlayerRadius, e.position, EnemyRadius) && !s.home.save;
    s.(player := p, enemy := e, follow := s.follow || picked,
       coin := if picked then s.coin.(active := false) else s.coin,
       home := s.home.(active := s.home.active || picked),
       gameOver := s.gameOver || caught,
       hiScore := if caught && s.hiScore < s.score then s.score else s.hiScore)
  }

  /** The second part: inside home the chase stops and, with the coin carried, the coin is
      brought home for 100 points, a new one is put out (two draws) and the enemy speeds up;
      `save` records whether the player is inside. */
  function AtHome(s: State, rand: RandStream, col: Collisions): (r: State)
    requires Inv(s)
    ensures Inv(r)
    ensures var inside := col.circleRec(s.player, PlayerRadius, s.home.rec);
      (r.home.save <==> inside) &&
      (r.score == s.score + CoinValue <==> inside && !s.coin.active) &&
      (r.score == s.score <==> !(inside && !s.coin.active)) &&
      (r.follow <==> s.follow && !inside)
    ensures r.score > s.score ==> r.coin == CoinAt(rand, s.draws) && r.draws == s.draws + 2
    ensures r.score == s.score ==> r.coin == s.coin && r.draws == s.draws
    ensures r.player == s.player && r.enemy.position == s.enemy.position && r.gameOver == s.gameOver &&
            r.hiScore == s.hiScore && r.pause == s.pause && r.home.rec == s.home.rec
  {
    if col.circleRec(s.player, PlayerRadius, s.home.rec) then
      if !s.coin.active then
        s.(follow := false, score := s.score + CoinValue, coin := CoinAt(rand, s.draws),
           enemy := s.enemy.(speed := Vec(s.enemy.speed.x + EnemySpeedUp, s.enemy.speed.y + EnemySpeedUp)),
           home := s.home.(save := true), draws := s.draws + 2)
      else s.(follow := false, home := s.home.(save := true))
    else s.(home := s.home.(save := false))
  }

  /** One unpaused frame: the chase, then home. A coin is scored at most once a frame, and
      the hi-score never drops. */
  function Play(s: State, input: Input, rand: RandStream, col: Collisions): (r: State)
    requires Inv(s)
    ensures Inv(r)
    ensures r.score == s.score || r.score == s.score + CoinValue
    ensures r.hiScore >= s.hiScore
    ensures r.gameOver && !s.gameOver ==> r.hiScore >= s.score
    ensures r.player == Walk(s.player, input)
    ensures r.enemy.position == EnemyStep(s.enemy, r.player, s.follow, s.home.save, col).position
    ensures r.home.save <==> col.circleRec(r.player, PlayerRadius, s.home.rec)
    ensures r.score > s.score ==> r.home.save && !r.follow && r.coin == CoinAt(rand, s.draws) && r.draws == s.draws + 2
    ensures r.score == s.score ==> r.draws == s.draws
    ensures r.pause == s.pause && r.home.rec == s.home.rec
  {
    AtHome(Chase(s, input, col), rand, col)
  }

  /** UpdateGame. While the game runs, P pressed toggles the pause and an unpaused frame is
      played; once over, ENTER starts a new game. */
  function UpdateGame(s: State, input: Input, rand: RandStream, col: Collisions): (r: State)
    requires Inv(s)
    ensures Inv(r)
    ensures r.hiScore >= s.hiScore
    ensures !s.gameOver && s.pause != (input.p == PressedDown) ==> r == s.(pause := true)
    ensures !s.gameOver && s.pause == (input.p == PressedDown) ==> r == Play(s.(pause := false), input, rand, col)
    ensures s.gameOver && input.enter != PressedDown ==> r == s
    ensures s.gameOver && input.enter == PressedDown ==> r == InitGame(s, rand).(gameOver := false)
  {
    if !s.gameOver then
      var s1 := if input.p == PressedDown then s.(pause := !s.pause) else s;
      if s1.pause then s1 else Play(s1, input, rand, col)
    else if input.enter == PressedDown then InitGame(s, rand).(gameOver := false)
    else s
  }

  /** InitGame: score 0, the player at (50, 50), the enemy at (750, 225) at speed 3 heading
      right, no chase, a coin placed (two draws) and home placed inside the window (two
      draws), closed. The hi-score and the game-over flag are not touched. */
  function InitGame(s: State, rand: RandStream): (r: State)
    ensures Inv(r) || s.hiScore < 0
    ensures r.score == 0 && !r.pause && !r.follow && r.hiScore == s.hiScore && r.gameOver == s.gameOver
    ensures r.player == Vec(50.0, 50.0) && r.enemy == Enemy(Vec(750.0, 225.0), Vec(3.0, 3.0), true)
    ensures r.coin == CoinAt(rand, s.draws) && !r.home.active && !r.home.save
    ensures 0.0 <= r.home.rec.x <= ScreenWidth - HomeSize as real && 0.0 <= r.home.rec.y <= ScreenHeight - HomeSize as real
    ensures r.draws == s.draws + 4
  {
    var home := Rect(Draw(rand, s.draws + 2, 0, 800 - HomeSize) as real, Draw(rand, s.draws + 3, 0, 450 - HomeSize) as real,
                     HomeSize as real, HomeSize as real);
    State(Vec(50.0, 50.0), Enemy(Vec(750.0, 225.0), Vec(EnemyStartSpeed, EnemyStartSpeed), true),
          CoinAt(rand, s.draws), Home(home, false, false), false, 0, s.hiScore, s.gameOver, false, s.draws + 4)
  }
}
