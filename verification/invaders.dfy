/** Space Invaders (horizontal): the player's ship shoots right at enemies that fly left in
    three waves of 10, 20 and 50. */
module Invaders {
  import opened Common

  const NumShoots := 50
  const MaxEnemies := 50
  const FirstWave := 10
  const SecondWave := 20
  const ThirdWave := 50

  const PlayerSpeed: real := 5.0
  const EnemySpeed: real := 5.0
  const ShotSpeed: real := 7.0
  const PlayerSize: real := 20.0
  const EnemySize: real := 10.0
  const ShotWidth: real := 10.0
  const ShotHeight: real := 5.0

  datatype Wave = First | Second | Third

  /** Enemies and shots; their speeds never change, so they are the constants above. */
  datatype Enemy = Enemy(rec: Rect, active: bool)
  datatype Shot = Shot(rec: Rect, active: bool)

  /** The game state. The wave title's fade (`alpha`, `smooth`) only affects drawing and is
      not modelled. */
  datatype State = State(
    player: Rect, enemies: seq<Enemy>, shots: seq<Shot>,
    wave: Wave, activeEnemies: int, enemiesKill: int, score: int, shootRate: int,
    victory: bool, gameOver: bool, pause: bool,
    draws: nat)

  predicate Shaped(s: State)
  {
    |s.enemies| == MaxEnemies && |s.shots| == NumShoots && 0 <= s.activeEnemies <= MaxEnemies
  }

  /** The number of enemies in play in a wave. */
  function WaveSize(w: Wave): int
  {
    match w
    case First => FirstWave
    case Second => SecondWave
    case Third => ThirdWave
  }

  /** Where an enemy (re)appears, drawn by calls `k` and `k + 1`: x in [800, 1800] and y in
      [0, 450 - 10]. */
  function SpawnRect(rand: RandStream, k: nat): (r: Rect)
    ensures 800.0 <= r.x <= 1800.0 && 0.0 <= r.y <= 440.0
    ensures r.width == EnemySize && r.height == EnemySize
  {
    Rect(Draw(rand, k, 800, 800 + 1000) as real, Draw(rand, k + 1, 0, 450 - 10) as real, EnemySize, EnemySize)
  }

  /** An enemy within the band enemies can occupy: x in [0, 1800], y in [0, 440], 10 by 10. */
  predicate EnemyInRange(e: Enemy)
  {
    0.0 <= e.rec.x <= 1800.0 && 0.0 <= e.rec.y <= 440.0 && e.rec.width == EnemySize && e.rec.height == EnemySize
  }

  /** The rectangle a new shot gets: at the player's left edge, a quarter of its height down. */
  function ShotRect(player: Rect): Rect
  {
    Rect(player.x, player.y + PlayerSize / 4.0, ShotWidth, ShotHeight)
  }

  const PlayerStart := Rect(20.0, 50.0, PlayerSize, PlayerSize)

  /** InitGame: the first wave with all 50 enemies active at random places and every shot
      idle. */
  function InitGame(s: State, rand: RandStream): (r: State)
    ensures Shaped(r) && r.wave == First && r.activeEnemies == FirstWave
    ensures r.enemiesKill == 0 && r.score == 0 && r.shootRate == 0
    ensures !r.victory && !r.gameOver && !r.pause && r.player == PlayerStart
    ensures forall i | 0 <= i < MaxEnemies :: r.enemies[i].active && EnemyInRange(r.enemies[i])
    ensures forall i | 0 <= i < NumShoots :: !r.shots[i].active
    ensures r.draws == s.draws + 2 * MaxEnemies
  {
    State(PlayerStart,
          seq(MaxEnemies, i requires 0 <= i < MaxEnemies => Enemy(SpawnRect(rand, s.draws + 2 * i), true)),
          seq(NumShoots, _ => Shot(ShotRect(PlayerStart), false)),
          First, FirstWave, 0, 0, 0, false, false, false, s.draws + 2 * MaxEnemies)
  }

  // ---------------------------------------------------------------------------------
  // The wave machine
  // ---------------------------------------------------------------------------------

  /** The wave check at the head of a frame. The source moves on when `enemiesKill ==
      activeEnemies`; `atLeast` selects the corrected test `enemiesKill >= activeEnemies`. A
      change of wave clears the kill count, reactivates the enemies in play and enlarges the
      wave; in the third wave the test only declares victory. */
  function WaveWith(s: State, atLeast: bool): (r: State)
    requires Shaped(s)
    ensures Shaped(r)
    ensures r == s.(enemies := r.enemies, enemiesKill := r.enemiesKill, activeEnemies := r.activeEnemies,
                    wave := r.wave, victory := r.victory)
    ensures forall i | 0 <= i < MaxEnemies :: r.enemies[i].rec == s.enemies[i].rec
    ensures !atLeast && s.enemiesKill != s.activeEnemies ==> r == s
    ensures atLeast && s.enemiesKill < s.activeEnemies ==> r == s
    ensures s.enemiesKill >= 0 ==> r.enemiesKill >= 0
    ensures s.activeEnemies == WaveSize(s.wave) ==> r.activeEnemies == WaveSize(r.wave)
  {
    var reached := if atLeast then s.enemiesKill >= s.activeEnemies else s.enemiesKill == s.activeEnemies;
    var revived := seq(MaxEnemies, i requires 0 <= i < MaxEnemies =>
      if i < s.activeEnemies && !s.enemies[i].active then s.enemies[i].(active := true) else s.enemies[i]);
    match s.wave
    case First =>
      if reached then s.(enemiesKill := 0, enemies := revived, activeEnemies := SecondWave, wave := Second) else s
    case Second =>
      if reached then s.(enemiesKill := 0, enemies := revived, activeEnemies := ThirdWave, wave := Third) else s
    case Third =>
      if reached then s.(victory := true) else s
  }

  /** The corrected wave check. */
  function WaveStep(s: State): (r: State)
    requires Shaped(s)
    ensures Shaped(r)
    ensures s.wave != Third && s.enemiesKill >= s.activeEnemies ==>
      r.enemiesKill == 0 && r.wave == (if s.wave == First then Second else Third) &&
      r.activeEnemies == WaveSize(r.wave)
    ensures s.wave == Third && s.enemiesKill >= s.activeEnemies ==> r == s.(victory := true)
    ensures s.enemiesKill < s.activeEnemies ==> r == s
  {
    WaveWith(s, true)
  }

  /** The wave check as the source writes it: it agrees with the corrected check when the
      kills equal the wave size, and does nothing otherwise. */
  function WaveStepAsWritten(s: State): (r: State)
    requires Shaped(s)
    ensures Shaped(r)
    ensures s.enemiesKill != s.activeEnemies ==> r == s
    ensures s.enemiesKill == s.activeEnemies ==> r == WaveStep(s)
  {
    WaveWith(s, false)
  }

  // ---------------------------------------------------------------------------------
  // Player and enemies
  // ---------------------------------------------------------------------------------

  /** The arrows held this frame move the player by 5 each. */
  function MovePlayer(p: Rect, input: Input): (r: Rect)
    ensures r.width == p.width && r.height == p.height
    ensures r.x == p.x + (if input.right == HoldDown then PlayerSpeed else 0.0) - (if input.left == HoldDown then PlayerSpeed else 0.0)
    ensures r.y == p.y - (if input.up == HoldDown then PlayerSpeed else 0.0) + (if input.down == HoldDown then PlayerSpeed else 0.0)
  {
    var p1 := if input.right == HoldDown then p.(x := p.x + PlayerSpeed) else p;
    var p2 := if input.left == HoldDown then p1.(x := p1.x - PlayerSpeed) else p1;
    var p3 := if input.up == HoldDown then p2.(y := p2.y - PlayerSpeed) else p2;
    if input.down == HoldDown then p3.(y := p3.y + PlayerSpeed) else p3
  }

  /** The wall step: the player's rectangle is pushed back inside the window. */
  function ClampPlayer(p: Rect): (r: Rect)
    ensures r.width == p.width && r.height == p.height
    ensures 0.0 <= p.width <= 800.0 ==> 0.0 <= r.x && r.x + r.width <= 800.0
    ensures 0.0 <= p.height <= 450.0 ==> 0.0 <= r.y && r.y + r.height <= 450.0
    ensures 0.0 < p.x && p.x + p.width < 800.0 ==> r.x == p.x
    ensures 0.0 < p.y && p.y + p.height < 450.0 ==> r.y == p.y
  {
    var p1 := if p.x <= 0.0 then p.(x := 0.0) else p;
    var p2 := if p1.x + p1.width >= 800.0 then p1.(x := 800.0 - p1.width) else p1;
    var p3 := if p2.y <= 0.0 then p2.(y := 0.0) else p2;
    if p3.y + p3.height >= 450.0 then p3.(y := 450.0 - p3.height) else p3
  }

  /** The player touches one of the enemies in play; the source does not look at their
      `active` flags. */
  predicate Touched(player: Rect, enemies: seq<Enemy>, n: int, col: Collisions)
  {
    exists i :: 0 <= i < n && i < |enemies| && col.recs(player, enemies[i].rec)
  }

  /** An active enemy whose step left would take it past the left edge. */
  predicate Escapes(e: Enemy)
  {
    e.active && e.rec.x - EnemySpeed < 0.0
  }

  /** How many of the first `n` enemies escape this frame; each escape costs two draws. */
  function Escaping(es: seq<Enemy>, n: nat): nat
    requires n <= |es|
  {
    if n == 0 then 0 else Escaping(es, n - 1) + (if Escapes(es[n - 1]) then 1 else 0)
  }

  /** One enemy's step, with `k` the next draw: an active enemy flies left by 5 and, once past
      the left edge, reappears at a random place to the right; an inactive one stays put. */
  function MoveEnemy(e: Enemy, rand: RandStream, k: nat): (r: Enemy)
    ensures r.active == e.active
    ensures !e.active ==> r == e
    ensures e.active && !Escapes(e) ==> r.rec == e.rec.(x := e.rec.x - EnemySpeed)
    ensures Escapes(e) ==>
      (800.0 <= r.rec.x <= 1800.0 && 0.0 <= r.rec.y <= 440.0 && r.rec.width == EnemySize && r.rec.height == EnemySize)
    ensures EnemyInRange(e) ==> EnemyInRange(r)
  {
    if !e.active then e
    else if Escapes(e) then e.(rec := SpawnRect(rand, k))
    else e.(rec := e.rec.(x := e.rec.x - EnemySpeed))
  }

  /** The enemy loop over the first `n` enemies: enemy `i` takes its step with the draws left
      after the escapes before it. */
  function EnemyPass(s: State, rand: RandStream, n: nat): (r: State)
    requires Shaped(s) && n <= MaxEnemies
    ensures Shaped(r) && r == s.(enemies := r.enemies, draws := r.draws)
    ensures forall i | n <= i < MaxEnemies :: r.enemies[i] == s.enemies[i]
    ensures r.draws == s.draws + 2 * Escaping(s.enemies, n)
  {
    if n == 0 then s
    else
      var t := EnemyPass(s, rand, n - 1);
      var e := t.enemies[n - 1];
      t.(enemies := t.enemies[n - 1 := MoveEnemy(e, rand, t.draws)], draws := t.draws + (if Escapes(e) then 2 else 0))
  }

  /** Enemy `i` of the pass over the first `n` enemies has taken its own step, with the draws
      left after the escapes before it. */
  lemma {:induction false} EnemyPassSteps(s: State, rand: RandStream, n: nat, i: nat)
    requires Shaped(s) && i < n <= MaxEnemies
    ensures EnemyPass(s, rand, n).enemies[i] == MoveEnemy(s.enemies[i], rand, s.draws + 2 * Escaping(s.enemies, i))
  {
    var t := EnemyPass(s, rand, n - 1);
    if i < n - 1 {
      EnemyPassSteps(s, rand, n - 1, i);
    } else {
      assert t.enemies[i] == s.enemies[i];
    }
  }

  // ---------------------------------------------------------------------------------
  // Shots
  // ---------------------------------------------------------------------------------

  /** The first idle shot slot at or after `i`, or `|shots|` if there is none. */
  function FirstIdle(shots: seq<Shot>, i: nat): (k: nat)
    requires i <= |shots|
    ensures i <= k <= |shots| && (k < |shots| ==> !shots[k].active)
    ensures forall m | i <= m < k :: shots[m].active
    decreases |shots| - i
  {
    if i == |shots| then i else if !shots[i].active then i else FirstIdle(shots, i + 1)
  }

  /** SPACE held adds 5 to the shot rate; when the rate is a multiple of 20 the first idle
      slot gets a shot at the player. */
  function Fire(s: State, input: Input): (r: State)
    requires Shaped(s)
    ensures Shaped(r) && r == s.(shots := r.shots, shootRate := r.shootRate)
    ensures r.shootRate == s.shootRate + (if input.space == HoldDown then 5 else 0)
    ensures input.space != HoldDown ==> r == s
    ensures input.space == HoldDown && (s.shootRate + 5) % 20 == 0 && FirstIdle(s.shots, 0) < NumShoots ==>
      r.shots[FirstIdle(s.shots, 0)] == Shot(ShotRect(s.player), true)
    ensures forall m | 0 <= m < NumShoots :: r.shots[m] == s.shots[m] || (!s.shots[m].active && m == FirstIdle(s.shots, 0))
    ensures forall m | 0 <= m < NumShoots :: s.shots[m].active ==> r.shots[m].active
    ensures r.shots != s.shots <==>
      (input.space == HoldDown && (s.shootRate + 5) % 20 == 0 && FirstIdle(s.shots, 0) < NumShoots)
  {
    if input.space == HoldDown then
      var rate := s.shootRate + 5;
      var k := FirstIdle(s.shots, 0);
      if k < NumShoots && rate % 20 == 0 then
        s.(shootRate := rate, shots := s.shots[k := Shot(ShotRect(s.player), true)])
      else s.(shootRate := rate)
    else s
  }

  /** The shot at `shot` overlaps the active enemy `e`. */
  predicate Strikes(shot: Rect, e: Enemy, col: Collisions)
  {
    e.active && col.recs(shot, e.rec)
  }

  /** The shot's right side has reached the window's right edge. */
  predicate AtEdge(shot: Rect)
  {
    shot.x + ShotWidth >= 800.0
  }

  /** The test of shot `i` against enemy `j`: a hit idles the shot, sends the enemy back to
      the right, resets the shot rate and counts one kill worth 100 points; the test does not
      stop after a hit. A shot at the right edge is idled as well, hit or miss, whenever the
      enemy tested is active. An inactive enemy is skipped. */
  function ShotVsEnemy(s: State, rand: RandStream, col: Collisions, i: int, j: int): (r: State)
    requires Shaped(s) && 0 <= i < NumShoots && 0 <= j < MaxEnemies
    ensures Shaped(r)
    ensures r == s.(shots := r.shots, enemies := r.enemies, shootRate := r.shootRate,
                    enemiesKill := r.enemiesKill, score := r.score, draws := r.draws)
    ensures !s.enemies[j].active ==> r == s
    ensures Strikes(s.shots[i].rec, s.enemies[j], col) ==>
      !r.shots[i].active && r.enemies[j] == s.enemies[j].(rec := SpawnRect(rand, s.draws)) && r.shootRate == 0
    ensures !Strikes(s.shots[i].rec, s.enemies[j], col) ==> r.enemies == s.enemies && r.enemiesKill == s.enemiesKill
    ensures s.enemies[j].active && AtEdge(s.shots[i].rec) ==> !r.shots[i].active && r.shootRate == 0
    ensures s.enemies[j].active && !Strikes(s.shots[i].rec, s.enemies[j], col) && !AtEdge(s.shots[i].rec) ==> r == s
    ensures r.enemiesKill == s.enemiesKill + (if Strikes(s.shots[i].rec, s.enemies[j], col) then 1 else 0)
    ensures r.score - s.score == 100 * (r.enemiesKill - s.enemiesKill)
    ensures r.draws == s.draws + 2 * (r.enemiesKill - s.enemiesKill)
    ensures forall m | 0 <= m < MaxEnemies && m != j :: r.enemies[m] == s.enemies[m]
    ensures r.enemies[j].active == s.enemies[j].active
    ensures EnemyInRange(s.enemies[j]) ==> EnemyInRange(r.enemies[j])
    ensures forall m | 0 <= m < NumShoots && m != i :: r.shots[m] == s.shots[m]
    ensures r.shots[i].rec == s.shots[i].rec && (r.shots[i].active ==> s.shots[i].active)
  {
    var e := s.enemies[j];
    if !e.active then s
    else
      var sh := s.shots[i];
      var s1 :=
        if Strikes(sh.rec, e, col) then
          s.(shots := s.shots[i := sh.(active := false)],
             enemies := s.enemies[j := e.(rec := SpawnRect(rand, s.draws))],
             shootRate := 0, enemiesKill := s.enemiesKill + 1, score := s.score + 100, draws := s.draws + 2)
        else s;
      if AtEdge(sh.rec) then
        s1.(shots := s1.shots[i := s1.shots[i].(active := false)], shootRate := 0)
      else s1
  }

  /** How many of the first `n` enemies the shot at `shot` strikes. */
  function Hits(shot: Rect, es: seq<Enemy>, n: nat, col: Collisions): nat
    requires n <= |es|
  {
    if n == 0 then 0 else Hits(shot, es, n - 1, col) + (if Strikes(shot, es[n - 1], col) then 1 else 0)
  }

  /** Some enemy among the first `n` is active. */
  predicate SomeActive(es: seq<Enemy>, n: nat)
    requires n <= |es|
  {
    exists m | 0 <= m < n :: es[m].active
  }

  /** Shot `i` against the first `n` enemies. The shot does not move during the loop, so every
      enemy it overlaps is struck, each respawning on the next two draws; the shot is spent and
      the rate reset by any hit, or by reaching the edge while some tested enemy is active. */
  function ShotVsEnemies(s: State, rand: RandStream, col: Collisions, i: int, n: nat): (r: State)
    requires Shaped(s) && 0 <= i < NumShoots && n <= MaxEnemies
    ensures Shaped(r)
    ensures r == s.(shots := r.shots, enemies := r.enemies, shootRate := r.shootRate,
                    enemiesKill := r.enemiesKill, score := r.score, draws := r.draws)
    ensures r.enemiesKill == s.enemiesKill + Hits(s.shots[i].rec, s.enemies, n, col)
    ensures forall m | n <= m < MaxEnemies :: r.enemies[m] == s.enemies[m]
    ensures r.shootRate == s.shootRate || r.shootRate == 0
    ensures r.score - s.score == 100 * (r.enemiesKill - s.enemiesKill)
    ensures r.draws == s.draws + 2 * (r.enemiesKill - s.enemiesKill)
    ensures forall m | 0 <= m < MaxEnemies :: r.enemies[m].active == s.enemies[m].active
    ensures forall m | 0 <= m < MaxEnemies :: EnemyInRange(s.enemies[m]) ==> EnemyInRange(r.enemies[m])
    ensures forall m | 0 <= m < NumShoots && m != i :: r.shots[m] == s.shots[m]
    ensures r.shots[i].rec == s.shots[i].rec && (r.shots[i].active ==> s.shots[i].active)
  {
    if n == 0 then s
    else ShotVsEnemy(ShotVsEnemies(s, rand, col, i, n - 1), rand, col, i, n - 1)
  }

  /** Enemy `m` of the first `n` respawns, on the two draws after the hits before it, exactly
      when the shot overlaps it and it is active; otherwise it is left alone. */
  lemma {:induction false} StruckEnemies(s: State, rand: RandStream, col: Collisions, i: int, n: nat, m: nat)
    requires Shaped(s) && 0 <= i < NumShoots && m < n <= MaxEnemies
    ensures ShotVsEnemies(s, rand, col, i, n).enemies[m] ==
      if Strikes(s.shots[i].rec, s.enemies[m], col)
      then s.enemies[m].(rec := SpawnRect(rand, s.draws + 2 * Hits(s.shots[i].rec, s.enemies, m, col)))
      else s.enemies[m]
  {
    var t := ShotVsEnemies(s, rand, col, i, n - 1);
    if m < n - 1 {
      StruckEnemies(s, rand, col, i, n - 1, m);
    } else {
      assert t.enemies[m] == s.enemies[m];
    }
  }

  /** The shot is spent and the rate reset by a hit, or by reaching the edge while some tested
      enemy is active; with neither, the loop changes nothing. */
  lemma {:induction false} SpentShot(s: State, rand: RandStream, col: Collisions, i: int, n: nat)
    requires Shaped(s) && 0 <= i < NumShoots && n <= MaxEnemies
    ensures var r := ShotVsEnemies(s, rand, col, i, n);
      (Hits(s.shots[i].rec, s.enemies, n, col) > 0 || (AtEdge(s.shots[i].rec) && SomeActive(s.enemies, n))) ==>
        !r.shots[i].active && r.shootRate == 0
    ensures Hits(s.shots[i].rec, s.enemies, n, col) == 0 && !AtEdge(s.shots[i].rec) ==>
      ShotVsEnemies(s, rand, col, i, n) == s
  {
    if n > 0 {
      SpentShot(s, rand, col, i, n - 1);
      var t := ShotVsEnemies(s, rand, col, i, n - 1);
      if AtEdge(s.shots[i].rec) && SomeActive(s.enemies, n) && !SomeActive(s.enemies, n - 1) {
        assert s.enemies[n - 1].active;
      }
    }
  }

  /** The shot loop over the first `n` slots: an active shot flies right by 7 and is tested
      against the enemies in play; an idle slot is skipped. */
  function ShotPass(s: State, rand: RandStream, col: Collisions, n: nat): (r: State)
    requires Shaped(s) && n <= NumShoots
    ensures Shaped(r)
    ensures r == s.(shots := r.shots, enemies := r.enemies, shootRate := r.shootRate,
                    enemiesKill := r.enemiesKill, score := r.score, draws := r.draws)
    ensures forall m | n <= m < NumShoots :: r.shots[m] == s.shots[m]
    ensures r.enemiesKill >= s.enemiesKill
    ensures r.enemiesKill > s.enemiesKill ==> r.shootRate == 0
    ensures r.shootRate == s.shootRate || r.shootRate == 0
    ensures r.score - s.score == 100 * (r.enemiesKill - s.enemiesKill)
    ensures r.draws == s.draws + 2 * (r.enemiesKill - s.enemiesKill)
    ensures forall m | 0 <= m < MaxEnemies :: r.enemies[m].active == s.enemies[m].active
    ensures forall m | 0 <= m < MaxEnemies :: EnemyInRange(s.enemies[m]) ==> EnemyInRange(r.enemies[m])
    ensures forall m | 0 <= m < NumShoots :: r.shots[m].active ==> s.shots[m].active
  {
    if n == 0 then s
    else
      var t := ShotPass(s, rand, col, n - 1);
      var sh := t.shots[n - 1];
      if !sh.active then t
      else
        var t1 := t.(shots := t.shots[n - 1 := sh.(rec := sh.rec.(x := sh.rec.x + ShotSpeed))]);
        SpentShot(t1, rand, col, n - 1, t.activeEnemies);
        ShotVsEnemies(t1, rand, col, n - 1, t.activeEnemies)
  }

  /** Every active shot among the first `n` has flown right by 7; idle slots are untouched. */
  lemma {:induction false} ShotsFly(s: State, rand: RandStream, col: Collisions, n: nat)
    requires Shaped(s) && n <= NumShoots
    ensures var r := ShotPass(s, rand, col, n);
      forall m | 0 <= m < NumShoots :: r.shots[m].rec ==
        if m < n && s.shots[m].active then s.shots[m].rec.(x := s.shots[m].rec.x + ShotSpeed) else s.shots[m].rec
    ensures var r := ShotPass(s, rand, col, n);
      forall m | 0 <= m < NumShoots :: !s.shots[m].active ==> r.shots[m] == s.shots[m]
  {
    if n > 0 {
      ShotsFly(s, rand, col, n - 1);
    }
  }

  /** One shot that overlaps two active enemies scores both in the same pass. */
  lemma DoubleHit(s: State, rand: RandStream, col: Collisions, i: int)
    requires Shaped(s) && 0 <= i < NumShoots
    requires s.enemies[0].active && s.enemies[1].active
    requires col.recs(s.shots[i].rec, s.enemies[0].rec) && col.recs(s.shots[i].rec, s.enemies[1].rec)
    ensures ShotVsEnemies(s, rand, col, i, 2).enemiesKill == s.enemiesKill + 2
  {
    var t := ShotVsEnemies(s, rand, col, i, 1);
    assert t == ShotVsEnemy(ShotVsEnemies(s, rand, col, i, 0), rand, col, i, 0);
    assert t.enemies[1] == s.enemies[1] && t.shots[i].rec == s.shots[i].rec;
  }

  // ---------------------------------------------------------------------------------
  // The frame
  // ---------------------------------------------------------------------------------

  /** One unpaused frame: the wave check, the player's move, the touch check, the enemies, the
      walls, firing and the shots. */
  function PlayWith(s: State, input: Input, rand: RandStream, col: Collisions, atLeast: bool): (r: State)
    requires Shaped(s) && s.player.width == PlayerSize && s.player.height == PlayerSize
    ensures Shaped(r) && r.pause == s.pause
    ensures 0.0 <= r.player.x && r.player.x + r.player.width <= 800.0
    ensures 0.0 <= r.player.y && r.player.y + r.player.height <= 450.0
    ensures var w := WaveWith(s, atLeast);
      r.wave == w.wave && r.activeEnemies == w.activeEnemies && r.enemiesKill >= w.enemiesKill &&
      r.score - s.score == 100 * (r.enemiesKill - w.enemiesKill)
    ensures var w := WaveWith(s, atLeast);
      r.gameOver == (s.gameOver || Touched(MovePlayer(w.player, input), w.enemies, w.activeEnemies, col))
  {
    var s1 := WaveWith(s, atLeast);
    var p := MovePlayer(s1.player, input);
    var s2 := s1.(player := p, gameOver := s1.gameOver || Touched(p, s1.enemies, s1.activeEnemies, col));
    var s3 := EnemyPass(s2, rand, s2.activeEnemies);
    var s4 := s3.(player := ClampPlayer(s3.player));
    var s5 := Fire(s4, input);
    ShotPass(s5, rand, col, NumShoots)
  }

  function UpdateWith(s: State, input: Input, rand: RandStream, col: Collisions, atLeast: bool): (r: State)
    requires Shaped(s) && s.player.width == PlayerSize && s.player.height == PlayerSize
    ensures Shaped(r)
    ensures s.gameOver ==> r == (if input.enter == PressedDown then InitGame(s, rand) else s)
    ensures !s.gameOver && s.pause != (input.p == PressedDown) ==> r == s.(pause := true)
    ensures !s.gameOver && s.pause == (input.p == PressedDown) ==> r == PlayWith(s.(pause := false), input, rand, col, atLeast)
  {
    if !s.gameOver then
      var s1 := if input.p == PressedDown then s.(pause := !s.pause) else s;
      if s1.pause then s1 else PlayWith(s1, input, rand, col, atLeast)
    else if input.enter == PressedDown then InitGame(s, rand)
    else s
  }

  /** UpdateGame with the corrected wave check. */
  function UpdateGame(s: State, input: Input, rand: RandStream, col: Collisions): (r: State)
    requires Shaped(s) && s.player.width == PlayerSize && s.player.height == PlayerSize
    ensures Shaped(r)
    ensures s.gameOver ==> r == (if input.enter == PressedDown then InitGame(s, rand) else s)
    ensures !s.gameOver && s.pause != (input.p == PressedDown) ==> r == s.(pause := true)
    ensures !s.gameOver && s.pause == (input.p == PressedDown) ==> r == PlayWith(s.(pause := false), input, rand, col, true)
  {
    UpdateWith(s, input, rand, col, true)
  }

  /** UpdateGame as the source writes it. */
  function UpdateGameAsWritten(s: State, input: Input, rand: RandStream, col: Collisions): (r: State)
    requires Shaped(s) && s.player.width == PlayerSize && s.player.height == PlayerSize
    ensures Shaped(r)
    ensures s.gameOver ==> r == (if input.enter == PressedDown then InitGame(s, rand) else s)
    ensures !s.gameOver && s.pause != (input.p == PressedDown) ==> r == s.(pause := true)
    ensures !s.gameOver && s.pause == (input.p == PressedDown) ==> r == PlayWith(s.(pause := false), input, rand, col, false)
  {
    UpdateWith(s, input, rand, col, false)
  }

  /** In a frame that is played, the game ends exactly when it was already over or the moved
      (not yet clamped) player overlaps one of the enemies in play, active or not. */
  lemma TouchEndsGame(s: State, input: Input, rand: RandStream, col: Collisions)
    requires Shaped(s) && s.player.width == PlayerSize && s.player.height == PlayerSize
    requires !s.gameOver && s.pause == (input.p == PressedDown)
    ensures var w := WaveStep(s);
      UpdateGame(s, input, rand, col).gameOver <==> Touched(MovePlayer(w.player, input), w.enemies, w.activeEnemies, col)
  {
    assert WaveStep(s.(pause := false)) == WaveStep(s).(pause := false);
  }

  // ---------------------------------------------------------------------------------
  // Invariant and the wave finding
  // ---------------------------------------------------------------------------------

  /** The number of enemies in play matches the wave, kills are counted from zero, every enemy
      is inside its band and the player's ship keeps its size. */
  predicate Inv(s: State)
  {
    Shaped(s) && s.activeEnemies == WaveSize(s.wave) && s.enemiesKill >= 0 &&
    s.player.width == PlayerSize && s.player.height == PlayerSize &&
    forall i | 0 <= i < MaxEnemies :: EnemyInRange(s.enemies[i])
  }

  lemma InitGameInv(s: State, rand: RandStream)
    ensures Inv(InitGame(s, rand))
  {
  }

  lemma PlayInv(s: State, input: Input, rand: RandStream, col: Collisions, atLeast: bool)
    requires Inv(s)
    ensures Inv(PlayWith(s, input, rand, col, atLeast))
  {
    var s1 := WaveWith(s, atLeast);
    assert Inv(s1);
    var p := MovePlayer(s1.player, input);
    var s2 := s1.(player := p, gameOver := s1.gameOver || Touched(p, s1.enemies, s1.activeEnemies, col));
    assert Inv(s2);
    var s3 := EnemyPass(s2, rand, s2.activeEnemies);
    forall i | 0 <= i < s2.activeEnemies
      ensures EnemyInRange(s3.enemies[i])
    {
      EnemyPassSteps(s2, rand, s2.activeEnemies, i);
    }
    assert Inv(s3);
    var s4 := s3.(player := ClampPlayer(s3.player));
    var s5 := Fire(s4, input);
    assert Inv(s5);
    var r := ShotPass(s5, rand, col, NumShoots);
    assert r == PlayWith(s, input, rand, col, atLeast);
  }

  /** Every frame keeps the invariant, whichever wave check it uses. */
  lemma UpdateInv(s: State, input: Input, rand: RandStream, col: Collisions, atLeast: bool)
    requires Inv(s)
    ensures Inv(UpdateWith(s, input, rand, col, atLeast))
  {
    if !s.gameOver {
      var s1 := if input.p == PressedDown then s.(pause := !s.pause) else s;
      if !s1.pause {
        PlayInv(s1, input, rand, col, atLeast);
      }
    } else if input.enter == PressedDown {
      InitGameInv(s, rand);
    }
  }

  /** As written: once the kill count has jumped past the wave's size (two kills in one
      frame, see DoubleHit), the equality test never fires again; the wave is stuck for
      every later frame. */
  lemma WaveStuckAsWritten(s: State, input: Input, rand: RandStream, col: Collisions)
    requires Inv(s) && !s.gameOver && s.enemiesKill > s.activeEnemies
    ensures var r := UpdateGameAsWritten(s, input, rand, col);
      r.wave == s.wave && r.enemiesKill > r.activeEnemies && !(s.wave == Third && r.victory && !s.victory)
  {
  }

  /** Corrected: a frame that starts with the kill count at or past the wave's size moves to
      the next wave (or declares victory in the third). */
  lemma WaveAdvances(s: State, input: Input, rand: RandStream, col: Collisions)
    requires Inv(s) && s.enemiesKill >= s.activeEnemies && !s.gameOver && s.pause == (input.p == PressedDown)
    ensures var r := UpdateGame(s, input, rand, col);
      match s.wave
      case First => r.wave == Second
      case Second => r.wave == Third
      case Third => r.victory
  {
  }
}
