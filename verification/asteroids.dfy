/** Asteroids: a ship that turns, thrusts and fires into a field of four big meteors. A shot
    splits a big meteor into two medium ones and a medium one into two small ones; a small
    one just disappears. Destroying all 28 is a victory; touching any is the end. */
module Asteroids {
  import opened Common
  import opened Space

  const MaxShots := 10
  const MaxBig := 4
  const MaxMedium := 8
  const MaxSmall := 16
  const AllMeteors := MaxBig + MaxMedium + MaxSmall

  const ShotRadius: real := 2.0
  /** A shot disappears once it has been active for this many frames. */
  const ShotLife := 60

  /** A shot. Its radius is 2 for every shot and is not kept. */
  datatype Shot = Shot(position: Vec, speed: Vec, rotation: real, lifeSpawn: int, active: bool)

  /** The meteor pools. `midCount` and `smallCount` are the next free slots of the medium and
      small pools; `destroyed` counts meteors destroyed. */
  datatype Field = Field(big: seq<Meteor>, medium: seq<Meteor>, small: seq<Meteor>,
                         midCount: int, smallCount: int, destroyed: int)

  /** The game's globals. */
  datatype State = State(ship: Ship, shots: seq<Shot>, field: Field,
                         gameOver: bool, pause: bool, victory: bool, draws: nat)

  /** Between frames: the pools are full-sized; every destroyed big meteor has put two medium
      ones in the next two medium slots and every destroyed medium one two small ones in the
      next two small slots, so the slots from `midCount` and `smallCount` on are unused; and
      `destroyed` counts the inactive meteors among the used slots. */
  predicate FieldOk(f: Field)
  {
    |f.big| == MaxBig && |f.medium| == MaxMedium && |f.small| == MaxSmall &&
    Radii(f.big) && Radii(f.medium) && Radii(f.small) &&
    f.midCount == 2 * (MaxBig - CountActive(f.big)) && ActiveBelow(f.medium, f.midCount) &&
    f.smallCount == 2 * (f.midCount - CountActive(f.medium)) && ActiveBelow(f.small, f.smallCount) &&
    f.destroyed == (MaxBig - CountActive(f.big)) + (f.midCount - CountActive(f.medium)) +
                   (f.smallCount - CountActive(f.small))
  }

  /** So the next free slots always lie within the pools, and at most 28 meteors are ever
      destroyed. */
  lemma FieldBounded(f: Field)
    requires FieldOk(f)
    ensures 0 <= f.midCount <= MaxMedium && f.midCount % 2 == 0
    ensures 0 <= f.smallCount <= MaxSmall && f.smallCount % 2 == 0
    ensures 0 <= f.destroyed <= AllMeteors
  {
    ActiveBelowCount(f.medium, f.midCount);
    ActiveBelowCount(f.small, f.smallCount);
  }

  /** Destroyed meteors never come back: 28 destroyed is exactly an empty field. */
  lemma VictoryIsClearField(f: Field)
    requires FieldOk(f)
    ensures f.destroyed == AllMeteors <==>
      CountActive(f.big) == 0 && CountActive(f.medium) == 0 && CountActive(f.small) == 0
  {
    ActiveBelowCount(f.medium, f.midCount);
    ActiveBelowCount(f.small, f.smallCount);
  }

  /** A pool of inactive meteors of one radius, parked at (-100, -100). */
  function Parked(n: nat, radius: real): (ms: seq<Meteor>)
    requires radius >= 0.0
    ensures |ms| == n && Radii(ms) && CountActive(ms) == 0
    ensures forall i | 0 <= i < n :: !ms[i].active && ms[i].radius == radius
  {
    var ms := seq(n, _ => Meteor(Vec(-100.0, -100.0), Vec(0.0, 0.0), radius, false));
    NoneActive(ms);
    ms
  }

  /** The field of a new game: four placed big meteors, nothing else. */
  function NewField(big: seq<Meteor>): (f: Field)
    requires |big| == MaxBig && forall i | 0 <= i < MaxBig :: Placed(big[i], 40.0)
    ensures FieldOk(f) && f.destroyed == 0 && f.big == big
    ensures CountActive(f.big) == MaxBig && CountActive(f.medium) == 0 && CountActive(f.small) == 0
  {
    forall i | 0 <= i < |big| ensures big[i].active && big[i].radius >= 0.0 {
      assert Placed(big[i], 40.0);
    }
    AllActiveCount(big);
    Field(big, Parked(MaxMedium, 20.0), Parked(MaxSmall, 10.0), 0, 0, 0)
  }

  lemma {:induction false} AllActiveCount(ms: seq<Meteor>)
    requires forall i | 0 <= i < |ms| :: ms[i].active
    ensures CountActive(ms) == |ms|
  {
    if ms != [] {
      AllActiveCount(ms[..|ms| - 1]);
    }
  }

  /** Cleared shots, each keeping its last rotation. */
  function ClearShots(shots: seq<Shot>): (r: seq<Shot>)
    ensures |r| == |shots| && ShotsOk(r)
    ensures forall i | 0 <= i < |r| :: !r[i].active && r[i].rotation == shots[i].rotation
  {
    seq(|shots|, i requires 0 <= i < |shots| => Shot(Vec(0.0, 0.0), Vec(0.0, 0.0), shots[i].rotation, 0, false))
  }

  /** InitGame. The ship sits at the centre, half its height up; the shots are cleared; the big
      meteors are placed by the random loops (only the first one's x is kept off the centre),
      and the medium and small pools are parked. `gameOver` is left alone. */
  function InitGame(s: State, rand: RandStream, trig: Trig): (r: State)
    requires |s.shots| == MaxShots && PlacementEnds(rand, s.draws, MaxBig, true)
    ensures Inv(r) && r.field.destroyed == 0
    ensures forall i | 0 <= i < MaxBig :: Placed(r.field.big[i], 40.0)
    ensures !(250.0 < r.field.big[0].position.x < 550.0)
    ensures CountActive(r.field.medium) == 0 && CountActive(r.field.small) == 0
    ensures forall i | 0 <= i < MaxShots :: !r.shots[i].active
    ensures !r.victory && !r.pause && r.gameOver == s.gameOver && r.draws >= s.draws
    ensures r.ship == Ship(Vec(400.0, 225.0 - trig.shipHeight / 2.0), Vec(0.0, 0.0), 0.0, 0.0)
  {
    var placed := PlaceMeteors(rand, s.draws, MaxBig, 40.0, true);
    State(Ship(Vec(ScreenWidth / 2.0, ScreenHeight / 2.0 - trig.shipHeight / 2.0), Vec(0.0, 0.0), 0.0, 0.0),
          ClearShots(s.shots), NewField(placed.0), s.gameOver, false, false, placed.1)
  }

  // ---------------------------------------------------------------------------------
  // Shots
  // ---------------------------------------------------------------------------------

  /** The first inactive slot, or `|shots|` when every slot is active. */
  function FirstFree(shots: seq<Shot>, from: nat): (i: nat)
    requires from <= |shots|
    ensures from <= i <= |shots|
    ensures i < |shots| ==> !shots[i].active
    ensures forall j | from <= j < i :: shots[j].active
    decreases |shots| - from
  {
    if from == |shots| || !shots[from].active then from else FirstFree(shots, from + 1)
  }

  /** SPACE pressed fires from the first inactive slot: the shot leaves the ship's nose along
      its heading at 1.5 times the ship's speed. An active shot is never replaced. */
  function Fire(shots: seq<Shot>, ship: Ship, input: Input, trig: Trig): (r: seq<Shot>)
    ensures |r| == |shots|
    ensures input.space != PressedDown ==> r == shots
    ensures forall j | 0 <= j < |shots| && shots[j].active :: r[j] == shots[j]
    ensures forall j | 0 <= j < |shots| && r[j] != shots[j] ::
      input.space == PressedDown && j == FirstFree(shots, 0) && r[j].active &&
      r[j].lifeSpawn == shots[j].lifeSpawn && r[j].rotation == ship.rotation
    ensures input.space == PressedDown && FirstFree(shots, 0) < |shots| ==> r[FirstFree(shots, 0)].active
  {
    if input.space == PressedDown then
      var i := FirstFree(shots, 0);
      if i < |shots| then
        var rot := ship.rotation;
        var h := trig.shipHeight;
        shots[i := shots[i].(position := Vec(ship.position.x + trig.sin(rot) * h, ship.position.y - trig.cos(rot) * h),
                             active := true,
                             speed := Vec(1.5 * trig.sin(rot) * PlayerSpeed, 1.5 * trig.cos(rot) * PlayerSpeed),
                             rotation := rot)]
      else shots
    else shots
  }

  /** The shot timer and the shot loop for one shot: an active shot counts the frame, moves
      (y grows downwards), is dropped when it leaves the window by more than its radius, and
      is dropped and zeroed once it has lived 60 frames. */
  function ShotFrame(sh: Shot): (r: Shot)
    ensures !sh.active ==> r == sh
    ensures r.active ==>
      sh.active && r.lifeSpawn == sh.lifeSpawn + 1 < ShotLife &&
      r.position == Vec(sh.position.x + sh.speed.x, sh.position.y - sh.speed.y)
    ensures sh.active && !r.active ==> r.lifeSpawn == 0
    ensures sh.active && sh.lifeSpawn + 1 >= ShotLife ==> !r.active
    ensures r.active ==>
      -ShotRadius <= r.position.x <= ScreenWidth + ShotRadius &&
      -ShotRadius <= r.position.y <= ScreenHeight + ShotRadius
  {
    if sh.active then
      var aged := sh.(lifeSpawn := sh.lifeSpawn + 1);
      var p := Vec(aged.position.x + aged.speed.x, aged.position.y - aged.speed.y);
      var offX := p.x > ScreenWidth + ShotRadius || p.x < 0.0 - ShotRadius;
      var offY := p.y > ScreenHeight + ShotRadius || p.y < 0.0 - ShotRadius;
      var moved := if offX || offY then aged.(position := p, active := false, lifeSpawn := 0)
                   else aged.(position := p);
      if moved.lifeSpawn >= ShotLife then
        moved.(position := Vec(0.0, 0.0), speed := Vec(0.0, 0.0), lifeSpawn := 0, active := false)
      else moved
    else sh
  }

  /** The shot life timer loop followed by the shot loop. */
  function ShotsFrame(shots: seq<Shot>): (r: seq<Shot>)
    ensures |r| == |shots| && forall i | 0 <= i < |shots| :: r[i] == ShotFrame(shots[i])
  {
    seq(|shots|, i requires 0 <= i < |shots| => ShotFrame(shots[i]))
  }

  /** Between frames an active shot has lived fewer than 60 frames and an inactive one has a
      cleared timer. */
  predicate ShotsOk(shots: seq<Shot>)
  {
    forall i | 0 <= i < |shots| ::
      (shots[i].active ==> 0 <= shots[i].lifeSpawn < ShotLife) && (!shots[i].active ==> shots[i].lifeSpawn == 0)
  }

  /** Every shot active after a frame has counted the frame: a shot's timer is the number
      of frames it has been active. */
  predicate Aged(before: seq<Shot>, after: seq<Shot>)
  {
    |after| == |before| &&
    forall j | 0 <= j < |after| && after[j].active ::
      after[j].lifeSpawn == (if before[j].active then before[j].lifeSpawn + 1 else 1)
  }

  /** Spending shots keeps that count for the ones left. */
  lemma AgedKept(before: seq<Shot>, mid: seq<Shot>, after: seq<Shot>, n: int)
    requires Aged(before, mid) && KeptOrSpent(mid, after, n)
    ensures Aged(before, after)
  {
    forall j | 0 <= j < |after| && after[j].active
      ensures after[j].lifeSpawn == (if before[j].active then before[j].lifeSpawn + 1 else 1)
    {
      assert after[j] == mid[j];
    }
  }

  /** Firing and the shot loop keep the shot timers in range and count every frame a shot
      stays active. */
  lemma FrameShotsOk(shots: seq<Shot>, ship: Ship, input: Input, trig: Trig)
    requires ShotsOk(shots)
    ensures ShotsOk(ShotsFrame(Fire(shots, ship, input, trig)))
    ensures Aged(shots, ShotsFrame(Fire(shots, ship, input, trig)))
  {
    var fired := Fire(shots, ship, input, trig);
    assert ShotsOk(fired);
  }

  // ---------------------------------------------------------------------------------
  // Shots against meteors
  // ---------------------------------------------------------------------------------

  /** The shot at `p` touches an active meteor of the pool. */
  predicate Hits(ms: seq<Meteor>, p: Vec, col: Collisions)
  {
    exists a | 0 <= a < |ms| :: ms[a].active && col.circles(p, ShotRadius, ms[a].position, ms[a].radius)
  }

  /** The first active meteor of the pool the shot at `p` touches, or `|ms|`. */
  function FirstHit(ms: seq<Meteor>, p: Vec, col: Collisions, from: nat): (a: nat)
    requires from <= |ms|
    ensures from <= a <= |ms|
    ensures a < |ms| ==> ms[a].active && col.circles(p, ShotRadius, ms[a].position, ms[a].radius)
    ensures forall b | from <= b < a :: !(ms[b].active && col.circles(p, ShotRadius, ms[b].position, ms[b].radius))
    decreases |ms| - from
  {
    if from == |ms| || (ms[from].active && col.circles(p, ShotRadius, ms[from].position, ms[from].radius)) then from
    else FirstHit(ms, p, col, from + 1)
  }

  /** The speed of fragment slot `k`: along the shot's heading with sine and cosine swapped,
      negated in even slots. */
  function FragmentSpeed(k: int, rot: real, trig: Trig): Vec
  {
    var d := MeteorsSpeed as real;
    if k % 2 == 0 then Vec(trig.cos(rot) * d * -1.0, trig.sin(rot) * d * -1.0)
    else Vec(trig.cos(rot) * d, trig.sin(rot) * d)
  }

  /** The two fragments written to slots `k` and `k + 1` at position `p`. */
  function SpawnPair(ms: seq<Meteor>, k: int, p: Vec, rot: real, trig: Trig): (r: seq<Meteor>)
    requires 0 <= k && k + 1 < |ms| && !ms[k].active && !ms[k + 1].active
    ensures |r| == |ms|
    ensures Radii(ms) ==> Radii(r)
    ensures forall j | 0 <= j < |ms| && j != k && j != k + 1 :: r[j] == ms[j]
    ensures r[k].active && r[k + 1].active && r[k].position == p && r[k + 1].position == p
    ensures r[k].radius == ms[k].radius && r[k + 1].radius == ms[k + 1].radius
    ensures k % 2 == 0 ==> r[k].speed.x == -r[k + 1].speed.x && r[k].speed.y == -r[k + 1].speed.y
    ensures CountActive(r) == CountActive(ms) + 2
  {
    var m0 := ms[k].(position := p, speed := FragmentSpeed(k, rot, trig), active := true);
    var m1 := ms[k + 1].(position := p, speed := FragmentSpeed(k + 1, rot, trig), active := true);
    ActivateCount(ms, k, m0);
    ActivateCount(ms[k := m0], k + 1, m1);
    ms[k := m0][k + 1 := m1]
  }

  /** Taking an active meteor out of a pool. */
  function Destroy(ms: seq<Meteor>, a: int): (r: seq<Meteor>)
    requires 0 <= a < |ms| && ms[a].active
    ensures |r| == |ms| && !r[a].active && r[a].position == ms[a].position
    ensures forall j | 0 <= j < |ms| && j != a :: r[j] == ms[j]
    ensures Radii(ms) ==> Radii(r)
    ensures CountActive(ms) >= 1 && CountActive(r) == CountActive(ms) - 1
  {
    DeactivateCount(ms, a, ms[a].(active := false));
    ms[a := ms[a].(active := false)]
  }

  /** The big-meteor loop for a shot at `p` heading `rot`: the first big meteor it touches is
      destroyed and two medium fragments take the next two medium slots. */
  function StrikeBig(f: Field, p: Vec, rot: real, trig: Trig, col: Collisions): (r: Field)
    requires FieldOk(f)
    ensures FieldOk(r)
    ensures r.destroyed == f.destroyed + 1 <==> Hits(f.big, p, col)
    ensures !Hits(f.big, p, col) ==> r == f
    ensures Hits(f.big, p, col) ==>
      CountActive(r.big) == CountActive(f.big) - 1 && f.midCount + 1 < MaxMedium &&
      r.medium[f.midCount].speed.x == -r.medium[f.midCount + 1].speed.x &&
      r.medium[f.midCount].speed.y == -r.medium[f.midCount + 1].speed.y
    ensures r.small == f.small && r.smallCount == f.smallCount
  {
    var a := FirstHit(f.big, p, col, 0);
    if a == MaxBig then f
    else
      var big := Destroy(f.big, a);
      FieldBounded(f);
      var medium := SpawnPair(f.medium, f.midCount, f.big[a].position, rot, trig);
      f.(big := big, medium := medium, midCount := f.midCount + 2, destroyed := f.destroyed + 1)
  }

  /** The medium-meteor loop, which fills the small pool. */
  function StrikeMedium(f: Field, p: Vec, rot: real, trig: Trig, col: Collisions): (r: Field)
    requires FieldOk(f)
    ensures FieldOk(r)
    ensures r.destroyed == f.destroyed + 1 <==> Hits(f.medium, p, col)
    ensures !Hits(f.medium, p, col) ==> r == f
    ensures Hits(f.medium, p, col) ==>
      CountActive(r.medium) == CountActive(f.medium) - 1 && 0 <= f.smallCount && f.smallCount + 1 < MaxSmall &&
      r.small[f.smallCount].speed.x == -r.small[f.smallCount + 1].speed.x &&
      r.small[f.smallCount].speed.y == -r.small[f.smallCount + 1].speed.y
    ensures r.big == f.big && r.midCount == f.midCount
  {
    var b := FirstHit(f.medium, p, col, 0);
    if b == MaxMedium then f
    else
      var medium := Destroy(f.medium, b);
      FieldBounded(f);
      ActiveBelowCount(f.medium, f.midCount);
      var small := SpawnPair(f.small, f.smallCount, f.medium[b].position, rot, trig);
      f.(medium := medium, small := small, smallCount := f.smallCount + 2, destroyed := f.destroyed + 1)
  }

  /** The small-meteor loop, which leaves no fragments. */
  function StrikeSmall(f: Field, p: Vec, col: Collisions): (r: Field)
    requires FieldOk(f)
    ensures FieldOk(r)
    ensures r.destroyed == f.destroyed + 1 <==> Hits(f.small, p, col)
    ensures !Hits(f.small, p, col) ==> r == f
    ensures Hits(f.small, p, col) ==> CountActive(r.small) == CountActive(f.small) - 1
    ensures r.big == f.big && r.medium == f.medium && r.midCount == f.midCount && r.smallCount == f.smallCount
  {
    var c := FirstHit(f.small, p, col, 0);
    if c == MaxSmall then f
    else f.(small := Destroy(f.small, c), destroyed := f.destroyed + 1)
  }

  /** The three loops for one shot, in order: it can destroy one meteor of each size, and the
      medium loop runs whether or not the big loop has spent the shot. */
  function StrikeAll(f: Field, p: Vec, rot: real, trig: Trig, col: Collisions): (r: Field)
    requires FieldOk(f)
    ensures FieldOk(r)
    ensures f.destroyed <= r.destroyed <= f.destroyed + 3
    ensures r.destroyed == f.destroyed ==> r == f
  {
    StrikeSmall(StrikeMedium(StrikeBig(f, p, rot, trig, col), p, rot, trig, col), p, col)
  }

  /** A spent shot. */
  function Spend(sh: Shot): Shot
  {
    sh.(active := false, lifeSpawn := 0)
  }

  /** The meteor field and the shots while the collision loop runs. */
  datatype Volley = Volley(field: Field, shots: seq<Shot>)

  /** One iteration of the collision loop: an active shot that destroys anything is spent. */
  function StrikeStep(v: Volley, i: nat, trig: Trig, col: Collisions): (r: Volley)
    requires FieldOk(v.field) && i < |v.shots|
    ensures FieldOk(r.field)
    ensures v.field.destroyed <= r.field.destroyed <= v.field.destroyed + 3
    ensures |r.shots| == |v.shots|
    ensures forall j | 0 <= j < |v.shots| && j != i :: r.shots[j] == v.shots[j]
    ensures r.shots[i] == v.shots[i] || r.shots[i] == Spend(v.shots[i])
    ensures r.shots[i].active <==> v.shots[i].active && r.field.destroyed == v.field.destroyed
  {
    var sh := v.shots[i];
    if sh.active then
      var g := StrikeAll(v.field, sh.position, sh.rotation, trig, col);
      if g.destroyed > v.field.destroyed then Volley(g, v.shots[i := Spend(sh)]) else Volley(g, v.shots)
    else v
  }

  /** Each shot of `b` is the shot of `a` in the same slot or, below `n`, that shot spent. */
  predicate KeptOrSpent(a: seq<Shot>, b: seq<Shot>, n: int)
  {
    |b| == |a| && forall j | 0 <= j < |a| :: b[j] == a[j] || (j < n && b[j] == Spend(a[j]))
  }

  /** One iteration keeps the loop's promise about the shots so far. */
  lemma StepKeptOrSpent(shots: seq<Shot>, prev: Volley, n: nat, trig: Trig, col: Collisions)
    requires FieldOk(prev.field) && 0 < n <= |prev.shots| && KeptOrSpent(shots, prev.shots, n - 1)
    ensures KeptOrSpent(shots, StrikeStep(prev, n - 1, trig, col).shots, n)
  {
    var r := StrikeStep(prev, n - 1, trig, col);
    forall j | 0 <= j < |shots| ensures r.shots[j] == shots[j] || (j < n && r.shots[j] == Spend(shots[j])) {
      var was := prev.shots[j];
      assert was == shots[j] || (j < n - 1 && was == Spend(shots[j]));
      if j == n - 1 {
        assert was == shots[j];
        assert r.shots[j] == was || r.shots[j] == Spend(was);
      } else {
        assert r.shots[j] == was;
      }
    }
  }

  /** The collision loop over the first `n` shots: each shot either stays as it was or is
      spent, and each destroys at most one meteor of each size. */
  function Strikes(v: Volley, n: nat, trig: Trig, col: Collisions): (r: Volley)
    requires FieldOk(v.field) && n <= |v.shots|
    ensures FieldOk(r.field) && KeptOrSpent(v.shots, r.shots, n)
    ensures v.field.destroyed <= r.field.destroyed <= v.field.destroyed + 3 * n
  {
    if n == 0 then v
    else
      var prev := Strikes(v, n - 1, trig, col);
      StepKeptOrSpent(v.shots, prev, n, trig, col);
      StrikeStep(prev, n - 1, trig, col)
  }

  // ---------------------------------------------------------------------------------
  // The frame
  // ---------------------------------------------------------------------------------

  /** Between frames. */
  predicate Inv(s: State)
  {
    |s.shots| == MaxShots && ShotsOk(s.shots) && FieldOk(s.field) &&
    (s.victory ==> s.field.destroyed == AllMeteors)
  }

  /** The meteors move, each pool keeping its bookkeeping. */
  function MoveField(f: Field): (r: Field)
    requires FieldOk(f)
    ensures FieldOk(r) && r.destroyed == f.destroyed
    ensures r.big == MovePool(f.big) && r.medium == MovePool(f.medium) && r.small == MovePool(f.small)
  {
    MovePoolBand(f.big);
    MovePoolBand(f.medium);
    MovePoolBand(f.small);
    f.(big := MovePool(f.big), medium := MovePool(f.medium), small := MovePool(f.small))
  }

  /** Contact between the ship's collider and any active meteor, tested before the meteors
      move. */
  function Contact(f: Field, c: Vec, col: Collisions, gameOver: bool): (r: bool)
    ensures r <==> gameOver || Touches(col, c, f.big) || Touches(col, c, f.medium) || Touches(col, c, f.small)
  {
    var g1 := ContactLoop(col, c, f.big, |f.big|, gameOver);
    var g2 := ContactLoop(col, c, f.medium, |f.medium|, g1);
    ContactLoop(col, c, f.small, |f.small|, g2)
  }

  /** One unpaused frame: the ship, firing, the shots, contact, the meteors, and the shots
      against the meteors. */
  function Play(s: State, input: Input, trig: Trig, col: Collisions): (r: State)
    requires Inv(s) && trig.shipHeight >= 0.0
    ensures |r.shots| == MaxShots && ShotsOk(r.shots) && FieldOk(r.field)
    ensures Aged(s.shots, r.shots)
    ensures s.field.destroyed <= r.field.destroyed <= s.field.destroyed + 3 * MaxShots
    ensures r.gameOver <==> Contact(s.field, Collider(r.ship, trig), col, s.gameOver)
    ensures r.pause == s.pause && r.victory == s.victory && r.draws == s.draws
    ensures r.ship == Steer(s.ship, input, trig)
  {
    var ship := Steer(s.ship, input, trig);
    var shots := ShotsFrame(Fire(s.shots, ship, input, trig));
    FrameShotsOk(s.shots, ship, input, trig);
    var hit := Strikes(Volley(MoveField(s.field), shots), MaxShots, trig, col);
    AgedKept(s.shots, shots, hit.shots, MaxShots);
    s.(ship := ship, shots := hit.shots, field := hit.field,
       gameOver := Contact(s.field, Collider(ship, trig), col, s.gameOver))
  }

  /** The frame outside game over: P pressed toggles the pause, an unpaused frame is played,
      and victory is declared, paused or not, once 28 meteors are destroyed. */
  function Running(s: State, input: Input, trig: Trig, col: Collisions): (r: State)
    requires Inv(s) && trig.shipHeight >= 0.0
    ensures Inv(r) && s.field.destroyed <= r.field.destroyed
    ensures r.victory <==> s.victory || r.field.destroyed == AllMeteors
    ensures s.pause != (input.p == PressedDown) ==>
      r == s.(pause := true, victory := s.victory || s.field.destroyed == AllMeteors)
    ensures s.pause == (input.p == PressedDown) ==>
      var p := Play(s.(pause := false), input, trig, col);
      r == (if p.field.destroyed == AllMeteors then p.(victory := true) else p)
    ensures r.draws == s.draws
  {
    var s1 := if input.p == PressedDown then s.(pause := !s.pause) else s;
    var s2 := if s1.pause then s1 else Play(s1, input, trig, col);
    if s2.field.destroyed == AllMeteors then s2.(victory := true) else s2
  }

  /** UpdateGame. In game over, ENTER starts a new game; the placement loops must end for it. */
  function UpdateGame(s: State, input: Input, rand: RandStream, trig: Trig, col: Collisions): (r: State)
    requires Inv(s) && trig.shipHeight >= 0.0
    requires s.gameOver && input.enter == PressedDown ==> PlacementEnds(rand, s.draws, MaxBig, true)
    ensures Inv(r)
    ensures !s.gameOver ==> r == Running(s, input, trig, col)
    ensures s.gameOver && input.enter != PressedDown ==> r == s
    ensures s.gameOver && input.enter == PressedDown ==>
      !r.gameOver && !r.victory && r.field.destroyed == 0 && r.draws >= s.draws
  {
    if !s.gameOver then Running(s, input, trig, col)
    else if input.enter == PressedDown then InitGame(s, rand, trig).(gameOver := false)
    else s
  }
}
