/** Asteroids survival: the same ship, no gun, and a field of eight medium and sixteen small
    meteors that never goes away. The score is how long the ship lasts. */
module Survival {
  import opened Common
  import opened Space

  const MaxMedium := 8
  const MaxSmall := 16

  /** The game's globals. `framesCounter` counts the frames played, the time shown. */
  datatype State = State(ship: Ship, medium: seq<Meteor>, small: seq<Meteor>,
                         framesCounter: int, gameOver: bool, pause: bool, draws: nat)

  /** The placement loops for both pools end: the medium pool is placed first, and the small
      pool from where it stopped. */
  ghost predicate PlacementsEnd(rand: RandStream, k: nat)
  {
    PlacementEnds(rand, k, MaxMedium, true) &&
    PlacementEnds(rand, PlaceMeteors(rand, k, MaxMedium, 20.0, true).1, MaxSmall, false)
  }

  /** Every meteor of the pool is active, of the given radius, and within its radius of the
      window. */
  predicate Roaming(ms: seq<Meteor>, radius: real)
  {
    forall i | 0 <= i < |ms| :: ms[i].active && ms[i].radius == radius && InBand(ms[i].position, radius)
  }

  /** Between frames: both pools are full and every meteor roams. */
  predicate Inv(s: State)
  {
    |s.medium| == MaxMedium && |s.small| == MaxSmall && Roaming(s.medium, 20.0) && Roaming(s.small, 10.0)
  }

  /** Placed meteors roam. */
  lemma PlacedRoam(ms: seq<Meteor>, radius: real)
    requires radius >= 0.0 && forall i | 0 <= i < |ms| :: Placed(ms[i], radius)
    ensures Roaming(ms, radius)
  {
    forall i | 0 <= i < |ms| ensures ms[i].active && ms[i].radius == radius && InBand(ms[i].position, radius) {
      assert Placed(ms[i], radius);
    }
  }

  /** The two pools as the placement loops leave them, and the draws used so far. */
  datatype Pools = Pools(medium: seq<Meteor>, small: seq<Meteor>, draws: nat)

  /** The placement loops: eight medium meteors, then sixteen small ones. Only the first
      medium meteor's x is kept off the centre. */
  function PlacePools(rand: RandStream, k: nat): (p: Pools)
    requires PlacementsEnd(rand, k)
    ensures |p.medium| == MaxMedium && |p.small| == MaxSmall
    ensures forall i | 0 <= i < MaxMedium :: Placed(p.medium[i], 20.0)
    ensures forall i | 0 <= i < MaxSmall :: Placed(p.small[i], 10.0)
    ensures !(250.0 < p.medium[0].position.x < 550.0)
    ensures p.draws > k
  {
    var medium := PlaceMeteors(rand, k, MaxMedium, 20.0, true);
    var small := PlaceMeteors(rand, medium.1, MaxSmall, 10.0, false);
    Pools(medium.0, small.0, small.1)
  }

  /** InitGame: the ship at the centre, half its height up, at rest, and the pools placed. */
  function InitGame(s: State, rand: RandStream, trig: Trig): (r: State)
    requires PlacementsEnd(rand, s.draws)
    ensures Inv(r) && r.framesCounter == 0 && !r.pause && r.gameOver == s.gameOver
    ensures r.medium == PlacePools(rand, s.draws).medium && r.small == PlacePools(rand, s.draws).small
    ensures r.draws > s.draws
    ensures r.ship == Ship(Vec(400.0, 225.0 - trig.shipHeight / 2.0), Vec(0.0, 0.0), 0.0, 0.0)
  {
    var p := PlacePools(rand, s.draws);
    PlacedRoam(p.medium, 20.0);
    PlacedRoam(p.small, 10.0);
    State(Ship(Vec(400.0, 225.0 - trig.shipHeight / 2.0), Vec(0.0, 0.0), 0.0, 0.0),
          p.medium, p.small, 0, s.gameOver, false, p.draws)
  }

  /** Moving a pool of roaming meteors keeps them roaming. */
  lemma MoveRoaming(ms: seq<Meteor>, radius: real)
    requires radius >= 0.0 && Roaming(ms, radius)
    ensures Radii(ms) && Roaming(MovePool(ms), radius)
  {
    MovePoolBand(ms);
  }

  /** One unpaused frame: the frame counter, the ship, contact with the meteors (before they
      move), and the meteors. */
  function Play(s: State, input: Input, trig: Trig, col: Collisions): (r: State)
    requires Inv(s) && trig.shipHeight >= 0.0
    ensures Inv(r)
    ensures r.framesCounter == s.framesCounter + 1
    ensures r.ship == Steer(s.ship, input, trig)
    ensures var c := Collider(r.ship, trig);
      r.gameOver <==> s.gameOver || Touches(col, c, s.medium) || Touches(col, c, s.small)
    ensures r.medium == MovePool(s.medium) && r.small == MovePool(s.small)
    ensures r.pause == s.pause && r.draws == s.draws
  {
    var ship := Steer(s.ship, input, trig);
    var c := Collider(ship, trig);
    var g1 := ContactLoop(col, c, s.medium, MaxMedium, s.gameOver);
    var g2 := ContactLoop(col, c, s.small, MaxSmall, g1);
    assert s.medium[..MaxMedium] == s.medium && s.small[..MaxSmall] == s.small;
    MoveRoaming(s.medium, 20.0);
    MoveRoaming(s.small, 10.0);
    s.(framesCounter := s.framesCounter + 1, ship := ship, gameOver := g2,
       medium := MovePool(s.medium), small := MovePool(s.small))
  }

  /** UpdateGame. Outside game over, P held toggles the pause on every frame it is held, and
      an unpaused frame is played. In game over, ENTER starts a new game. */
  function UpdateGame(s: State, input: Input, rand: RandStream, trig: Trig, col: Collisions): (r: State)
    requires Inv(s) && trig.shipHeight >= 0.0
    requires s.gameOver && input.enter == PressedDown ==> PlacementsEnd(rand, s.draws)
    ensures Inv(r)
    ensures !s.gameOver ==> r.pause == (s.pause != (input.p == HoldDown))
    ensures !s.gameOver && r.pause ==> r == s.(pause := true)
    ensures !s.gameOver && !r.pause ==> r.framesCounter == s.framesCounter + 1
    ensures s.gameOver && input.enter != PressedDown ==> r == s
    ensures s.gameOver && input.enter == PressedDown ==> !r.gameOver && r.framesCounter == 0 && !r.pause
    ensures !s.gameOver && s.pause == (input.p == HoldDown) ==> r == Play(s.(pause := false), input, trig, col)
  {
    if !s.gameOver then
      var s1 := if input.p == HoldDown then s.(pause := !s.pause) else s;
      if s1.pause then s1 else Play(s1, input, trig, col)
    else if input.enter == PressedDown then InitGame(s, rand, trig).(gameOver := false)
    else s
  }
}
