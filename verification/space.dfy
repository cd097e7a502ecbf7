/** What the two asteroid games share: the ship and its controls, meteors that wrap around
    the window, contact between the ship and the meteors, and the placement loops that give
    each meteor a random position away from the centre and a random nonzero speed. */
module Space {
  import opened Common

  /** The host's trigonometry, which the model does not compute: sine and cosine of an angle
      in degrees, and `shipHeight`, the value (20 / 2) / tan(20 degrees) InitGame stores. */
  datatype Trig = Trig(sin: real -> real, cos: real -> real, shipHeight: real)

  const PlayerSpeed: real := 6.0
  const MeteorsSpeed: int := 2
  /** The radius of the ship's collider. */
  const ColliderRadius: real := 12.0

  datatype Meteor = Meteor(position: Vec, speed: Vec, radius: real, active: bool)

  datatype Ship = Ship(position: Vec, speed: Vec, acceleration: real, rotation: real)

  // ---------------------------------------------------------------------------------
  // Wrapping around the window
  // ---------------------------------------------------------------------------------

  /** One coordinate of the wall behaviour: past the far edge by more than `r` it jumps to
      `-r`; before the near edge by more than `r` it jumps to `extent + r`. */
  function Wrap(v: real, r: real, extent: real): (w: real)
    requires r >= 0.0 && extent >= 0.0
    ensures -r <= w <= extent + r
    ensures v > extent + r ==> w == -r
    ensures v < -r ==> w == extent + r
  {
    if v > extent + r then -r
    else if v < -r then extent + r
    else v
  }

  /** A coordinate already inside the band is kept, so wrapping twice is wrapping once. */
  lemma WrapInside(v: real, r: real, extent: real)
    requires r >= 0.0 && extent >= 0.0
    ensures -r <= v <= extent + r <==> Wrap(v, r, extent) == v
    ensures Wrap(Wrap(v, r, extent), r, extent) == Wrap(v, r, extent)
  {
  }

  /** A meteor's position after wrapping lies within its radius of the window. */
  predicate InBand(p: Vec, r: real)
  {
    -r <= p.x <= ScreenWidth + r && -r <= p.y <= ScreenHeight + r
  }

  /** The meteor loop body: an active meteor moves by its speed and wraps; an inactive one is
      left alone. */
  function MoveMeteor(m: Meteor): (r: Meteor)
    requires m.radius >= 0.0
    ensures r == m.(position := r.position)
    ensures m.active ==> InBand(r.position, m.radius)
    ensures !m.active ==> r == m
    ensures m.active && InBand(m.position.Add(m.speed), m.radius) ==> r.position == m.position.Add(m.speed)
  {
    if m.active then
      var p := m.position.Add(m.speed);
      m.(position := Vec(Wrap(p.x, m.radius, ScreenWidth), Wrap(p.y, m.radius, ScreenHeight)))
    else m
  }

  /** Every meteor has a nonnegative radius. */
  predicate Radii(ms: seq<Meteor>)
  {
    forall i | 0 <= i < |ms| :: ms[i].radius >= 0.0
  }

  /** A meteor loop over a whole pool. */
  function MovePool(ms: seq<Meteor>): (r: seq<Meteor>)
    requires Radii(ms)
    ensures |r| == |ms| && Radii(r)
    ensures forall i | 0 <= i < |ms| :: r[i] == MoveMeteor(ms[i])
  {
    seq(|ms|, i requires 0 <= i < |ms| => MoveMeteor(ms[i]))
  }

  /** Moving keeps which meteors are active and where each active one may be. */
  lemma MovePoolBand(ms: seq<Meteor>)
    requires Radii(ms)
    ensures forall i | 0 <= i < |ms| :: MovePool(ms)[i].active == ms[i].active
    ensures forall i | 0 <= i < |ms| && ms[i].active :: InBand(MovePool(ms)[i].position, ms[i].radius)
    ensures CountActive(MovePool(ms)) == CountActive(ms)
  {
    SameActiveCount(ms, MovePool(ms));
  }

  // ---------------------------------------------------------------------------------
  // Counting active meteors
  // ---------------------------------------------------------------------------------

  function CountActive(ms: seq<Meteor>): (n: nat)
    ensures n <= |ms|
  {
    if ms == [] then 0 else CountActive(ms[..|ms| - 1]) + (if ms[|ms| - 1].active then 1 else 0)
  }

  /** Two pools with the same active flags have the same count. */
  lemma {:induction false} SameActiveCount(a: seq<Meteor>, b: seq<Meteor>)
    requires |a| == |b| && forall i | 0 <= i < |a| :: a[i].active == b[i].active
    ensures CountActive(a) == CountActive(b)
  {
    if a != [] {
      SameActiveCount(a[..|a| - 1], b[..|b| - 1]);
    }
  }

  /** Deactivating an active meteor lowers the count by one. */
  lemma {:induction false} DeactivateCount(ms: seq<Meteor>, i: int, m: Meteor)
    requires 0 <= i < |ms| && ms[i].active && !m.active
    ensures CountActive(ms[i := m]) == CountActive(ms) - 1
    decreases |ms|
  {
    var n := |ms| - 1;
    if i < n {
      DeactivateCount(ms[..n], i, m);
      assert ms[i := m][..n] == ms[..n][i := m];
    } else {
      SameActiveCount(ms[i := m][..n], ms[..n]);
    }
  }

  /** Activating an inactive meteor raises the count by one. */
  lemma {:induction false} ActivateCount(ms: seq<Meteor>, i: int, m: Meteor)
    requires 0 <= i < |ms| && !ms[i].active && m.active
    ensures CountActive(ms[i := m]) == CountActive(ms) + 1
    decreases |ms|
  {
    var n := |ms| - 1;
    if i < n {
      ActivateCount(ms[..n], i, m);
      assert ms[i := m][..n] == ms[..n][i := m];
    } else {
      SameActiveCount(ms[i := m][..n], ms[..n]);
    }
  }

  /** Only the first `k` meteors of the pool can be active. */
  predicate ActiveBelow(ms: seq<Meteor>, k: int)
  {
    forall i | 0 <= i < |ms| && k <= i :: !ms[i].active
  }

  /** So at most `k` are. */
  lemma {:induction false} ActiveBelowCount(ms: seq<Meteor>, k: nat)
    requires ActiveBelow(ms, k)
    ensures CountActive(ms) <= k
    decreases |ms|
  {
    if |ms| > 0 {
      var n := |ms| - 1;
      if n < k {
        assert CountActive(ms[..n]) <= n;
      } else {
        ActiveBelowCount(ms[..n], k);
      }
    }
  }

  /** A pool of which no meteor is active counts none, and a pool that counts none holds no
      active meteor. */
  lemma {:induction false} NoneActive(ms: seq<Meteor>)
    ensures CountActive(ms) == 0 <==> forall i | 0 <= i < |ms| :: !ms[i].active
  {
    if ms != [] {
      var n := |ms| - 1;
      NoneActive(ms[..n]);
      assert forall i | 0 <= i < n :: ms[..n][i] == ms[i];
    }
  }

  // ---------------------------------------------------------------------------------
  // The ship
  // ---------------------------------------------------------------------------------

  /** The bounds the throttle keeps the acceleration within. */
  predicate ThrottleOk(a: real)
  {
    -0.04 < a < 1.04
  }

  /** The controller: UP held raises the acceleration by 0.04 while it is below 1, otherwise
      it decays by 0.02 (a negative one snaps to 0); DOWN held then lowers it by 0.04 (a
      negative one again snaps to 0). */
  function Throttle(a: real, input: Input): (r: real)
    ensures ThrottleOk(a) ==> ThrottleOk(r)
    ensures input.up == HoldDown && input.down != HoldDown ==> a <= r
    ensures input.up != HoldDown ==> r <= MaxReal(a, 0.0)
    ensures input.up != HoldDown && input.down != HoldDown && a <= 0.0 ==> r == 0.0
  {
    var a1 := if input.up == HoldDown then (if a < 1.0 then a + 0.04 else a)
              else if a > 0.0 then a - 0.02 else if a < 0.0 then 0.0 else a;
    if input.down == HoldDown then (if a1 > 0.0 then a1 - 0.04 else if a1 < 0.0 then 0.0 else a1)
    else a1
  }

  /** The ship's part of a frame: LEFT and RIGHT held turn it by 5 degrees, its speed points
      along the new heading, the throttle is applied, it moves by speed times acceleration
      (y grows downwards), and it wraps around the window by `shipHeight`. */
  function Steer(p: Ship, input: Input, trig: Trig): (r: Ship)
    requires trig.shipHeight >= 0.0
    ensures r.rotation == p.rotation - (if input.left == HoldDown then 5.0 else 0.0)
                                     + (if input.right == HoldDown then 5.0 else 0.0)
    ensures r.speed == Vec(trig.sin(r.rotation) * PlayerSpeed, trig.cos(r.rotation) * PlayerSpeed)
    ensures r.acceleration == Throttle(p.acceleration, input)
    ensures InBand(r.position, trig.shipHeight)
    ensures var moved := Advance(p.position, r.speed, r.acceleration);
      InBand(moved, trig.shipHeight) ==> r.position == moved
  {
    var rot1 := if input.left == HoldDown then p.rotation - 5.0 else p.rotation;
    var rot := if input.right == HoldDown then rot1 + 5.0 else rot1;
    var speed := Vec(trig.sin(rot) * PlayerSpeed, trig.cos(rot) * PlayerSpeed);
    var acc := Throttle(p.acceleration, input);
    var moved := Advance(p.position, speed, acc);
    var h := trig.shipHeight;
    Ship(Vec(Wrap(moved.x, h, ScreenWidth), Wrap(moved.y, h, ScreenHeight)), speed, acc, rot)
  }

  /** The ship's movement: x grows by speed.x times the acceleration and y shrinks by
      speed.y times it. */
  function Advance(pos: Vec, speed: Vec, acc: real): Vec
  {
    Vec(pos.x + speed.x * acc, pos.y - speed.y * acc)
  }

  /** The centre of the ship's collider, a little ahead of its position along its heading. */
  function Collider(p: Ship, trig: Trig): Vec
  {
    Vec(p.position.x + trig.sin(p.rotation) * (trig.shipHeight / 2.5),
        p.position.y - trig.cos(p.rotation) * (trig.shipHeight / 2.5))
  }

  /** The ship touches an active meteor of the pool. */
  predicate Touches(col: Collisions, c: Vec, ms: seq<Meteor>)
  {
    exists a | 0 <= a < |ms| :: ms[a].active && col.circles(c, ColliderRadius, ms[a].position, ms[a].radius)
  }

  /** One contact loop: it sets `gameOver` for every active meteor the collider touches. */
  function ContactLoop(col: Collisions, c: Vec, ms: seq<Meteor>, n: nat, gameOver: bool): (r: bool)
    requires n <= |ms|
    ensures r <==> gameOver || Touches(col, c, ms[..n])
  {
    if n == 0 then gameOver
    else
      var g := ContactLoop(col, c, ms, n - 1, gameOver);
      assert forall a | 0 <= a < n - 1 :: ms[..n][a] == ms[..n - 1][a];
      g || (col.circles(c, ColliderRadius, ms[n - 1].position, ms[n - 1].radius) && ms[n - 1].active)
  }

  // ---------------------------------------------------------------------------------
  // Placing meteors
  // ---------------------------------------------------------------------------------

  /** The x a meteor's x draw at call `j` gives: `GetRandomValue(0, 800)`. */
  function XAt(rand: RandStream, j: nat): (x: real)
    ensures 0.0 <= x <= 800.0
  {
    Draw(rand, j, 0, 800) as real
  }

  /** The y a meteor's y draw at call `j` gives: `GetRandomValue(0, 450)`. */
  function YAt(rand: RandStream, j: nat): (y: real)
    ensures 0.0 <= y <= 450.0
  {
    Draw(rand, j, 0, 450) as real
  }

  /** The speed of the two draws `GetRandomValue(-2, 2)` at calls `j` and `j + 1`. */
  function SpeedAt(rand: RandStream, j: nat): (v: Vec)
    ensures -2.0 <= v.x <= 2.0 && -2.0 <= v.y <= 2.0
  {
    Vec(Draw(rand, j, -MeteorsSpeed, MeteorsSpeed) as real, Draw(rand, j + 1, -MeteorsSpeed, MeteorsSpeed) as real)
  }

  /** The x draw of call `j` lies outside the band (250, 550) around the centre. */
  predicate FarXAt(rand: RandStream, j: nat)
  {
    !(250.0 < XAt(rand, j) < 550.0)
  }

  /** The y draw of call `j` lies outside the band (75, 375) around the centre. */
  predicate FarYAt(rand: RandStream, j: nat)
  {
    !(75.0 < YAt(rand, j) < 375.0)
  }

  /** The speed drawn by calls `j` and `j + 1` is not (0, 0). */
  predicate MovesAt(rand: RandStream, j: nat)
  {
    SpeedAt(rand, j) != Vec(0.0, 0.0)
  }

  function FarX(rand: RandStream): nat -> bool { (j: nat) => FarXAt(rand, j) }
  function FarY(rand: RandStream): nat -> bool { (j: nat) => FarYAt(rand, j) }
  function Moves(rand: RandStream): nat -> bool { (j: nat) => MovesAt(rand, j) }

  /** The call of the accepted x draw. With `checkX` the loop redraws x while it lies in the
      central band; without it, x is the first draw. */
  function XCall(rand: RandStream, k: nat, checkX: bool): (j: nat)
    requires checkX ==> Eventually(FarX(rand), k, 1)
    ensures j >= k && (checkX ==> FarXAt(rand, j)) && (!checkX ==> j == k)
  {
    if checkX then
      var j := Resample(FarX(rand), k, 1);
      assert FarX(rand)(j);
      j
    else k
  }

  /** The call of the accepted y draw, which the y loop starts right after the x draw. */
  function YCall(rand: RandStream, k: nat, checkX: bool): (j: nat)
    requires checkX ==> Eventually(FarX(rand), k, 1)
    requires Eventually(FarY(rand), XCall(rand, k, checkX) + 1, 1)
    ensures j > k && FarYAt(rand, j)
  {
    var j := Resample(FarY(rand), XCall(rand, k, checkX) + 1, 1);
    assert FarY(rand)(j);
    j
  }

  /** The three loops of one meteor end. */
  ghost predicate OneEnds(rand: RandStream, k: nat, checkX: bool)
  {
    (checkX ==> Eventually(FarX(rand), k, 1)) &&
    Eventually(FarY(rand), XCall(rand, k, checkX) + 1, 1) &&
    Eventually(Moves(rand), YCall(rand, k, checkX) + 1, 2)
  }

  /** The first call of the accepted speed draw. */
  function SpeedCall(rand: RandStream, k: nat, checkX: bool): (j: nat)
    requires OneEnds(rand, k, checkX)
    ensures j > k && MovesAt(rand, j)
  {
    var j := Resample(Moves(rand), YCall(rand, k, checkX) + 1, 2);
    assert Moves(rand)(j);
    j
  }

  /** One meteor of the InitGame loop, starting at call `k`: its position and speed, and the
      next call. The x loop runs only with `checkX`. */
  function PlaceOne(rand: RandStream, k: nat, checkX: bool): (r: (Vec, Vec, nat))
    requires OneEnds(rand, k, checkX)
    ensures 0.0 <= r.0.x <= 800.0 && 0.0 <= r.0.y <= 450.0
    ensures checkX ==> !(250.0 < r.0.x < 550.0)
    ensures !checkX ==> r.0.x == XAt(rand, k)
    ensures !(75.0 < r.0.y < 375.0)
    ensures -2.0 <= r.1.x <= 2.0 && -2.0 <= r.1.y <= 2.0 && r.1 != Vec(0.0, 0.0)
    ensures r.2 > k
  {
    var jv := SpeedCall(rand, k, checkX);
    (Vec(XAt(rand, XCall(rand, k, checkX)), YAt(rand, YCall(rand, k, checkX))), SpeedAt(rand, jv), jv + 2)
  }

  /** Every loop of the next `n` meteors ends; only the first may check its x. */
  ghost predicate PlacementEnds(rand: RandStream, k: nat, n: nat, checkX: bool)
    decreases n
  {
    n == 0 || (OneEnds(rand, k, checkX) && PlacementEnds(rand, PlaceOne(rand, k, checkX).2, n - 1, false))
  }

  /** Active meteors of the given radius placed by the loop that starts at call `k`, and the
      next call. `correctRange` is left true by each meteor's speed loop, so only the first
      meteor's x loop runs, and then only with `checkX`. */
  function PlaceMeteors(rand: RandStream, k: nat, n: nat, radius: real, checkX: bool): (r: (seq<Meteor>, nat))
    requires PlacementEnds(rand, k, n, checkX)
    ensures |r.0| == n && r.1 >= k
    ensures forall i | 0 <= i < n :: Placed(r.0[i], radius)
    ensures n > 0 && checkX ==> !(250.0 < r.0[0].position.x < 550.0)
    decreases n
  {
    if n == 0 then ([], k)
    else
      var one := PlaceOne(rand, k, checkX);
      var rest := PlaceMeteors(rand, one.2, n - 1, radius, false);
      ([Meteor(one.0, one.1, radius, true)] + rest.0, rest.1)
  }

  /** What the placement promises of every meteor: active, of the given radius, inside the
      window, with y outside the central band and a nonzero speed of at most 2 per axis. */
  predicate Placed(m: Meteor, radius: real)
  {
    m.active && m.radius == radius &&
    0.0 <= m.position.x <= 800.0 && 0.0 <= m.position.y <= 450.0 && !(75.0 < m.position.y < 375.0) &&
    -2.0 <= m.speed.x <= 2.0 && -2.0 <= m.speed.y <= 2.0 && m.speed != Vec(0.0, 0.0)
  }

  /** The x of every meteor after the first is its first draw: nothing keeps it out of the
      central band. */
  lemma PlaceSecondUnchecked(rand: RandStream, k: nat, n: nat, radius: real, checkX: bool)
    requires n >= 2 && PlacementEnds(rand, k, n, checkX)
    ensures PlaceMeteors(rand, k, n, radius, checkX).0[1].position.x ==
            XAt(rand, PlaceOne(rand, k, checkX).2)
  {
    var one := PlaceOne(rand, k, checkX);
    var rest := PlaceMeteors(rand, one.2, n - 1, radius, false);
    var two := PlaceOne(rand, one.2, false);
    assert rest.0[0] == Meteor(two.0, two.1, radius, true);
  }
}
