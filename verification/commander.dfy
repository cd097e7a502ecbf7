/** Missile Commander: missiles fall from the top of the screen towards three launchers and
    six buildings; the player fires interceptors from the launchers, and their explosions
    destroy the missiles that fly into them. */
module Commander {
  import opened Common

  const MaxMissiles := 100
  const MaxInterceptors := 30
  const MaxExplosions := 100
  const LaunchersAmount := 3
  const BuildingsAmount := 6

  const LauncherSize := 80
  const BuildingSize := 60
  const ExplosionRadius: real := 40.0

  const MissileSpeed: real := 1.0
  const MissileLaunchFrames := 80
  const InterceptorSpeed: real := 10.0
  const ExplosionIncreaseTime := 90
  const ExplosionTotalTime := 210

  /** The horizontal distance between neighbouring targets: 800 / 10. */
  const Sparcing := 800 / (LaunchersAmount + BuildingsAmount + 1)

  /** A missile or an interceptor: both fly in a straight line from `origin` towards
      `objective`, moving by `speed` each frame. */
  datatype Projectile = Projectile(origin: Vec, position: Vec, objective: Vec, speed: Vec, active: bool)

  /** An explosion grows for 90 frames, then shrinks until frame 210, when it vanishes. */
  datatype Explosion = Explosion(position: Vec, radiusMultiplier: real, frame: int, active: bool)

  /** A launcher or a building. */
  datatype Target = Target(position: Vec, active: bool)

  /** The explosion pool and its round-robin cursor, `explosionIndex` in the source. */
  datatype Blasts = Blasts(slots: seq<Explosion>, cursor: int)

  /** What the missile loop reads and writes: the missiles, the explosions, the targets and
      the score. */
  datatype Battle = Battle(
    missiles: seq<Projectile>, blasts: Blasts, launchers: seq<Target>, buildings: seq<Target>, score: int)

  /** The game state. `interceptorNumber` and `missileIndex` are function-local statics in
      the source; they live here with the rest. */
  datatype State = State(
    battle: Battle, interceptors: seq<Projectile>,
    interceptorNumber: int, missileIndex: int, framesCounter: int,
    gameOver: bool, pause: bool, draws: nat)

  /** The speed of magnitude `m` pointing from the first point towards the second. The
      source normalises with a square root; here it is a parameter. */
  type Heading = (Vec, Vec, real) -> Vec

  /** The fixed sizes of the source's arrays. */
  predicate Sized(f: Battle)
  {
    |f.missiles| == MaxMissiles && |f.blasts.slots| == MaxExplosions
    && |f.launchers| == LaunchersAmount && |f.buildings| == BuildingsAmount
  }

  /** Sized, with the explosion cursor in range: what the missile loop needs. */
  predicate Ready(f: Battle)
  {
    Sized(f) && 0 <= f.blasts.cursor < MaxExplosions
  }

  predicate Shaped(s: State)
  {
    Sized(s.battle) && |s.interceptors| == MaxInterceptors
  }

  /** The round-robin cursor step: increment, and go back to 0 on reaching `n`. */
  function Wrap(i: int, n: int): (r: int)
    ensures 0 <= i < n ==> 0 <= r < n && r == (i + 1) % n
  {
    if i + 1 == n then 0 else i + 1
  }

  // ---------------------------------------------------------------------------------------
  // Layout and InitGame

  /** The centre of launcher `j`: slots 1, 5 and 9 of the ten-slot spacing, resting on the
      bottom edge. */
  function LauncherSpot(j: int): Vec
  {
    Vec(((4 * j + 1) * Sparcing) as real, (450 - LauncherSize / 2) as real)
  }

  /** The centre of building `j`: slots 2, 3, 4, 6, 7 and 8. */
  function BuildingSpot(j: int): Vec
  {
    var slot := if j < 3 then j + 2 else j + 3;
    Vec((slot * Sparcing) as real, (450 - BuildingSize / 2) as real)
  }

  /** Every target sits where InitGame put it. */
  predicate Placed(f: Battle)
    requires Sized(f)
  {
    (forall j :: 0 <= j < LaunchersAmount ==> f.launchers[j].position == LauncherSpot(j))
    && (forall j :: 0 <= j < BuildingsAmount ==> f.buildings[j].position == BuildingSpot(j))
  }

  /** InitGame clears position, origin and speed of a projectile; its objective stays. */
  function ClearProjectile(m: Projectile): Projectile
  {
    m.(origin := Vec(0.0, 0.0), position := Vec(0.0, 0.0), speed := Vec(0.0, 0.0), active := false)
  }

  /** InitGame clears position and frame of an explosion; its multiplier stays. */
  function ClearExplosion(e: Explosion): Explosion
  {
    e.(position := Vec(0.0, 0.0), frame := 0, active := false)
  }

  /** The program's state before the first InitGame: every static zero. */
  function Boot(): (b: State)
    ensures Shaped(b)
  {
    var m := Projectile(Vec(0.0, 0.0), Vec(0.0, 0.0), Vec(0.0, 0.0), Vec(0.0, 0.0), false);
    var e := Explosion(Vec(0.0, 0.0), 0.0, 0, false);
    var t := Target(Vec(0.0, 0.0), false);
    var f := Battle(seq(MaxMissiles, _ => m), Blasts(seq(MaxExplosions, _ => e), 0),
                    seq(LaunchersAmount, _ => t), seq(BuildingsAmount, _ => t), 0);
    State(f, seq(MaxInterceptors, _ => m), 0, 0, 0, false, false, 0)
  }

  /** InitGame. It empties the three pools, places and activates the targets and zeroes the
      score; the frame counter, the three cursors, `gameOver` and `pause` are left alone. */
  function InitGame(s: State): (r: State)
    requires Shaped(s)
    ensures Shaped(r) && Placed(r.battle)
    ensures forall k :: 0 <= k < MaxMissiles ==> !r.battle.missiles[k].active
    ensures forall k :: 0 <= k < MaxInterceptors ==> !r.interceptors[k].active
    ensures forall k :: 0 <= k < MaxExplosions ==>
      !r.battle.blasts.slots[k].active && r.battle.blasts.slots[k].frame == 0
      && r.battle.blasts.slots[k].radiusMultiplier == s.battle.blasts.slots[k].radiusMultiplier
    ensures forall j :: 0 <= j < LaunchersAmount ==> r.battle.launchers[j].active
    ensures forall j :: 0 <= j < BuildingsAmount ==> r.battle.buildings[j].active
    ensures r.battle.score == 0 && r.battle.blasts.cursor == s.battle.blasts.cursor
    ensures r == s.(battle := r.battle, interceptors := r.interceptors)
  {
    var f := s.battle;
    var ms := seq(MaxMissiles, k requires 0 <= k < MaxMissiles => ClearProjectile(f.missiles[k]));
    var es := seq(MaxExplosions, k requires 0 <= k < MaxExplosions => ClearExplosion(f.blasts.slots[k]));
    var ls := seq(LaunchersAmount, j => Target(LauncherSpot(j), true));
    var bs := seq(BuildingsAmount, j => Target(BuildingSpot(j), true));
    s.(battle := Battle(ms, f.blasts.(slots := es), ls, bs, 0),
       interceptors := seq(MaxInterceptors, k requires 0 <= k < MaxInterceptors => ClearProjectile(s.interceptors[k])))
  }

  /** The layout in screen coordinates: launchers at x = 80, 400, 720 on y = 410, and
      buildings at x = 160, 240, 320, 480, 560, 640 on y = 420, on a 800-wide screen. */
  lemma PlacedAt(f: Battle)
    requires Sized(f) && Placed(f)
    ensures f.launchers[0].position == Vec(80.0, 410.0) && f.launchers[1].position == Vec(400.0, 410.0)
      && f.launchers[2].position == Vec(720.0, 410.0)
    ensures f.buildings[0].position == Vec(160.0, 420.0) && f.buildings[1].position == Vec(240.0, 420.0)
      && f.buildings[2].position == Vec(320.0, 420.0) && f.buildings[3].position == Vec(480.0, 420.0)
      && f.buildings[4].position == Vec(560.0, 420.0) && f.buildings[5].position == Vec(640.0, 420.0)
  {
  }

  // ---------------------------------------------------------------------------------------
  // Explosions

  /** The radius multiplier at frame `f`: f/90 while growing, then 1 - (f - 90)/210. The
      shrinking phase divides by the total time, not by its own 120 frames, so an explosion
      still has 3/7 of its radius at frame 210, the last frame it is active. */
  function Multiplier(f: int): (m: real)
    ensures 1 <= f <= ExplosionTotalTime ==> 0.0 < m <= 1.0
    ensures 1 <= f <= ExplosionTotalTime ==> (m == 1.0 <==> f == ExplosionIncreaseTime)
  {
    if f <= ExplosionIncreaseTime then f as real / ExplosionIncreaseTime as real
    else 1.0 - (f - ExplosionIncreaseTime) as real / ExplosionTotalTime as real
  }

  /** The multiplier rises strictly up to frame 90 and falls strictly after it, ending at 3/7. */
  lemma MultiplierShape(a: int, b: int)
    requires 1 <= a < b <= ExplosionTotalTime
    ensures b <= ExplosionIncreaseTime ==> Multiplier(a) < Multiplier(b)
    ensures ExplosionIncreaseTime <= a ==> Multiplier(a) > Multiplier(b)
    ensures Multiplier(ExplosionTotalTime) == 3.0 / 7.0
  {
  }

  /** One frame of an explosion's life. */
  function Tick(e: Explosion): (r: Explosion)
    ensures r.position == e.position
    ensures !e.active ==> r == e
    ensures e.active && e.frame < ExplosionTotalTime ==>
      r.active && r.frame == e.frame + 1 && r.radiusMultiplier == Multiplier(e.frame + 1)
    ensures e.active && e.frame >= ExplosionTotalTime ==> !r.active && r.frame == 0
  {
    if !e.active then e
    else
      var f := e.frame + 1;
      if f <= ExplosionIncreaseTime then e.(frame := f, radiusMultiplier := f as real / ExplosionIncreaseTime as real)
      else if f <= ExplosionTotalTime then
        e.(frame := f, radiusMultiplier := 1.0 - (f - ExplosionIncreaseTime) as real / ExplosionTotalTime as real)
      else e.(frame := 0, active := false)
  }

  /** `n` frames of an explosion's life. */
  function Ticks(e: Explosion, n: nat): Explosion
  {
    if n == 0 then e else Tick(Ticks(e, n - 1))
  }

  /** An explosion started at frame 0 stays active for exactly 210 updates, with frame n and
      multiplier `Multiplier(n)` after n of them, and is gone for good after that. */
  lemma {:induction false} ExplosionLifetime(e: Explosion, n: nat)
    requires e.active && e.frame == 0
    ensures Ticks(e, n).position == e.position
    ensures n <= ExplosionTotalTime ==> Ticks(e, n).active && Ticks(e, n).frame == n
    ensures 1 <= n <= ExplosionTotalTime ==> Ticks(e, n).radiusMultiplier == Multiplier(n)
    ensures n > ExplosionTotalTime ==> !Ticks(e, n).active && Ticks(e, n).frame == 0
  {
    if n > 0 {
      ExplosionLifetime(e, n - 1);
    }
  }

  /** The explosion update loop: every slot ticks. */
  function ExplosionPass(es: seq<Explosion>): (r: seq<Explosion>)
    ensures |r| == |es|
    ensures forall k :: 0 <= k < |es| ==> r[k] == Tick(es[k])
  {
    seq(|es|, k requires 0 <= k < |es| => Tick(es[k]))
  }

  /** What every explosion slot satisfies between frames: an idle slot has frame 0, an
      active one a frame in [0, 210] with the multiplier of that frame once it has ticked,
      and every multiplier is in [0, 1]. */
  predicate ExplosionOk(e: Explosion)
  {
    0.0 <= e.radiusMultiplier <= 1.0
    && (if e.active then 0 <= e.frame <= ExplosionTotalTime else e.frame == 0)
    && (e.active && e.frame >= 1 ==> e.radiusMultiplier == Multiplier(e.frame))
  }

  predicate ExplosionsOk(es: seq<Explosion>)
  {
    forall k :: 0 <= k < |es| ==> ExplosionOk(es[k])
  }

  /** Ticking keeps every slot well formed. */
  lemma ExplosionPassOk(es: seq<Explosion>)
    requires ExplosionsOk(es)
    ensures ExplosionsOk(ExplosionPass(es))
  {
    forall k | 0 <= k < |es|
      ensures ExplosionOk(ExplosionPass(es)[k])
    {
      assert ExplosionOk(es[k]);
    }
  }

  /** Start an explosion at `p` in the slot under the cursor and advance the cursor. The
      slot keeps its old multiplier until its first tick. */
  function Spawn(b: Blasts, p: Vec): (r: Blasts)
    requires 0 <= b.cursor < |b.slots|
    ensures |r.slots| == |b.slots|
    ensures r.cursor == (b.cursor + 1) % |b.slots|
    ensures r.slots[b.cursor].active && r.slots[b.cursor].position == p && r.slots[b.cursor].frame == 0
    ensures forall k :: 0 <= k < |b.slots| ==> r.slots[k].radiusMultiplier == b.slots[k].radiusMultiplier
    ensures forall k :: 0 <= k < |b.slots| && k != b.cursor ==> r.slots[k] == b.slots[k]
    ensures ExplosionsOk(b.slots) ==> ExplosionsOk(r.slots)
  {
    var e := b.slots[b.cursor];
    var r := Blasts(b.slots[b.cursor := e.(position := p, active := true, frame := 0)], Wrap(b.cursor, |b.slots|));
    assert ExplosionsOk(b.slots) ==> ExplosionOk(r.slots[b.cursor]) by {
      if ExplosionsOk(b.slots) {
        assert ExplosionOk(e);
      }
    }
    r
  }

  // ---------------------------------------------------------------------------------------
  // Interceptors

  /** The interceptor is closer than one step (10) to its objective. The source compares the
      square root of the squared distance with 10; on reals that is this comparison with 100. */
  predicate Arrived(p: Vec, objective: Vec)
  {
    (p.x - objective.x) * (p.x - objective.x) + (p.y - objective.y) * (p.y - objective.y)
      < InterceptorSpeed * InterceptorSpeed
  }

  /** An interceptor after one frame of flight; an idle one stays where it is. */
  function Flown(m: Projectile): Projectile
  {
    if m.active then m.(position := m.position.Add(m.speed)) else m
  }

  /** What the interceptor loop reads and writes. */
  datatype Flight = Flight(interceptors: seq<Projectile>, blasts: Blasts)

  /** The interceptor loop from slot `i` on. Each active interceptor moves one step; the
      first that arrives stops, explodes, and ends the loop, so the slots after it do not
      move this frame. */
  function InterceptorsFrom(ms: seq<Projectile>, b: Blasts, i: nat): (r: Flight)
    requires i <= |ms| && 0 <= b.cursor < |b.slots|
    ensures |r.interceptors| == |ms| && |r.blasts.slots| == |b.slots| && 0 <= r.blasts.cursor < |b.slots|
    ensures ExplosionsOk(b.slots) ==> ExplosionsOk(r.blasts.slots)
    decreases |ms| - i
  {
    if i == |ms| then Flight(ms, b)
    else
      var m := ms[i];
      if !m.active then InterceptorsFrom(ms, b, i + 1)
      else
        var p := m.position.Add(m.speed);
        if Arrived(p, m.objective) then Flight(ms[i := m.(position := p, active := false)], Spawn(b, p))
        else InterceptorsFrom(ms[i := m.(position := p)], b, i + 1)
  }

  /** The first interceptor from `i` on that is flying and arrives when it moves: the slot
      where the loop breaks, or |ms| when none does. */
  function FirstArrival(ms: seq<Projectile>, i: nat): (h: nat)
    requires i <= |ms|
    ensures i <= h <= |ms|
    ensures h < |ms| ==> ms[h].active && Arrived(Flown(ms[h]).position, ms[h].objective)
    ensures forall a :: i <= a < h ==> !(ms[a].active && Arrived(Flown(ms[a]).position, ms[a].objective))
    decreases |ms| - i
  {
    if i == |ms| then i
    else if ms[i].active && Arrived(Flown(ms[i]).position, ms[i].objective) then i
    else FirstArrival(ms, i + 1)
  }

  /** Slot `a` after the interceptor loop started at `i` broke at `h`. */
  function AfterLoop(ms: seq<Projectile>, i: nat, h: nat, a: nat): Projectile
    requires a < |ms|
  {
    if a < i || a > h then ms[a]
    else if a < h then Flown(ms[a])
    else Flown(ms[a]).(active := false)
  }

  /** The interceptor loop in closed form: the slots before the break fly one step, the one
      at the break flies and stops, the rest are untouched, and an explosion starts at the
      stopped one's position exactly when there is a break. */
  lemma {:induction false} InterceptorsClosedForm(ms: seq<Projectile>, b: Blasts, i: nat)
    requires i <= |ms| && 0 <= b.cursor < |b.slots|
    ensures var r := InterceptorsFrom(ms, b, i);
      var h := FirstArrival(ms, i);
      (forall a :: 0 <= a < |ms| ==> r.interceptors[a] == AfterLoop(ms, i, h, a))
      && (h < |ms| ==> r.blasts == Spawn(b, Flown(ms[h]).position))
      && (h == |ms| ==> r.blasts == b)
    decreases |ms| - i
  {
    if i < |ms| {
      var m := ms[i];
      var p := m.position.Add(m.speed);
      if !m.active {
        InterceptorsClosedForm(ms, b, i + 1);
      } else if !Arrived(p, m.objective) {
        var ns := ms[i := m.(position := p)];
        InterceptorsClosedForm(ns, b, i + 1);
        FirstArrivalFrame(ms, ns, i + 1);
      }
    }
  }

  /** The search for the break only looks at slots from `i` on. */
  lemma {:induction false} FirstArrivalFrame(ms: seq<Projectile>, ns: seq<Projectile>, i: nat)
    requires i <= |ms| == |ns| && forall a :: i <= a < |ms| ==> ms[a] == ns[a]
    ensures FirstArrival(ms, i) == FirstArrival(ns, i)
    decreases |ms| - i
  {
    if i < |ms| {
      FirstArrivalFrame(ms, ns, i + 1);
    }
  }

  /** Interceptor `a` was flying before the loop and is not after it. */
  predicate Stopped(ms: seq<Projectile>, ns: seq<Projectile>, a: int)
    requires 0 <= a < |ms| == |ns|
  {
    ms[a].active && !ns[a].active
  }

  /** The `break`: at most one interceptor stops in a frame, it stops because it arrived,
      its explosion is the only one started, and the interceptors after it do not move;
      with no arrival no explosion starts. */
  lemma AtMostOneArrives(ms: seq<Projectile>, b: Blasts)
    requires 0 <= b.cursor < |b.slots|
    ensures var r := InterceptorsFrom(ms, b, 0);
      (forall a, c :: 0 <= a < |ms| && 0 <= c < |ms| && Stopped(ms, r.interceptors, a) && Stopped(ms, r.interceptors, c) ==> a == c)
      && (forall a, c :: 0 <= a < c < |ms| && Stopped(ms, r.interceptors, a) ==> r.interceptors[c] == ms[c])
      && (forall a :: 0 <= a < |ms| && Stopped(ms, r.interceptors, a) ==>
            Arrived(r.interceptors[a].position, r.interceptors[a].objective)
            && r.blasts == Spawn(b, r.interceptors[a].position))
      && ((forall a :: 0 <= a < |ms| ==> !Stopped(ms, r.interceptors, a)) ==> r.blasts == b)
  {
    var r := InterceptorsFrom(ms, b, 0);
    var h := FirstArrival(ms, 0);
    InterceptorsClosedForm(ms, b, 0);
    assert forall a :: 0 <= a < |ms| ==> (Stopped(ms, r.interceptors, a) <==> a == h);
    if h < |ms| {
      assert Stopped(ms, r.interceptors, h);
    }
  }

  // ---------------------------------------------------------------------------------------
  // Missiles

  /** The two rows of targets a missile is tested against, in the source's order. */
  datatype Row = Launchers | Buildings

  function Targets(f: Battle, row: Row): seq<Target>
  {
    match row
    case Launchers => f.launchers
    case Buildings => f.buildings
  }

  function SizeOf(row: Row): int
  {
    match row
    case Launchers => LauncherSize
    case Buildings => BuildingSize
  }

  /** The square of side `size` centred on a target; the half side is integer-divided as in
      the source, which makes no difference for 80 and 60. */
  function Square(t: Target, size: int): Rect
  {
    Rect(t.position.x - (size / 2) as real, t.position.y - (size / 2) as real, size as real, size as real)
  }

  predicate Struck(t: Target, size: int, p: Vec, col: Collisions)
  {
    t.active && col.pointRec(p, Square(t, size))
  }

  /** The first target from `j` on that is active and whose square holds `p`, or |ts| when
      there is none: the `break` of the target loops. */
  function FirstStruck(ts: seq<Target>, size: int, p: Vec, col: Collisions, j: nat): (h: nat)
    requires j <= |ts|
    ensures j <= h <= |ts|
    ensures h < |ts| ==> Struck(ts[h], size, p, col)
    ensures forall k :: j <= k < h ==> !Struck(ts[k], size, p, col)
    decreases |ts| - j
  {
    if j == |ts| then j
    else if Struck(ts[j], size, p, col) then j
    else FirstStruck(ts, size, p, col, j + 1)
  }

  /** The explosion circle: radius 40 times the slot's current multiplier. */
  predicate Caught(e: Explosion, p: Vec, col: Collisions)
  {
    e.active && col.pointCircle(p, e.position, ExplosionRadius * e.radiusMultiplier)
  }

  /** The first active explosion from `j` on whose circle holds `p`, or |es| when there is
      none. */
  function FirstCaught(es: seq<Explosion>, p: Vec, col: Collisions, j: nat): (h: nat)
    requires j <= |es|
    ensures j <= h <= |es|
    ensures h < |es| ==> Caught(es[h], p, col)
    ensures forall k :: j <= k < h ==> !Caught(es[k], p, col)
    decreases |es| - j
  {
    if j == |es| then j
    else if Caught(es[j], p, col) then j
    else FirstCaught(es, p, col, j + 1)
  }

  /** Every target of `g` that is active was active in `f`, in the same place. */
  predicate OnlyDestroyed(f: Battle, g: Battle)
    requires Sized(f) && Sized(g)
  {
    (forall j :: 0 <= j < LaunchersAmount ==>
       g.launchers[j].position == f.launchers[j].position && (g.launchers[j].active ==> f.launchers[j].active))
    && (forall j :: 0 <= j < BuildingsAmount ==>
       g.buildings[j].position == f.buildings[j].position && (g.buildings[j].active ==> f.buildings[j].active))
  }

  /** Target `h` of a row destroyed, the rest kept. */
  function Destroy(ts: seq<Target>, h: int): (r: seq<Target>)
    requires 0 <= h < |ts|
    ensures |r| == |ts|
    ensures forall k :: 0 <= k < |ts| ==> r[k].position == ts[k].position && (r[k].active <==> ts[k].active && k != h)
  {
    ts[h := ts[h].(active := false)]
  }

  /** Missile `i`, now at `p`, against one row of targets: the first active target whose
      square holds `p` is destroyed together with the missile and an explosion starts at
      `p`; with no such target nothing happens. */
  function StrikeRow(f: Battle, row: Row, i: int, p: Vec, col: Collisions): (r: Battle)
    requires Ready(f) && 0 <= i < MaxMissiles
    ensures Ready(r) && r.score == f.score && OnlyDestroyed(f, r)
    ensures ExplosionsOk(f.blasts.slots) ==> ExplosionsOk(r.blasts.slots)
    ensures var h := FirstStruck(Targets(f, row), SizeOf(row), p, col, 0);
      (h == |Targets(f, row)| ==> r == f)
      && (h < |Targets(f, row)| ==>
            r == Battle(f.missiles[i := f.missiles[i].(active := false)], Spawn(f.blasts, p),
                        if row == Launchers then Destroy(f.launchers, h) else f.launchers,
                        if row == Buildings then Destroy(f.buildings, h) else f.buildings,
                        f.score))
  {
    var h := FirstStruck(Targets(f, row), SizeOf(row), p, col, 0);
    if h == |Targets(f, row)| then f
    else
      var ms := f.missiles[i := f.missiles[i].(active := false)];
      match row
      case Launchers => Battle(ms, Spawn(f.blasts, p), Destroy(f.launchers, h), f.buildings, f.score)
      case Buildings => Battle(ms, Spawn(f.blasts, p), f.launchers, Destroy(f.buildings, h), f.score)
  }

  /** Missile `i`, now at `p`, against the explosions: the first active explosion whose
      circle holds `p` destroys the missile, scores 100 and starts a new explosion at `p`. */
  function Blast(f: Battle, i: int, p: Vec, col: Collisions): (r: Battle)
    requires Ready(f) && 0 <= i < MaxMissiles
    ensures Ready(r) && OnlyDestroyed(f, r)
    ensures ExplosionsOk(f.blasts.slots) ==> ExplosionsOk(r.blasts.slots)
    ensures FirstCaught(f.blasts.slots, p, col, 0) == MaxExplosions ==> r == f
    ensures FirstCaught(f.blasts.slots, p, col, 0) < MaxExplosions ==>
      r == f.(missiles := f.missiles[i := f.missiles[i].(active := false)], blasts := Spawn(f.blasts, p),
              score := f.score + 100)
  {
    if FirstCaught(f.blasts.slots, p, col, 0) == MaxExplosions then f
    else f.(missiles := f.missiles[i := f.missiles[i].(active := false)], blasts := Spawn(f.blasts, p),
            score := f.score + 100)
  }

  /** Missile `i`, now at `p` above the bottom edge, tested against the launchers, then the
      buildings, then the explosions. With `guarded` false this is the source as written,
      which runs the later tests even when an earlier one has already destroyed the
      missile; with `guarded` true a destroyed missile is not tested again. */
  function Land(f: Battle, i: int, p: Vec, col: Collisions, guarded: bool): (r: Battle)
    requires Ready(f) && 0 <= i < MaxMissiles
    ensures Ready(r)
    ensures r.score == f.score || r.score == f.score + 100
    ensures forall k :: 0 <= k < MaxMissiles && k != i ==> r.missiles[k] == f.missiles[k]
    ensures r.missiles[i].position == f.missiles[i].position
  {
    var f2 := StrikeRow(f, Launchers, i, p, col);
    var f3 := if guarded && !f2.missiles[i].active then f2 else StrikeRow(f2, Buildings, i, p, col);
    if guarded && !f3.missiles[i].active then f3 else Blast(f3, i, p, col)
  }

  /** Landing only destroys targets and keeps the explosion slots well formed. */
  lemma LandKeeps(f: Battle, i: int, p: Vec, col: Collisions, guarded: bool)
    requires Ready(f) && 0 <= i < MaxMissiles
    ensures OnlyDestroyed(f, Land(f, i, p, col, guarded))
    ensures ExplosionsOk(f.blasts.slots) ==> ExplosionsOk(Land(f, i, p, col, guarded).blasts.slots)
  {
    var f2 := StrikeRow(f, Launchers, i, p, col);
    var f3 := if guarded && !f2.missiles[i].active then f2 else StrikeRow(f2, Buildings, i, p, col);
    OnlyDestroyedTrans(f, f2, f3);
    if !(guarded && !f3.missiles[i].active) {
      OnlyDestroyedTrans(f, f3, Blast(f3, i, p, col));
    }
  }

  /** One pass of the missile loop's body for missile `i`: it moves one step; below the
      bottom edge it is dropped, otherwise it lands. */
  function MissileWith(f: Battle, i: int, col: Collisions, guarded: bool): (r: Battle)
    requires Ready(f) && 0 <= i < MaxMissiles
    ensures Ready(r) && OnlyDestroyed(f, r)
    ensures ExplosionsOk(f.blasts.slots) ==> ExplosionsOk(r.blasts.slots)
    ensures r.score == f.score || r.score == f.score + 100
    ensures !f.missiles[i].active ==> r == f
    ensures f.missiles[i].active ==> r.missiles[i].position == f.missiles[i].position.Add(f.missiles[i].speed)
    ensures f.missiles[i].active && f.missiles[i].position.Add(f.missiles[i].speed).y > ScreenHeight ==>
      r == f.(missiles := f.missiles[i := f.missiles[i].(position := r.missiles[i].position, active := false)])
    ensures forall k :: 0 <= k < MaxMissiles && k != i ==> r.missiles[k] == f.missiles[k]
  {
    var m := f.missiles[i];
    if !m.active then f
    else
      var p := m.position.Add(m.speed);
      if p.y > ScreenHeight then f.(missiles := f.missiles[i := m.(position := p, active := false)])
      else
        var f1 := f.(missiles := f.missiles[i := m.(position := p)]);
        LandKeeps(f1, i, p, col, guarded);
        Land(f1, i, p, col, guarded)
  }

  /** The missile loop body of the corrected game: a missile scores exactly when no target
      takes it and an explosion does. */
  function MissileStep(f: Battle, i: int, col: Collisions): (r: Battle)
    requires Ready(f) && 0 <= i < MaxMissiles
    ensures Ready(r)
    ensures var p := f.missiles[i].position.Add(f.missiles[i].speed);
      f.missiles[i].active && p.y <= ScreenHeight ==>
        (r.score == f.score + 100 <==>
           FirstStruck(f.launchers, LauncherSize, p, col, 0) == LaunchersAmount
           && FirstStruck(f.buildings, BuildingSize, p, col, 0) == BuildingsAmount
           && FirstCaught(f.blasts.slots, p, col, 0) < MaxExplosions)
  {
    MissileWith(f, i, col, true)
  }

  /** The explosion slots the source's explosion test sees for a missile at `p`: a struck
      launcher, then a struck building, has each already started an explosion at `p`. */
  function BlastsAfterTargets(f: Battle, p: Vec, col: Collisions): (r: seq<Explosion>)
    requires Ready(f)
    ensures |r| == MaxExplosions
  {
    var b1 := if FirstStruck(f.launchers, LauncherSize, p, col, 0) < LaunchersAmount then Spawn(f.blasts, p) else f.blasts;
    var b2 := if FirstStruck(f.buildings, BuildingSize, p, col, 0) < BuildingsAmount then Spawn(b1, p) else b1;
    b2.slots
  }

  /** The missile loop body as the source writes it: the explosion test runs whatever target
      the missile struck, so it scores exactly when an explosion (possibly one it started
      itself) holds it; with no target struck it agrees with the corrected step. */
  function MissileStepAsWritten(f: Battle, i: int, col: Collisions): (r: Battle)
    requires Ready(f) && 0 <= i < MaxMissiles
    ensures Ready(r) && (r.score == f.score || r.score == f.score + 100)
    ensures var p := f.missiles[i].position.Add(f.missiles[i].speed);
      f.missiles[i].active && p.y <= ScreenHeight ==>
        (r.score == f.score + 100 <==> FirstCaught(BlastsAfterTargets(f, p, col), p, col, 0) < MaxExplosions)
    ensures var p := f.missiles[i].position.Add(f.missiles[i].speed);
      (FirstStruck(f.launchers, LauncherSize, p, col, 0) == LaunchersAmount
       && FirstStruck(f.buildings, BuildingSize, p, col, 0) == BuildingsAmount) ==> r == MissileStep(f, i, col)
  {
    MissileWith(f, i, col, false)
  }

  /** The missile loop over the first `n` slots, in order. */
  function MissilesUpTo(f: Battle, n: nat, col: Collisions, guarded: bool): (r: Battle)
    requires Ready(f) && n <= MaxMissiles
    ensures Ready(r)
  {
    if n == 0 then f else MissileWith(MissilesUpTo(f, n - 1, col, guarded), n - 1, col, guarded)
  }

  /** How many of the first `n` slots' steps scored. */
  function Kills(f: Battle, n: nat, col: Collisions, guarded: bool): (k: nat)
    requires Ready(f) && n <= MaxMissiles
    ensures k <= n
  {
    if n == 0 then 0
    else
      var f1 := MissilesUpTo(f, n - 1, col, guarded);
      Kills(f, n - 1, col, guarded) + (if MissileWith(f1, n - 1, col, guarded).score == f1.score then 0 else 1)
  }

  /** The missile loop scores exactly 100 per scoring step: at most 100 per slot, and always
      a multiple of 100. */
  lemma {:induction false} MissilesUpToScore(f: Battle, n: nat, col: Collisions, guarded: bool)
    requires Ready(f) && n <= MaxMissiles
    ensures MissilesUpTo(f, n, col, guarded).score == f.score + 100 * Kills(f, n, col, guarded)
  {
    if n > 0 {
      MissilesUpToScore(f, n - 1, col, guarded);
      var f1 := MissilesUpTo(f, n - 1, col, guarded);
      var g := MissileWith(f1, n - 1, col, guarded);
      assert MissilesUpTo(f, n, col, guarded) == g;
      assert Kills(f, n, col, guarded) == Kills(f, n - 1, col, guarded) + (if g.score == f1.score then 0 else 1);
    }
  }

  /** The missile loop only destroys targets and keeps the explosion slots well formed. */
  lemma {:induction false} MissilesUpToKeeps(f: Battle, n: nat, col: Collisions, guarded: bool)
    requires Ready(f) && n <= MaxMissiles
    ensures OnlyDestroyed(f, MissilesUpTo(f, n, col, guarded))
    ensures ExplosionsOk(f.blasts.slots) ==> ExplosionsOk(MissilesUpTo(f, n, col, guarded).blasts.slots)
  {
    if n > 0 {
      var f1 := MissilesUpTo(f, n - 1, col, guarded);
      MissilesUpToKeeps(f, n - 1, col, guarded);
      OnlyDestroyedTrans(f, f1, MissileWith(f1, n - 1, col, guarded));
    }
  }

  lemma OnlyDestroyedTrans(a: Battle, b: Battle, c: Battle)
    requires Sized(a) && Sized(b) && Sized(c) && OnlyDestroyed(a, b) && OnlyDestroyed(b, c)
    ensures OnlyDestroyed(a, c)
  {
  }

  // ---------------------------------------------------------------------------------------
  // Firing

  /** Which launcher the player fires from this frame, 1 to 3, or 0 for none: the left and
      middle mouse buttons choose launchers 1 and 2, and a third trigger launcher 3; a later
      test overrides an earlier one. */
  function Shooter(input: Input, third: bool): (n: int)
    ensures 0 <= n <= LaunchersAmount
    ensures n == 0 <==> input.leftButton != PressedDown && input.middleButton != PressedDown && !third
    ensures n == 1 ==> input.leftButton == PressedDown
    ensures n == 2 ==> input.middleButton == PressedDown
  {
    if third then 3
    else if input.middleButton == PressedDown then 2
    else if input.leftButton == PressedDown then 1
    else 0
  }

  /** UpdateOutgoingFire: when a live launcher is chosen, the interceptor slot under the
      cursor (whatever it holds) is launched from that launcher towards the mouse at speed
      10, and the cursor advances. */
  function OutgoingFire(s: State, input: Input, third: bool, heading: Heading): (r: State)
    requires Shaped(s) && 0 <= s.interceptorNumber < MaxInterceptors
    ensures Shaped(r) && 0 <= r.interceptorNumber < MaxInterceptors
    ensures var n := Shooter(input, third);
      var fired := n > 0 && s.battle.launchers[n - 1].active;
      var o := s.battle.launchers[if n > 0 then n - 1 else 0].position;
      (!fired ==> r == s)
      && (fired ==>
            r.interceptorNumber == (s.interceptorNumber + 1) % MaxInterceptors
            && r.interceptors[s.interceptorNumber] == Projectile(o, o, input.mouse, heading(o, input.mouse, InterceptorSpeed), true)
            && (forall a :: 0 <= a < MaxInterceptors && a != s.interceptorNumber ==> r.interceptors[a] == s.interceptors[a])
            && r == s.(interceptors := r.interceptors, interceptorNumber := r.interceptorNumber))
  {
    var n := Shooter(input, third);
    if n > 0 && s.battle.launchers[n - 1].active then
      var o := s.battle.launchers[n - 1].position;
      var m := Projectile(o, o, input.mouse, heading(o, input.mouse, InterceptorSpeed), true);
      s.(interceptors := s.interceptors[s.interceptorNumber := m],
         interceptorNumber := Wrap(s.interceptorNumber, MaxInterceptors))
    else s
  }

  /** Every interceptor that is flying after the fire step and was not before it left from
      a launcher that is standing. */
  lemma FiredFromStanding(s: State, input: Input, third: bool, heading: Heading)
    requires Shaped(s) && 0 <= s.interceptorNumber < MaxInterceptors
    ensures var r := OutgoingFire(s, input, third, heading);
      forall a :: 0 <= a < MaxInterceptors && r.interceptors[a] != s.interceptors[a] ==>
        exists j :: 0 <= j < LaunchersAmount && s.battle.launchers[j].active
                    && r.interceptors[a].origin == s.battle.launchers[j].position
  {
    var r := OutgoingFire(s, input, third, heading);
    var n := Shooter(input, third);
    forall a | 0 <= a < MaxInterceptors && r.interceptors[a] != s.interceptors[a]
      ensures exists j :: 0 <= j < LaunchersAmount && s.battle.launchers[j].active
                          && r.interceptors[a].origin == s.battle.launchers[j].position
    {
      assert s.battle.launchers[n - 1].active;
    }
  }

  /** UpdateIncomingFire: on every frame whose counter is a multiple of 80 the missile slot
      under the cursor is launched from a random x in [20, 780] at y = -10 towards a random
      x in [20, 780] at y = 460, with two calls to the random source. */
  function IncomingFire(s: State, rand: RandStream, heading: Heading): (r: State)
    requires Shaped(s) && 0 <= s.missileIndex < MaxMissiles
    ensures Shaped(r) && 0 <= r.missileIndex < MaxMissiles
    ensures s.framesCounter % MissileLaunchFrames != 0 ==> r == s
    ensures s.framesCounter % MissileLaunchFrames == 0 ==>
      var m := r.battle.missiles[s.missileIndex];
      r.missileIndex == (s.missileIndex + 1) % MaxMissiles && r.draws == s.draws + 2
      && m.active && m.position == m.origin
      && 20.0 <= m.origin.x <= 780.0 && m.origin.y == -10.0
      && 20.0 <= m.objective.x <= 780.0 && m.objective.y == 460.0
      && m.speed == heading(m.origin, m.objective, MissileSpeed)
      && (forall k :: 0 <= k < MaxMissiles && k != s.missileIndex ==> r.battle.missiles[k] == s.battle.missiles[k])
      && r.battle == s.battle.(missiles := r.battle.missiles)
      && r == s.(battle := r.battle, missileIndex := r.missileIndex, draws := r.draws)
  {
    if s.framesCounter % MissileLaunchFrames == 0 then
      var o := Vec(Draw(rand, s.draws, 20, 800 - 20) as real, -10.0);
      var t := Vec(Draw(rand, s.draws + 1, 20, 800 - 20) as real, 450.0 + 10.0);
      var m := Projectile(o, o, t, heading(o, t, MissileSpeed), true);
      s.(battle := s.battle.(missiles := s.battle.missiles[s.missileIndex := m]),
         missileIndex := Wrap(s.missileIndex, MaxMissiles),
         draws := s.draws + 2)
    else s
  }

  // ---------------------------------------------------------------------------------------
  // Game over and the frame

  /** The game-over loops' counter: how many targets of `ts` are destroyed. */
  function DownCount(ts: seq<Target>): (c: nat)
    ensures c <= |ts|
  {
    if |ts| == 0 then 0
    else DownCount(ts[..|ts| - 1]) + (if ts[|ts| - 1].active then 0 else 1)
  }

  /** The counter reaches the row's size exactly when every target of the row is destroyed. */
  lemma {:induction false} DownCountAll(ts: seq<Target>)
    ensures DownCount(ts) == |ts| <==> forall k :: 0 <= k < |ts| ==> !ts[k].active
  {
    if |ts| > 0 {
      var init := ts[..|ts| - 1];
      DownCountAll(init);
      assert forall k :: 0 <= k < |init| ==> init[k] == ts[k];
    }
  }

  /** The game-over check: the counter of destroyed launchers or buildings reaches the size
      of its row. */
  function GameOverCheck(s: State): (r: State)
    requires Shaped(s)
    ensures r.gameOver <==> s.gameOver || (forall j :: 0 <= j < LaunchersAmount ==> !s.battle.launchers[j].active)
                                      || (forall j :: 0 <= j < BuildingsAmount ==> !s.battle.buildings[j].active)
    ensures r == s.(gameOver := r.gameOver)
  {
    DownCountAll(s.battle.launchers);
    DownCountAll(s.battle.buildings);
    if DownCount(s.battle.launchers) == LaunchersAmount || DownCount(s.battle.buildings) == BuildingsAmount then
      s.(gameOver := true)
    else s
  }

  /** What holds between frames: fixed array sizes, cursors in range, targets in place,
      well-formed explosions and a score that is a nonnegative multiple of 100. */
  predicate Inv(s: State)
  {
    Shaped(s) && Ready(s.battle)
    && 0 <= s.interceptorNumber < MaxInterceptors && 0 <= s.missileIndex < MaxMissiles
    && s.framesCounter >= 0 && s.battle.score >= 0 && s.battle.score % 100 == 0
    && Placed(s.battle) && ExplosionsOk(s.battle.blasts.slots)
  }

  /** The interceptor loop applied to the state. */
  function InterceptStage(s: State): (r: State)
    requires Inv(s)
    ensures Inv(r) && r.battle.score == s.battle.score && OnlyDestroyed(s.battle, r.battle)
    ensures r == s.(battle := r.battle, interceptors := r.interceptors)
  {
    var fl := InterceptorsFrom(s.interceptors, s.battle.blasts, 0);
    s.(battle := s.battle.(blasts := fl.blasts), interceptors := fl.interceptors)
  }

  /** The missile loop applied to the state. */
  function MissileStage(s: State, col: Collisions, guarded: bool): (r: State)
    requires Inv(s)
    ensures Inv(r)
    ensures s.battle.score <= r.battle.score
    ensures r.battle.score <= s.battle.score + 100 * MaxMissiles
    ensures OnlyDestroyed(s.battle, r.battle)
    ensures r == s.(battle := r.battle)
  {
    var f := MissilesUpTo(s.battle, MaxMissiles, col, guarded);
    MissilesUpToScore(s.battle, MaxMissiles, col, guarded);
    MissilesUpToKeeps(s.battle, MaxMissiles, col, guarded);
    HundredSum(s.battle.score, Kills(s.battle, MaxMissiles, col, guarded), f.score);
    s.(battle := f)
  }

  /** The explosion loop applied to the state. */
  function TickStage(s: State): (r: State)
    requires Inv(s)
    ensures Inv(r) && r.battle.score == s.battle.score && OnlyDestroyed(s.battle, r.battle)
    ensures r == s.(battle := r.battle)
  {
    ExplosionPassOk(s.battle.blasts.slots);
    s.(battle := s.battle.(blasts := s.battle.blasts.(slots := ExplosionPass(s.battle.blasts.slots))))
  }

  lemma HundredSum(a: int, k: nat, b: int)
    requires a % 100 == 0 && b == a + 100 * k
    ensures b % 100 == 0
  {
  }

  /** The first half of an unpaused frame: count the frame, then move the interceptors,
      the missiles and the explosions. */
  function Move(s: State, col: Collisions, guarded: bool): (r: State)
    requires Inv(s)
    ensures Inv(r)
    ensures r == s.(battle := r.battle, interceptors := r.interceptors, framesCounter := s.framesCounter + 1)
    ensures s.battle.score <= r.battle.score <= s.battle.score + 100 * MaxMissiles
    ensures OnlyDestroyed(s.battle, r.battle)
  {
    var s0 := InterceptStage(s.(framesCounter := s.framesCounter + 1));
    var sm := MissileStage(s0, col, guarded);
    OnlyDestroyedTrans(s.battle, s0.battle, sm.battle);
    var s1 := TickStage(sm);
    OnlyDestroyedTrans(s.battle, sm.battle, s1.battle);
    s1
  }

  /** The second half: the player's fire, the incoming launch and the game-over check. */
  function Launch(s: State, input: Input, third: bool, rand: RandStream, heading: Heading): (r: State)
    requires Inv(s)
    ensures Inv(r)
    ensures r.framesCounter == s.framesCounter && (s.gameOver ==> r.gameOver)
    ensures r.missileIndex != s.missileIndex <==> s.framesCounter % MissileLaunchFrames == 0
    ensures r.battle == s.battle.(missiles := r.battle.missiles)
  {
    var s2 := OutgoingFire(s, input, third, heading);
    assert s2.battle == s.battle;
    var s3 := IncomingFire(s2, rand, heading);
    GameOverCheck(s3)
  }

  /** One unpaused frame. The counter advances by one, a missile is launched exactly when
      the new count is a multiple of 80, a lost game stays lost, the score grows by at most
      100 per missile slot and targets are only destroyed. */
  function Play(s: State, input: Input, third: bool, rand: RandStream, col: Collisions, heading: Heading,
                guarded: bool): (r: State)
    requires Inv(s)
    ensures Inv(r)
    ensures r.framesCounter == s.framesCounter + 1
    ensures r.missileIndex != s.missileIndex <==> (s.framesCounter + 1) % MissileLaunchFrames == 0
    ensures s.gameOver ==> r.gameOver
    ensures s.battle.score <= r.battle.score <= s.battle.score + 100 * MaxMissiles
    ensures OnlyDestroyed(s.battle, r.battle)
  {
    Launch(Move(s, col, guarded), input, third, rand, heading)
  }

  /** UpdateGame with the missile tests guarded or as written. P toggles the pause; after
      game over, ENTER restarts. */
  function UpdateWith(s: State, input: Input, third: bool, rand: RandStream, col: Collisions, heading: Heading,
                      guarded: bool): (r: State)
    requires Inv(s)
    ensures Inv(r)
    ensures s.gameOver ==> r == (if input.enter == PressedDown then InitGame(s).(gameOver := false) else s)
    ensures !s.gameOver && s.pause != (input.p == PressedDown) ==> r == s.(pause := true)
    ensures !s.gameOver && s.pause == (input.p == PressedDown) ==>
      r == Play(s.(pause := false), input, third, rand, col, heading, guarded)
  {
    if !s.gameOver then
      var s1 := if input.p == PressedDown then s.(pause := !s.pause) else s;
      if s1.pause then s1 else Play(s1, input, third, rand, col, heading, guarded)
    else if input.enter == PressedDown then InitGame(s).(gameOver := false)
    else s
  }

  /** UpdateGame with a destroyed missile tested no further: the model's game. */
  function UpdateGame(s: State, input: Input, third: bool, rand: RandStream, col: Collisions, heading: Heading): (r: State)
    requires Inv(s)
    ensures Inv(r)
    ensures s.gameOver ==> r == (if input.enter == PressedDown then InitGame(s).(gameOver := false) else s)
    ensures !s.gameOver && s.pause != (input.p == PressedDown) ==> r == s.(pause := true)
    ensures !s.gameOver && s.pause == (input.p == PressedDown) ==>
      r == Play(s.(pause := false), input, third, rand, col, heading, true)
  {
    UpdateWith(s, input, third, rand, col, heading, true)
  }

  /** UpdateGame as the source writes it. */
  function UpdateGameAsWritten(s: State, input: Input, third: bool, rand: RandStream, col: Collisions,
                               heading: Heading): (r: State)
    requires Inv(s)
    ensures Inv(r)
    ensures s.gameOver ==> r == (if input.enter == PressedDown then InitGame(s).(gameOver := false) else s)
    ensures !s.gameOver && s.pause != (input.p == PressedDown) ==> r == s.(pause := true)
    ensures !s.gameOver && s.pause == (input.p == PressedDown) ==>
      r == Play(s.(pause := false), input, third, rand, col, heading, false)
  {
    UpdateWith(s, input, third, rand, col, heading, false)
  }

  /** The game starts in the invariant: InitGame applied to the zeroed statics. */
  lemma StartInv()
    ensures Inv(InitGame(Boot()))
  {
  }

  // ---------------------------------------------------------------------------------------
  // A missile that destroys a launcher also scores

  /** The library's point/circle test counts the centre of a circle of any nonnegative
      radius as inside it. */
  ghost predicate CentreInside(col: Collisions)
  {
    forall c: Vec, rad: real :: rad >= 0.0 ==> col.pointCircle(c, c, rad)
  }

  /** As written, a missile that destroys a launcher is then tested against the explosions,
      among them the one it has just started at its own position; so the player scores 100
      for losing a launcher. */
  lemma LauncherLossScoresAsWritten(f: Battle, i: int, col: Collisions)
    requires Ready(f) && ExplosionsOk(f.blasts.slots) && 0 <= i < MaxMissiles && CentreInside(col)
    requires f.missiles[i].active
    requires f.missiles[i].position.Add(f.missiles[i].speed).y <= ScreenHeight
    requires FirstStruck(f.launchers, LauncherSize, f.missiles[i].position.Add(f.missiles[i].speed), col, 0) < LaunchersAmount
    ensures MissileStepAsWritten(f, i, col).score == f.score + 100
  {
    var m := f.missiles[i];
    var p := m.position.Add(m.speed);
    var f1 := f.(missiles := f.missiles[i := m.(position := p)]);
    var f2 := StrikeRow(f1, Launchers, i, p, col);
    var f3 := StrikeRow(f2, Buildings, i, p, col);
    var k := f.blasts.cursor;
    assert ExplosionOk(f.blasts.slots[k]);
    assert f2.blasts.slots[k].active && f2.blasts.slots[k].position == p;
    assert f3.blasts.slots[k] == f2.blasts.slots[k] by {
      if f3 != f2 {
        assert f2.blasts.cursor == (k + 1) % MaxExplosions;
      }
    }
    assert Caught(f3.blasts.slots[k], p, col);
    assert FirstCaught(f3.blasts.slots, p, col, 0) <= k;
  }

  /** With the guard, losing a launcher scores nothing. */
  lemma LauncherLossScoresNothing(f: Battle, i: int, col: Collisions)
    requires Ready(f) && 0 <= i < MaxMissiles
    requires f.missiles[i].active
    requires f.missiles[i].position.Add(f.missiles[i].speed).y <= ScreenHeight
    requires FirstStruck(f.launchers, LauncherSize, f.missiles[i].position.Add(f.missiles[i].speed), col, 0) < LaunchersAmount
    ensures MissileStep(f, i, col).score == f.score
  {
  }
}
