/** Gorilas: two gorillas on the roofs of a random skyline take turns throwing an explosive
    banana. A throw ends when it leaves the screen sideways, hits the other gorilla, or hits
    a building, which leaves a crater the next throws pass through. The game ends when one
    team has no gorilla left. */
module Gorilas {
  import opened Common

  const MaxBuildings := 15
  const MaxExplosions := 200
  const MaxPlayers := 2

  /** Building widths vary by this percentage around their mean. */
  const BuildingRelativeError := 30
  const MinRelativeHeight := 20
  const MaxRelativeHeight := 60
  const MinGray := 120
  const MaxGray := 200
  /** Gorillas stand between 5% and 20% of the width in from their edge. */
  const MinPlayerPosition := 5
  const MaxPlayerPosition := 20

  const WindowWidth := 800
  const WindowHeight := 450

  const PlayerSize: real := 40.0
  const BallRadius: real := 10.0
  const ExplosionRadius: real := 30.0
  /** The banana's speed change per frame: gravity 9.81 over 60 frames a second. */
  const GravityStep: real := 9.81 / 60.0

  /** The floating-point functions the game calls from the C library, passed in: the square
      root, `asin(a / b)` in degrees (whatever the library makes of `b == 0`), and sine and
      cosine of an angle in degrees. */
  datatype Math = Math(sqrt: real -> real, asinRatio: (real, real) -> real,
                       sinDeg: real -> real, cosDeg: real -> real)

  /** C's conversion of a float to an int, which truncates toward zero. */
  function Trunc(v: real): (n: int)
    ensures -1.0 < v - n as real < 1.0 && (v >= 0.0 ==> 0 <= n) && (v <= 0.0 ==> n <= 0)
  {
    if v >= 0.0 then v.Floor else -((-v).Floor)
  }

  /** A building: its rectangle, in whole pixels. Its grey colour is drawn and not kept. */
  datatype Building = Building(x: int, width: int, y: int, height: int)
  {
    function Rectangle(): Rect { Rect(x as real, y as real, width as real, height as real) }
  }

  /** One gorilla: where it stands, its current aim (the mouse point, the distance to it as
      the power, the angle as an integer), the aim of its last throw, and where its last
      throw landed. Its size is 40 by 40. */
  datatype Player = Player(position: Vec, aimingPoint: Vec, aimingAngle: int, aimingPower: int,
                           previousPoint: Vec, previousAngle: int, previousPower: int,
                           impactPoint: Vec, isLeftTeam: bool, isAlive: bool)

  /** A crater of radius 30. */
  datatype Explosion = Explosion(position: Vec, active: bool)

  /** The banana, of radius 10. */
  datatype Ball = Ball(position: Vec, speed: Vec, active: bool)

  /** The game's globals. `explosionNumber` is the next crater slot: a static local of the
      throw resolution that no new game resets. */
  datatype State = State(players: seq<Player>, buildings: seq<Building>, explosions: seq<Explosion>,
                         explosionNumber: int, ball: Ball, playerTurn: int, ballOnAir: bool,
                         gameOver: bool, pause: bool, draws: nat)

  // ---------------------------------------------------------------------------------
  // The skyline
  // ---------------------------------------------------------------------------------

  /** The range building widths are drawn from. */
  datatype WidthRange = WidthRange(lo: int, hi: int)

  /** The width range for the width factor `relativeWidth`: the mean is 800 times the factor
      over 15, plus one; widths are drawn from 85% of it plus one to 130% of it, each bound
      converted to an integer. */
  function Widths(relativeWidth: real): WidthRange
  {
    var mean := WindowWidth as real * relativeWidth / MaxBuildings as real + 1.0;
    WidthRange(Trunc(mean * (100 - BuildingRelativeError / 2) as real / 100.0 + 1.0),
               Trunc(mean * (100 + BuildingRelativeError) as real / 100.0))
  }

  /** The width factor as written: `100 / (100 - 30)` divides integers, giving 1. */
  const AsWrittenWidthFactor: real := (100 / (100 - BuildingRelativeError)) as real
  /** The width factor the layout needs for fifteen buildings to span the window: 100/70. */
  const IntendedWidthFactor: real := 100.0 / (100 - BuildingRelativeError) as real

  lemma WidthRanges()
    ensures Widths(AsWrittenWidthFactor) == WidthRange(47, 70)
    ensures Widths(IntendedWidthFactor) == WidthRange(66, 100)
  {
    var m1 := WindowWidth as real * AsWrittenWidthFactor / MaxBuildings as real + 1.0;
    assert AsWrittenWidthFactor == 1.0;
    assert m1 == 163.0 / 3.0;
    TruncOf(m1 * 85.0 / 100.0 + 1.0, 47);
    TruncOf(m1 * 130.0 / 100.0, 70);
    var m2 := WindowWidth as real * IntendedWidthFactor / MaxBuildings as real + 1.0;
    assert IntendedWidthFactor == 10.0 / 7.0;
    assert m2 == 1621.0 / 21.0;
    TruncOf(m2 * 85.0 / 100.0 + 1.0, 66);
    TruncOf(m2 * 130.0 / 100.0, 100);
  }

  /** A value between `n` and `n + 1` converts to `n`. */
  lemma TruncOf(v: real, n: nat)
    requires n as real <= v < n as real + 1.0
    ensures Trunc(v) == n
  {
  }

  /** A building stands on the floor (its rectangle runs one pixel below the window) and its
      roof is between 20% and 60% of the height up. */
  predicate Standing(b: Building)
  {
    b.y + b.height == WindowHeight + 1 && 180 <= b.y <= 360
  }

  /** Each building starts where the one before it ends. */
  predicate Contiguous(bs: seq<Building>)
  {
    forall i, j | 0 <= i < |bs| && 0 <= j < |bs| && j == i + 1 :: bs[j].x == bs[i].x + bs[i].width
  }

  /** Every building of the row is between `lo` and `hi` wide and stands on the floor. */
  predicate Row(bs: seq<Building>, lo: int, hi: int)
  {
    forall i | 0 <= i < |bs| :: lo <= bs[i].width <= hi && Standing(bs[i])
  }

  /** The building drawn at calls `k` (width), `k + 1` (height percentage) and `k + 2` (grey
      level, not kept), starting at `x`. */
  function BuildingAt(rand: RandStream, k: nat, x: int, w: WidthRange): (b: Building)
    ensures b.x == x && Min(w.lo, w.hi) <= b.width <= Max(w.lo, w.hi) && Standing(b)
  {
    var h := Draw(rand, k + 1, MinRelativeHeight, MaxRelativeHeight);
    Building(x, Draw(rand, k, w.lo, w.hi), WindowHeight - WindowHeight * h / 100, WindowHeight * h / 100 + 1)
  }

  /** The building loop from building `MaxBuildings - n` on, starting at `x`, three draws a
      building. */
  function Skyline(rand: RandStream, k: nat, n: nat, x: int, w: WidthRange): (bs: seq<Building>)
    ensures |bs| == n && Contiguous(bs)
    ensures n > 0 ==> bs[0].x == x
    ensures Row(bs, Min(w.lo, w.hi), Max(w.lo, w.hi))
    decreases n
  {
    if n == 0 then []
    else
      var b := BuildingAt(rand, k, x, w);
      [b] + Skyline(rand, k + 3, n - 1, x + b.width, w)
  }

  /** InitBuildings as written, with the integer width factor: widths 47 to 70
      (`WidthRanges`). */
  function InitBuildingsAsWritten(rand: RandStream, k: nat): (bs: seq<Building>)
    ensures |bs| == MaxBuildings && Contiguous(bs) && bs[0].x == 0
    ensures Row(bs, 47, 70)
  {
    Skyline(rand, k, MaxBuildings, 0, WidthRange(47, 70))
  }

  /** InitBuildings with the width factor 100/70 its own comment describes: widths 66 to 100
      (`WidthRanges`). */
  function InitBuildings(rand: RandStream, k: nat): (bs: seq<Building>)
    ensures |bs| == MaxBuildings && Contiguous(bs) && bs[0].x == 0
    ensures Row(bs, 66, 100)
  {
    Skyline(rand, k, MaxBuildings, 0, WidthRange(66, 100))
  }

  /** The total width of the first `i` buildings. */
  function Span(bs: seq<Building>, i: nat): int
    requires i <= |bs|
  {
    if i == 0 then 0 else Span(bs, i - 1) + bs[i - 1].width
  }

  /** A contiguous row of buildings is laid out by the running sum of the widths. */
  lemma {:induction false} TilesBySpan(bs: seq<Building>, i: nat)
    requires Contiguous(bs) && i < |bs|
    ensures bs[i].x == bs[0].x + Span(bs, i)
  {
    if i > 0 {
      TilesBySpan(bs, i - 1);
    }
  }

  /** Bounds on the running sum from bounds on the widths. */
  lemma {:induction false} SpanBounds(bs: seq<Building>, i: nat, lo: int, hi: int)
    requires i <= |bs| && forall j | 0 <= j < |bs| :: lo <= bs[j].width <= hi
    ensures i * lo <= Span(bs, i) <= i * hi
  {
    if i > 0 {
      SpanBounds(bs, i - 1, lo, hi);
    }
  }

  // ---------------------------------------------------------------------------------
  // The gorillas
  // ---------------------------------------------------------------------------------

  /** Some building starts to the right of `px`. */
  predicate StartsRightOf(bs: seq<Building>, px: real)
  {
    exists j | 0 <= j < |bs| :: bs[j].x as real > px
  }

  /** The point on the roof of `b`, half a gorilla above its middle. */
  function Roof(b: Building): Vec
  {
    Vec(b.x as real + b.width as real / 2.0, b.y as real - PlayerSize / 2.0)
  }

  /** The first building starting to the right of `px`, or `|bs|`. */
  function FirstRightOf(bs: seq<Building>, px: real, from: nat): (j: nat)
    requires from <= |bs|
    ensures from <= j <= |bs|
    ensures j < |bs| ==> bs[j].x as real > px
    ensures forall i | from <= i < j :: bs[i].x as real <= px
    decreases |bs| - from
  {
    if from == |bs| || bs[from].x as real > px then from else FirstRightOf(bs, px, from + 1)
  }

  /** The snapping loop: the gorilla drawn at `px` goes on the roof of the building before the
      first one starting to its right, which is the building under `px`; when no building
      starts to its right it stays at `px`, at the height it had. */
  function Stand(bs: seq<Building>, px: real, oldY: real): (p: Vec)
    requires Contiguous(bs) && |bs| > 0 && bs[0].x as real <= px
    ensures StartsRightOf(bs, px) ==>
      exists j | 0 <= j < |bs| :: bs[j].x as real <= px < (bs[j].x + bs[j].width) as real && p == Roof(bs[j])
    ensures !StartsRightOf(bs, px) ==> p == Vec(px, oldY)
  {
    var j := FirstRightOf(bs, px, 0);
    if j < |bs| then
      assert bs[j].x == bs[j - 1].x + bs[j - 1].width;
      Roof(bs[j - 1])
    else Vec(px, oldY)
  }

  /** The x drawn for gorilla `i` at call `k`: 40 to 160 in from its team's edge. */
  function DrawnX(rand: RandStream, k: nat, left: bool): (x: int)
    ensures 40 <= x <= 760
    ensures left ==> x <= 160
    ensures !left ==> 640 <= x
  {
    var v := Draw(rand, k, WindowWidth * MinPlayerPosition / 100, WindowWidth * MaxPlayerPosition / 100);
    if left then v else WindowWidth - v
  }

  /** InitPlayers for gorilla `i`, drawing at call `k`: alive, on the left team when `i` is
      even, placed, and with its aim and last aim at its position and zero. Only the height
      of a gorilla no building is found for survives from `prev`. */
  function InitPlayer(rand: RandStream, k: nat, i: nat, bs: seq<Building>, prev: Player): (p: Player)
    requires Contiguous(bs) && |bs| > 0 && bs[0].x == 0
    ensures p.isAlive && p.isLeftTeam == (i % 2 == 0)
    ensures p.aimingPoint == p.position && p.previousPoint == p.position
    ensures p.aimingAngle == 0 && p.aimingPower == 0 && p.previousAngle == 0 && p.previousPower == 0
    ensures p.impactPoint == Vec(-100.0, -100.0)
    ensures p.position == Stand(bs, DrawnX(rand, k, i % 2 == 0) as real, prev.position.y)
    ensures |bs| == MaxBuildings && Row(bs, 66, 100) ==> OnRoof(p, bs)
  {
    var left := i % 2 == 0;
    var x := DrawnX(rand, k, left) as real;
    var pos := Stand(bs, x, prev.position.y);
    var p := Player(pos, pos, 0, 0, pos, 0, 0, Vec(-100.0, -100.0), left, true);
    if |bs| == MaxBuildings && Row(bs, 66, 100) then GorillaFindsRoof(bs, x); p else p
  }

  /** Gorilla `p` stands on a roof of `bs`. */
  predicate OnRoof(p: Player, bs: seq<Building>)
  {
    exists j | 0 <= j < |bs| :: p.position == Roof(bs[j])
  }

  /** Gorilla `i` is on the left team exactly when `i` is even. */
  predicate Teams(ps: seq<Player>)
  {
    |ps| == MaxPlayers && forall i | 0 <= i < MaxPlayers :: ps[i].isLeftTeam == (i % 2 == 0)
  }

  predicate AllAlive(ps: seq<Player>)
  {
    forall i | 0 <= i < |ps| :: ps[i].isAlive
  }

  predicate AllOnRoofs(ps: seq<Player>, bs: seq<Building>)
  {
    forall i | 0 <= i < |ps| :: OnRoof(ps[i], bs)
  }

  /** With the intended widths some building starts right of any drawn x: the fifteenth
      starts at 924 or more. */
  lemma GorillaFindsRoof(bs: seq<Building>, px: real)
    requires |bs| == MaxBuildings && Contiguous(bs) && bs[0].x == 0 && Row(bs, 66, 100)
    requires px <= 760.0
    ensures StartsRightOf(bs, px)
  {
    TilesBySpan(bs, MaxBuildings - 1);
    SpanBounds(bs, MaxBuildings - 1, 66, 100);
    assert bs[MaxBuildings - 1].x as real > px;
  }

  /** InitPlayers, drawing at calls `k` and `k + 1`. On a row of the intended widths every
      gorilla stands on a roof. */
  function InitPlayers(rand: RandStream, k: nat, bs: seq<Building>, prev: seq<Player>): (ps: seq<Player>)
    requires |prev| == MaxPlayers && Contiguous(bs) && |bs| > 0 && bs[0].x == 0
    ensures Teams(ps) && AllAlive(ps)
    ensures ps == [InitPlayer(rand, k, 0, bs, prev[0]), InitPlayer(rand, k + 1, 1, bs, prev[1])]
    ensures |bs| == MaxBuildings && Row(bs, 66, 100) ==> AllOnRoofs(ps, bs)
  {
    var ps := [InitPlayer(rand, k, 0, bs, prev[0]), InitPlayer(rand, k + 1, 1, bs, prev[1])];
    ps
  }

  /** As written, a stream whose every `rand()` is 0 gives fifteen buildings 47 wide, ending
      at 705, and puts the right gorilla at 760: no building starts to its right, so it keeps
      its old height instead of standing on a roof. */
  lemma RightGorillaAdriftAsWritten(rand: RandStream, k: nat, prev: Player)
    requires forall m: nat :: rand(m) == 0
    ensures var bs := InitBuildingsAsWritten(rand, k);
      bs[MaxBuildings - 1].x + bs[MaxBuildings - 1].width == 705 &&
      InitPlayer(rand, k + 3 * MaxBuildings + 1, 1, bs, prev).position == Vec(760.0, prev.position.y)
  {
    var bs := InitBuildingsAsWritten(rand, k);
    SmallestRowAsWritten(rand, k);
    NothingStartsRightOf(bs, 760.0);
    RightGorillaAdrift(rand, k + 3 * MaxBuildings + 1, bs, prev);
  }

  /** A right-team gorilla drawn with a `rand()` of 0, over a row where nothing starts right
      of 760, keeps its old height at x = 760. */
  lemma RightGorillaAdrift(rand: RandStream, k: nat, bs: seq<Building>, prev: Player)
    requires Contiguous(bs) && |bs| > 0 && bs[0].x == 0
    requires rand(k) == 0 && !StartsRightOf(bs, 760.0)
    ensures InitPlayer(rand, k, 1, bs, prev).position == Vec(760.0, prev.position.y)
  {
    RightmostDrawAtZero(rand, k);
  }

  /** A `rand()` of 0 puts a right-team gorilla at 760, the rightmost place it can take. */
  lemma RightmostDrawAtZero(rand: RandStream, k: nat)
    requires rand(k) == 0
    ensures DrawnX(rand, k, false) == 760 && DrawnX(rand, k, false) as real == 760.0
  {
    assert Draw(rand, k, 40, 160) == 40;
  }

  /** No building of a row laid 47 apart from 0 starts right of 760. */
  lemma NothingStartsRightOf(bs: seq<Building>, px: real)
    requires |bs| == MaxBuildings && forall j | 0 <= j < MaxBuildings :: bs[j].x == 47 * j
    requires px == 760.0
    ensures !StartsRightOf(bs, px)
  {
    forall j | 0 <= j < |bs| ensures bs[j].x as real <= px {
      assert bs[j].x == 47 * j;
    }
  }

  /** As written, a stream whose every `rand()` is 0 lays building `j` at 47 j. */
  lemma SmallestRowAsWritten(rand: RandStream, k: nat)
    requires forall m: nat :: rand(m) == 0
    ensures var bs := InitBuildingsAsWritten(rand, k);
      forall j | 0 <= j < MaxBuildings :: bs[j].x == 47 * j && bs[j].width == 47
  {
    var bs := InitBuildingsAsWritten(rand, k);
    AllWidthsFromZero(rand, k, MaxBuildings, 0, WidthRange(47, 70));
    forall j | 0 <= j < MaxBuildings ensures bs[j].x == 47 * j {
      TilesBySpan(bs, j);
      EqualSpan(bs, j, 47);
    }
  }

  /** With `rand()` always 0, every building has the smallest width. */
  lemma {:induction false} AllWidthsFromZero(rand: RandStream, k: nat, n: nat, x: int, w: WidthRange)
    requires forall m: nat :: rand(m) == 0
    requires w.lo <= w.hi
    ensures forall i | 0 <= i < n :: Skyline(rand, k, n, x, w)[i].width == w.lo
    decreases n
  {
    if n > 0 {
      var b := BuildingAt(rand, k, x, w);
      AllWidthsFromZero(rand, k + 3, n - 1, x + b.width, w);
    }
  }

  /** Equal widths add up to a multiple. */
  lemma {:induction false} EqualSpan(bs: seq<Building>, i: nat, w: int)
    requires i <= |bs| && forall j | 0 <= j < |bs| :: bs[j].width == w
    ensures Span(bs, i) == i * w
  {
    if i > 0 {
      EqualSpan(bs, i - 1, w);
    }
  }

  // ---------------------------------------------------------------------------------
  // Aiming
  // ---------------------------------------------------------------------------------

  /** The firing quadrant: above the gorilla, and toward the other team. */
  predicate InQuadrant(p: Player, mouse: Vec)
  {
    mouse.y <= p.position.y &&
    ((p.isLeftTeam && mouse.x >= p.position.x) || (!p.isLeftTeam && mouse.x <= p.position.x))
  }

  /** UpdatePlayer for the gorilla whose turn it is. Inside the quadrant the aim follows the
      mouse: the power is the integer distance and the angle the integer elevation; a click
      keeps the aim as the last aim and throws. Outside, the aim is reset to the gorilla
      itself. The second result is whether a throw started. */
  function UpdatePlayer(p: Player, input: Input, m: Math): (r: (Player, bool))
    ensures r.1 <==> InQuadrant(p, input.mouse) && input.leftButton == PressedDown
    ensures !InQuadrant(p, input.mouse) ==>
      r.0 == p.(aimingPoint := p.position, aimingPower := 0, aimingAngle := 0)
    ensures InQuadrant(p, input.mouse) ==> r.0.aimingPoint == input.mouse
    ensures r.1 ==> r.0.previousPoint == r.0.aimingPoint && r.0.previousPower == r.0.aimingPower &&
                    r.0.previousAngle == r.0.aimingAngle
    ensures !r.1 ==> r.0.previousPoint == p.previousPoint && r.0.previousPower == p.previousPower &&
                     r.0.previousAngle == p.previousAngle
    ensures r.0.position == p.position && r.0.isLeftTeam == p.isLeftTeam && r.0.isAlive == p.isAlive &&
            r.0.impactPoint == p.impactPoint
  {
    if InQuadrant(p, input.mouse) then
      var dx := p.position.x - input.mouse.x;
      var dy := p.position.y - input.mouse.y;
      var power := Trunc(m.sqrt(dx * dx + dy * dy));
      var aimed := p.(aimingPower := power, aimingAngle := Trunc(m.asinRatio(dy, power as real)),
                      aimingPoint := input.mouse);
      if input.leftButton == PressedDown then
        (aimed.(previousPoint := aimed.aimingPoint, previousPower := aimed.aimingPower,
                previousAngle := aimed.aimingAngle), true)
      else (aimed, false)
    else (p.(aimingPoint := p.position, aimingPower := 0, aimingAngle := 0), false)
  }

  // ---------------------------------------------------------------------------------
  // The throw
  // ---------------------------------------------------------------------------------

  /** A throw starts from the last aim: power times 3 over 60 frames, along the angle, toward
      the other team; each frame the banana moves by its speed and gravity pulls it. */
  function Fly(b: Ball, p: Player, m: Math): (r: Ball)
    ensures r.active
    ensures b.active ==> r.speed == Vec(b.speed.x, b.speed.y + GravityStep)
    ensures r.position.x == b.position.x + r.speed.x
    ensures r.position.y == b.position.y + r.speed.y - GravityStep
    ensures !b.active ==>
      var v := p.previousPower as real * 3.0 / 60.0;
      r.speed.x == (if p.isLeftTeam then 1.0 else -1.0) * m.cosDeg(p.previousAngle as real) * v
      && r.speed.y == -m.sinDeg(p.previousAngle as real) * v + GravityStep
  {
    var v := p.previousPower as real * 3.0 / 60.0;
    var launched := if b.active then b
      else b.(speed := Vec((if p.isLeftTeam then 1.0 else -1.0) * m.cosDeg(p.previousAngle as real) * v,
                           -m.sinDeg(p.previousAngle as real) * v), active := true);
    var pos := launched.position.Add(launched.speed);
    launched.(position := pos, speed := launched.speed.(y := launched.speed.y + GravityStep))
  }

  /** `n` frames of flight. */
  function FlyFrames(b: Ball, p: Player, m: Math, n: nat): Ball
  {
    if n == 0 then b else Fly(FlyFrames(b, p, m, n - 1), p, m)
  }

  /** A banana in flight follows the ballistic closed form: constant horizontal speed, the
      vertical speed growing by the gravity step each frame, so after `n` frames the height has
      changed by n times the initial vertical speed plus n(n-1)/2 gravity steps. */
  lemma {:induction false} Ballistic(b: Ball, p: Player, m: Math, n: nat)
    requires b.active
    ensures var r := FlyFrames(b, p, m, n);
      r.active && r.speed.x == b.speed.x && r.speed.y == b.speed.y + n as real * GravityStep
      && r.position.x == b.position.x + n as real * b.speed.x
      && r.position.y == b.position.y + n as real * b.speed.y + GravityStep * (n as real * (n as real - 1.0) / 2.0)
  {
    if n > 0 {
      Ballistic(b, p, m, n - 1);
      var k := (n - 1) as real;
      assert k * (k - 1.0) / 2.0 + k == (k + 1.0) * k / 2.0;
      assert (n as real) == k + 1.0;
    }
  }

  /** How a frame of flight ends. */
  datatype Outcome = OffScreen | HitSelf | HitPlayer(victim: nat) | Shielded | HitBuilding(index: nat) | Flying
  {
    /** The throw is over: it left the screen, or hit the other gorilla or a building. */
    predicate Resolves() { OffScreen? || HitPlayer? || HitBuilding? }
  }

  /** The rectangle of a gorilla. */
  function Body(p: Player): Rect
  {
    Rect(p.position.x - PlayerSize / 2.0, p.position.y - PlayerSize / 2.0, PlayerSize, PlayerSize)
  }

  /** The first gorilla the banana at `c` touches, or `|ps|`. Dead gorillas are still in the
      scan. */
  function FirstPlayerHit(ps: seq<Player>, c: Vec, col: Collisions, from: nat): (i: nat)
    requires from <= |ps|
    ensures from <= i <= |ps|
    ensures i < |ps| ==> col.circleRec(c, BallRadius, Body(ps[i]))
    ensures forall j | from <= j < i :: !col.circleRec(c, BallRadius, Body(ps[j]))
    decreases |ps| - from
  {
    if from == |ps| || col.circleRec(c, BallRadius, Body(ps[from])) then from
    else FirstPlayerHit(ps, c, col, from + 1)
  }

  /** The banana is inside one of the craters of the first fifteen slots (the scan runs to
      the number of buildings), active or not: within the crater's radius less its own. */
  predicate InCrater(es: seq<Explosion>, c: Vec, col: Collisions)
    requires |es| >= MaxBuildings
  {
    exists i | 0 <= i < MaxBuildings :: col.circles(c, BallRadius, es[i].position, ExplosionRadius - BallRadius)
  }

  /** The first building the banana at `c` touches, or `|bs|`. */
  function FirstBuildingHit(bs: seq<Building>, c: Vec, col: Collisions, from: nat): (i: nat)
    requires from <= |bs|
    ensures from <= i <= |bs|
    ensures i < |bs| ==> col.circleRec(c, BallRadius, bs[i].Rectangle())
    ensures forall j | from <= j < i :: !col.circleRec(c, BallRadius, bs[j].Rectangle())
    decreases |bs| - from
  {
    if from == |bs| || col.circleRec(c, BallRadius, bs[from].Rectangle()) then from
    else FirstBuildingHit(bs, c, col, from + 1)
  }

  /** The checks of UpdateBall after the move, in order: off either side; a gorilla (the
      thrower's own body lets the banana through); inside a crater; a building. */
  function Resolve(c: Vec, ps: seq<Player>, bs: seq<Building>, es: seq<Explosion>, turn: int, col: Collisions): (o: Outcome)
    requires |es| >= MaxBuildings
    ensures o.OffScreen? <==> c.x + BallRadius < 0.0 || c.x - BallRadius > ScreenWidth
    ensures o.HitPlayer? ==> o.victim < |ps| && o.victim != turn && col.circleRec(c, BallRadius, Body(ps[o.victim]))
    ensures o.HitBuilding? ==> o.index < |bs| && col.circleRec(c, BallRadius, bs[o.index].Rectangle()) && !InCrater(es, c, col)
    ensures o.Shielded? ==> InCrater(es, c, col)
    ensures o.Flying? ==> !InCrater(es, c, col) && forall j | 0 <= j < |bs| :: !col.circleRec(c, BallRadius, bs[j].Rectangle())
    ensures (o.Shielded? || o.HitBuilding? || o.Flying?) ==>
      forall j | 0 <= j < |ps| :: !col.circleRec(c, BallRadius, Body(ps[j]))
  {
    if c.x + BallRadius < 0.0 || c.x - BallRadius > ScreenWidth then OffScreen
    else
      var i := FirstPlayerHit(ps, c, col, 0);
      if i < |ps| then (if i == turn then HitSelf else HitPlayer(i))
      else if InCrater(es, c, col) then Shielded
      else
        var b := FirstBuildingHit(bs, c, col, 0);
        if b < |bs| then HitBuilding(b) else Flying
  }

  /** Only the first fifteen crater slots can shield the banana: craters written later are
      never consulted. */
  lemma LaterCratersIgnored(c: Vec, ps: seq<Player>, bs: seq<Building>, es: seq<Explosion>, es': seq<Explosion>,
                            turn: int, col: Collisions)
    requires |es| >= MaxBuildings && |es'| >= MaxBuildings && es[..MaxBuildings] == es'[..MaxBuildings]
    ensures Resolve(c, ps, bs, es, turn, col) == Resolve(c, ps, bs, es', turn, col)
  {
    assert forall i | 0 <= i < MaxBuildings :: es[i] == es[..MaxBuildings][i] && es'[i] == es'[..MaxBuildings][i];
  }

  /** The shapes every frame keeps. */
  predicate Shaped(s: State)
  {
    |s.players| == MaxPlayers && |s.buildings| == MaxBuildings && |s.explosions| == MaxExplosions &&
    0 <= s.playerTurn < MaxPlayers && 0 <= s.explosionNumber
  }

  /** The outcome of the coming frame of flight. */
  function Coming(s: State, m: Math, col: Collisions): Outcome
    requires Shaped(s)
  {
    var b := Fly(s.ball, s.players[s.playerTurn], m);
    Resolve(b.position, s.players, s.buildings, s.explosions, s.playerTurn, col)
  }

  /** Gorilla `i` dies exactly when the outcome is a hit on it; teams and positions stay. */
  predicate Casualties(ps: seq<Player>, ps': seq<Player>, o: Outcome)
  {
    |ps'| == |ps| &&
    forall i | 0 <= i < |ps| ::
      ps'[i].isAlive == (ps[i].isAlive && o != HitPlayer(i)) &&
      ps'[i].isLeftTeam == ps[i].isLeftTeam && ps'[i].position == ps[i].position
  }

  /** A building hit writes an active crater into the next slot and moves the slot on;
      nothing else touches the craters. */
  predicate Craters(s: State, r: State, o: Outcome)
    requires Shaped(s) && Shaped(r)
  {
    if o.HitBuilding? then
      r.explosionNumber == s.explosionNumber + 1 && s.explosionNumber < MaxExplosions &&
      r.explosions[s.explosionNumber].active &&
      forall i | 0 <= i < MaxExplosions && i != s.explosionNumber :: r.explosions[i] == s.explosions[i]
    else r.explosionNumber == s.explosionNumber && r.explosions == s.explosions
  }

  /** What a frame of flight leaves alone. */
  predicate Kept(s: State, r: State)
  {
    r.buildings == s.buildings && r.playerTurn == s.playerTurn && r.ballOnAir == s.ballOnAir &&
    r.gameOver == s.gameOver && r.pause == s.pause && r.draws == s.draws
  }

  /** The outcome `o` applied, the banana now being `b`: a gorilla hit dies and the thrower's
      impact point is set; a building hit also writes a crater at the impact point into the
      next slot. The second result is whether the throw is over. */
  function Apply(s: State, b: Ball, o: Outcome): (r: (State, bool))
    requires Shaped(s)
    requires o.HitBuilding? ==> s.explosionNumber < MaxExplosions
    ensures Shaped(r.0) && r.0.ball == b && Kept(s, r.0)
    ensures r.1 <==> o.Resolves()
    ensures Casualties(s.players, r.0.players, o)
    ensures Craters(s, r.0, o)
  {
    var t := s.playerTurn;
    var impact := Vec(b.position.x, b.position.y + BallRadius);
    var s1 := s.(ball := b);
    match o
    case OffScreen => (s1, true)
    case HitSelf => (s1, false)
    case HitPlayer(i) =>
      var ps := s.players[t := s.players[t].(impactPoint := impact)];
      if i < |ps| then (s1.(players := ps[i := ps[i].(isAlive := false)]), true) else (s1.(players := ps), true)
    case Shielded => (s1, false)
    case HitBuilding(_) =>
      (s1.(players := s.players[t := s.players[t].(impactPoint := impact)],
           explosions := s.explosions[s.explosionNumber := Explosion(impact, true)],
           explosionNumber := s.explosionNumber + 1), true)
    case Flying => (s1, false)
  }

  /** UpdateBall: the banana flies a frame and the outcome is applied. The crater pool has
      200 slots and the slot counter is never reset, so a building hit needs a free slot.
      The thrower cannot be hit. */
  function UpdateBall(s: State, m: Math, col: Collisions): (r: (State, bool))
    requires Shaped(s)
    requires Coming(s, m, col).HitBuilding? ==> s.explosionNumber < MaxExplosions
    ensures Shaped(r.0) && r.0.ball.active && Kept(s, r.0)
    ensures r.1 <==> Coming(s, m, col).Resolves()
    ensures Casualties(s.players, r.0.players, Coming(s, m, col))
    ensures Craters(s, r.0, Coming(s, m, col))
    ensures r.0.players[s.playerTurn].isAlive == s.players[s.playerTurn].isAlive
  {
    Apply(s, Fly(s.ball, s.players[s.playerTurn], m), Coming(s, m, col))
  }

  // ---------------------------------------------------------------------------------
  // The frame
  // ---------------------------------------------------------------------------------

  /** Some live gorilla is on the given team. */
  predicate TeamAlive(ps: seq<Player>, left: bool)
  {
    exists i | 0 <= i < |ps| :: ps[i].isAlive && ps[i].isLeftTeam == left
  }

  /** Between frames: gorilla `i` is on the left team exactly when `i` is even, both are alive
      while the game runs, and a banana is only out while a throw is on. */
  predicate Inv(s: State)
  {
    Shaped(s) && Teams(s.players) && (!s.gameOver ==> AllAlive(s.players)) &&
    (!s.ballOnAir ==> !s.ball.active)
  }

  /** The turn passes to the next gorilla, wrapping to 0. */
  function NextTurn(t: int): (n: int)
    requires 0 <= t < MaxPlayers
    ensures 0 <= n < MaxPlayers && n != t
    ensures n == (t + 1) % MaxPlayers
  {
    if t + 1 == MaxPlayers then 0 else t + 1
  }

  /** Aiming, for the gorilla whose turn it is; a throw starts at its position. */
  function Aim(s: State, input: Input, m: Math): (r: State)
    requires Inv(s) && !s.ballOnAir
    ensures Inv(r)
    ensures r.ballOnAir <==> InQuadrant(s.players[s.playerTurn], input.mouse) && input.leftButton == PressedDown
    ensures r.ballOnAir ==> r.ball.position == s.players[s.playerTurn].position
    ensures forall i | 0 <= i < MaxPlayers && i != s.playerTurn :: r.players[i] == s.players[i]
    ensures r.playerTurn == s.playerTurn && r.gameOver == s.gameOver && r.explosions == s.explosions
  {
    var t := s.playerTurn;
    var aimed := UpdatePlayer(s.players[t], input, m);
    s.(players := s.players[t := aimed.0], ballOnAir := aimed.1,
       ball := if aimed.1 then s.ball.(position := s.players[t].position) else s.ball)
  }

  /** After a frame of flight from a game with both gorillas alive, both teams still have a
      live gorilla exactly when no gorilla was hit; the thrower survives, and a hit leaves
      the other team empty. */
  lemma Survivors(ps: seq<Player>, ps': seq<Player>, o: Outcome, t: int)
    requires Teams(ps) && AllAlive(ps) && Casualties(ps, ps', o) && 0 <= t < MaxPlayers
    requires o.HitPlayer? ==> o.victim < |ps| && o.victim != t
    ensures TeamAlive(ps', true) && TeamAlive(ps', false) <==> !o.HitPlayer?
    ensures ps'[t].isAlive
    ensures o.HitPlayer? ==> !TeamAlive(ps', !ps'[t].isLeftTeam)
  {
    if !o.HitPlayer? {
      assert ps'[0].isAlive && ps'[0].isLeftTeam;
      assert ps'[1].isAlive && !ps'[1].isLeftTeam;
    }
  }

  /** A frame of flight, and the end of the throw when it resolves: the turn passes on while
      both teams have a live gorilla; otherwise the game is over. */
  function Throw(s: State, m: Math, col: Collisions): (r: State)
    requires Inv(s) && !s.gameOver && s.ballOnAir
    requires Coming(s, m, col).HitBuilding? ==> s.explosionNumber < MaxExplosions
    ensures Inv(r)
    ensures !Coming(s, m, col).Resolves() ==> r.playerTurn == s.playerTurn && r.ballOnAir && !r.gameOver
    ensures Coming(s, m, col).Resolves() && !r.gameOver ==>
      r.playerTurn == NextTurn(s.playerTurn) && !r.ballOnAir && !r.ball.active
    ensures r.gameOver <==> Coming(s, m, col).HitPlayer?
    ensures r.gameOver ==> r.players[s.playerTurn].isAlive && !TeamAlive(r.players, !r.players[s.playerTurn].isLeftTeam)
  {
    var (s2, over) := UpdateBall(s, m, col);
    Survivors(s.players, s2.players, Coming(s, m, col), s.playerTurn);
    if !over then s2
    else if TeamAlive(s2.players, true) && TeamAlive(s2.players, false) then
      s2.(ballOnAir := false, ball := s2.ball.(active := false), playerTurn := NextTurn(s2.playerTurn))
    else s2.(gameOver := true)
  }

  /** The banana of this frame would hit a building. */
  predicate BuildingHitComing(s: State, input: Input, m: Math, col: Collisions)
    requires Shaped(s)
  {
    !s.gameOver && (s.pause == (input.p == PressedDown)) && s.ballOnAir && Coming(s, m, col).HitBuilding?
  }

  /** UpdateGame. While the game runs, P pressed toggles the pause, and an unpaused frame
      aims or throws; once over, ENTER starts a new game. */
  function UpdateGame(s: State, input: Input, rand: RandStream, m: Math, col: Collisions): (r: State)
    requires Inv(s)
    requires BuildingHitComing(s, input, m, col) ==> s.explosionNumber < MaxExplosions
    ensures Inv(r)
    ensures !s.gameOver && s.pause != (input.p == PressedDown) ==> r == s.(pause := true)
    ensures s.gameOver && input.enter != PressedDown ==> r == s
    ensures s.gameOver && input.enter == PressedDown ==> r == InitGame(s, rand).(gameOver := false)
    ensures !s.gameOver && r.gameOver ==>
      var t := s.playerTurn;
      r.players[t].isAlive && !r.players[1 - t].isAlive
    ensures !s.gameOver && s.pause == (input.p == PressedDown) && !s.ballOnAir ==> r == Aim(s.(pause := false), input, m)
    ensures !s.gameOver && s.pause == (input.p == PressedDown) && s.ballOnAir ==> r == Throw(s.(pause := false), m, col)
  {
    if !s.gameOver then
      var s1 := if input.p == PressedDown then s.(pause := !s.pause) else s;
      if s1.pause then s1
      else if !s1.ballOnAir then Aim(s1, input, m)
      else Throw(s1, m, col)
    else if input.enter == PressedDown then InitGame(s, rand).(gameOver := false)
    else s
  }

  // ---------------------------------------------------------------------------------
  // A new game
  // ---------------------------------------------------------------------------------

  predicate NoCraters(es: seq<Explosion>)
  {
    forall i | 0 <= i < |es| :: !es[i].active
  }

  /** The crater loop of InitGame: every slot inactive at the origin. */
  function ClearedCraters(): (es: seq<Explosion>)
    ensures |es| == MaxExplosions && NoCraters(es)
  {
    seq(MaxExplosions, _ => Explosion(Vec(0.0, 0.0), false))
  }

  /** InitGame: the banana put away, a new skyline (45 draws) and new gorillas (one draw
      each), and every crater cleared. The turn, the pause, the game-over flag and the crater
      slot counter are left as they were. */
  function InitGame(s: State, rand: RandStream): (r: State)
    requires Inv(s)
    ensures Inv(r)
    ensures r.buildings == InitBuildings(rand, s.draws)
    ensures AllAlive(r.players) && AllOnRoofs(r.players, r.buildings)
    ensures NoCraters(r.explosions)
    ensures !r.ballOnAir && !r.ball.active && r.draws == s.draws + 3 * MaxBuildings + MaxPlayers
    ensures r.playerTurn == s.playerTurn && r.explosionNumber == s.explosionNumber && r.pause == s.pause &&
            r.gameOver == s.gameOver
  {
    var bs := InitBuildings(rand, s.draws);
    var k := s.draws + 3 * MaxBuildings;
    s.(ball := s.ball.(active := false), ballOnAir := false, buildings := bs, players := InitPlayers(rand, k, bs, s.players),
       explosions := ClearedCraters(),
       draws := k + MaxPlayers)
  }
}
