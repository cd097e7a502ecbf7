/** Vocabulary shared by the eleven games: real-valued vectors and rectangles, the per-frame
    input snapshot, the host's `rand()` and the collision predicates of the graphics
    library, which the games call but which are not part of this model. */
module Common {

  const ScreenWidth: real := 800.0
  const ScreenHeight: real := 450.0

  datatype Vec = Vec(x: real, y: real)
  {
    function Add(d: Vec): Vec { Vec(x + d.x, y + d.y) }
  }

  datatype Rect = Rect(x: real, y: real, width: real, height: real)

  /** The state of one key or mouse button in a frame snapshot: at rest, pressed this
      frame, held from an earlier frame, or released this frame. */
  datatype KeyState = Up | PressedDown | HoldDown | ReleaseEdge

  /** The frame snapshot the games read. The games never write it. */
  datatype Input = Input(
    left: KeyState, right: KeyState, up: KeyState, down: KeyState,
    space: KeyState, enter: KeyState, p: KeyState,
    mouse: Vec, leftButton: KeyState, middleButton: KeyState)

  /** The host's `rand()`: the raw value returned by the n-th call (counting from 0). Every
      game state counts the calls made so far, so a run consumes one stream in order. */
  type RandStream = nat -> nat

  function Min(a: int, b: int): int { if a < b then a else b }
  function Max(a: int, b: int): int { if a < b then b else a }
  function MaxReal(a: real, b: real): real { if a < b then b else a }

  /** `GetRandomValue(min, max)` for the raw `rand()` value `raw`: the bounds are swapped when
      given in the wrong order, then `raw % (|max - min| + 1) + min`. The raw value is
      nonnegative, so C's truncating `%` agrees with Dafny's. */
  function GetRandomValue(raw: nat, min: int, max: int): (v: int)
    ensures Min(min, max) <= v <= Max(min, max)
  {
    var lo := if min > max then max else min;
    var hi := if min > max then min else max;
    raw % (hi - lo + 1) + lo
  }

  /** Every value of the range is produced by some raw value: the draw is onto. */
  lemma GetRandomValueOnto(min: int, max: int, v: int)
    requires Min(min, max) <= v <= Max(min, max)
    ensures GetRandomValue((v - Min(min, max)) as nat, min, max) == v
  {
  }

  /** The value of the call numbered `k` to `GetRandomValue(min, max)`. */
  function Draw(rand: RandStream, k: nat, min: int, max: int): (v: int)
    ensures Min(min, max) <= v <= Max(min, max)
  {
    GetRandomValue(rand(k), min, max)
  }

  /** Resampling loops. A loop that draws `stride` values per attempt, starting at call `k`,
      and stops at the first attempt `accept` likes. `AcceptedWithin(accept, k, stride, n)`:
      one of the first n + 1 attempts is accepted. */
  ghost predicate AcceptedWithin(accept: nat -> bool, k: nat, stride: nat, n: nat)
    decreases n
  {
    accept(k) || (n > 0 && AcceptedWithin(accept, k + stride, stride, n - 1))
  }

  /** The loop ends: some attempt is accepted. The source relies on this without a bound. */
  ghost predicate Eventually(accept: nat -> bool, k: nat, stride: nat)
  {
    exists n: nat :: AcceptedWithin(accept, k, stride, n)
  }

  /** Some attempt strictly before call `j` is accepted. */
  predicate AcceptedBefore(accept: nat -> bool, k: nat, stride: nat, j: nat)
    requires stride > 0
    decreases j - k
  {
    k < j && (accept(k) || AcceptedBefore(accept, k + stride, stride, j))
  }

  /** The number of attempts rejected before the accepted one, counted along a witness. */
  ghost function RejectionsWithin(accept: nat -> bool, k: nat, stride: nat, n: nat): nat
    requires AcceptedWithin(accept, k, stride, n)
    decreases n
  {
    if accept(k) then 0 else 1 + RejectionsWithin(accept, k + stride, stride, n - 1)
  }

  lemma {:induction false} RejectionsWithinUnique(accept: nat -> bool, k: nat, stride: nat, a: nat, b: nat)
    requires AcceptedWithin(accept, k, stride, a) && AcceptedWithin(accept, k, stride, b)
    ensures RejectionsWithin(accept, k, stride, a) == RejectionsWithin(accept, k, stride, b)
    decreases a
  {
    if !accept(k) {
      RejectionsWithinUnique(accept, k + stride, stride, a - 1, b - 1);
    }
  }

  /** The loop's variant: how many attempts it still rejects. */
  ghost function Rejections(accept: nat -> bool, k: nat, stride: nat): nat
    requires Eventually(accept, k, stride)
  {
    var n: nat :| AcceptedWithin(accept, k, stride, n);
    RejectionsWithin(accept, k, stride, n)
  }

  lemma RejectionsAlong(accept: nat -> bool, k: nat, stride: nat, n: nat)
    requires AcceptedWithin(accept, k, stride, n)
    ensures Eventually(accept, k, stride)
    ensures Rejections(accept, k, stride) == RejectionsWithin(accept, k, stride, n)
  {
    var n0: nat :| AcceptedWithin(accept, k, stride, n0)
                   && Rejections(accept, k, stride) == RejectionsWithin(accept, k, stride, n0);
    RejectionsWithinUnique(accept, k, stride, n, n0);
  }

  lemma RejectionsDecrease(accept: nat -> bool, k: nat, stride: nat)
    requires Eventually(accept, k, stride) && !accept(k)
    ensures Eventually(accept, k + stride, stride)
    ensures Rejections(accept, k + stride, stride) < Rejections(accept, k, stride)
  {
    var n: nat :| AcceptedWithin(accept, k, stride, n);
    RejectionsAlong(accept, k, stride, n);
    RejectionsAlong(accept, k + stride, stride, n - 1);
  }

  /** The call number of the accepted attempt: the first accepted one at or after `k`. */
  function Resample(accept: nat -> bool, k: nat, stride: nat): (j: nat)
    requires stride > 0 && Eventually(accept, k, stride)
    ensures k <= j && accept(j) && OnStride(k, stride, j)
    ensures !AcceptedBefore(accept, k, stride, j)
    decreases Rejections(accept, k, stride)
  {
    if accept(k) then k
    else
      RejectionsDecrease(accept, k, stride);
      Resample(accept, k + stride, stride)
  }

  /** Call `j` starts an attempt of the loop that starts at call `k`. */
  predicate OnStride(k: nat, stride: nat, j: nat)
    requires stride > 0
    decreases j - k
  {
    j == k || (k + stride <= j && OnStride(k + stride, stride, j))
  }

  /** One more rejected attempt extends the prefix that `AcceptedBefore` looks at. */
  lemma {:induction false} AcceptedBeforeNext(accept: nat -> bool, k: nat, stride: nat, j: nat)
    requires stride > 0 && OnStride(k, stride, j)
    ensures AcceptedBefore(accept, k, stride, j + stride) == (AcceptedBefore(accept, k, stride, j) || accept(j))
    decreases j - k
  {
    if k < j {
      AcceptedBeforeNext(accept, k + stride, stride, j);
    }
  }

  /** A rejected attempt moves the loop on by one attempt: still on the stride, still no
      earlier acceptance, and fewer rejections to go. */
  lemma ResampleStep(accept: nat -> bool, k: nat, stride: nat, j: nat)
    requires stride > 0 && OnStride(k, stride, j) && !AcceptedBefore(accept, k, stride, j)
    requires Eventually(accept, j, stride) && !accept(j)
    ensures OnStride(k, stride, j + stride) && !AcceptedBefore(accept, k, stride, j + stride)
    ensures Eventually(accept, j + stride, stride)
    ensures Rejections(accept, j + stride, stride) < Rejections(accept, j, stride)
  {
    RejectionsDecrease(accept, j, stride);
    AcceptedBeforeNext(accept, k, stride, j);
    OnStrideNext(k, stride, j);
  }

  lemma {:induction false} OnStrideNext(k: nat, stride: nat, j: nat)
    requires stride > 0 && OnStride(k, stride, j)
    ensures OnStride(k, stride, j + stride)
    decreases j - k
  {
    if j != k {
      OnStrideNext(k + stride, stride, j);
    }
  }

  /** The first accepted attempt is the one `Resample` returns. */
  lemma {:induction false} ResampleIsFirst(accept: nat -> bool, k: nat, stride: nat, j: nat)
    requires stride > 0 && Eventually(accept, k, stride)
    requires OnStride(k, stride, j) && accept(j) && !AcceptedBefore(accept, k, stride, j)
    ensures Resample(accept, k, stride) == j
    decreases j - k
  {
    if !accept(k) {
      RejectionsDecrease(accept, k, stride);
      ResampleIsFirst(accept, k + stride, stride, j);
    }
  }

  /** The collision predicates of the graphics library, passed in as opaque functions:
      circle/circle, circle/rectangle, rectangle/rectangle, point/rectangle, point/circle. */
  datatype Collisions = Collisions(
    circles: (Vec, real, Vec, real) -> bool,
    circleRec: (Vec, real, Rect) -> bool,
    recs: (Rect, Rect) -> bool,
    pointRec: (Vec, Rect) -> bool,
    pointCircle: (Vec, Vec, real) -> bool)
}
