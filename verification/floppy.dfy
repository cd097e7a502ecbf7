/** Floppy: a disc falls unless SPACE is held while a hundred pairs of tubes scroll toward
    it. Flying past a pair scores 100, once; touching a tube ends the game. */
module Floppy {
  import opened Common

  const MaxTubes := 100
  const FloppyRadius := 24
  const TubesWidth: real := 80.0
  const TubesHeight: real := 255.0
  const TubesSpeedX: real := 2.0
  /** The pairs start 280 apart, the first at x = 400. */
  const TubesSpacing: real := 280.0
  /** The floppy never moves sideways. */
  const FloppyX: real := 80.0
  const PairValue := 100

  /** A pair of tubes (the source's tubesPos entry): its left edge, and the top of the upper
      tube, at most 120 above the window. */
  datatype Pair = Pair(x: real, y: real)

  /** The upper tube hangs from the pair's `y`. */
  function Upper(p: Pair): Rect
  {
    Rect(p.x, p.y, TubesWidth, TubesHeight)
  }

  /** The lower tube, in the same column, starts 345 below the upper one's top, which leaves a
      gap of 90 between the two. */
  function Lower(p: Pair): (r: Rect)
    ensures r.x == Upper(p).x && r.width == Upper(p).width && r.height == Upper(p).height
    ensures r.y == Upper(p).y + Upper(p).height + 90.0
  {
    Rect(p.x, 600.0 + p.y - TubesHeight, TubesWidth, TubesHeight)
  }

  /** Tube `t` of the source's array of two hundred: the even ones are upper tubes and the odd
      ones lower tubes, both of pair `t / 2`. */
  function Tube(pairs: seq<Pair>, t: nat): Rect
    requires t < 2 * |pairs|
  {
    if t % 2 == 0 then Upper(pairs[t / 2]) else Lower(pairs[t / 2])
  }

  /** The game's globals. `ready[i]` is the flag the source keeps in `tubes[i].active` for
      pair `i`: the pair has not scored yet. `hiScore` lives across games. */
  datatype State = State(y: real, pairs: seq<Pair>, ready: seq<bool>, score: int, hiScore: int,
                         gameOver: bool, pause: bool, draws: nat)

  // ---------------------------------------------------------------------------------
  // Counting passed pairs
  // ---------------------------------------------------------------------------------

  /** How many pairs have scored. */
  function Passed(ready: seq<bool>): nat
  {
    if |ready| == 0 then 0 else Passed(ready[..|ready| - 1]) + (if ready[|ready| - 1] then 0 else 1)
  }

  /** Scoring one more pair adds one to the count. */
  lemma {:induction false} PassedDrop(ready: seq<bool>, i: nat)
    requires i < |ready| && ready[i]
    ensures Passed(ready[i := false]) == Passed(ready) + 1
  {
    var n := |ready| - 1;
    if i < n {
      assert ready[i := false][..n] == ready[..n][i := false];
      PassedDrop(ready[..n], i);
    } else {
      assert ready[i := false][..n] == ready[..n];
    }
  }

  /** How many pairs are behind the floppy. */
  function Behind(pairs: seq<Pair>): nat
  {
    if |pairs| == 0 then 0 else Behind(pairs[..|pairs| - 1]) + (if pairs[|pairs| - 1].x < FloppyX then 1 else 0)
  }

  /** A pair has scored only once the floppy has passed it. */
  predicate Earned(pairs: seq<Pair>, ready: seq<bool>)
    requires |ready| == |pairs|
  {
    forall i | 0 <= i < |pairs| :: !ready[i] ==> pairs[i].x < FloppyX
  }

  /** Every pair the floppy has passed has scored. */
  predicate Collected(pairs: seq<Pair>, ready: seq<bool>)
    requires |ready| == |pairs|
  {
    forall i | 0 <= i < |pairs| :: pairs[i].x < FloppyX ==> !ready[i]
  }

  /** When exactly the passed pairs have scored, the count of scored pairs is the count of
      pairs behind the floppy. */
  lemma {:induction false} PassedIsBehind(pairs: seq<Pair>, ready: seq<bool>)
    requires |ready| == |pairs| && Earned(pairs, ready) && Collected(pairs, ready)
    ensures Passed(ready) == Behind(pairs)
  {
    if |pairs| > 0 {
      var n := |pairs| - 1;
      assert Earned(pairs[..n], ready[..n]) by {
        forall i | 0 <= i < n ensures !ready[..n][i] ==> pairs[..n][i].x < FloppyX {
          assert !ready[i] ==> pairs[i].x < FloppyX;
        }
      }
      assert Collected(pairs[..n], ready[..n]) by {
        forall i | 0 <= i < n ensures pairs[..n][i].x < FloppyX ==> !ready[..n][i] {
          assert pairs[i].x < FloppyX ==> !ready[i];
        }
      }
      PassedIsBehind(pairs[..n], ready[..n]);
      assert !ready[n] <==> pairs[n].x < FloppyX;
    }
  }

  // ---------------------------------------------------------------------------------
  // The invariant
  // ---------------------------------------------------------------------------------

  /** The pairs keep their spacing of 280 and their tops between -120 and 0. */
  predicate Spaced(pairs: seq<Pair>)
  {
    |pairs| == MaxTubes &&
    forall i | 0 <= i < |pairs| :: pairs[i].x == pairs[0].x + TubesSpacing * i as real && -120.0 <= pairs[i].y <= 0.0
  }

  /** Between frames: a hundred evenly spaced pairs, the score is 100 per pair scored, every
      scored pair is behind the floppy and, while the game runs, every pair behind it has
      scored; the hi-score is at least the score. */
  predicate Inv(s: State)
  {
    Spaced(s.pairs) && |s.ready| == MaxTubes &&
    s.score == PairValue * Passed(s.ready) && s.score <= s.hiScore &&
    Earned(s.pairs, s.ready) && (!s.gameOver ==> Collected(s.pairs, s.ready))
  }

  /** While the game runs, the score is 100 for each pair behind the floppy: each pair is
      paid for once, and none is missed. */
  lemma ScoreCountsPairsBehind(s: State)
    requires Inv(s) && !s.gameOver
    ensures s.score == PairValue * Behind(s.pairs)
  {
    PassedIsBehind(s.pairs, s.ready);
  }

  // ---------------------------------------------------------------------------------
  // The frame
  // ---------------------------------------------------------------------------------

  /** Every pair moves 2 to the left; the tubes follow their pair. */
  function Scroll(pairs: seq<Pair>): (r: seq<Pair>)
    ensures |r| == |pairs|
    ensures forall i | 0 <= i < |pairs| :: r[i] == Pair(pairs[i].x - TubesSpeedX, pairs[i].y)
    ensures Spaced(pairs) ==> Spaced(r)
  {
    seq(|pairs|, i requires 0 <= i < |pairs| => pairs[i].(x := pairs[i].x - TubesSpeedX))
  }

  /** SPACE held lifts the floppy by 3; otherwise it drops by 1. */
  function Fall(y: real, input: Input): (r: real)
    ensures input.space == HoldDown <==> r < y
    ensures r - y == 1.0 || y - r == 3.0
  {
    if input.space == HoldDown then y - 3.0 else y + 1.0
  }

  /** What the tube checks change. */
  datatype Tally = Tally(ready: seq<bool>, score: int, hiScore: int, gameOver: bool)

  /** Whether the floppy at height `y` touches tube `t`. */
  predicate Hit(col: Collisions, pairs: seq<Pair>, y: real, t: nat)
    requires t < 2 * |pairs|
  {
    col.circleRec(Vec(FloppyX, y), FloppyRadius as real, Tube(pairs, t))
  }

  /** The check of tube `t`: touching it ends the game; otherwise, while the game runs, the
      first check of a passed pair that has not scored yet scores 100 and clears its flag, and
      the hi-score follows the score. */
  function Check(col: Collisions, pairs: seq<Pair>, y: real, t: nat, a: Tally): (c: Tally)
    requires t < 2 * |pairs| && |a.ready| == |pairs|
    ensures |c.ready| == |pairs|
    ensures forall i | 0 <= i < |pairs| && i != t / 2 :: c.ready[i] == a.ready[i]
    ensures c.ready[t / 2] ==> a.ready[t / 2]
    ensures a.ready[t / 2] && !c.ready[t / 2] ==> pairs[t / 2].x < FloppyX
    ensures a.score <= c.score == a.score + PairValue * (Passed(c.ready) - Passed(a.ready))
    ensures a.hiScore <= c.hiScore && (a.score <= a.hiScore ==> c.score <= c.hiScore)
    ensures c.gameOver <==> a.gameOver || Hit(col, pairs, y, t)
    ensures a.gameOver ==> c == a
    ensures !c.gameOver && pairs[t / 2].x < FloppyX ==> !c.ready[t / 2]
  {
    var i := t / 2;
    if Hit(col, pairs, y, t) then a.(gameOver := true)
    else if pairs[i].x < FloppyX && a.ready[i] && !a.gameOver then
      var score := a.score + PairValue;
      PassedDrop(a.ready, i);
      a.(score := score, ready := a.ready[i := false], hiScore := if score > a.hiScore then score else a.hiScore)
    else a
  }

  /** The checks of tubes `t` to 199, in order. The game ends iff some tube is touched. A
      flag is only ever cleared, only for a passed pair, and each clearing pays 100. If the
      game goes on, every passed pair checked has scored. Once the game is over nothing
      changes. */
  function Contact(col: Collisions, pairs: seq<Pair>, y: real, t: nat, a: Tally): (b: Tally)
    requires t <= 2 * |pairs| && |a.ready| == |pairs|
    decreases 2 * |pairs| - t
    ensures |b.ready| == |pairs|
    ensures forall i | 0 <= i < |pairs| :: b.ready[i] ==> a.ready[i]
    ensures forall i | 0 <= i < |pairs| :: a.ready[i] && !b.ready[i] ==> pairs[i].x < FloppyX
    ensures a.score <= b.score == a.score + PairValue * (Passed(b.ready) - Passed(a.ready))
    ensures a.hiScore <= b.hiScore && (a.score <= a.hiScore ==> b.score <= b.hiScore)
    ensures b.gameOver <==> a.gameOver || exists u | t <= u < 2 * |pairs| :: Hit(col, pairs, y, u)
    ensures a.gameOver ==> b == a
    ensures !b.gameOver ==> forall i | 0 <= i < |pairs| && t <= 2 * i + 1 :: pairs[i].x < FloppyX ==> !b.ready[i]
  {
    if t == 2 * |pairs| then a
    else Contact(col, pairs, y, t + 1, Check(col, pairs, y, t, a))
  }

  /** One unpaused frame: the tubes scroll, the floppy flies or falls, and the two hundred
      tube checks run. */
  function Play(s: State, input: Input, col: Collisions): (r: State)
    requires Inv(s) && !s.gameOver
    ensures Inv(r)
    ensures r.y == Fall(s.y, input) && r.pairs == Scroll(s.pairs)
    ensures r.gameOver <==> exists t | 0 <= t < 2 * MaxTubes :: Hit(col, r.pairs, r.y, t)
    ensures forall i | 0 <= i < MaxTubes :: r.ready[i] ==> s.ready[i]
    ensures s.score <= r.score && s.hiScore <= r.hiScore
    ensures r.pause == s.pause && r.draws == s.draws
  {
    var pairs := Scroll(s.pairs);
    var y := Fall(s.y, input);
    var b := Contact(col, pairs, y, 0, Tally(s.ready, s.score, s.hiScore, false));
    s.(pairs := pairs, y := y, ready := b.ready, score := b.score, hiScore := b.hiScore, gameOver := b.gameOver)
  }

  // ---------------------------------------------------------------------------------
  // New game and the update
  // ---------------------------------------------------------------------------------

  /** The pairs of a new game: pair `i` at x = 400 + 280 i, its top raised by a draw in
      [0, 120], one draw per pair in order. */
  function LayPairs(rand: RandStream, k: nat): (pairs: seq<Pair>)
    ensures Spaced(pairs)
    ensures forall i | 0 <= i < MaxTubes :: pairs[i].x == 400.0 + TubesSpacing * i as real
    ensures forall i | 0 <= i < MaxTubes :: pairs[i].y == -(Draw(rand, k + i, 0, 120) as real)
  {
    var pairs := seq(MaxTubes, i requires 0 <= i < MaxTubes => Pair(400.0 + TubesSpacing * i as real, -(Draw(rand, k + i, 0, 120) as real)));
    forall i | 0 <= i < MaxTubes ensures -120.0 <= pairs[i].y <= 0.0 {
      var v := Draw(rand, k + i, 0, 120);
      assert Min(0, 120) == 0 && Max(0, 120) == 120 && 0 <= v <= 120;
    }
    pairs
  }

  /** A new game: the floppy at (80, 201), fresh pairs, every pair ready to score, the score
      zero; the hi-score carries over. */
  function InitGame(s: State, rand: RandStream): (r: State)
    ensures s.hiScore >= 0 ==> Inv(r)
    ensures r.y == 201.0 && r.pairs == LayPairs(rand, s.draws) && r.draws == s.draws + MaxTubes
    ensures |r.ready| == MaxTubes && forall i | 0 <= i < MaxTubes :: r.ready[i]
    ensures r.score == 0 && r.hiScore == s.hiScore && !r.gameOver && !r.pause
  {
    var ready := seq(MaxTubes, i => true);
    assert Passed(ready) == 0 by {
      assert forall n | 0 <= n <= MaxTubes :: ready[..n] == seq(n, i => true);
      AllReady(MaxTubes);
    }
    State(201.0, LayPairs(rand, s.draws), ready, 0, s.hiScore, false, false, s.draws + MaxTubes)
  }

  /** No pair of an all-ready row has scored. */
  lemma {:induction false} AllReady(n: nat)
    ensures Passed(seq(n, i => true)) == 0
  {
    if n > 0 {
      assert seq(n, i => true)[..n - 1] == seq(n - 1, i => true);
      AllReady(n - 1);
    }
  }

  /** UpdateGame. While the game runs, a P press toggles the pause and an unpaused frame is
      played; once it is over, ENTER starts a new game. The hi-score never drops. */
  function UpdateGame(s: State, input: Input, rand: RandStream, col: Collisions): (r: State)
    requires Inv(s)
    ensures Inv(r)
    ensures r.hiScore >= s.hiScore
    ensures !s.gameOver && s.pause != (input.p == PressedDown) ==> r == s.(pause := true)
    ensures !s.gameOver && s.pause == (input.p == PressedDown) ==> r == Play(s.(pause := false), input, col)
    ensures s.gameOver && input.enter != PressedDown ==> r == s
    ensures s.gameOver && input.enter == PressedDown ==> r == InitGame(s, rand)
  {
    if !s.gameOver then
      var s1 := if input.p == PressedDown then s.(pause := !s.pause) else s;
      if s1.pause then s1 else Play(s1, input, col)
    else if input.enter == PressedDown then InitGame(s, rand).(gameOver := false)
    else s
  }
}
