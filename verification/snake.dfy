/** Snake: a snake of up to 256 square segments moves on a 31-pixel lattice, one square every
    fifth frame; it grows by one segment per fruit and dies on leaving the window or biting
    itself. */
module Snake {
  import opened Common

  const SnakeLength := 256
  const Square := 31
  const SquareSize: real := Square as real

  /** The margin the lattice leaves: the window size modulo the square size, (25, 16). */
  const OffsetX: real := (800 % Square) as real
  const OffsetY: real := (450 % Square) as real

  /** Lattice columns and rows that fit in the window: 800 / 31 = 25 and 450 / 31 = 14. */
  const LatticeColumns := 800 / Square
  const LatticeRows := 450 / Square

  /** Where InitGame puts every segment: half the margin from the top-left corner. */
  const Home := Vec(OffsetX / 2.0, OffsetY / 2.0)

  const Right := Vec(SquareSize, 0.0)
  const Left := Vec(-SquareSize, 0.0)
  const UpDir := Vec(0.0, -SquareSize)
  const DownDir := Vec(0.0, SquareSize)

  /** The game state. `body` holds the positions of all 256 segments, of which the first
      `counterTail` are in play; `speed` is the head's speed (the other segments' speeds are
      never read). */
  datatype State = State(
    body: seq<Vec>, speed: Vec, counterTail: int, allowMove: bool,
    fruit: Vec, fruitActive: bool,
    framesCounter: int, gameOver: bool, pause: bool,
    draws: nat)

  predicate Shaped(s: State) { |s.body| == SnakeLength }

  /** A real is `c + 31 m` for an integer m. */
  predicate OnLine(v: real, c: real)
  {
    var q := (v - c) / SquareSize;
    q == q.Floor as real
  }

  /** A point of the lattice the snake and the fruit live on. */
  predicate OnGrid(v: Vec)
  {
    OnLine(v.x, Home.x) && OnLine(v.y, Home.y)
  }

  predicate IsDirection(v: Vec)
  {
    v == Right || v == Left || v == UpDir || v == DownDir
  }

  function InitGame(s: State): (r: State)
    ensures Shaped(r) && r.counterTail == 1 && !r.allowMove && !r.fruitActive
    ensures forall i | 0 <= i < SnakeLength :: r.body[i] == Home
    ensures r.speed == Right && r.framesCounter == 0 && !r.gameOver && !r.pause
    ensures r.fruit == s.fruit && r.draws == s.draws
  {
    State(seq(SnakeLength, _ => Home), Right, 1, false, s.fruit, false, 0, false, false, s.draws)
  }

  // ---------------------------------------------------------------------------------
  // Player control
  // ---------------------------------------------------------------------------------

  /** Some arrow press is accepted: the key is pressed this frame, the head moves along the
      other axis, and a move has happened since the last accepted turn. */
  predicate TurnAccepted(s: State, input: Input)
  {
    s.allowMove &&
    ((input.right == PressedDown && s.speed.x == 0.0) || (input.left == PressedDown && s.speed.x == 0.0) ||
     (input.up == PressedDown && s.speed.y == 0.0) || (input.down == PressedDown && s.speed.y == 0.0))
  }

  /** The four arrow checks, in the order RIGHT, LEFT, UP, DOWN. */
  function Steer(s: State, input: Input): (r: State)
    ensures r == s.(speed := r.speed, allowMove := r.allowMove)
    ensures TurnAccepted(s, input) <==> r != s
    ensures TurnAccepted(s, input) ==> !r.allowMove && IsDirection(r.speed)
    ensures TurnAccepted(s, input) ==> r.speed.x * s.speed.x + r.speed.y * s.speed.y == 0.0
  {
    var s1 := if input.right == PressedDown && s.speed.x == 0.0 && s.allowMove then s.(speed := Right, allowMove := false) else s;
    var s2 := if input.left == PressedDown && s1.speed.x == 0.0 && s1.allowMove then s1.(speed := Left, allowMove := false) else s1;
    var s3 := if input.up == PressedDown && s2.speed.y == 0.0 && s2.allowMove then s2.(speed := UpDir, allowMove := false) else s2;
    if input.down == PressedDown && s3.speed.y == 0.0 && s3.allowMove then s3.(speed := DownDir, allowMove := false) else s3
  }

  /** At most one turn per movement tick: once a turn is taken, no arrow is accepted until
      the snake moves again. */
  lemma SteerOnce(s: State, input: Input, input': Input)
    ensures Steer(Steer(s, input), input') == Steer(s, input) || !TurnAccepted(s, input)
  {
  }

  // ---------------------------------------------------------------------------------
  // Movement and collisions
  // ---------------------------------------------------------------------------------

  /** The movement tick: the head advances by its speed, each later segment in play takes the
      place its predecessor had before the tick, and the tick re-enables turning. */
  function Advance(s: State): (r: State)
    requires Shaped(s)
    ensures Shaped(r) && r == s.(body := r.body, allowMove := r.allowMove)
    ensures s.counterTail > 0 ==> r.body[0] == s.body[0].Add(s.speed) && r.allowMove
    ensures s.counterTail <= 0 ==> r == s
    ensures forall i | 1 <= i < s.counterTail && i < SnakeLength :: r.body[i] == s.body[i - 1]
    ensures forall i | Max(s.counterTail, 0) <= i < SnakeLength :: r.body[i] == s.body[i]
  {
    if s.counterTail <= 0 then s
    else
      var b := seq(SnakeLength, i requires 0 <= i < SnakeLength =>
        if i == 0 then s.body[0].Add(s.speed) else if i < s.counterTail then s.body[i - 1] else s.body[i]);
      s.(body := b, allowMove := true)
  }

  /** The segments behind the head trail the old body: the snake's length in play is kept and
      its squares behind the head are the old squares minus the old tail. */
  lemma {:induction false} AdvanceTrails(s: State)
    requires Shaped(s) && 1 <= s.counterTail <= SnakeLength
    ensures Advance(s).body[1..s.counterTail] == s.body[..s.counterTail - 1]
    ensures Advance(s).counterTail == s.counterTail
  {
    var r := Advance(s);
    assert forall i | 0 <= i < s.counterTail - 1 :: r.body[1..s.counterTail][i] == r.body[i + 1];
  }

  /** The head is outside [0, 800 - 25] x [0, 450 - 16]. */
  predicate WallHit(head: Vec)
  {
    head.x > 800.0 - OffsetX || head.y > 450.0 - OffsetY || head.x < 0.0 || head.y < 0.0
  }

  /** The head is on one of the other segments in play. */
  predicate SelfHit(body: seq<Vec>, n: int)
    requires |body| > 0
  {
    exists i :: 1 <= i < n && i < |body| && body[i] == body[0]
  }

  /** Player control, the movement tick on every fifth frame, and the two death checks. */
  function Move(s: State, input: Input): (r: State)
    requires Shaped(s)
    ensures Shaped(r) && r.counterTail == s.counterTail && r.fruit == s.fruit && r.fruitActive == s.fruitActive
    ensures r.framesCounter == s.framesCounter && r.draws == s.draws && r.pause == s.pause
    ensures r.gameOver <==> s.gameOver || WallHit(r.body[0]) || SelfHit(r.body, r.counterTail)
    ensures s.framesCounter % 5 != 0 ==> r.body == s.body
  {
    var s1 := Steer(s, input);
    var s2 := if s1.framesCounter % 5 == 0 then Advance(s1) else s1;
    s2.(gameOver := s2.gameOver || WallHit(s2.body[0]) || SelfHit(s2.body, s2.counterTail))
  }

  // ---------------------------------------------------------------------------------
  // Fruit placement
  // ---------------------------------------------------------------------------------

  /** The lattice point in column `cx` and row `cy`. */
  function Cell(cx: int, cy: int): (v: Vec)
    ensures OnGrid(v)
  {
    var v := Vec(SquareSize * cx as real + Home.x, SquareSize * cy as real + Home.y);
    assert (v.x - Home.x) / SquareSize == cx as real;
    assert (v.y - Home.y) / SquareSize == cy as real;
    v
  }

  /** The fruit candidate drawn by calls `j` and `j + 1`: a random lattice point inside the
      playing field. */
  function Candidate(rand: RandStream, j: nat): (v: Vec)
    ensures OnGrid(v)
    ensures 0.0 <= v.x <= 800.0 - OffsetX && 0.0 <= v.y <= 450.0 - OffsetY
  {
    var cx := Draw(rand, j, 0, LatticeColumns - 1);
    var cy := Draw(rand, j + 1, 0, LatticeRows - 1);
    assert LatticeColumns == 25 && LatticeRows == 14 && Home == Vec(12.5, 8.0);
    assert 0 <= cx <= 24 && 0 <= cy <= 13;
    Cell(cx, cy)
  }

  /** No segment in play is at `v`. */
  predicate Clear(v: Vec, body: seq<Vec>, n: int)
  {
    forall i | 0 <= i < n && i < |body| :: body[i] != v
  }

  /** The candidates of successive attempts, by the number of the attempt's first call. */
  function Candidates(rand: RandStream): nat -> Vec
  {
    (j: nat) => Candidate(rand, j)
  }

  /** The attempt starting at call `j` finds a free square. */
  function FreeAt(cand: nat -> Vec, body: seq<Vec>, n: int): nat -> bool
  {
    (j: nat) => Clear(cand(j), body, n)
  }

  /** The fruit placement the source's loop makes: the first candidate, in draw order, that no
      segment in play covers, and the number of calls made (two per attempt). The loop is
      assumed to end. */
  function PlaceFruit(rand: RandStream, k: nat, body: seq<Vec>, n: int): (r: (Vec, nat))
    requires Eventually(FreeAt(Candidates(rand), body, n), k, 2)
    ensures r.1 >= k + 2 && forall j: nat | j + 2 == r.1 :: r.0 == Candidate(rand, j)
    ensures OnGrid(r.0) && Clear(r.0, body, n)
  {
    var j := Resample(FreeAt(Candidates(rand), body, n), k, 2);
    (Candidate(rand, j), j + 2)
  }

  /** The source's placement loop: a pass over the segments in play that draws a new
      candidate and restarts at segment 0 whenever the candidate sits on the segment
      it is compared with. It computes `PlaceFruit`. */
  method PlaceFruitLoop(rand: RandStream, k: nat, body: seq<Vec>, n: int) returns (fruit: Vec, draws: nat)
    requires Eventually(FreeAt(Candidates(rand), body, n), k, 2)
    ensures fruit == PlaceFruit(rand, k, body, n).0 && draws == PlaceFruit(rand, k, body, n).1
  {
    var j := FirstClear(Candidates(rand), k, body, n);
    fruit, draws := Candidate(rand, j), j + 2;
    PlaceFruitAt(rand, k, body, n, j);
  }

  lemma PlaceFruitAt(rand: RandStream, k: nat, body: seq<Vec>, n: int, j: nat)
    requires Eventually(FreeAt(Candidates(rand), body, n), k, 2)
    requires j == Resample(FreeAt(Candidates(rand), body, n), k, 2)
    ensures PlaceFruit(rand, k, body, n).0 == Candidate(rand, j)
    ensures PlaceFruit(rand, k, body, n).1 == j + 2
  {
  }

  /** The two nested loops, over any sequence of candidates: they stop at the first
      attempt whose candidate is clear of the snake. */
  method FirstClear(cand: nat -> Vec, k: nat, body: seq<Vec>, n: int) returns (j: nat)
    requires Eventually(FreeAt(cand, body, n), k, 2)
    ensures j == Resample(FreeAt(cand, body, n), k, 2)
  {
    ghost var accept := FreeAt(cand, body, n);
    j := k;
    var i := 0;
    while i < n && i < |body|
      invariant 0 <= i
      invariant OnStride(k, 2, j) && !AcceptedBefore(accept, k, 2, j) && Eventually(accept, j, 2)
      invariant forall m | 0 <= m < i && m < |body| :: body[m] != cand(j)
      decreases Rejections(accept, j, 2), |body| - i
    {
      ghost var j0 := j;
      j, i := RedrawWhileCovered(cand, k, body, n, j, i);
      i := i + 1;
    }
    assert accept(j) by {
      assert Clear(cand(j), body, n);
    }
    ResampleIsFirst(accept, k, 2, j);
  }

  /** The inner loop: while the candidate sits on segment `i`, draw a new one and go back to
      segment 0. */
  method RedrawWhileCovered(cand: nat -> Vec, k: nat, body: seq<Vec>, n: int, j0: nat, i0: int)
    returns (j: nat, i: int)
    requires 0 <= i0 < |body| && i0 < n
    requires OnStride(k, 2, j0) && !AcceptedBefore(FreeAt(cand, body, n), k, 2, j0)
    requires Eventually(FreeAt(cand, body, n), j0, 2)
    requires forall m | 0 <= m < i0 :: body[m] != cand(j0)
    ensures 0 <= i < |body| && i < n && body[i] != cand(j)
    ensures OnStride(k, 2, j) && !AcceptedBefore(FreeAt(cand, body, n), k, 2, j)
    ensures Eventually(FreeAt(cand, body, n), j, 2)
    ensures forall m | 0 <= m < i :: body[m] != cand(j)
    ensures (j == j0 && i == i0) || Rejections(FreeAt(cand, body, n), j, 2) < Rejections(FreeAt(cand, body, n), j0, 2)
  {
    ghost var accept := FreeAt(cand, body, n);
    j, i := j0, i0;
    while body[i] == cand(j)
      invariant 0 <= i < |body| && i < n
      invariant OnStride(k, 2, j) && !AcceptedBefore(accept, k, 2, j) && Eventually(accept, j, 2)
      invariant forall m | 0 <= m < i :: body[m] != cand(j)
      invariant (j == j0 && i == i0) || Rejections(accept, j, 2) < Rejections(accept, j0, 2)
      decreases Rejections(accept, j, 2)
    {
      assert !accept(j) by {
        assert !Clear(cand(j), body, n);
      }
      ResampleStep(accept, k, 2, j);
      j, i := j + 2, 0;
    }
  }

  // ---------------------------------------------------------------------------------
  // Eating and the frame
  // ---------------------------------------------------------------------------------

  /** The head's square overlaps the fruit's square. */
  predicate Overlap(head: Vec, fruit: Vec)
  {
    head.x < fruit.x + SquareSize && head.x + SquareSize > fruit.x &&
    head.y < fruit.y + SquareSize && head.y + SquareSize > fruit.y
  }

  /** On the lattice, two squares overlap exactly when they coincide. */
  lemma OverlapIsSame(a: Vec, b: Vec)
    requires OnGrid(a) && OnGrid(b)
    ensures Overlap(a, b) <==> a == b
  {
    if Overlap(a, b) {
      LatticeClose(a.x, b.x, Home.x);
      LatticeClose(a.y, b.y, Home.y);
    }
  }

  lemma LatticeClose(u: real, v: real, c: real)
    requires OnLine(u, c) && OnLine(v, c) && u < v + SquareSize && u + SquareSize > v
    ensures u == v
  {
    var p := ((u - c) / SquareSize).Floor;
    var q := ((v - c) / SquareSize).Floor;
    assert u == c + SquareSize * p as real;
    assert v == c + SquareSize * q as real;
    assert 31.0 * (p - q) as real < 31.0;
    assert 31.0 * (q - p) as real < 31.0;
    assert p - q < 1 && q - p < 1;
  }

  /** The growth step: the segment after the tail takes the old tail's square from before the
      movement tick (`pre`), the tail count grows by one and the fruit is eaten. */
  function Eat(s: State, pre: seq<Vec>): (r: State)
    requires Shaped(s) && |pre| == SnakeLength && 1 <= s.counterTail < SnakeLength
    ensures Shaped(r)
    ensures Overlap(s.body[0], s.fruit) ==>
      r.counterTail == s.counterTail + 1 && !r.fruitActive &&
      r.body == s.body[s.counterTail := pre[s.counterTail - 1]]
    ensures !Overlap(s.body[0], s.fruit) ==> r == s
    ensures r.gameOver == s.gameOver && forall i :: 0 <= i < s.counterTail ==> r.body[i] == s.body[i]
  {
    if Overlap(s.body[0], s.fruit) then
      s.(body := s.body[s.counterTail := pre[s.counterTail - 1]], counterTail := s.counterTail + 1,
         fruitActive := false)
    else s
  }

  /** The fruit loop ends if it runs: when no fruit is out after the movement step `m`. */
  ghost predicate Lands(m: State, rand: RandStream)
  {
    !m.fruitActive ==> Eventually(FreeAt(Candidates(rand), m.body, m.counterTail), m.draws, 2)
  }

  /** The fruit loop must end whenever it runs in the frame `s` plays. */
  ghost predicate FruitLands(s: State, input: Input, rand: RandStream)
    requires Shaped(s)
  {
    var s1 := if input.p == PressedDown then s.(pause := !s.pause) else s;
    !s.gameOver && !s1.pause ==> Lands(Move(s1, input), rand)
  }

  /** The placement step: with no fruit out, a new one goes on a lattice square clear of the
      segments in play; a fruit already out stays. */
  function Feed(m: State, rand: RandStream): (f: State)
    requires Lands(m, rand)
    ensures f.fruitActive && f.body == m.body && f.counterTail == m.counterTail && f.speed == m.speed
    ensures f.framesCounter == m.framesCounter && f.pause == m.pause && f.gameOver == m.gameOver
    ensures m.fruitActive ==> f == m
  {
    if !m.fruitActive then
      var pf := PlaceFruit(rand, m.draws, m.body, m.counterTail);
      m.(fruit := pf.0, fruitActive := true, draws := pf.1)
    else m
  }

  /** A fruit placed by the placement step is on the lattice, clear of every segment in play,
      and costs at least one attempt of two draws. */
  lemma FreshFruit(m: State, rand: RandStream)
    requires Lands(m, rand) && !m.fruitActive
    ensures OnGrid(Feed(m, rand).fruit) && Clear(Feed(m, rand).fruit, m.body, m.counterTail)
    ensures Feed(m, rand).draws >= m.draws + 2
  {
  }

  /** One unpaused frame: the movement step, the fruit placement, growth, and the frame
      count. The snake grows by at most one segment, and exactly when the fruit is eaten. */
  function Play(s: State, input: Input, rand: RandStream): (r: State)
    requires Shaped(s) && 1 <= s.counterTail < SnakeLength && Lands(Move(s, input), rand)
    ensures Shaped(r)
    ensures r.framesCounter == s.framesCounter + 1 && r.pause == s.pause
    ensures s.counterTail <= r.counterTail <= s.counterTail + 1 && r.fruitActive == (r.counterTail == s.counterTail)
    ensures var mv := Move(s, input);
      r.gameOver == mv.gameOver && forall i :: 0 <= i < s.counterTail ==> r.body[i] == mv.body[i]
  {
    var e := Eat(Feed(Move(s, input), rand), s.body);
    e.(framesCounter := e.framesCounter + 1)
  }

  /** UpdateGame. The tail count must stay below 256: the source has no bound and the growth
      step would write past the end of the segment array. */
  function UpdateGame(s: State, input: Input, rand: RandStream): (r: State)
    requires Shaped(s) && 1 <= s.counterTail < SnakeLength && FruitLands(s, input, rand)
    ensures Shaped(r)
    ensures s.gameOver ==> r == (if input.enter == PressedDown then InitGame(s) else s)
    ensures !s.gameOver && s.pause != (input.p == PressedDown) ==> r == s.(pause := true)
    ensures !s.gameOver && s.pause == (input.p == PressedDown) ==>
      r.framesCounter == s.framesCounter + 1 && !r.pause &&
      s.counterTail <= r.counterTail <= s.counterTail + 1 && r.fruitActive == (r.counterTail == s.counterTail)
    ensures !s.gameOver && s.pause == (input.p == PressedDown) ==> r == Play(s.(pause := false), input, rand)
  {
    if !s.gameOver then
      var s1 := if input.p == PressedDown then s.(pause := !s.pause) else s;
      if s1.pause then s1 else Play(s1, input, rand)
    else if input.enter == PressedDown then InitGame(s)
    else s
  }

  // ---------------------------------------------------------------------------------
  // The lattice invariant
  // ---------------------------------------------------------------------------------

  /** Every segment and the active fruit sit on the lattice, the head moves one square along
      an axis, and the tail count is within the segment array. */
  predicate Inv(s: State)
  {
    Shaped(s) && 1 <= s.counterTail <= SnakeLength && IsDirection(s.speed) &&
    (forall i | 0 <= i < SnakeLength :: OnGrid(s.body[i])) &&
    (s.fruitActive ==> OnGrid(s.fruit))
  }

  lemma InitGameInv(s: State)
    ensures Inv(InitGame(s))
  {
    assert OnGrid(Home);
  }

  /** A whole number of squares along a lattice line stays on it. */
  lemma LineStep(v: real, c: real, k: int)
    requires OnLine(v, c)
    ensures OnLine(v + SquareSize * k as real, c)
  {
    var n := ((v - c) / SquareSize).Floor;
    assert (v - c) / SquareSize == n as real;
    var q := (v + SquareSize * k as real - c) / SquareSize;
    assert q == (n + k) as real;
    assert q.Floor == n + k;
  }

  lemma StepOnGrid(v: Vec, d: Vec)
    requires OnGrid(v) && IsDirection(d)
    ensures OnGrid(v.Add(d))
  {
    var k := if d == Right then 1 else if d == Left then -1 else 0;
    var m := if d == DownDir then 1 else if d == UpDir then -1 else 0;
    assert d == Vec(SquareSize * k as real, SquareSize * m as real);
    LineStep(v.x, Home.x, k);
    LineStep(v.y, Home.y, m);
  }

  lemma MoveInv(s: State, input: Input)
    requires Inv(s)
    ensures Inv(Move(s, input))
  {
    var s1 := Steer(s, input);
    assert IsDirection(s1.speed);
    if s1.framesCounter % 5 == 0 {
      StepOnGrid(s1.body[0], s1.speed);
    }
  }

  /** Placing a fruit keeps the invariant. */
  lemma FeedInv(m: State, rand: RandStream)
    requires Inv(m) && Lands(m, rand)
    ensures Inv(Feed(m, rand))
  {
    if !m.fruitActive {
      FreshFruit(m, rand);
    }
  }

  /** Eating keeps the invariant when the old body was on the lattice. */
  lemma EatInv(f: State, pre: seq<Vec>)
    requires Inv(f) && |pre| == SnakeLength && f.counterTail < SnakeLength
    requires forall i | 0 <= i < SnakeLength :: OnGrid(pre[i])
    ensures Inv(Eat(f, pre))
  {
  }

  /** A frame keeps the invariant. */
  lemma UpdateGameInv(s: State, input: Input, rand: RandStream)
    requires Inv(s) && s.counterTail < SnakeLength && FruitLands(s, input, rand)
    ensures Inv(UpdateGame(s, input, rand))
  {
    if !s.gameOver {
      var s1 := if input.p == PressedDown then s.(pause := !s.pause) else s;
      if !s1.pause {
        MoveInv(s1, input);
        var m := Move(s1, input);
        FeedInv(m, rand);
        EatInv(Feed(m, rand), s1.body);
      }
    } else {
      InitGameInv(s);
    }
  }

  /** With the invariant, the snake grows exactly when its head reaches the square of a fruit
      placed in an earlier frame: a fruit placed this frame avoids every segment, the head
      included. */
  lemma GrowsIffHeadOnFruit(s: State, input: Input, rand: RandStream)
    requires Inv(s) && s.counterTail < SnakeLength && FruitLands(s, input, rand)
    requires !s.gameOver && s.pause == (input.p == PressedDown)
    ensures var r := UpdateGame(s, input, rand);
      var m := Move(s.(pause := false), input);
      r.counterTail == s.counterTail + 1 <==> m.fruitActive && m.body[0] == m.fruit
  {
    var s1 := s.(pause := false);
    MoveInv(s1, input);
    var m := Move(s1, input);
    FeedInv(m, rand);
    if !m.fruitActive {
      FreshFruit(m, rand);
    }
    OverlapIsSame(m.body[0], Feed(m, rand).fruit);
  }
}
