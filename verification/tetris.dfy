/** The frame logic of rayfork-tetris: InitGame, UpdateGame and the helpers it calls, over
    the grid of `TetrisGrid` and the piece buffers of `TetrisPiece`. */
module Tetris {
  import opened Common
  import opened TetrisGrid
  import opened TetrisPiece

  const LateralSpeed: int := 10
  const TurningSpeed: int := 12
  const FastFallAwaitCounter: int := 30
  const FadingTime: int := 33

  /** The game's globals. `draws` counts the `rand()` calls made so far. */
  datatype State = State(
    grid: Grid, piece: Box, incoming: Box,
    pieceX: int, pieceY: int,
    gameOver: bool, pause: bool, beginPlay: bool, pieceActive: bool, detection: bool,
    lineToDelete: bool,
    level: int, lines: int,
    gravityCounter: int, lateralCounter: int, turnCounter: int, fastFallCounter: int,
    fadeCounter: int, gravitySpeed: int,
    draws: nat)

  predicate Shaped(s: State)
  {
    IsGrid(s.grid) && IsBox(s.piece) && IsBox(s.incoming)
  }

  /** The globals before the first frame, as their C initialisers (and zero-filled arrays,
      which read as EMPTY) leave them. */
  function Globals(): (s: State)
    ensures Shaped(s) && IsPiece(s.piece) && !s.gameOver && s.draws == 0
  {
    State(seq(Columns, _ => seq(Rows, _ => Empty)), EmptyPiece(), EmptyPiece(),
          0, 0, false, false, true, false, false, false, 1, 0, 0, 0, 0, 0, 0, 30, 0)
  }

  /** InitGame. It resets everything except `gameOver`, the current piece buffer and the
      random stream. */
  function InitGame(s: State): (r: State)
    ensures IsBox(s.piece) ==> Shaped(r)
    ensures IsGrid(r.grid) && Walls(r.grid)
    ensures forall i, j :: Interior(i, j) ==> r.grid[i][j] == Empty
    ensures r.level == 1 && r.lines == 0 && r.gravitySpeed == 30
    ensures r.gravityCounter == 0 && r.lateralCounter == 0 && r.turnCounter == 0
    ensures r.fastFallCounter == 0 && r.fadeCounter == 0
    ensures r.beginPlay && !r.pieceActive && !r.detection && !r.lineToDelete && !r.pause
    ensures r.pieceX == 0 && r.pieceY == 0
    ensures r.incoming == EmptyPiece()
    ensures r.gameOver == s.gameOver && r.piece == s.piece && r.draws == s.draws
  {
    var grid := seq(Columns, i => seq(Rows, j =>
      if j == Rows - 1 || i == 0 || i == Columns - 1 then Block else Empty));
    s.(grid := grid, incoming := EmptyPiece(), pieceX := 0, pieceY := 0,
       pause := false, beginPlay := true, pieceActive := false, detection := false,
       lineToDelete := false, level := 1, lines := 0,
       gravityCounter := 0, lateralCounter := 0, turnCounter := 0, fastFallCounter := 0,
       fadeCounter := 0, gravitySpeed := 30)
  }

  /** GetRandompiece: one `GetRandomValue(0, 6)` picks the shape of the incoming piece. */
  function GetRandomPiece(s: State, rand: RandStream): (r: State)
    ensures exists k :: 0 <= k <= 6 && r.incoming == Shape(k)
    ensures IsPiece(r.incoming) && MovingCount(r.incoming) == 4
    ensures r == s.(incoming := r.incoming, draws := s.draws + 1)
  {
    var k := Draw(rand, s.draws, 0, 6);
    ShapeHasFourSquares(k);
    s.(incoming := Shape(k), draws := s.draws + 1)
  }

  /** Createpiece: the position becomes (4, 0); at the start of a game one extra piece is
      drawn first; the incoming piece becomes the current one, a new incoming piece is drawn,
      and the current one is stamped into columns 4..7 and rows 0..3. It returns true. */
  function CreatePiece(s: State, rand: RandStream): (r: State)
    requires Shaped(s)
    ensures Shaped(r)
    ensures r.pieceX == 4 && r.pieceY == 0 && r.pieceActive && !r.beginPlay
    ensures r.piece == (if s.beginPlay then Shape(Draw(rand, s.draws, 0, 6)) else s.incoming)
    ensures IsPiece(r.incoming) && MovingCount(r.incoming) == 4
    ensures r.draws == s.draws + (if s.beginPlay then 2 else 1)
    ensures r.grid == Stamp(s.grid, r.piece, 4, 0)
  {
    var s1 := s.(pieceX := 4, pieceY := 0);
    var s2 := if s1.beginPlay then GetRandomPiece(s1, rand).(beginPlay := false) else s1;
    var s3 := s2.(piece := s2.incoming);
    var s4 := GetRandomPiece(s3, rand);
    s4.(grid := Stamp(s4.grid, s4.piece, s4.pieceX, 0), pieceActive := true)
  }

  /** CheckDetection (which only ever raises the flag), ResolveFallingMovement and
      CheckCompletion, run when the gravity counter reaches the gravity speed. */
  function GravityStep(s: State): (r: State)
    requires Shaped(s)
    ensures Shaped(r) && r.gravityCounter == 0
    ensures r.piece == s.piece && r.pieceX == s.pieceX && r.turnCounter == s.turnCounter
    ensures r.lateralCounter == s.lateralCounter && r.gameOver == s.gameOver
    ensures (s.detection || Landed(s.grid)) && HasMoving(s.grid) ==>
      !r.pieceActive && !r.detection && r.grid == MarkComplete(Freeze(s.grid))
    ensures (s.detection || Landed(s.grid)) && !HasMoving(s.grid) ==> r.detection
    ensures !(s.detection || Landed(s.grid)) ==>
      r.pieceY == s.pieceY + 1 && r.grid == MarkComplete(Fall(s.grid)) && r.pieceActive == s.pieceActive
  {
    var detection := s.detection || Landed(s.grid);
    var freeze := detection && HasMoving(s.grid);
    var g := if !detection then Fall(s.grid) else if freeze then Freeze(s.grid) else s.grid;
    s.(grid := MarkComplete(g), lineToDelete := s.lineToDelete || AnyComplete(g),
       detection := detection && !freeze, pieceActive := s.pieceActive && !freeze,
       pieceY := if detection then s.pieceY else s.pieceY + 1, gravityCounter := 0)
  }

  /** The gravity step never touches column 11. */
  lemma GravityKeepsRightWall(s: State)
    requires Shaped(s) && RightWallClear(s.grid)
    ensures RightWallClear(GravityStep(s).grid)
  {
    var g := s.grid;
    WallColumnsFixed(g);
    var g1 := if s.detection || Landed(g) then (if HasMoving(g) then Freeze(g) else g) else Fall(g);
    WallColumnsFixed(g1);
    assert GravityStep(s).grid == MarkComplete(g1);
  }

  /** ResolveLateralMovement: the state after the move and the returned `collision` flag. */
  function LateralStep(s: State, input: Input): (r: (State, bool))
    requires Shaped(s) && RightWallClear(s.grid)
    ensures Shaped(r.0)
    ensures input.left == ReleaseEdge ==> (r.1 <==> LeftBlocked(s.grid))
    ensures input.left != ReleaseEdge && input.right == ReleaseEdge ==> (r.1 <==> RightBlocked(s.grid))
    ensures input.left != ReleaseEdge && input.right != ReleaseEdge ==> !r.1 && r.0 == s
    ensures r.1 ==> r.0 == s
    ensures input.left == ReleaseEdge && !r.1 ==> r.0.grid == ShiftLeft(s.grid) && r.0.pieceX == s.pieceX - 1
    ensures input.left != ReleaseEdge && input.right == ReleaseEdge && !r.1 ==>
      r.0.grid == ShiftRight(s.grid) && r.0.pieceX == s.pieceX + 1
    ensures r.0 == s.(grid := r.0.grid, pieceX := r.0.pieceX)
  {
    if input.left == ReleaseEdge then
      if LeftBlocked(s.grid) then (s, true)
      else (s.(grid := ShiftLeft(s.grid), pieceX := s.pieceX - 1), false)
    else if input.right == ReleaseEdge then
      if RightBlocked(s.grid) then (s, true)
      else (s.(grid := ShiftRight(s.grid), pieceX := s.pieceX + 1), false)
    else (s, false)
  }

  /** ResolveTurnMovement: with UP held the piece is turned (or re-stamped unturned) and the
      function returns true; otherwise nothing happens and it returns false. */
  function TurnStep(s: State, input: Input): (r: (State, bool))
    requires Shaped(s)
    ensures Shaped(r.0)
    ensures r.1 <==> input.up == HoldDown
    ensures !r.1 ==> r.0 == s
  {
    if input.up == HoldDown then
      var t := Turn(s.grid, s.piece, s.pieceX, s.pieceY);
      (s.(grid := t.0, piece := t.1), true)
    else (s, false)
  }

  /** The counter updates at the head of the falling-piece branch: all four counters
      count the frame; releasing LEFT or RIGHT makes the lateral move due, releasing UP makes
      the turn due, and holding DOWN after the fast-fall wait makes the fall due. */
  function Counters(s: State, input: Input): (r: State)
    ensures r.grid == s.grid && r.piece == s.piece && r.pieceActive == s.pieceActive
    ensures r.fastFallCounter == s.fastFallCounter + 1
    ensures r.lateralCounter == (if input.left == ReleaseEdge || input.right == ReleaseEdge
                                 then LateralSpeed else s.lateralCounter + 1)
    ensures r.turnCounter == (if input.up == ReleaseEdge then TurningSpeed else s.turnCounter + 1)
    ensures r.gravityCounter == s.gravityCounter + 1 +
      (if input.down == HoldDown && r.fastFallCounter >= FastFallAwaitCounter then s.gravitySpeed else 0)
    ensures r == s.(fastFallCounter := r.fastFallCounter, gravityCounter := r.gravityCounter,
                    lateralCounter := r.lateralCounter, turnCounter := r.turnCounter)
  {
    var fastFall := s.fastFallCounter + 1;
    s.(fastFallCounter := fastFall,
       gravityCounter := s.gravityCounter + 1 +
         (if input.down == HoldDown && fastFall >= FastFallAwaitCounter then s.gravitySpeed else 0),
       lateralCounter := if input.left == ReleaseEdge || input.right == ReleaseEdge then LateralSpeed
                         else s.lateralCounter + 1,
       turnCounter := if input.up == ReleaseEdge then TurningSpeed else s.turnCounter + 1)
  }

  function GravityPhase(s: State): (r: State)
    requires Shaped(s) && RightWallClear(s.grid)
    ensures Shaped(r) && RightWallClear(r.grid)
    ensures s.gravityCounter < s.gravitySpeed ==> r == s
  {
    if s.gravityCounter >= s.gravitySpeed then
      GravityKeepsRightWall(s);
      GravityStep(s)
    else s
  }

  /** The lateral move when its counter is due; a move that is not refused resets the
      counter (the source resets it whenever ResolveLateralMovement returns false). */
  function LateralPhase(s: State, input: Input): (r: State)
    requires Shaped(s) && RightWallClear(s.grid)
    ensures Shaped(r)
    ensures r.pieceActive == s.pieceActive && r.piece == s.piece && r.pieceY == s.pieceY
    ensures r.turnCounter == s.turnCounter && r.gameOver == s.gameOver
    ensures input.left != ReleaseEdge && input.right != ReleaseEdge ==> r.grid == s.grid && r.pieceX == s.pieceX
  {
    if s.lateralCounter >= LateralSpeed then
      var l := LateralStep(s, input);
      if !l.1 then l.0.(lateralCounter := 0) else l.0
    else s
  }

  /** The turn when its counter is due (and, with `gateTurn`, only while the piece is
      active); a turn resets the counter. */
  function TurnPhase(s: State, input: Input, gateTurn: bool): (r: State)
    requires Shaped(s)
    ensures Shaped(r)
    ensures r.pieceActive == s.pieceActive
    ensures gateTurn && !s.pieceActive ==> r == s
  {
    if s.turnCounter >= TurningSpeed && (!gateTurn || s.pieceActive) then
      var t := TurnStep(s, input);
      if t.1 then t.0.(turnCounter := 0) else t.0
    else s
  }

  /** The branch of UpdateGame for a falling piece. `gateTurn` selects the corrected turn
      step, which runs only while the piece is still active; without it the step is the
      source's. */
  function PieceFrame(s: State, input: Input, gateTurn: bool): (r: State)
    requires Shaped(s) && RightWallClear(s.grid)
    ensures Shaped(r)
  {
    TurnPhase(LateralPhase(GravityPhase(Counters(s, input)), input), input, gateTurn)
  }

  /** Some FULL square in rows 0 or 1 of the play area. */
  predicate TopReached(g: Grid)
    requires IsGrid(g)
  {
    exists i, j :: 1 <= i <= 10 && 0 <= j < 2 && g[i][j] == Full
  }

  /** The line-deletion branch: the fade counts up, and on reaching FadingTime the marked rows
      are deleted and `lines` grows by one, however many rows went. */
  function FadeFrame(s: State): (r: State)
    requires Shaped(s)
    ensures Shaped(r)
    ensures r.fadeCounter == (if s.fadeCounter + 1 >= FadingTime then 0 else s.fadeCounter + 1)
    ensures s.fadeCounter + 1 < FadingTime ==> r == s.(fadeCounter := s.fadeCounter + 1)
    ensures s.fadeCounter + 1 >= FadingTime ==>
      !r.lineToDelete && r.lines == s.lines + 1 && r.grid == DeleteCompleteLines(s.grid)
  {
    var f := s.fadeCounter + 1;
    if f >= FadingTime then
      s.(grid := DeleteCompleteLines(s.grid), fadeCounter := 0, lineToDelete := false, lines := s.lines + 1)
    else s.(fadeCounter := f)
  }

  function UpdateWith(s: State, input: Input, rand: RandStream, gateTurn: bool): (r: State)
    requires Shaped(s) && RightWallClear(s.grid)
    ensures Shaped(r)
    ensures s.gameOver ==> r == (if input.enter == PressedDown then InitGame(s).(gameOver := false) else s)
    ensures !s.gameOver && (s.pause != (input.p == PressedDown)) ==> r == s.(pause := true)
    ensures !s.gameOver && s.pause == (input.p == PressedDown) && !s.lineToDelete ==> r.gameOver == TopReached(r.grid)
    ensures !s.gameOver && s.pause == (input.p == PressedDown) && s.lineToDelete ==> r == FadeFrame(s.(pause := false))
    ensures !s.gameOver && s.pause == (input.p == PressedDown) && !s.lineToDelete && !s.pieceActive ==>
      var c := CreatePiece(s.(pause := false), rand).(fastFallCounter := 0);
      r == c.(gameOver := TopReached(c.grid))
    ensures !s.gameOver && s.pause == (input.p == PressedDown) && !s.lineToDelete && s.pieceActive ==>
      var f := PieceFrame(s.(pause := false), input, gateTurn);
      r == f.(gameOver := TopReached(f.grid))
  {
    if !s.gameOver then
      var s1 := if input.p == PressedDown then s.(pause := !s.pause) else s;
      if s1.pause then s1
      else if !s1.lineToDelete then
        var s2 := if !s1.pieceActive then CreatePiece(s1, rand).(fastFallCounter := 0)
                  else PieceFrame(s1, input, gateTurn);
        s2.(gameOver := TopReached(s2.grid))
      else FadeFrame(s1)
    else if input.enter == PressedDown then InitGame(s).(gameOver := false)
    else s
  }

  /** UpdateGame, with the turn step run only while the piece is active (see
      `UpdateGameAsWritten`). The grid's right wall must hold no MOVING square: the right move
      would otherwise write outside the array. */
  function UpdateGame(s: State, input: Input, rand: RandStream): (r: State)
    requires Shaped(s) && RightWallClear(s.grid)
    ensures Shaped(r)
    ensures s.gameOver ==> r == (if input.enter == PressedDown then InitGame(s).(gameOver := false) else s)
    ensures !s.gameOver && (s.pause != (input.p == PressedDown)) ==> r == s.(pause := true)
    ensures !s.gameOver && r.gameOver ==> TopReached(r.grid) && !s.lineToDelete
    ensures !s.gameOver && s.pause == (input.p == PressedDown) && !s.lineToDelete ==> r.gameOver == TopReached(r.grid)
    ensures !s.gameOver && s.pause == (input.p == PressedDown) && s.lineToDelete ==> r == FadeFrame(s.(pause := false))
    ensures !s.gameOver && s.pause == (input.p == PressedDown) && !s.lineToDelete && !s.pieceActive ==>
      var c := CreatePiece(s.(pause := false), rand).(fastFallCounter := 0);
      r == c.(gameOver := TopReached(c.grid))
    ensures !s.gameOver && s.pause == (input.p == PressedDown) && !s.lineToDelete && s.pieceActive ==>
      var f := PieceFrame(s.(pause := false), input, true);
      r == f.(gameOver := TopReached(f.grid))
  {
    UpdateWith(s, input, rand, true)
  }

  /** UpdateGame as the source writes it: the turn step also runs in the frame in which the
      piece froze. */
  function UpdateGameAsWritten(s: State, input: Input, rand: RandStream): (r: State)
    requires Shaped(s) && RightWallClear(s.grid)
    ensures Shaped(r)
    ensures s.gameOver ==> r == (if input.enter == PressedDown then InitGame(s).(gameOver := false) else s)
    ensures !s.gameOver && (s.pause != (input.p == PressedDown)) ==> r == s.(pause := true)
    ensures !s.gameOver && r.gameOver ==> TopReached(r.grid) && !s.lineToDelete
    ensures !s.gameOver && s.pause == (input.p == PressedDown) && !s.lineToDelete ==> r.gameOver == TopReached(r.grid)
    ensures !s.gameOver && s.pause == (input.p == PressedDown) && s.lineToDelete ==> r == FadeFrame(s.(pause := false))
    ensures !s.gameOver && s.pause == (input.p == PressedDown) && !s.lineToDelete && !s.pieceActive ==>
      var c := CreatePiece(s.(pause := false), rand).(fastFallCounter := 0);
      r == c.(gameOver := TopReached(c.grid))
    ensures !s.gameOver && s.pause == (input.p == PressedDown) && !s.lineToDelete && s.pieceActive ==>
      var f := PieceFrame(s.(pause := false), input, false);
      r == f.(gameOver := TopReached(f.grid))
  {
    UpdateWith(s, input, rand, false)
  }
}
