/** What holds of a rayfork-tetris game between frames, and the proof that InitGame
    establishes it and UpdateGame keeps it. */
module TetrisInvariant {
  import opened Common
  import opened TetrisGrid
  import opened TetrisPiece
  import opened Tetris

  /** Between frames: the border is intact and the play area holds only EMPTY, MOVING, FULL
      and FADING; no row is complete; the landing flag is down; an active piece is exactly
      the MOVING squares, has four squares and excludes a pending deletion; without an active
      piece there is no MOVING square; FADING squares exist only while a deletion is pending
      and fill whole rows; the queued piece has four squares once play has begun. */
  predicate Inv(s: State)
  {
    Shaped(s) && IsPiece(s.piece) && IsPiece(s.incoming) && GridOk(s.grid) &&
    !s.detection &&
    (s.pieceActive ==> PieceAt(s.grid, s.piece, s.pieceX, s.pieceY) && MovingCount(s.piece) == 4 && !s.lineToDelete) &&
    (!s.pieceActive ==> !HasMoving(s.grid)) &&
    (!s.lineToDelete ==> NoFading(s.grid)) &&
    (!s.beginPlay ==> MovingCount(s.incoming) == 4)
  }

  lemma InvRightWall(s: State)
    requires Inv(s)
    ensures RightWallClear(s.grid)
  {
  }

  /** InitGame builds the border and an empty play area. */
  lemma InitGameInv(s: State)
    requires IsPiece(s.piece)
    ensures Inv(InitGame(s))
  {
    var g := InitGame(s).grid;
    forall j | 0 <= j <= LastRow
      ensures !Complete(g, j)
    {
      CompleteIffFull(g, j);
      assert g[1][j] == Empty;
    }
  }

  /** The game as it starts: InitGame on the globals' initial values. */
  lemma StartInv()
    ensures Inv(InitGame(Globals()))
  {
    InitGameInv(Globals());
  }

  /** A new piece is stamped into a grid with no MOVING square. */
  lemma CreatePieceInv(s: State, rand: RandStream)
    requires Inv(s) && !s.pieceActive && !s.lineToDelete
    ensures Inv(CreatePiece(s, rand))
  {
    var r := CreatePiece(s, rand);
    if s.beginPlay {
      ShapeHasFourSquares(Draw(rand, s.draws, 0, 6));
    }
    SpawnPiece(s.grid, r.piece);
    FrameKeepsGridOk(s.grid, r.grid);
  }

  /** The piece has landed: it freezes, complete rows are marked, and no MOVING square is
      left. */
  lemma LandingInv(s: State)
    requires Inv(s) && s.pieceActive && Landed(s.grid)
    ensures Inv(GravityStep(s))
  {
    var g := s.grid;
    assert HasMoving(g);
    FreezeOk(g);
    MarkCompleteOk(Freeze(g));
    var r := GravityStep(s);
    assert r.grid == MarkComplete(Freeze(g));
    assert !r.pieceActive && !r.detection;
    assert r.lineToDelete == AnyComplete(Freeze(g));
  }

  /** Nothing has landed: the piece falls one row and nothing else changes. */
  lemma FallingInv(s: State)
    requires Inv(s) && s.pieceActive && !Landed(s.grid)
    ensures Inv(GravityStep(s))
  {
    var g := s.grid;
    FallKeepsPiece(g, s.piece, s.pieceX, s.pieceY);
    FallFrame(g);
    FrameKeepsGridOk(g, Fall(g));
    MarkCompleteOk(Fall(g));
    assert !AnyComplete(Fall(g));
    var r := GravityStep(s);
    assert r.grid == Fall(g);
    assert r == s.(grid := Fall(g), pieceY := s.pieceY + 1, gravityCounter := 0);
  }

  lemma GravityPhaseInv(s: State)
    requires Inv(s) && s.pieceActive
    ensures Inv(GravityPhase(s))
  {
    if s.gravityCounter >= s.gravitySpeed {
      if Landed(s.grid) {
        LandingInv(s);
      } else {
        FallingInv(s);
      }
    }
  }

  lemma LeftMoveInv(s: State)
    requires Inv(s) && !LeftBlocked(s.grid)
    ensures Inv(s.(grid := ShiftLeft(s.grid), pieceX := s.pieceX - 1))
  {
    var g := s.grid;
    if s.pieceActive {
      ShiftLeftKeepsPiece(g, s.piece, s.pieceX, s.pieceY);
      FrameKeepsGridOk(g, ShiftLeft(g));
    } else {
      ShiftWithoutPiece(g);
    }
  }

  lemma RightMoveInv(s: State)
    requires Inv(s) && !RightBlocked(s.grid)
    ensures Inv(s.(grid := ShiftRight(s.grid), pieceX := s.pieceX + 1))
  {
    var g := s.grid;
    if s.pieceActive {
      ShiftRightKeepsPiece(g, s.piece, s.pieceX, s.pieceY);
      FrameKeepsGridOk(g, ShiftRight(g));
    } else {
      ShiftWithoutPiece(g);
    }
  }

  lemma LateralPhaseInv(s: State, input: Input)
    requires Inv(s)
    ensures Inv(LateralPhase(s, input))
  {
    if s.lateralCounter >= LateralSpeed {
      if input.left == ReleaseEdge {
        if !LeftBlocked(s.grid) {
          LeftMoveInv(s);
        }
      } else if input.right == ReleaseEdge {
        if !RightBlocked(s.grid) {
          RightMoveInv(s);
        }
      }
    }
  }

  lemma TurnPhaseInv(s: State, input: Input)
    requires Inv(s)
    ensures Inv(TurnPhase(s, input, true))
  {
    if s.pieceActive && s.turnCounter >= TurningSpeed && input.up == HoldDown {
      var t := Turn(s.grid, s.piece, s.pieceX, s.pieceY);
      TurnKeepsPiece(s.grid, s.piece, s.pieceX, s.pieceY);
      FrameKeepsGridOk(s.grid, t.0);
      assert TurnPhase(s, input, true) == s.(grid := t.0, piece := t.1, turnCounter := 0);
    } else {
      assert TurnPhase(s, input, true).grid == s.grid;
      assert TurnPhase(s, input, true) == s.(turnCounter := TurnPhase(s, input, true).turnCounter);
    }
  }

  lemma CountersInv(s: State, input: Input)
    requires Inv(s)
    ensures Inv(Counters(s, input))
  {
  }

  /** The counters, gravity and lateral phases keep the invariant. */
  lemma MovePhasesInv(s: State, input: Input)
    requires Inv(s) && s.pieceActive
    ensures Inv(LateralPhase(GravityPhase(Counters(s, input)), input))
  {
    var c := Counters(s, input);
    CountersInv(s, input);
    GravityPhaseInv(c);
    LateralPhaseInv(GravityPhase(c), input);
  }

  lemma PieceFrameInv(s: State, input: Input)
    requires Inv(s) && s.pieceActive
    ensures Inv(PieceFrame(s, input, true))
  {
    MovePhasesInv(s, input);
    TurnPhaseInv(LateralPhase(GravityPhase(Counters(s, input)), input), input);
  }

  lemma FadeFrameInv(s: State)
    requires Inv(s) && s.lineToDelete
    ensures Inv(FadeFrame(s))
  {
    if s.fadeCounter + 1 >= FadingTime {
      DeleteOk(s.grid);
    }
  }

  /** UpdateGame keeps the invariant, whatever the input and the random stream. */
  lemma UpdateGameInv(s: State, input: Input, rand: RandStream)
    requires Inv(s)
    ensures Inv(UpdateGame(s, input, rand))
  {
    if !s.gameOver {
      var s1 := if input.p == PressedDown then s.(pause := !s.pause) else s;
      if !s1.pause {
        if !s1.lineToDelete {
          if !s1.pieceActive {
            CreatePieceInv(s1, rand);
          } else {
            PieceFrameInv(s1, input);
          }
        } else {
          FadeFrameInv(s1);
        }
      }
    } else if input.enter == PressedDown {
      InitGameInv(s);
    }
  }

  // ---------------------------------------------------------------------------------
  // The turn step in the frame the piece froze
  // ---------------------------------------------------------------------------------

  /** A grid without MOVING squares never refuses a turn: no check finds a MOVING square. */
  lemma NoPieceNoRefusal(g: Grid, px: int, py: int)
    requires IsGrid(g) && Walls(g) && !HasMoving(g)
    ensures !TurnBlocked(g, px, py)
  {
    forall x, y
      ensures At(g, x, y) != Moving
    {
    }
  }

  /** The frame in which an active, landed piece freezes: the gravity step is due once the
      counters have counted the frame, DOWN is at rest (so no fast fall is added) and no
      lateral move is released. */
  predicate FreezesNow(s: State, input: Input)
  {
    Inv(s) && s.pieceActive && Landed(s.grid) && s.gravityCounter + 1 >= s.gravitySpeed &&
    input.down == Up && input.left != ReleaseEdge && input.right != ReleaseEdge
  }

  /** UP is held and the turn is due in that frame. */
  predicate TurnDue(s: State, input: Input)
  {
    input.up == HoldDown && s.turnCounter + 1 >= TurningSpeed
  }

  /** Some square of the rotated piece buffer falls inside the play area at the piece's
      position. */
  predicate RotatedInside(b: Box, px: int, py: int)
    requires IsBox(b)
  {
    exists x, y :: 0 <= x < 4 && 0 <= y < 4 && Rotate(b)[x][y] == Moving && Interior(px + x, py + y)
  }

  /** The source's frame: the piece lands on the gravity tick, and with UP held and the turn
      due, the turn step still runs. Nothing refuses it, so the stale piece is rotated and
      stamped back as MOVING over the squares that have just frozen; the frame ends with no
      active piece yet with MOVING squares, which the next piece will carry along. */
  lemma FrozenPieceTurnsAgain(s: State, input: Input, rand: RandStream)
    requires FreezesNow(s, input) && TurnDue(s, input) && RotatedInside(s.piece, s.pieceX, s.pieceY)
    requires !s.gameOver && !s.pause && input.p != PressedDown
    ensures var r := UpdateGameAsWritten(s, input, rand);
      !r.pieceActive && HasMoving(r.grid)
  {
    FrozenPieceMoving(s, input);
  }

  /** The falling-piece branch of that frame, as the source writes it. */
  lemma FrozenPieceMoving(s: State, input: Input)
    requires FreezesNow(s, input) && TurnDue(s, input) && RotatedInside(s.piece, s.pieceX, s.pieceY)
    ensures !PieceFrame(s, input, false).pieceActive && HasMoving(PieceFrame(s, input, false).grid)
  {
    var g := FrozenTurnGrid(s, input);
    RotatedStamp(g, s.piece, s.pieceX, s.pieceY);
  }

  /** In that frame the turn step stamps the stale, rotated piece over a grid `g`. */
  lemma FrozenTurnGrid(s: State, input: Input) returns (g: Grid)
    requires FreezesNow(s, input) && TurnDue(s, input)
    ensures IsGrid(g) && !PieceFrame(s, input, false).pieceActive
    ensures PieceFrame(s, input, false).grid == Stamp(g, Rotate(s.piece), s.pieceX, s.pieceY)
  {
    var c5 := FreezeTick(s, input);
    FrozenFrame(s, input, c5);
    g := ClearMoving(c5.grid);
  }

  /** The source's falling-piece branch in the frame the piece freezes, with UP held and the
      turn due: after the first three phases leave `c5`, frozen, the turn step rotates the
      stale piece and stamps it over the frozen grid. */
  lemma FrozenFrame(s: State, input: Input, c5: State)
    requires Shaped(s) && RightWallClear(s.grid) && c5 == LateralPhase(GravityPhase(Counters(s, input)), input)
    requires Walls(c5.grid) && !c5.pieceActive && !HasMoving(c5.grid)
    requires input.up == HoldDown && c5.turnCounter >= TurningSpeed
    ensures PieceFrame(s, input, false).grid == Stamp(ClearMoving(c5.grid), Rotate(c5.piece), c5.pieceX, c5.pieceY)
    ensures !PieceFrame(s, input, false).pieceActive
  {
    var g := StaleTurn(c5, input);
  }

  /** A frozen piece with MOVING squares left breaks the invariant. */
  lemma BrokenInv(r: State)
    requires Shaped(r) && !r.pieceActive && HasMoving(r.grid)
    ensures !Inv(r)
  {
  }

  /** Stamping the rotated piece leaves a MOVING square when one of its squares falls
      inside the play area. */
  lemma RotatedStamp(g: Grid, b: Box, px: int, py: int)
    requires IsGrid(g) && IsBox(b) && RotatedInside(b, px, py)
    ensures HasMoving(Stamp(g, Rotate(b), px, py))
  {
    var rb := Rotate(b);
    var x, y :| 0 <= x < 4 && 0 <= y < 4 && rb[x][y] == Moving && Interior(px + x, py + y);
    StampedSquare(g, rb, px, py, x, y);
  }

  lemma StampedSquare(g: Grid, b: Box, px: int, py: int, x: int, y: int)
    requires IsGrid(g) && IsBox(b) && 0 <= x < 4 && 0 <= y < 4 && b[x][y] == Moving
    requires Interior(px + x, py + y)
    ensures HasMoving(Stamp(g, b, px, py))
  {
    assert Stamp(g, b, px, py)[px + x][py + y] == Moving;
  }

  /** The counters, gravity and lateral phases of the frame in which a landed piece freezes:
      the piece is frozen, no square is MOVING, and the stale piece buffer and position are
      kept. */
  lemma FreezeTick(s: State, input: Input) returns (c5: State)
    requires FreezesNow(s, input)
    ensures Shaped(c5) && RightWallClear(c5.grid)
    ensures c5 == LateralPhase(GravityPhase(Counters(s, input)), input)
    ensures Walls(c5.grid) && !c5.pieceActive && !HasMoving(c5.grid)
    ensures c5.piece == s.piece && c5.pieceX == s.pieceX && c5.pieceY == s.pieceY
    ensures c5.turnCounter == (if input.up == ReleaseEdge then TurningSpeed else s.turnCounter + 1)
  {
    var c := Counters(s, input);
    CountersInv(s, input);
    GravityFreezes(c);
    var c4 := GravityPhase(c);
    LateralPhaseInv(c4, input);
    c5 := LateralPhase(c4, input);
  }

  /** The gravity phase of a landed piece: the piece freezes and the stale buffer and
      position are kept. */
  lemma GravityFreezes(c: State)
    requires Inv(c) && c.pieceActive && Landed(c.grid) && c.gravityCounter >= c.gravitySpeed
    ensures Inv(GravityPhase(c)) && !GravityPhase(c).pieceActive && !HasMoving(GravityPhase(c).grid)
    ensures GravityPhase(c).piece == c.piece && GravityPhase(c).pieceX == c.pieceX
    ensures GravityPhase(c).pieceY == c.pieceY && GravityPhase(c).turnCounter == c.turnCounter
  {
    LandingInv(c);
    assert HasMoving(c.grid);
  }

  /** With no MOVING square left and UP held, the turn step (when it is not gated) rotates the
      stale piece and stamps it back. */
  lemma StaleTurn(c: State, input: Input) returns (g: Grid)
    requires Shaped(c) && Walls(c.grid) && !c.pieceActive && !HasMoving(c.grid)
    requires input.up == HoldDown && c.turnCounter >= TurningSpeed
    ensures IsGrid(g) && g == TurnPhase(c, input, false).grid
    ensures g == Stamp(ClearMoving(c.grid), Rotate(c.piece), c.pieceX, c.pieceY)
  {
    NoPieceNoRefusal(c.grid, c.pieceX, c.pieceY);
    g := Stamp(ClearMoving(c.grid), Rotate(c.piece), c.pieceX, c.pieceY);
  }

  /** The corrected frame in the same situation ends with the piece frozen and no MOVING
      square. */
  lemma FrozenPieceStaysFrozen(s: State, input: Input, rand: RandStream)
    requires FreezesNow(s, input) && !s.gameOver && !s.pause && input.p != PressedDown
    ensures var r := UpdateGame(s, input, rand);
      !r.pieceActive && !HasMoving(r.grid)
  {
    FrozenFrameGated(s, input);
  }

  /** The corrected falling-piece branch in the frame the piece freezes. */
  lemma FrozenFrameGated(s: State, input: Input)
    requires FreezesNow(s, input)
    ensures !PieceFrame(s, input, true).pieceActive && !HasMoving(PieceFrame(s, input, true).grid)
  {
    var c5 := FreezeTick(s, input);
  }
}
