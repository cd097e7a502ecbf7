/** The 4 x 4 piece buffers of rayfork-tetris (`piece`, `incomingPiece`), the seven shapes of
    GetRandompiece, the rotation of ResolveTurnMovement with its sixteen guard checks, and
    the re-stamping of a piece into the grid. A buffer is addressed `b[x][y]` with column x
    and row y, like the C arrays. */
module TetrisPiece {
  import opened TetrisGrid

  /** A piece buffer: 4 x 4 squares, each EMPTY or MOVING. */
  predicate IsPiece(b: Box)
  {
    IsBox(b) && forall x, y :: 0 <= x < 4 && 0 <= y < 4 ==> b[x][y] in {Empty, Moving}
  }

  function EmptyPiece(): (b: Box)
    ensures IsPiece(b) && MovingCount(b) == 0
  {
    seq(4, _ => seq(4, _ => Empty))
  }

  function Count(s: Square): nat
  {
    if s == Moving then 1 else 0
  }

  /** The number of MOVING squares in a buffer. */
  function MovingCount(b: Box): nat
    requires IsBox(b)
  {
    Count(b[0][0]) + Count(b[0][1]) + Count(b[0][2]) + Count(b[0][3]) +
    Count(b[1][0]) + Count(b[1][1]) + Count(b[1][2]) + Count(b[1][3]) +
    Count(b[2][0]) + Count(b[2][1]) + Count(b[2][2]) + Count(b[2][3]) +
    Count(b[3][0]) + Count(b[3][1]) + Count(b[3][2]) + Count(b[3][3])
  }

  /** A buffer holds no MOVING square exactly when its count is 0. */
  lemma MovingCountZero(b: Box)
    requires IsBox(b)
    ensures MovingCount(b) == 0 <==> forall x, y :: 0 <= x < 4 && 0 <= y < 4 ==> b[x][y] != Moving
  {
    if MovingCount(b) == 0 {
      forall x, y | 0 <= x < 4 && 0 <= y < 4
        ensures b[x][y] != Moving
      {
        assert Count(b[x][y]) == 0;
      }
    }
  }

  /** GetRandompiece's `switch`: the buffer is cleared and one `case` sets four squares to
      MOVING. Written column by column, `b[x] == [b[x][0], .., b[x][3]]`. */
  function Shape(k: int): (b: Box)
    requires 0 <= k <= 6
    ensures IsPiece(b)
  {
    var E := Empty;
    var M := Moving;
    match k
    case 0 => [[E, E, E, E], [E, M, M, E], [E, M, M, E], [E, E, E, E]]  // cube: (1, 1) (2, 1) (1, 2) (2, 2)
    case 1 => [[E, E, E, E], [M, M, M, E], [E, E, M, E], [E, E, E, E]]  // L: (1, 0) (1, 1) (1, 2) (2, 2)
    case 2 => [[E, E, E, E], [E, E, M, E], [M, M, M, E], [E, E, E, E]]  // inverted L: (1, 2) (2, 0) (2, 1) (2, 2)
    case 3 => [[E, M, E, E], [E, M, E, E], [E, M, E, E], [E, M, E, E]]  // straight: (0, 1) (1, 1) (2, 1) (3, 1)
    case 4 => [[E, E, E, E], [M, M, M, E], [E, M, E, E], [E, E, E, E]]  // T: (1, 0) (1, 1) (1, 2) (2, 1)
    case 5 => [[E, E, E, E], [E, M, E, E], [E, M, M, E], [E, E, M, E]]  // S: (1, 1) (2, 1) (2, 2) (3, 2)
    case 6 => [[E, E, E, E], [E, E, M, E], [E, M, M, E], [E, M, E, E]]  // inverted S: (1, 2) (2, 2) (2, 1) (3, 1)
  }

  /** Every shape has exactly four MOVING squares. */
  lemma ShapeHasFourSquares(k: int)
    requires 0 <= k <= 6
    ensures MovingCount(Shape(k)) == 4
  {
  }

  // ---------------------------------------------------------------------------------
  // Rotation
  // ---------------------------------------------------------------------------------

  function Get(b: Box, p: (int, int)): Square
    requires IsBox(b) && 0 <= p.0 < 4 && 0 <= p.1 < 4
  {
    b[p.0][p.1]
  }

  function Put(b: Box, p: (int, int), s: Square): (r: Box)
    requires IsBox(b) && 0 <= p.0 < 4 && 0 <= p.1 < 4
    ensures IsBox(r)
  {
    b[p.0 := b[p.0][p.1 := s]]
  }

  predicate InBox(p: (int, int))
  {
    0 <= p.0 < 4 && 0 <= p.1 < 4
  }

  /** One `aux` chain of ResolveTurnMovement: `aux = b[p]; b[p] = b[q]; b[q] = b[r];
      b[r] = b[t]; b[t] = aux`. */
  function Cycle(b: Box, p: (int, int), q: (int, int), r: (int, int), t: (int, int)): (c: Box)
    requires IsBox(b) && InBox(p) && InBox(q) && InBox(r) && InBox(t)
    ensures IsBox(c)
  {
    var aux := Get(b, p);
    var b1 := Put(b, p, Get(b, q));
    var b2 := Put(b1, q, Get(b1, r));
    var b3 := Put(b2, r, Get(b2, t));
    Put(b3, t, aux)
  }

  /** The four `aux` chains of ResolveTurnMovement, in the order the source runs them. */
  const Chains: seq<((int, int), (int, int), (int, int), (int, int))> := [
    ((0, 0), (3, 0), (3, 3), (0, 3)),
    ((1, 0), (3, 1), (2, 3), (0, 2)),
    ((2, 0), (3, 2), (1, 3), (0, 1)),
    ((1, 1), (2, 1), (2, 2), (1, 2))]

  predicate ChainInBox(k: int)
  {
    0 <= k < |Chains| && InBox(Chains[k].0) && InBox(Chains[k].1) && InBox(Chains[k].2) && InBox(Chains[k].3)
  }

  /** The chains from the k-th on, applied in order. */
  function CyclesFrom(b: Box, k: nat): (r: Box)
    requires IsBox(b) && k <= |Chains|
    ensures IsBox(r)
    decreases |Chains| - k
  {
    if k == |Chains| then b
    else
      assert ChainInBox(k);
      CyclesFrom(Cycle(b, Chains[k].0, Chains[k].1, Chains[k].2, Chains[k].3), k + 1)
  }

  /** The rotation of ResolveTurnMovement: the four chains in the order the source runs them. */
  function Rotate(b: Box): (r: Box)
    requires IsBox(b)
    ensures IsBox(r)
  {
    CyclesFrom(b, 0)
  }

  /** The four chains touch disjoint squares and together are a quarter turn: the square at
      (x, y) comes from (3 - y, x). */
  lemma RotateCells(b: Box)
    requires IsBox(b)
    ensures forall x, y :: 0 <= x < 4 && 0 <= y < 4 ==> Rotate(b)[x][y] == b[3 - y][x]
  {
    var b1 := Cycle(b, (0, 0), (3, 0), (3, 3), (0, 3));
    var b2 := Cycle(b1, (1, 0), (3, 1), (2, 3), (0, 2));
    var b3 := Cycle(b2, (2, 0), (3, 2), (1, 3), (0, 1));
    var b4 := Cycle(b3, (1, 1), (2, 1), (2, 2), (1, 2));
    assert CyclesFrom(b3, 3) == b4;
    assert CyclesFrom(b2, 2) == b4;
    assert CyclesFrom(b1, 1) == b4;
    assert Rotate(b) == b4;
  }

  lemma RotateKeepsPiece(b: Box)
    requires IsPiece(b)
    ensures IsPiece(Rotate(b))
    ensures MovingCount(Rotate(b)) == MovingCount(b)
  {
    RotateCells(b);
  }

  /** Four turns restore the buffer. */
  lemma RotateFourTimes(b: Box)
    requires IsBox(b)
    ensures Rotate(Rotate(Rotate(Rotate(b)))) == b
  {
    var r1 := Rotate(b);
    var r2 := Rotate(r1);
    var r3 := Rotate(r2);
    var r4 := Rotate(r3);
    RotateCells(b);
    RotateCells(r1);
    RotateCells(r2);
    RotateCells(r3);
    forall x | 0 <= x < 4
      ensures r4[x] == b[x]
    {
      assert forall y :: 0 <= y < 4 ==> r4[x][y] == b[x][y];
    }
  }

  // ---------------------------------------------------------------------------------
  // The turn guard
  // ---------------------------------------------------------------------------------

  /** The sixteen checks of ResolveTurnMovement, in source order: (x, y) of the square that
      must be MOVING, then (x, y) of the square that must be neither EMPTY nor MOVING, for
      the turn to be refused. Offsets are from the piece position. */
  const TurnChecks: seq<(int, int, int, int)> := [
    (3, 0, 0, 0), (3, 3, 3, 0), (0, 3, 3, 3), (0, 0, 0, 3),
    (1, 0, 0, 2), (3, 1, 1, 0), (2, 3, 3, 1), (0, 2, 2, 3),
    (2, 0, 0, 1), (3, 2, 2, 0), (1, 3, 3, 2), (0, 1, 1, 3),
    (1, 1, 1, 2), (2, 1, 1, 1), (2, 2, 2, 1), (1, 2, 2, 2)]

  /** The check that guards the square at (x, y) of the buffer. */
  function CheckFor(x: int, y: int): (k: int)
    requires 0 <= x < 4 && 0 <= y < 4
    ensures 0 <= k < |TurnChecks| && TurnChecks[k].0 == x && TurnChecks[k].1 == y
  {
    if (x, y) == (3, 0) then 0 else if (x, y) == (3, 3) then 1
    else if (x, y) == (0, 3) then 2 else if (x, y) == (0, 0) then 3
    else if (x, y) == (1, 0) then 4 else if (x, y) == (3, 1) then 5
    else if (x, y) == (2, 3) then 6 else if (x, y) == (0, 2) then 7
    else if (x, y) == (2, 0) then 8 else if (x, y) == (3, 2) then 9
    else if (x, y) == (1, 3) then 10 else if (x, y) == (0, 1) then 11
    else if (x, y) == (1, 1) then 12 else if (x, y) == (2, 1) then 13
    else if (x, y) == (2, 2) then 14 else 15
  }

  /** Each check looks at a square and at the place the rotation sends it: (x, y) goes to
      (y, 3 - x). With `CheckFor`, every square of the buffer is checked. */
  lemma TurnChecksFollowRotation()
    ensures forall k :: 0 <= k < |TurnChecks| ==>
      InBox((TurnChecks[k].0, TurnChecks[k].1)) &&
      TurnChecks[k].2 == TurnChecks[k].1 && TurnChecks[k].3 == 3 - TurnChecks[k].0
  {
  }

  /** The grid square at (x, y); a read outside the 12 x 20 array counts as BLOCK. */
  function At(g: Grid, x: int, y: int): Square
    requires IsGrid(g)
  {
    if 0 <= x < Columns && 0 <= y < Rows then g[x][y] else Block
  }

  /** A square read as EMPTY or MOVING lies in the play area, walls excluded. */
  lemma OpenIsInterior(g: Grid, x: int, y: int)
    requires IsGrid(g) && Walls(g) && At(g, x, y) in {Empty, Moving}
    ensures Interior(x, y) && g[x][y] == At(g, x, y)
  {
    assert 0 <= x < Columns && 0 <= y < Rows;
    assert g[0][y] == Block && g[11][y] == Block && g[x][19] == Block;
  }

  /** Some guard check fires: the turn is refused. */
  predicate TurnBlocked(g: Grid, px: int, py: int)
    requires IsGrid(g)
  {
    exists k :: 0 <= k < |TurnChecks| &&
      At(g, px + TurnChecks[k].0, py + TurnChecks[k].1) == Moving &&
      At(g, px + TurnChecks[k].2, py + TurnChecks[k].3) !in {Empty, Moving}
  }

  /** ResolveTurnMovement's clearing pass: the MOVING squares of the play area become EMPTY. */
  function ClearMoving(g: Grid): (r: Grid)
    requires IsGrid(g)
    ensures IsGrid(r)
  {
    seq(Columns, i requires 0 <= i < Columns => seq(Rows, j requires 0 <= j < Rows =>
      if Interior(i, j) && g[i][j] == Moving then Empty else g[i][j]))
  }

  /** The stamping loops of Createpiece and ResolveTurnMovement: each MOVING square of the
      buffer is written as MOVING at its place in the grid, offset by (px, py). A place
      outside the array is not written. */
  function Stamp(g: Grid, b: Box, px: int, py: int): (r: Grid)
    requires IsGrid(g) && IsBox(b)
    ensures IsGrid(r)
  {
    seq(Columns, i requires 0 <= i < Columns => seq(Rows, j requires 0 <= j < Rows =>
      if 0 <= i - px < 4 && 0 <= j - py < 4 && b[i - px][j - py] == Moving then Moving else g[i][j]))
  }

  /** The MOVING squares of the grid are exactly the piece drawn at (px, py), and every
      square of the piece lies in the play area. */
  predicate PieceAt(g: Grid, b: Box, px: int, py: int)
    requires IsGrid(g) && IsBox(b)
  {
    (forall x, y :: 0 <= x < 4 && 0 <= y < 4 && b[x][y] == Moving ==>
       Interior(px + x, py + y) && g[px + x][py + y] == Moving) &&
    (forall i, j :: 0 <= i < Columns && 0 <= j < Rows && g[i][j] == Moving ==>
       0 <= i - px < 4 && 0 <= j - py < 4 && b[i - px][j - py] == Moving)
  }

  /** ResolveTurnMovement with UP held: rotate unless a check fires, clear the MOVING squares,
      stamp the (possibly rotated) piece back. */
  function Turn(g: Grid, b: Box, px: int, py: int): (r: (Grid, Box))
    requires IsGrid(g) && IsBox(b)
    ensures IsGrid(r.0) && IsBox(r.1)
  {
    var b' := if TurnBlocked(g, px, py) then b else Rotate(b);
    (Stamp(ClearMoving(g), b', px, py), b')
  }

  /** A refused turn re-stamps the piece where it already is: the grid does not change. */
  lemma RefusedTurnKeepsGrid(g: Grid, b: Box, px: int, py: int)
    requires IsGrid(g) && IsBox(b) && PieceAt(g, b, px, py)
    ensures Stamp(ClearMoving(g), b, px, py) == g
  {
    var r := Stamp(ClearMoving(g), b, px, py);
    forall i | 0 <= i < Columns
      ensures r[i] == g[i]
    {
      forall j | 0 <= j < Rows
        ensures r[i][j] == g[i][j]
      {
        if 0 <= i - px < 4 && 0 <= j - py < 4 && b[i - px][j - py] == Moving {
          assert g[px + (i - px)][py + (j - py)] == Moving;
        }
      }
    }
  }

  /** With no check firing, the rotated square (x, y) lands on a play-area square that is
      EMPTY or MOVING: it came from (3 - y, x), which is MOVING in the grid, and the check for
      that square looks exactly at (x, y). */
  lemma RotatedSquareLands(g: Grid, b: Box, px: int, py: int, x: int, y: int)
    requires IsGrid(g) && Walls(g) && IsPiece(b) && PieceAt(g, b, px, py)
    requires !TurnBlocked(g, px, py)
    requires 0 <= x < 4 && 0 <= y < 4 && Rotate(b)[x][y] == Moving
    ensures Interior(px + x, py + y) && g[px + x][py + y] in {Empty, Moving}
  {
    RotateCells(b);
    TurnChecksFollowRotation();
    var k := CheckFor(3 - y, x);
    assert b[3 - y][x] == Moving;
    assert At(g, px + TurnChecks[k].0, py + TurnChecks[k].1) == Moving;
    assert At(g, px + x, py + y) in {Empty, Moving};
    OpenIsInterior(g, px + x, py + y);
  }

  /** An accepted turn lands every square of the rotated piece on a play-area square that was
      EMPTY or MOVING. Afterwards the rotated piece is drawn at the same place, and every
      square that was neither EMPTY nor MOVING is unchanged. */
  lemma AcceptedTurn(g: Grid, b: Box, px: int, py: int)
    requires IsGrid(g) && Walls(g) && IsPiece(b) && PieceAt(g, b, px, py)
    requires !TurnBlocked(g, px, py)
    ensures PieceAt(Stamp(ClearMoving(g), Rotate(b), px, py), Rotate(b), px, py)
    ensures forall i, j :: 0 <= i < Columns && 0 <= j < Rows ==>
      var s := Stamp(ClearMoving(g), Rotate(b), px, py)[i][j];
      (g[i][j] in {Empty, Moving} ==> s in {Empty, Moving}) &&
      (g[i][j] !in {Empty, Moving} ==> s == g[i][j])
  {
    var rb := Rotate(b);
    var r := Stamp(ClearMoving(g), rb, px, py);
    forall x, y | 0 <= x < 4 && 0 <= y < 4 && rb[x][y] == Moving
      ensures Interior(px + x, py + y) && r[px + x][py + y] == Moving
    {
      RotatedSquareLands(g, b, px, py, x, y);
      assert (px + x) - px == x && (py + y) - py == y;
    }
    forall i, j | 0 <= i < Columns && 0 <= j < Rows
      ensures r[i][j] == Moving ==> 0 <= i - px < 4 && 0 <= j - py < 4 && rb[i - px][j - py] == Moving
    {
      if !(0 <= i - px < 4 && 0 <= j - py < 4 && rb[i - px][j - py] == Moving) {
        assert r[i][j] == ClearMoving(g)[i][j];
      }
    }
    AcceptedTurnKeeps(g, b, px, py);
  }

  /** An accepted turn leaves every frozen and wall square as it was. */
  lemma AcceptedTurnKeeps(g: Grid, b: Box, px: int, py: int)
    requires IsGrid(g) && Walls(g) && IsPiece(b) && PieceAt(g, b, px, py)
    requires !TurnBlocked(g, px, py)
    ensures forall i, j :: 0 <= i < Columns && 0 <= j < Rows ==>
      var s := Stamp(ClearMoving(g), Rotate(b), px, py)[i][j];
      (g[i][j] in {Empty, Moving} ==> s in {Empty, Moving}) &&
      (g[i][j] !in {Empty, Moving} ==> s == g[i][j])
  {
    var rb := Rotate(b);
    var r := Stamp(ClearMoving(g), rb, px, py);
    forall i, j | 0 <= i < Columns && 0 <= j < Rows
      ensures g[i][j] in {Empty, Moving} ==> r[i][j] in {Empty, Moving}
      ensures g[i][j] !in {Empty, Moving} ==> r[i][j] == g[i][j]
    {
      if 0 <= i - px < 4 && 0 <= j - py < 4 && rb[i - px][j - py] == Moving {
        RotatedSquareLands(g, b, px, py, i - px, j - py);
      } else {
        assert r[i][j] == ClearMoving(g)[i][j];
      }
    }
  }

  // ---------------------------------------------------------------------------------
  // The piece under the grid operations
  // ---------------------------------------------------------------------------------

  /** Createpiece's stamp into a grid without MOVING squares: the piece is drawn at (4, 0),
      in columns 4..7 and rows 0..3, over whatever was there. */
  lemma SpawnPiece(g: Grid, b: Box)
    requires IsGrid(g) && Walls(g) && !HasMoving(g) && IsPiece(b)
    ensures PieceAt(Stamp(g, b, 4, 0), b, 4, 0)
    ensures OnlyPieceMoved(g, Stamp(g, b, 4, 0))
  {
    var r := Stamp(g, b, 4, 0);
    forall x, y | 0 <= x < 4 && 0 <= y < 4 && b[x][y] == Moving
      ensures Interior(4 + x, y) && r[4 + x][0 + y] == Moving
    {
      assert (4 + x) - 4 == x;
    }
  }

  /** Nothing has landed: the piece is drawn one row lower. */
  lemma FallKeepsPiece(g: Grid, b: Box, px: int, py: int)
    requires IsGrid(g) && Walls(g) && IsBox(b) && PieceAt(g, b, px, py) && !Landed(g)
    ensures PieceAt(Fall(g), b, px, py + 1)
  {
    var r := Fall(g);
    forall x, y | 0 <= x < 4 && 0 <= y < 4 && b[x][y] == Moving
      ensures Interior(px + x, py + 1 + y) && r[px + x][py + 1 + y] == Moving
    {
      assert g[px + x][py + y] == Moving;
      assert g[px + x][py + y + 1] !in {Full, Block};
      FallAt(g, px + x, py + 1 + y);
    }
    forall i, j | 0 <= i < Columns && 0 <= j < Rows && r[i][j] == Moving
      ensures 0 <= i - px < 4 && 0 <= j - (py + 1) < 4 && b[i - px][j - (py + 1)] == Moving
    {
      FallAt(g, i, j);
      assert 1 <= i <= 10 && 1 <= j && g[i][j - 1] == Moving;
    }
  }

  /** The fall changes only piece squares: nothing lands on a FULL or BLOCK square. */
  lemma FallFrame(g: Grid)
    requires IsGrid(g) && Walls(g) && !Landed(g)
    ensures OnlyPieceMoved(g, Fall(g))
  {
    var r := Fall(g);
    forall i, j | 0 <= i < Columns && 0 <= j < Rows
      ensures r[i][j] == g[i][j] || (Interior(i, j) && r[i][j] in {Empty, Moving})
    {
      FallAt(g, i, j);
      if 1 <= i <= 10 && 1 <= j && g[i][j - 1] == Moving {
        assert g[i][j] !in {Full, Block};
      }
    }
  }

  /** An accepted left move draws the piece one column to the left. */
  lemma ShiftLeftKeepsPiece(g: Grid, b: Box, px: int, py: int)
    requires IsGrid(g) && Walls(g) && IsBox(b) && PieceAt(g, b, px, py) && !LeftBlocked(g)
    ensures PieceAt(ShiftLeft(g), b, px - 1, py)
    ensures OnlyPieceMoved(g, ShiftLeft(g))
  {
    var r := ShiftLeft(g);
    ShiftLeftCells(g);
    forall x, y | 0 <= x < 4 && 0 <= y < 4 && b[x][y] == Moving
      ensures Interior(px - 1 + x, py + y) && r[px - 1 + x][py + y] == Moving
    {
      assert g[px + x][py + y] == Moving;
    }
    forall i, j | 0 <= i < Columns && 0 <= j < Rows && r[i][j] == Moving
      ensures 0 <= i - (px - 1) < 4 && 0 <= j - py < 4 && b[i - (px - 1)][j - py] == Moving
    {
      assert g[i + 1][j] == Moving;
    }
  }

  /** An accepted right move draws the piece one column to the right. */
  lemma ShiftRightKeepsPiece(g: Grid, b: Box, px: int, py: int)
    requires IsGrid(g) && Walls(g) && IsBox(b) && PieceAt(g, b, px, py) && !RightBlocked(g)
    ensures RightWallClear(g)
    ensures PieceAt(ShiftRight(g), b, px + 1, py)
    ensures OnlyPieceMoved(g, ShiftRight(g))
  {
    var r := ShiftRight(g);
    ShiftRightCells(g);
    forall x, y | 0 <= x < 4 && 0 <= y < 4 && b[x][y] == Moving
      ensures Interior(px + 1 + x, py + y) && r[px + 1 + x][py + y] == Moving
    {
      assert g[px + x][py + y] == Moving;
    }
    forall i, j | 0 <= i < Columns && 0 <= j < Rows && r[i][j] == Moving
      ensures 0 <= i - (px + 1) < 4 && 0 <= j - py < 4 && b[i - (px + 1)][j - py] == Moving
    {
      assert g[i - 1][j] == Moving;
    }
  }

  /** Without MOVING squares the lateral passes change nothing and are never refused. */
  lemma ShiftWithoutPiece(g: Grid)
    requires IsGrid(g) && Walls(g) && !HasMoving(g)
    ensures !LeftBlocked(g) && !RightBlocked(g) && RightWallClear(g)
    ensures ShiftLeft(g) == g && ShiftRight(g) == g
  {
    ShiftLeftCells(g);
    ShiftRightCells(g);
    assert forall i :: 0 <= i < Columns ==> ShiftLeft(g)[i] == g[i];
    assert forall i :: 0 <= i < Columns ==> ShiftRight(g)[i] == g[i];
  }

  /** A turn, accepted or refused, keeps the piece drawn at its place and changes only piece
      squares. */
  lemma TurnKeepsPiece(g: Grid, b: Box, px: int, py: int)
    requires IsGrid(g) && Walls(g) && IsPiece(b) && PieceAt(g, b, px, py)
    ensures PieceAt(Turn(g, b, px, py).0, Turn(g, b, px, py).1, px, py)
    ensures IsPiece(Turn(g, b, px, py).1)
    ensures MovingCount(Turn(g, b, px, py).1) == MovingCount(b)
    ensures OnlyPieceMoved(g, Turn(g, b, px, py).0)
  {
    if TurnBlocked(g, px, py) {
      RefusedTurnKeepsGrid(g, b, px, py);
    } else {
      AcceptedTurn(g, b, px, py);
      RotateKeepsPiece(b);
    }
  }
}
