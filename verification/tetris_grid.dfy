/** The Tetris playfield of rayfork-tetris: a 12 x 20 matrix of squares addressed
    `g[i][j]` with column i and row j (row 0 at the top), exactly as the C array
    `grid[GRID_HORIZONTAL_SIZE][GRID_VERTICAL_SIZE]`, and the 4 x 4 piece buffers. */
module TetrisGrid {

  datatype Square = Empty | Moving | Full | Block | Fading

  const Columns: int := 12
  const Rows: int := 20
  /** The loops over the play area visit rows 18 down to 0: row 19 is the floor. */
  const LastRow: int := 18

  type Grid = seq<seq<Square>>
  type Box = seq<seq<Square>>

  predicate IsGrid(g: Grid)
  {
    |g| == Columns && forall i :: 0 <= i < Columns ==> |g[i]| == Rows
  }

  predicate IsBox(b: Box)
  {
    |b| == 4 && forall i :: 0 <= i < 4 ==> |b[i]| == 4
  }

  /** The border InitGame builds: columns 0 and 11 and row 19 are BLOCK. */
  predicate Walls(g: Grid)
    requires IsGrid(g)
  {
    (forall j :: 0 <= j < Rows ==> g[0][j] == Block && g[11][j] == Block) &&
    (forall i :: 0 <= i < Columns ==> g[i][19] == Block)
  }

  /** The squares the piece loops visit: columns 1..10 of rows 0..18. */
  predicate Interior(i: int, j: int)
  {
    1 <= i <= 10 && 0 <= j <= LastRow
  }

  /** Row j read across the columns. */
  function Row(g: Grid, j: int): (r: seq<Square>)
    requires IsGrid(g) && 0 <= j < Rows
    ensures |r| == Columns && forall i :: 0 <= i < Columns ==> r[i] == g[i][j]
  {
    seq(Columns, i requires 0 <= i < Columns => g[i][j])
  }

  // ---------------------------------------------------------------------------------
  // Scans that move squares one place. The source moves squares inside nested loops
  // whose direction matters: a square moved onto a place that is visited later would
  // be moved again. These two functions follow the loops step by step; the lemmas
  // after them give the net effect of a whole pass.
  // ---------------------------------------------------------------------------------

  /** A descending pass k = hi, hi - 1, ..., lo: a square in `sel` is copied one place up
      (to k + 1) and its own place emptied. */
  function PushUp(s: seq<Square>, hi: int, lo: int, sel: set<Square>): (r: seq<Square>)
    requires 0 <= lo && lo - 1 <= hi && hi + 1 < |s|
    ensures |r| == |s|
    decreases hi - lo + 1
  {
    if hi < lo then s
    else PushUp(if s[hi] in sel then s[hi + 1 := s[hi]][hi := Empty] else s, hi - 1, lo, sel)
  }

  /** What place m holds after `PushUp`: the square from m - 1 if that one moved; else EMPTY
      if its own square moved away; else what it held. */
  function PushUpCell(s: seq<Square>, hi: int, lo: int, sel: set<Square>, m: int): Square
    requires 0 <= lo && hi + 1 < |s| && 0 <= m < |s|
  {
    if lo <= m - 1 <= hi && s[m - 1] in sel then s[m - 1]
    else if lo <= m <= hi && s[m] in sel then Empty
    else s[m]
  }

  /** The net effect of a descending pass: each selected square moves one place up. */
  lemma {:induction false} PushUpClosed(s: seq<Square>, hi: int, lo: int, sel: set<Square>)
    requires 0 <= lo && lo - 1 <= hi && hi + 1 < |s|
    ensures forall m :: 0 <= m < |s| ==> PushUp(s, hi, lo, sel)[m] == PushUpCell(s, hi, lo, sel, m)
    decreases hi - lo + 1
  {
    if hi >= lo {
      var s' := if s[hi] in sel then s[hi + 1 := s[hi]][hi := Empty] else s;
      PushUpClosed(s', hi - 1, lo, sel);
      forall m | 0 <= m < |s|
        ensures PushUpCell(s', hi - 1, lo, sel, m) == PushUpCell(s, hi, lo, sel, m)
      {
      }
    }
  }

  /** An ascending pass k = lo, lo + 1, ..., hi: a square in `sel` is copied one place down
      (to k - 1) and its own place emptied. */
  function PushDown(s: seq<Square>, lo: int, hi: int, sel: set<Square>): (r: seq<Square>)
    requires 1 <= lo && lo <= hi + 1 && hi < |s|
    ensures |r| == |s|
    decreases hi - lo + 1
  {
    if lo > hi then s
    else PushDown(if s[lo] in sel then s[lo - 1 := s[lo]][lo := Empty] else s, lo + 1, hi, sel)
  }

  /** What place m holds after `PushDown`. */
  function PushDownCell(s: seq<Square>, lo: int, hi: int, sel: set<Square>, m: int): Square
    requires 1 <= lo && hi < |s| && 0 <= m < |s|
  {
    if lo <= m + 1 <= hi && s[m + 1] in sel then s[m + 1]
    else if lo <= m <= hi && s[m] in sel then Empty
    else s[m]
  }

  /** The net effect of an ascending pass: each selected square moves one place down. */
  lemma {:induction false} PushDownClosed(s: seq<Square>, lo: int, hi: int, sel: set<Square>)
    requires 1 <= lo && lo <= hi + 1 && hi < |s|
    ensures forall m :: 0 <= m < |s| ==> PushDown(s, lo, hi, sel)[m] == PushDownCell(s, lo, hi, sel, m)
    decreases hi - lo + 1
  {
    if lo <= hi {
      var s' := if s[lo] in sel then s[lo - 1 := s[lo]][lo := Empty] else s;
      PushDownClosed(s', lo + 1, hi, sel);
      forall m | 0 <= m < |s|
        ensures PushDownCell(s', lo + 1, hi, sel, m) == PushDownCell(s, lo, hi, sel, m)
      {
      }
    }
  }

  // ---------------------------------------------------------------------------------
  // Falling and landing (ResolveFallingMovement, CheckDetection)
  // ---------------------------------------------------------------------------------

  /** ResolveFallingMovement when nothing has landed: the bottom-up pass over rows 18..0
      moves every MOVING square one row down. A step (i, j) of the source reads and writes
      column i only, so the pass can be run column by column. */
  function Fall(g: Grid): (r: Grid)
    requires IsGrid(g)
    ensures IsGrid(r)
  {
    seq(Columns, i requires 0 <= i < Columns =>
      if 1 <= i <= 10 then PushUp(g[i], LastRow, 0, {Moving}) else g[i])
  }

  /** Square by square, `Fall` puts MOVING under every MOVING square of the play area and
      empties the places those squares left; everything else is unchanged. */
  lemma FallAt(g: Grid, i: int, j: int)
    requires IsGrid(g) && 0 <= i < Columns && 0 <= j < Rows
    ensures Fall(g)[i][j] == (if 1 <= i <= 10 && 1 <= j && g[i][j - 1] == Moving then Moving
                              else if Interior(i, j) && g[i][j] == Moving then Empty
                              else g[i][j])
  {
    if 1 <= i <= 10 {
      PushUpClosed(g[i], LastRow, 0, {Moving});
      assert Fall(g)[i][j] == PushUpCell(g[i], LastRow, 0, {Moving}, j);
    }
  }

  /** ResolveFallingMovement after a landing: the MOVING squares of the play area become FULL. */
  function Freeze(g: Grid): (r: Grid)
    requires IsGrid(g)
    ensures IsGrid(r)
  {
    seq(Columns, i requires 0 <= i < Columns => seq(Rows, j requires 0 <= j < Rows =>
      if Interior(i, j) && g[i][j] == Moving then Full else g[i][j]))
  }

  /** Some MOVING square of the play area has a FULL or BLOCK square right below it: the
      condition on which CheckDetection raises its flag. */
  predicate Landed(g: Grid)
    requires IsGrid(g)
  {
    exists i, j :: 1 <= i <= 10 && 0 <= j <= LastRow && g[i][j] == Moving && g[i][j + 1] in {Full, Block}
  }

  /** Some square of the play area is MOVING. */
  predicate HasMoving(g: Grid)
    requires IsGrid(g)
  {
    exists i, j :: 1 <= i <= 10 && 0 <= j <= LastRow && g[i][j] == Moving
  }

  // ---------------------------------------------------------------------------------
  // Lateral movement (ResolveLateralMovement)
  // ---------------------------------------------------------------------------------

  /** The left move is refused: a MOVING square sits in column 1 or has FULL to its left. */
  predicate LeftBlocked(g: Grid)
    requires IsGrid(g)
  {
    exists i, j :: 1 <= i <= 10 && 0 <= j <= LastRow && g[i][j] == Moving && (i - 1 == 0 || g[i - 1][j] == Full)
  }

  /** The right move is refused: a MOVING square sits in column 10 or has FULL to its right. */
  predicate RightBlocked(g: Grid)
    requires IsGrid(g)
  {
    exists i, j :: 1 <= i <= 10 && 0 <= j <= LastRow && g[i][j] == Moving && (i + 1 == Columns - 1 || g[i + 1][j] == Full)
  }

  /** No square of column 11 in rows 0..18 is MOVING. */
  predicate RightWallClear(g: Grid)
    requires IsGrid(g)
  {
    forall j :: 0 <= j <= LastRow ==> g[11][j] != Moving
  }

  /** The left move: on each row 0..18, the left-to-right pass over columns 1..10 moves
      every MOVING square one column left. Rows do not interact. */
  function ShiftLeft(g: Grid): (r: Grid)
    requires IsGrid(g)
    ensures IsGrid(r)
  {
    seq(Columns, i requires 0 <= i < Columns => seq(Rows, j requires 0 <= j < Rows =>
      if j <= LastRow then PushDown(Row(g, j), 1, 10, {Moving})[i] else g[i][j]))
  }

  /** The right move: on each row 0..18, the right-to-left pass moves every MOVING square one
      column right. The source's pass starts at column 11, whose square is not MOVING (it
      would be written to column 12, outside the array), so that first step does nothing. */
  function ShiftRight(g: Grid): (r: Grid)
    requires IsGrid(g)
    requires RightWallClear(g)
    ensures IsGrid(r)
  {
    seq(Columns, i requires 0 <= i < Columns => seq(Rows, j requires 0 <= j < Rows =>
      if j <= LastRow then PushUp(Row(g, j), 10, 1, {Moving})[i] else g[i][j]))
  }

  lemma ShiftLeftCells(g: Grid)
    requires IsGrid(g)
    ensures forall i, j :: 0 <= i < Columns && 0 <= j < Rows ==>
      ShiftLeft(g)[i][j] == (if j <= LastRow && 1 <= i + 1 <= 10 && g[i + 1][j] == Moving then Moving
                             else if Interior(i, j) && g[i][j] == Moving then Empty
                             else g[i][j])
  {
    forall j | 0 <= j <= LastRow {
      PushDownClosed(Row(g, j), 1, 10, {Moving});
    }
  }

  lemma ShiftRightCells(g: Grid)
    requires IsGrid(g)
    requires RightWallClear(g)
    ensures forall i, j :: 0 <= i < Columns && 0 <= j < Rows ==>
      ShiftRight(g)[i][j] == (if j <= LastRow && 1 <= i - 1 <= 10 && g[i - 1][j] == Moving then Moving
                              else if Interior(i, j) && g[i][j] == Moving then Empty
                              else g[i][j])
  {
    forall j | 0 <= j <= LastRow {
      PushUpClosed(Row(g, j), 10, 1, {Moving});
    }
  }

  // ---------------------------------------------------------------------------------
  // Completed rows (CheckCompletion, DeleteCompleteLines)
  // ---------------------------------------------------------------------------------

  /** CheckCompletion's `calculator` on row j after visiting columns 1..n. */
  function FullCount(g: Grid, j: int, n: int): (c: nat)
    requires IsGrid(g) && 0 <= j < Rows && 0 <= n <= 10
    decreases n
  {
    if n == 0 then 0 else FullCount(g, j, n - 1) + (if g[n][j] == Full then 1 else 0)
  }

  /** The counter reaches 10 on row j. */
  predicate Complete(g: Grid, j: int)
    requires IsGrid(g) && 0 <= j < Rows
  {
    FullCount(g, j, 10) == 10
  }

  lemma {:induction false} FullCountBounds(g: Grid, j: int, n: int)
    requires IsGrid(g) && 0 <= j < Rows && 0 <= n <= 10
    ensures FullCount(g, j, n) <= n
    ensures FullCount(g, j, n) == n <==> forall i :: 1 <= i <= n ==> g[i][j] == Full
    decreases n
  {
    if n > 0 {
      FullCountBounds(g, j, n - 1);
    }
  }

  /** The counter reaches 10 exactly when all ten squares of the row are FULL. */
  lemma CompleteIffFull(g: Grid, j: int)
    requires IsGrid(g) && 0 <= j < Rows
    ensures Complete(g, j) <==> forall i :: 1 <= i <= 10 ==> g[i][j] == Full
  {
    FullCountBounds(g, j, 10);
  }

  /** CheckCompletion's grid: every complete row of 0..18 turns FADING in columns 1..10. A row's
      count reads that row only, so marking one row does not affect another. */
  function MarkComplete(g: Grid): (r: Grid)
    requires IsGrid(g)
    ensures IsGrid(r)
  {
    seq(Columns, i requires 0 <= i < Columns => seq(Rows, j requires 0 <= j < Rows =>
      if 1 <= i <= 10 && j <= LastRow && Complete(g, j) then Fading else g[i][j]))
  }

  /** Falling, freezing and marking leave the wall columns as they are. */
  lemma WallColumnsFixed(g: Grid)
    requires IsGrid(g)
    ensures Fall(g)[0] == g[0] && Freeze(g)[0] == g[0] && MarkComplete(g)[0] == g[0]
    ensures Fall(g)[11] == g[11] && Freeze(g)[11] == g[11] && MarkComplete(g)[11] == g[11]
  {
  }

  /** Some row of 0..18 is complete: CheckCompletion raises `lineToDelete`. */
  predicate AnyComplete(g: Grid)
    requires IsGrid(g)
  {
    exists j :: 0 <= j <= LastRow && Complete(g, j)
  }

  /** DeleteCompleteLines' first inner loop: columns 1..10 of row j become EMPTY. */
  function ClearRow(g: Grid, j: int): (r: Grid)
    requires IsGrid(g) && 0 <= j < Rows
    ensures IsGrid(r)
  {
    seq(Columns, i requires 0 <= i < Columns => if 1 <= i <= 10 then g[i][j := Empty] else g[i])
  }

  /** Its second inner loop: for rows j - 1 down to 0, FULL and FADING squares drop one row.
      A step reads and writes its own column only. */
  function DropAbove(g: Grid, j: int): (r: Grid)
    requires IsGrid(g) && 0 <= j <= LastRow
    ensures IsGrid(r)
  {
    seq(Columns, i requires 0 <= i < Columns =>
      if 1 <= i <= 10 then PushUp(g[i], j - 1, 0, {Full, Fading}) else g[i])
  }

  lemma {:induction false} PushUpKeepsFadingBound(s: seq<Square>, hi: int, lo: int, sel: set<Square>)
    requires 0 <= lo && lo - 1 <= hi && hi + 1 < |s|
    ensures multiset(PushUp(s, hi, lo, sel))[Fading] <= multiset(s)[Fading]
    decreases hi - lo + 1
  {
    if hi >= lo {
      var s' := if s[hi] in sel then s[hi + 1 := s[hi]][hi := Empty] else s;
      PushUpKeepsFadingBound(s', hi - 1, lo, sel);
    }
  }

  /** One round of the `while` removes at least one FADING square from column 1. */
  lemma FadingShrinks(g: Grid, j: int)
    requires IsGrid(g) && 0 <= j <= LastRow && g[1][j] == Fading
    ensures multiset(DropAbove(ClearRow(g, j), j)[1])[Fading] < multiset(g[1])[Fading]
  {
    PushUpKeepsFadingBound(ClearRow(g, j)[1], j - 1, 0, {Full, Fading});
  }

  /** DeleteCompleteLines from row j upwards: while column 1 of row j is FADING, empty the row
      and let everything above drop, then go on with row j - 1. */
  function DeleteFrom(g: Grid, j: int): (r: Grid)
    requires IsGrid(g) && -1 <= j <= LastRow
    ensures IsGrid(r)
    decreases j + 1, multiset(g[1])[Fading]
  {
    if j < 0 then g
    else if g[1][j] == Fading then
      FadingShrinks(g, j);
      DeleteFrom(DropAbove(ClearRow(g, j), j), j)
    else DeleteFrom(g, j - 1)
  }

  function DeleteCompleteLines(g: Grid): (r: Grid)
    requires IsGrid(g)
    ensures IsGrid(r)
  {
    DeleteFrom(g, LastRow)
  }

  /** What DeleteCompleteLines finds in rows 0..j once a piece has frozen: columns 1..10 hold
      only EMPTY, FULL or FADING, and each row is FADING in all ten columns or in none. */
  predicate SettledUpTo(g: Grid, j: int)
    requires IsGrid(g) && j < Rows
  {
    forall i, m :: 1 <= i <= 10 && 0 <= m <= j ==> Settled(g, i, m)
  }

  predicate Settled(g: Grid, i: int, m: int)
    requires IsGrid(g) && 1 <= i <= 10 && 0 <= m < Rows
  {
    g[i][m] in {Empty, Full, Fading} && (g[i][m] == Fading <==> g[1][m] == Fading)
  }

  /** The squares of column `c` in the rows that `d` (column 1) does not mark FADING. */
  function Keep(c: seq<Square>, d: seq<Square>): seq<Square>
    requires |c| == |d|
    decreases |c|
  {
    if |c| == 0 then []
    else (if d[0] == Fading then [] else [c[0]]) + Keep(c[1..], d[1..])
  }

  lemma {:induction false} KeepSnoc(c: seq<Square>, d: seq<Square>, x: Square, y: Square)
    requires |c| == |d|
    ensures Keep(c + [x], d + [y]) == Keep(c, d) + (if y == Fading then [] else [x])
    decreases |c|
  {
    if |c| > 0 {
      assert (c + [x])[1..] == c[1..] + [x];
      assert (d + [y])[1..] == d[1..] + [y];
      KeepSnoc(c[1..], d[1..], x, y);
    }
  }

  function Empties(n: nat): (r: seq<Square>)
    ensures |r| == n && forall k :: 0 <= k < n ==> r[k] == Empty
  {
    seq(n, _ => Empty)
  }

  /** On settled rows, one round of the `while` at row j drops rows 0..j - 1 by exactly one
      row and puts an EMPTY row on top. */
  lemma DropSettled(g: Grid, j: int)
    requires IsGrid(g) && 0 <= j <= LastRow && SettledUpTo(g, j)
    ensures forall i :: 1 <= i <= 10 ==>
      DropAbove(ClearRow(g, j), j)[i] == [Empty] + g[i][..j] + g[i][j + 1..]
  {
    forall i | 1 <= i <= 10
      ensures DropAbove(ClearRow(g, j), j)[i] == [Empty] + g[i][..j] + g[i][j + 1..]
    {
      var c := g[i][j := Empty];
      assert ClearRow(g, j)[i] == c;
      PushUpClosed(c, j - 1, 0, {Full, Fading});
      var r := DropAbove(ClearRow(g, j), j)[i];
      assert r == PushUp(c, j - 1, 0, {Full, Fading});
      var e := [Empty] + g[i][..j] + g[i][j + 1..];
      forall m | 0 <= m < |r|
        ensures r[m] == e[m]
      {
        assert r[m] == PushUpCell(c, j - 1, 0, {Full, Fading}, m);
        if m == 0 {
          assert Settled(g, i, 0);
        } else if m <= j {
          assert e[m] == g[i][m - 1];
          assert Settled(g, i, m - 1);
          assert m < j ==> Settled(g, i, m);
        } else {
          assert e[m] == g[i][m];
        }
      }
    }
  }

  /** Column i once the FADING rows among 0..j are removed: as many EMPTY squares as rows
      removed, then the column's squares of the other rows in order, then rows j + 1 on. */
  function Deleted(g: Grid, j: int, i: int): seq<Square>
    requires IsGrid(g) && -1 <= j <= LastRow && 0 <= i < Columns
  {
    Empties(multiset(g[1][..j + 1])[Fading]) + Keep(g[i][..j + 1], g[1][..j + 1]) + g[i][j + 1..]
  }

  lemma DropKeepsSettled(g: Grid, j: int)
    requires IsGrid(g) && 0 <= j <= LastRow && SettledUpTo(g, j)
    ensures SettledUpTo(DropAbove(ClearRow(g, j), j), j)
  {
    var g' := DropAbove(ClearRow(g, j), j);
    DropSettled(g, j);
    forall i, m | 1 <= i <= 10 && 0 <= m <= j
      ensures Settled(g', i, m)
    {
      if m > 0 {
        assert g'[i][m] == g[i][m - 1] && g'[1][m] == g[1][m - 1];
        assert Settled(g, i, m - 1);
      }
    }
  }

  /** Column-level step of one round: a removed FADING row at j turns into one more EMPTY
      square on top. */
  lemma KeepDropRound(c: seq<Square>, d: seq<Square>, j: int)
    requires |c| == |d| && 0 <= j < |d| && d[j] == Fading
    ensures Empties(multiset([Empty] + d[..j])[Fading]) + Keep([Empty] + c[..j], [Empty] + d[..j])
         == Empties(multiset(d[..j + 1])[Fading]) + Keep(c[..j + 1], d[..j + 1])
  {
    var n := multiset(d[..j + 1])[Fading];
    assert d[..j + 1] == d[..j] + [Fading];
    assert multiset([Empty] + d[..j])[Fading] == n - 1;
    assert c[..j + 1] == c[..j] + [c[j]];
    KeepSnoc(c[..j], d[..j], c[j], Fading);
    assert ([Empty] + c[..j])[1..] == c[..j];
    assert ([Empty] + d[..j])[1..] == d[..j];
    assert Keep([Empty] + c[..j], [Empty] + d[..j]) == [Empty] + Keep(c[..j], d[..j]);
    assert Empties(n - 1) + [Empty] == Empties(n);
  }

  lemma DeletedAfterDrop(g: Grid, j: int, i: int)
    requires IsGrid(g) && 0 <= j <= LastRow && SettledUpTo(g, j) && g[1][j] == Fading
    requires 1 <= i <= 10
    ensures Deleted(DropAbove(ClearRow(g, j), j), j, i) == Deleted(g, j, i)
  {
    var g' := DropAbove(ClearRow(g, j), j);
    DropSettled(g, j);
    assert g'[i][..j + 1] == [Empty] + g[i][..j];
    assert g'[1][..j + 1] == [Empty] + g[1][..j];
    assert g'[i][j + 1..] == g[i][j + 1..];
    KeepDropRound(g[i], g[1], j);
  }

  lemma DeletedStepUp(g: Grid, j: int, i: int)
    requires IsGrid(g) && 0 <= j <= LastRow && g[1][j] != Fading && 1 <= i <= 10
    ensures Deleted(g, j - 1, i) == Deleted(g, j, i)
  {
    assert g[1][..j + 1] == g[1][..j] + [g[1][j]];
    assert g[i][..j + 1] == g[i][..j] + [g[i][j]];
    KeepSnoc(g[i][..j], g[1][..j], g[i][j], g[1][j]);
    assert g[i][j..] == [g[i][j]] + g[i][j + 1..];
  }

  /** DeleteFrom on settled rows 0..j removes the FADING rows and nothing else: see `Deleted`.
      The wall columns are untouched. */
  lemma {:induction false} DeleteFromSettled(g: Grid, j: int)
    requires IsGrid(g) && -1 <= j <= LastRow && SettledUpTo(g, j)
    ensures forall i :: 1 <= i <= 10 ==> DeleteFrom(g, j)[i] == Deleted(g, j, i)
    ensures DeleteFrom(g, j)[0] == g[0] && DeleteFrom(g, j)[11] == g[11]
    decreases j + 1, multiset(g[1])[Fading]
  {
    if j < 0 {
      forall i | 1 <= i <= 10
        ensures DeleteFrom(g, j)[i] == Deleted(g, j, i)
      {
        assert g[i][..0] == [] && g[1][..0] == [] && g[i][0..] == g[i];
      }
    } else if g[1][j] == Fading {
      var g' := DropAbove(ClearRow(g, j), j);
      FadingShrinks(g, j);
      DropKeepsSettled(g, j);
      DeleteFromSettled(g', j);
      forall i | 1 <= i <= 10
        ensures DeleteFrom(g, j)[i] == Deleted(g, j, i)
      {
        DeletedAfterDrop(g, j, i);
      }
    } else {
      DeleteFromSettled(g, j - 1);
      forall i | 1 <= i <= 10
        ensures DeleteFrom(g, j)[i] == Deleted(g, j, i)
      {
        DeletedStepUp(g, j, i);
      }
    }
  }

  // ---------------------------------------------------------------------------------
  // Which row a square of the result comes from
  // ---------------------------------------------------------------------------------

  /** How many squares of column 1 are not FADING. */
  function Survivors(d: seq<Square>): nat
    decreases |d|
  {
    if |d| == 0 then 0 else (if d[0] == Fading then 0 else 1) + Survivors(d[1..])
  }

  lemma {:induction false} KeepLength(c: seq<Square>, d: seq<Square>)
    requires |c| == |d|
    ensures |Keep(c, d)| == Survivors(d)
    ensures Survivors(d) + multiset(d)[Fading] == |d|
    decreases |c|
  {
    if |c| > 0 {
      KeepLength(c[1..], d[1..]);
      assert d == [d[0]] + d[1..];
    }
  }

  /** The row of the t-th square that `Keep` retains: the t-th row not FADING in column 1. */
  function KeepIndex(d: seq<Square>, t: int): (m: nat)
    requires 0 <= t < Survivors(d)
    ensures m < |d| && d[m] != Fading
    decreases |d|
  {
    if d[0] == Fading then 1 + KeepIndex(d[1..], t)
    else if t == 0 then 0
    else 1 + KeepIndex(d[1..], t - 1)
  }

  lemma {:induction false} KeepAt(c: seq<Square>, d: seq<Square>, t: int)
    requires |c| == |d| && 0 <= t < Survivors(d)
    ensures t < |Keep(c, d)| && Keep(c, d)[t] == c[KeepIndex(d, t)]
    decreases |c|
  {
    KeepLength(c, d);
    if d[0] == Fading {
      KeepAt(c[1..], d[1..], t);
    } else if t > 0 {
      KeepAt(c[1..], d[1..], t - 1);
    }
  }

  // ---------------------------------------------------------------------------------
  // What holds of the grid between frames
  // ---------------------------------------------------------------------------------

  /** Squares of the play area hold EMPTY, MOVING, FULL or FADING (never BLOCK). */
  predicate InteriorValues(g: Grid)
    requires IsGrid(g)
  {
    forall i, j :: 1 <= i <= 10 && 0 <= j <= LastRow ==> g[i][j] in {Empty, Moving, Full, Fading}
  }

  /** A row of the play area is FADING in all ten columns or in none. */
  predicate FadingRows(g: Grid)
    requires IsGrid(g)
  {
    forall i, j :: 1 <= i <= 10 && 0 <= j <= LastRow ==> (g[i][j] == Fading <==> g[1][j] == Fading)
  }

  predicate NoFading(g: Grid)
    requires IsGrid(g)
  {
    forall i, j :: 1 <= i <= 10 && 0 <= j <= LastRow ==> g[i][j] != Fading
  }

  /** No row of the play area is complete: every complete row has been marked. */
  predicate NoComplete(g: Grid)
    requires IsGrid(g)
  {
    forall j :: 0 <= j <= LastRow ==> !Complete(g, j)
  }

  predicate GridOk(g: Grid)
  {
    IsGrid(g) && Walls(g) && InteriorValues(g) && FadingRows(g) && NoComplete(g)
  }

  /** Only the piece changed: every square either keeps its value or is a play-area square
      that is now EMPTY or MOVING. */
  predicate OnlyPieceMoved(g: Grid, g': Grid)
    requires IsGrid(g) && IsGrid(g')
  {
    forall i, j :: 0 <= i < Columns && 0 <= j < Rows ==>
      g'[i][j] == g[i][j] || (Interior(i, j) && g'[i][j] in {Empty, Moving})
  }

  /** A move of the piece keeps the border, creates no FULL or FADING square and so completes
      no row. */
  lemma FrameKeepsGridOk(g: Grid, g': Grid)
    requires GridOk(g) && NoFading(g) && IsGrid(g') && OnlyPieceMoved(g, g')
    ensures GridOk(g') && NoFading(g')
  {
    forall j | 0 <= j <= LastRow
      ensures !Complete(g', j)
    {
      CompleteIffFull(g, j);
      CompleteIffFull(g', j);
      var i :| 1 <= i <= 10 && g[i][j] != Full;
      assert g'[i][j] != Full;
    }
  }

  /** Freezing leaves no MOVING square and keeps the border. */
  lemma FreezeOk(g: Grid)
    requires IsGrid(g) && Walls(g) && InteriorValues(g) && NoFading(g)
    ensures Walls(Freeze(g)) && InteriorValues(Freeze(g)) && NoFading(Freeze(g))
    ensures !HasMoving(Freeze(g))
  {
  }

  /** CheckCompletion leaves no complete row, marks whole rows only, and changes nothing when
      no row is complete. The MOVING squares are not touched. */
  lemma MarkCompleteOk(g: Grid)
    requires IsGrid(g) && Walls(g) && InteriorValues(g) && NoFading(g)
    ensures GridOk(MarkComplete(g))
    ensures !AnyComplete(g) ==> MarkComplete(g) == g
    ensures forall i, j :: 0 <= i < Columns && 0 <= j < Rows ==>
      (MarkComplete(g)[i][j] == Moving <==> g[i][j] == Moving)
  {
    MarkLeavesNoComplete(g);
    MarkKeepsMoving(g);
    if !AnyComplete(g) {
      MarkIdle(g);
    }
  }

  lemma MarkLeavesNoComplete(g: Grid)
    requires IsGrid(g) && Walls(g) && InteriorValues(g) && NoFading(g)
    ensures NoComplete(MarkComplete(g))
  {
    var r := MarkComplete(g);
    forall j | 0 <= j <= LastRow
      ensures !Complete(r, j)
    {
      CompleteIffFull(g, j);
      CompleteIffFull(r, j);
      if !Complete(g, j) {
        assert forall i :: 1 <= i <= 10 ==> r[i][j] == g[i][j];
      }
    }
  }

  lemma MarkKeepsMoving(g: Grid)
    requires IsGrid(g) && InteriorValues(g)
    ensures forall i, j :: 0 <= i < Columns && 0 <= j < Rows ==>
      (MarkComplete(g)[i][j] == Moving <==> g[i][j] == Moving)
  {
    var r := MarkComplete(g);
    forall i, j | 0 <= i < Columns && 0 <= j < Rows
      ensures r[i][j] == Moving <==> g[i][j] == Moving
    {
      if 1 <= i <= 10 && j <= LastRow && Complete(g, j) {
        CompleteIffFull(g, j);
      }
    }
  }

  lemma MarkIdle(g: Grid)
    requires IsGrid(g) && !AnyComplete(g)
    ensures MarkComplete(g) == g
  {
    var r := MarkComplete(g);
    forall i | 0 <= i < Columns
      ensures r[i] == g[i]
    {
    }
  }

  lemma FrozenIsSettled(g: Grid)
    requires GridOk(g) && !HasMoving(g)
    ensures SettledUpTo(g, LastRow)
  {
    forall i, m | 1 <= i <= 10 && 0 <= m <= LastRow
      ensures Settled(g, i, m)
    {
    }
  }

  /** One square of DeleteCompleteLines' result, once the piece has frozen: with n FADING rows,
      the top n rows of the play area are EMPTY and row j >= n holds the row
      KeepIndex(.., j - n) of the rows not FADING. */
  lemma DeletedCell(g: Grid, i: int, j: int)
    requires GridOk(g) && !HasMoving(g) && 1 <= i <= 10 && 0 <= j < Rows
    ensures Survivors(g[1][..LastRow + 1]) + multiset(g[1][..LastRow + 1])[Fading] == LastRow + 1
    ensures
      var d := g[1][..LastRow + 1];
      var n := multiset(d)[Fading];
      DeleteCompleteLines(g)[i][j] ==
        if j < n then Empty
        else if j <= LastRow then g[i][KeepIndex(d, j - n)]
        else g[i][j]
  {
    FrozenIsSettled(g);
    DeleteFromSettled(g, LastRow);
    var d := g[1][..LastRow + 1];
    var c := g[i][..LastRow + 1];
    var n := multiset(d)[Fading];
    KeepLength(d, d);
    KeepLength(c, d);
    var row := DeleteCompleteLines(g)[i];
    assert row == Deleted(g, LastRow, i);
    assert row == Empties(n) + Keep(c, d) + g[i][LastRow + 1..];
    if j < n {
      assert row[j] == Empties(n)[j];
    } else if j <= LastRow {
      KeepAt(c, d, j - n);
      assert row[j] == Keep(c, d)[j - n];
    } else {
      assert row[j] == g[i][LastRow + 1..][j - LastRow - 1];
    }
  }

  /** After the fade the border is intact and only EMPTY and FULL squares remain. */
  lemma DeleteValues(g: Grid)
    requires GridOk(g) && !HasMoving(g)
    ensures Walls(DeleteCompleteLines(g)) && InteriorValues(DeleteCompleteLines(g))
    ensures NoFading(DeleteCompleteLines(g)) && !HasMoving(DeleteCompleteLines(g))
  {
    FrozenIsSettled(g);
    DeleteFromSettled(g, LastRow);
    var r := DeleteCompleteLines(g);
    forall i, j | 1 <= i <= 10 && 0 <= j < Rows
      ensures j <= LastRow ==> r[i][j] in {Empty, Full}
      ensures j == 19 ==> r[i][j] == Block
    {
      DeletedCell(g, i, j);
    }
  }

  /** Row j after the fade is not complete: it is EMPTY or a surviving row, which was not
      complete before. */
  lemma DeletedRowIncomplete(g: Grid, j: int)
    requires GridOk(g) && !HasMoving(g) && 0 <= j <= LastRow
    ensures !Complete(DeleteCompleteLines(g), j)
  {
    var d := g[1][..LastRow + 1];
    var n := multiset(d)[Fading];
    CompleteIffFull(DeleteCompleteLines(g), j);
    DeletedCell(g, 1, j);
    if j >= n {
      var m := KeepIndex(d, j - n);
      CompleteIffFull(g, m);
      var i :| 1 <= i <= 10 && g[i][m] != Full;
      DeletedCell(g, i, j);
    }
  }

  /** After the fade no row is complete. */
  lemma DeleteNoComplete(g: Grid)
    requires GridOk(g) && !HasMoving(g)
    ensures NoComplete(DeleteCompleteLines(g))
  {
    forall j | 0 <= j <= LastRow
      ensures !Complete(DeleteCompleteLines(g), j)
    {
      DeletedRowIncomplete(g, j);
    }
  }

  /** After the fade, no FADING, MOVING or complete row remains and the border is intact. */
  lemma DeleteOk(g: Grid)
    requires GridOk(g) && !HasMoving(g)
    ensures GridOk(DeleteCompleteLines(g)) && NoFading(DeleteCompleteLines(g))
    ensures !HasMoving(DeleteCompleteLines(g))
  {
    DeleteValues(g);
    DeleteNoComplete(g);
  }
}
