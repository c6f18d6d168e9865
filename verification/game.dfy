/** The tic-tac-toe board: its state changes in place, one legal turn at a time. */
module Game {
  import opened Marks
  import opened Lists
  import opened Rules

  class TicTacToe {
    /** The player whose turn it is. */
    var activePlayer: Mark
    /** Empty until a line is completed. */
    var winner: Mark
    /** The number of accepted turns. */
    var turnCounter: int
    /** grid[x][y] is the mark in row x, column y. */
    var grid: Grid
    /** crossing[x][y] says how cell (x, y) lies on the winning line. */
    var crossing: Annotation

    /** The board invariant: both grids are 3 by 3, a player is active, the
        counter counts the marks on the grid, there is a winner exactly when
        some line is complete, the winner owns a complete line, and nothing is
        annotated while there is no winner. */
    ghost predicate Valid()
      reads this
    {
      IsSquare(grid) && IsSquare(crossing) &&
      activePlayer != Empty &&
      turnCounter == Filled(grid) && turnCounter <= GridSize * GridSize &&
      (winner == Empty <==> !HasWin(grid)) &&
      (winner != Empty ==> WonBy(grid, winner)) &&
      (winner == Empty ==> crossing == Unmarked)
    }

    /** A fresh board on which `first` moves first. */
    constructor (first: Mark)
      requires first != Empty
      ensures Valid()
      ensures activePlayer == first && winner == Empty && turnCounter == 0
      ensures grid == EmptyGrid && crossing == Unmarked
    {
      activePlayer := first;
      winner := Empty;
      turnCounter := 0;
      grid := EmptyGrid;
      crossing := Unmarked;
      assert Filled(EmptyGrid) == 0 by {
        assert EmptyGrid[1..][1..][1..] == [];
      }
      forall k | 0 <= k < 8
        ensures !Uniform(Lines(EmptyGrid)[k])
      {
      }
    }

    /** The game ended with all cells taken and no winner. */
    predicate Draw()
      reads this
    {
      winner == Empty && turnCounter == 9
    }

    /** Plays `turn` if it is legal and reports whether it did. An illegal
        turn changes nothing; a legal one places the active mark, counts the
        turn, runs the win detector and passes the turn to the other player. */
    method MakeTurn(turn: Turn) returns (ok: bool)
      requires Valid()
      modifies this
      ensures Valid()
      ensures ok == Legal(old(grid), old(activePlayer), old(winner), turn)
      ensures old(winner) != Empty || old(Draw()) ==> !ok
      ensures !ok ==>
                grid == old(grid) && crossing == old(crossing) && activePlayer == old(activePlayer) &&
                winner == old(winner) && turnCounter == old(turnCounter)
      ensures ok ==>
                turnCounter == old(turnCounter) + 1 &&
                grid == Update(old(grid), turn.x, turn.y, old(activePlayer)) &&
                grid[turn.x][turn.y] == old(activePlayer) &&
                (forall i, j :: 0 <= i < GridSize && 0 <= j < GridSize && (i != turn.x || j != turn.y) ==>
                   grid[i][j] == old(grid)[i][j]) &&
                activePlayer == Change(old(activePlayer)) &&
                Verdict(winner, crossing) == Judge(grid, old(crossing), old(winner))
    {
      assert Draw() ==> !Legal(grid, activePlayer, winner, turn) by {
        if Draw() {
          FullBoardRejects(grid, activePlayer, winner, turn);
        }
      }
      if Legal(grid, activePlayer, winner, turn) {
        PlaceCounts(grid, turn.x, turn.y, activePlayer);
        turnCounter := turnCounter + 1;
        grid := Update(grid, turn.x, turn.y, activePlayer);
        ghost var before := crossing;
        CheckWinner();
        JudgeDecides(grid, before);
        FilledSquare(grid);
        activePlayer := Change(activePlayer);
        return true;
      }
      return false;
    }

    /** The win detector: rows, then columns of the transposed grid, each loop
        stopping at the first complete line; then the two diagonals, each on
        its own. The outcome is the one `Judge` prescribes. */
    method CheckWinner()
      requires IsSquare(grid) && IsSquare(crossing)
      modifies this
      ensures grid == old(grid) && activePlayer == old(activePlayer) && turnCounter == old(turnCounter)
      ensures Verdict(winner, crossing) == Judge(grid, old(crossing), old(winner))
    {
      for i := 0 to |grid|
        invariant grid == old(grid) && activePlayer == old(activePlayer) && turnCounter == old(turnCounter)
        invariant winner == old(winner) && crossing == old(crossing)
        invariant forall k :: 0 <= k < i ==> !Uniform(grid[k])
      {
        var line := grid[i];
        DistinctOne(line);
        if |Elements(line)| == 1 && line[0] != Empty {
          winner := line[0];
          crossing := crossing[i := FillRow(crossing[i], Horizontal)];
          JudgeByRow(grid, old(crossing), old(winner), i);
          return;
        }
      }
      TransposeColumns(grid);
      var columns := Transpose(grid);
      for i := 0 to |columns|
        invariant grid == old(grid) && activePlayer == old(activePlayer) && turnCounter == old(turnCounter)
        invariant winner == old(winner) && crossing == old(crossing)
        invariant forall k :: 0 <= k < i ==> !Uniform(columns[k])
      {
        var line := columns[i];
        DistinctOne(line);
        if |Elements(line)| == 1 && line[0] != Empty {
          winner := line[0];
          MarkColumnCells(i);
          JudgeByColumn(grid, old(crossing), old(winner), i);
          return;
        }
      }
      JudgeByDiagonals(grid, crossing, winner);
      CheckDiagonals();
    }

    /** Annotates column i `Vertical`, one row at a time (`(0..2).forEach`). */
    method MarkColumnCells(i: int)
      requires IsSquare(grid) && IsSquare(crossing) && 0 <= i < GridSize
      modifies this
      ensures grid == old(grid) && activePlayer == old(activePlayer) && turnCounter == old(turnCounter)
      ensures winner == old(winner) && crossing == MarkColumn(old(crossing), i, GridSize)
    {
      for r := 0 to GridSize
        invariant grid == old(grid) && activePlayer == old(activePlayer) && turnCounter == old(turnCounter)
        invariant winner == old(winner)
        invariant crossing == MarkColumn(old(crossing), i, r)
      {
        MarkColumnStep(old(crossing), i, r);
        crossing := Update(crossing, r, i, Vertical);
      }
    }

    /** The two diagonal checks, each on its own; the second may overwrite the
        centre annotation and the winner set by the first. */
    method CheckDiagonals()
      requires IsSquare(grid) && IsSquare(crossing)
      modifies this
      ensures grid == old(grid) && activePlayer == old(activePlayer) && turnCounter == old(turnCounter)
      ensures Verdict(winner, crossing) == AntiDiagonalCheck(grid, MainDiagonalCheck(grid, Verdict(old(winner), old(crossing))))
    {
      ghost var before := Verdict(winner, crossing);
      if grid[0][0] != Empty && grid[0][0] == grid[1][1] && grid[1][1] == grid[2][2] {
        crossing := Update(crossing, 0, 0, DiagonalUpDown);
        crossing := Update(crossing, 1, 1, DiagonalUpDown);
        crossing := Update(crossing, 2, 2, DiagonalUpDown);
        winner := grid[0][0];
      }
      assert Verdict(winner, crossing) == MainDiagonalCheck(grid, before);
      ghost var mid := Verdict(winner, crossing);
      if grid[2][0] != Empty && grid[2][0] == grid[1][1] && grid[1][1] == grid[0][2] {
        crossing := Update(crossing, 2, 0, DiagonalDownUp);
        crossing := Update(crossing, 1, 1, DiagonalDownUp);
        crossing := Update(crossing, 0, 2, DiagonalDownUp);
        winner := grid[1][1];
      }
      assert Verdict(winner, crossing) == AntiDiagonalCheck(grid, mid);
    }
  }

  /** A legal turn that completes no line: the board moves on to `after`
      with no winner and the other player active. */
  method QuietTurn(board: TicTacToe, t: Turn, after: Grid)
    requires board.Valid() && Legal(board.grid, board.activePlayer, board.winner, t)
    requires after == Update(board.grid, t.x, t.y, board.activePlayer) && !HasWin(after)
    modifies board
    ensures board.Valid() && board.grid == after && board.winner == Empty
    ensures board.activePlayer == Change(old(board.activePlayer))
  {
    var ok := board.MakeTurn(t);
  }

  /** Crosses open at (0,0), noughts answer at (1,1). */
  method Opening() returns (board: TicTacToe)
    ensures fresh(board) && board.Valid() && board.activePlayer == Crosses && board.winner == Empty
    ensures board.grid == [[Crosses, Empty, Empty], [Empty, Noughts, Empty], [Empty, Empty, Empty]]
  {
    board := new TicTacToe(Crosses);
    var g := [[Crosses, Empty, Empty], [Empty, Empty, Empty], [Empty, Empty, Empty]];
    assert !HasWin(g) by { NoLineYet(g); }
    Rows(Update(board.grid, 0, 0, Crosses), g[0], g[1], g[2]);
    QuietTurn(board, Turn(0, 0, Crosses), g);
    g := [[Crosses, Empty, Empty], [Empty, Noughts, Empty], [Empty, Empty, Empty]];
    assert !HasWin(g) by { NoLineYet(g); }
    Rows(Update(board.grid, 1, 1, Noughts), g[0], g[1], g[2]);
    QuietTurn(board, Turn(1, 1, Noughts), g);
  }

  /** Crosses go on at (0,1), noughts answer at (2,2). */
  method MiddleGame(board: TicTacToe)
    requires board.Valid() && board.activePlayer == Crosses && board.winner == Empty
    requires board.grid == [[Crosses, Empty, Empty], [Empty, Noughts, Empty], [Empty, Empty, Empty]]
    modifies board
    ensures board.Valid() && board.activePlayer == Crosses && board.winner == Empty
    ensures board.grid == [[Crosses, Crosses, Empty], [Empty, Noughts, Empty], [Empty, Empty, Noughts]]
  {
    var g := [[Crosses, Crosses, Empty], [Empty, Noughts, Empty], [Empty, Empty, Empty]];
    assert !HasWin(g) by { NoLineYet(g); }
    Rows(Update(board.grid, 0, 1, Crosses), g[0], g[1], g[2]);
    QuietTurn(board, Turn(0, 1, Crosses), g);
    g := [[Crosses, Crosses, Empty], [Empty, Noughts, Empty], [Empty, Empty, Noughts]];
    assert !HasWin(g) by { NoLineYet(g); }
    Rows(Update(board.grid, 2, 2, Noughts), g[0], g[1], g[2]);
    QuietTurn(board, Turn(2, 2, Noughts), g);
  }

  /** After the opening, crosses complete row 0: they win, row 0 is the one
      annotated line, and the board accepts no further turn. */
  method RowWinScenario()
  {
    var board := Opening();
    MiddleGame(board);
    var ok := board.MakeTurn(Turn(0, 2, Crosses));
    assert ok;
    Uniform3(board.grid[0]);
    RowWin(board.grid, Unmarked, Empty, 0);
    assert board.winner == Crosses;
    assert board.crossing[0] == [Horizontal, Horizontal, Horizontal];
    ok := board.MakeTurn(Turn(2, 0, Noughts));
    assert !ok;
  }

  /** A square grid is the grid of its three rows. */
  lemma Rows(g: Grid, r0: seq<Mark>, r1: seq<Mark>, r2: seq<Mark>)
    requires IsSquare(g) && g[0] == r0 && g[1] == r1 && g[2] == r2
    ensures g == [r0, r1, r2]
  {
  }

  /** Unfolds Uniform on each of the eight lines of a concrete grid. */
  lemma NoLineYet(g: Grid)
    requires IsSquare(g)
    ensures forall k :: 0 <= k < 8 ==>
              (Uniform(Lines(g)[k]) <==> Lines(g)[k][0] != Empty && Lines(g)[k][0] == Lines(g)[k][1] == Lines(g)[k][2])
  {
    forall k | 0 <= k < 8
      ensures Uniform(Lines(g)[k]) <==> Lines(g)[k][0] != Empty && Lines(g)[k][0] == Lines(g)[k][1] == Lines(g)[k][2]
    {
      Uniform3(Lines(g)[k]);
    }
  }
}
