/** The rules of the board as pure functions: legality of a turn, the number
    of occupied cells, the eight winning lines, and `Judge`, the verdict the
    board's win detector must reach on a grid. */
module Rules {
  import opened Marks
  import opened Lists

  type Grid = seq<seq<Mark>>
  type Annotation = seq<seq<Crossing>>

  /** GridSize rows of GridSize cells each. */
  predicate IsSquare<T>(cells: seq<seq<T>>)
  {
    |cells| == GridSize && forall i :: 0 <= i < |cells| ==> |cells[i]| == GridSize
  }

  /** The cells with (i, j) set to v (`cells[i][j] = v`). */
  function Update<T>(cells: seq<seq<T>>, i: int, j: int, v: T): (r: seq<seq<T>>)
    requires 0 <= i < |cells| && 0 <= j < |cells[i]|
    ensures |r| == |cells| && forall k :: 0 <= k < |r| ==> |r[k]| == |cells[k]|
    ensures r[i][j] == v
    ensures forall a, b :: 0 <= a < |r| && 0 <= b < |r[a]| && (a != i || b != j) ==> r[a][b] == cells[a][b]
  {
    cells[i := cells[i][j := v]]
  }

  const EmptyGrid: Grid := [[Empty, Empty, Empty], [Empty, Empty, Empty], [Empty, Empty, Empty]]
  const Unmarked: Annotation := [[None, None, None], [None, None, None], [None, None, None]]

  // ----- Legality -----

  /** Whether `t` may be played on a board with grid `g`, active player
      `active` and winner `winner`. */
  predicate Legal(g: Grid, active: Mark, winner: Mark, t: Turn)
    requires IsSquare(g)
  {
    winner == Empty &&
    t.mark == active &&
    t.x >= 0 && t.y >= 0 &&
    t.x < GridSize &&
    t.y < GridSize &&
    g[t.x][t.y] == Empty
  }

  /** The placeholder turn is never legal, on any board. */
  lemma WrongTurnRejected(g: Grid, active: Mark, winner: Mark)
    requires IsSquare(g)
    ensures !Legal(g, active, winner, WrongTurn)
  {
  }

  // ----- Occupied cells -----

  /** The number of cells of a line that carry a mark. */
  function Occupied(line: seq<Mark>): (n: nat)
    ensures n <= |line|
  {
    if line == [] then 0 else (if line[0] != Empty then 1 else 0) + Occupied(line[1..])
  }

  /** The number of cells of a grid that carry a mark. */
  function Filled(g: Grid): nat
  {
    if g == [] then 0 else Occupied(g[0]) + Filled(g[1..])
  }

  lemma {:induction false} OccupiedAll(line: seq<Mark>)
    ensures Occupied(line) == |line| <==> forall k :: 0 <= k < |line| ==> line[k] != Empty
  {
    if line != [] {
      OccupiedAll(line[1..]);
      assert forall k :: 1 <= k < |line| ==> line[k] == line[1..][k - 1];
    }
  }

  lemma {:induction false} OccupiedSet(line: seq<Mark>, y: int, m: Mark)
    requires 0 <= y < |line| && line[y] == Empty && m != Empty
    ensures Occupied(line[y := m]) == Occupied(line) + 1
  {
    if y > 0 {
      assert line[y := m][1..] == line[1..][y - 1 := m];
      OccupiedSet(line[1..], y - 1, m);
    } else {
      assert line[y := m][1..] == line[1..];
    }
  }

  lemma {:induction false} FilledSet(g: Grid, x: int, row: seq<Mark>)
    requires 0 <= x < |g|
    ensures Filled(g[x := row]) == Filled(g) - Occupied(g[x]) + Occupied(row)
  {
    if x > 0 {
      assert g[x := row][1..] == g[1..][x - 1 := row];
      FilledSet(g[1..], x - 1, row);
    } else {
      assert g[x := row][1..] == g[1..];
    }
  }

  /** A square grid has at most GridSize * GridSize marks, and has that many
      exactly when no cell is empty. */
  lemma FilledSquare(g: Grid)
    requires IsSquare(g)
    ensures Filled(g) <= GridSize * GridSize
    ensures Filled(g) == GridSize * GridSize <==>
            forall i, j :: 0 <= i < GridSize && 0 <= j < GridSize ==> g[i][j] != Empty
  {
    assert g[1..][1..][1..] == [];
    assert Filled(g[1..][1..]) == Occupied(g[2]);
    assert Filled(g[1..]) == Occupied(g[1]) + Occupied(g[2]);
    OccupiedAll(g[0]);
    OccupiedAll(g[1]);
    OccupiedAll(g[2]);
  }

  /** Placing a mark on an empty cell adds exactly one occupied cell and keeps the grid square. */
  lemma PlaceCounts(g: Grid, x: int, y: int, m: Mark)
    requires IsSquare(g) && 0 <= x < GridSize && 0 <= y < GridSize
    requires g[x][y] == Empty && m != Empty
    ensures IsSquare(Update(g, x, y, m))
    ensures Filled(Update(g, x, y, m)) == Filled(g) + 1
  {
    OccupiedSet(g[x], y, m);
    FilledSet(g, x, g[x][y := m]);
  }

  /** A grid with GridSize * GridSize marks (a drawn board) accepts no turn. */
  lemma FullBoardRejects(g: Grid, active: Mark, winner: Mark, t: Turn)
    requires IsSquare(g) && Filled(g) == GridSize * GridSize
    ensures !Legal(g, active, winner, t)
  {
    FilledSquare(g);
  }

  // ----- Winning lines -----

  /** The distinct marks of a line (`distinct()`). */
  function Elements(line: seq<Mark>): set<Mark>
  {
    set m | m in line
  }

  /** Every cell of the line holds the same mark, and that mark is not Empty. */
  predicate Uniform(line: seq<Mark>)
  {
    line != [] && line[0] != Empty && forall k :: 0 <= k < |line| ==> line[k] == line[0]
  }

  /** The detector's test, "one distinct mark and the first cell not Empty",
      holds exactly of the uniform lines. */
  lemma DistinctOne(line: seq<Mark>)
    ensures |Elements(line)| == 1 && line != [] && line[0] != Empty <==> Uniform(line)
  {
    if line != [] {
      if forall k :: 0 <= k < |line| ==> line[k] == line[0] {
        assert Elements(line) == {line[0]};
      } else {
        var k :| 0 <= k < |line| && line[k] != line[0];
        assert {line[0], line[k]} <= Elements(line);
        assert |{line[0], line[k]}| == 2;
        SubsetCard({line[0], line[k]}, Elements(line));
      }
    }
  }

  lemma SubsetCard(a: set<Mark>, b: set<Mark>)
    requires a <= b
    ensures |a| <= |b|
  {
    assert b == a + (b - a);
  }

  /** For a line of three cells: three equal marks that are not Empty. */
  lemma Uniform3(line: seq<Mark>)
    requires |line| == 3
    ensures Uniform(line) <==> line[0] != Empty && line[0] == line[1] && line[1] == line[2]
  {
  }

  function Column(g: Grid, i: int): seq<Mark>
    requires IsSquare(g) && 0 <= i < GridSize
  {
    [g[0][i], g[1][i], g[2][i]]
  }

  /** (0,0), (1,1), (2,2). */
  function MainDiagonal(g: Grid): seq<Mark>
    requires IsSquare(g)
  {
    [g[0][0], g[1][1], g[2][2]]
  }

  /** (2,0), (1,1), (0,2). */
  function AntiDiagonal(g: Grid): seq<Mark>
    requires IsSquare(g)
  {
    [g[2][0], g[1][1], g[0][2]]
  }

  /** The eight lines of the board: three rows, three columns, two diagonals. */
  function Lines(g: Grid): seq<seq<Mark>>
    requires IsSquare(g)
  {
    [g[0], g[1], g[2], Column(g, 0), Column(g, 1), Column(g, 2), MainDiagonal(g), AntiDiagonal(g)]
  }

  /** Some line is filled with one mark. */
  predicate HasWin(g: Grid)
    requires IsSquare(g)
  {
    exists k :: 0 <= k < 8 && Uniform(Lines(g)[k])
  }

  /** Some line is filled with `m`. */
  predicate WonBy(g: Grid, m: Mark)
    requires IsSquare(g)
  {
    exists k :: 0 <= k < 8 && Uniform(Lines(g)[k]) && Lines(g)[k][0] == m
  }

  /** The columns the detector reads through Transpose are the grid's columns. */
  lemma TransposeColumns(g: Grid)
    requires IsSquare(g)
    ensures |Transpose(g)| == GridSize
    ensures forall i :: 0 <= i < GridSize ==> Transpose(g)[i] == Column(g, i)
  {
    TransposeRect(g, GridSize);
    forall i | 0 <= i < GridSize
      ensures Transpose(g)[i] == Column(g, i)
    {
      assert |Transpose(g)[i]| == 3;
    }
  }

  // ----- The verdict of the win detector -----

  datatype Found = NotFound | FoundAt(index: nat)

  /** The first line at or after `from` that is uniform. */
  function FirstUniform(lines: seq<seq<Mark>>, from: nat): (r: Found)
    requires from <= |lines|
    ensures r.FoundAt? ==> from <= r.index < |lines| && Uniform(lines[r.index])
    ensures r.FoundAt? ==> forall k :: from <= k < r.index ==> !Uniform(lines[k])
    ensures r.NotFound? ==> forall k :: from <= k < |lines| ==> !Uniform(lines[k])
    decreases |lines| - from
  {
    if from == |lines| then NotFound
    else if Uniform(lines[from]) then FoundAt(from)
    else FirstUniform(lines, from + 1)
  }

  /** The winner and the annotation grid after the detector has run. */
  datatype Verdict = Verdict(winner: Mark, crossing: Annotation)

  /** A row with every cell set to `c` (`fill`). */
  function FillRow(row: seq<Crossing>, c: Crossing): seq<Crossing>
  {
    seq(|row|, _ => c)
  }

  /** Column i set to Vertical in the first n rows. */
  function MarkColumn(c: Annotation, i: int, n: int): (r: Annotation)
    requires IsSquare(c) && 0 <= i < GridSize && 0 <= n <= GridSize
    ensures IsSquare(r)
  {
    seq(|c|, q requires 0 <= q < |c| => if q < n then c[q][i := Vertical] else c[q])
  }

  /** Marking one more row is one cell update; marking no row changes nothing. */
  lemma MarkColumnStep(c: Annotation, i: int, n: int)
    requires IsSquare(c) && 0 <= i < GridSize && 0 <= n < GridSize
    ensures MarkColumn(c, i, 0) == c
    ensures MarkColumn(c, i, n + 1) == Update(MarkColumn(c, i, n), n, i, Vertical)
  {
  }

  /** The main-diagonal check applied to the verdict so far. */
  function MainDiagonalCheck(g: Grid, v: Verdict): (r: Verdict)
    requires IsSquare(g) && IsSquare(v.crossing)
    ensures IsSquare(r.crossing)
  {
    if g[0][0] != Empty && g[0][0] == g[1][1] && g[1][1] == g[2][2] then
      Verdict(g[0][0], Update(Update(Update(v.crossing, 0, 0, DiagonalUpDown), 1, 1, DiagonalUpDown), 2, 2, DiagonalUpDown))
    else
      v
  }

  /** The anti-diagonal check applied to the verdict so far. */
  function AntiDiagonalCheck(g: Grid, v: Verdict): (r: Verdict)
    requires IsSquare(g) && IsSquare(v.crossing)
    ensures IsSquare(r.crossing)
  {
    if g[2][0] != Empty && g[2][0] == g[1][1] && g[1][1] == g[0][2] then
      Verdict(g[1][1], Update(Update(Update(v.crossing, 2, 0, DiagonalDownUp), 1, 1, DiagonalDownUp), 0, 2, DiagonalDownUp))
    else
      v
  }

  /** Rows first, then columns (read from the transposed grid), the first
      uniform line ending the search; only when neither finds one are the
      diagonals checked. `w` and `c` are the winner and annotations before. */
  function Judge(g: Grid, c: Annotation, w: Mark): (v: Verdict)
    requires IsSquare(g) && IsSquare(c)
    ensures IsSquare(v.crossing)
  {
    match FirstUniform(g, 0)
    case FoundAt(i) => Verdict(g[i][0], c[i := FillRow(c[i], Horizontal)])
    case NotFound =>
      TransposeColumns(g);
      var cols := Transpose(g);
      match FirstUniform(cols, 0)
      case FoundAt(i) => Verdict(cols[i][0], MarkColumn(c, i, GridSize))
      case NotFound => AntiDiagonalCheck(g, MainDiagonalCheck(g, Verdict(w, c)))
  }

  /** The three ways `Judge` can end, one per search outcome. */
  lemma JudgeByRow(g: Grid, c: Annotation, w: Mark, i: nat)
    requires IsSquare(g) && IsSquare(c) && FirstUniform(g, 0) == FoundAt(i)
    ensures Judge(g, c, w) == Verdict(g[i][0], c[i := FillRow(c[i], Horizontal)])
  {
  }

  lemma JudgeByColumn(g: Grid, c: Annotation, w: Mark, i: nat)
    requires IsSquare(g) && IsSquare(c) && FirstUniform(g, 0) == NotFound
    requires |Transpose(g)| == GridSize && FirstUniform(Transpose(g), 0) == FoundAt(i)
    ensures i < GridSize && Judge(g, c, w) == Verdict(Transpose(g)[i][0], MarkColumn(c, i, GridSize))
  {
  }

  lemma JudgeByDiagonals(g: Grid, c: Annotation, w: Mark)
    requires IsSquare(g) && IsSquare(c) && FirstUniform(g, 0) == NotFound
    requires |Transpose(g)| == GridSize && FirstUniform(Transpose(g), 0) == NotFound
    ensures Judge(g, c, w) == AntiDiagonalCheck(g, MainDiagonalCheck(g, Verdict(w, c)))
  {
  }

  /** The first uniform row i wins for its mark, and only row i is annotated, Horizontal. */
  lemma RowWin(g: Grid, c: Annotation, w: Mark, i: int)
    requires IsSquare(g) && IsSquare(c) && 0 <= i < GridSize
    requires Uniform(g[i]) && forall k :: 0 <= k < i ==> !Uniform(g[k])
    ensures Judge(g, c, w).winner == g[i][0]
    ensures forall r, j :: 0 <= r < GridSize && 0 <= j < GridSize ==>
              Judge(g, c, w).crossing[r][j] == if r == i then Horizontal else c[r][j]
  {
  }

  /** With no uniform row, the first uniform column i wins for its mark, and
      only column i is annotated, Vertical. */
  lemma ColumnWin(g: Grid, c: Annotation, w: Mark, i: int)
    requires IsSquare(g) && IsSquare(c) && 0 <= i < GridSize
    requires forall k :: 0 <= k < GridSize ==> !Uniform(g[k])
    requires Uniform(Column(g, i)) && forall k :: 0 <= k < i ==> !Uniform(Column(g, k))
    ensures Judge(g, c, w).winner == g[0][i]
    ensures forall r, j :: 0 <= r < GridSize && 0 <= j < GridSize ==>
              Judge(g, c, w).crossing[r][j] == if j == i then Vertical else c[r][j]
  {
    TransposeColumns(g);
    var cols := Transpose(g);
    assert FirstUniform(g, 0) == NotFound;
    assert FirstUniform(cols, 0) == FoundAt(i);
  }

  /** With no uniform row or column, each uniform diagonal is annotated on its
      own cells and gives the winner; when both are uniform the anti-diagonal,
      checked second, owns the centre cell. */
  lemma DiagonalWin(g: Grid, c: Annotation, w: Mark)
    requires IsSquare(g) && IsSquare(c)
    requires forall k :: 0 <= k < GridSize ==> !Uniform(g[k]) && !Uniform(Column(g, k))
    ensures var main, anti := Uniform(MainDiagonal(g)), Uniform(AntiDiagonal(g));
            Judge(g, c, w).winner == (if anti then g[2][0] else if main then g[0][0] else w) &&
            forall r, j :: 0 <= r < GridSize && 0 <= j < GridSize ==>
              Judge(g, c, w).crossing[r][j] ==
                if anti && r + j == 2 then DiagonalDownUp
                else if main && r == j then DiagonalUpDown
                else c[r][j]
  {
    TransposeColumns(g);
    assert FirstUniform(g, 0) == NotFound;
    assert FirstUniform(Transpose(g), 0) == NotFound;
    Uniform3(MainDiagonal(g));
    Uniform3(AntiDiagonal(g));
  }

  /** Crosses on the four corners and the centre, noughts on the edges: both
      diagonals are complete, both are annotated, and the centre keeps the
      anti-diagonal's tag because that check runs second. */
  lemma BothDiagonals(g: Grid)
    requires g == [[Crosses, Noughts, Crosses], [Noughts, Crosses, Noughts], [Crosses, Noughts, Crosses]]
    ensures Judge(g, Unmarked, Empty).winner == Crosses
    ensures forall r, j :: 0 <= r < GridSize && 0 <= j < GridSize ==>
              Judge(g, Unmarked, Empty).crossing[r][j] ==
                if r + j == 2 then DiagonalDownUp else if r == j then DiagonalUpDown else None
  {
    forall k | 0 <= k < GridSize
      ensures !Uniform(g[k]) && !Uniform(Column(g, k))
    {
      Uniform3(g[k]);
      Uniform3(Column(g, k));
    }
    Uniform3(MainDiagonal(g));
    Uniform3(AntiDiagonal(g));
    DiagonalWin(g, Unmarked, Empty);
  }

  /** On a grid without a winner yet, the detector finds a winner exactly when
      one of the eight lines is uniform; the winner is the mark of such a
      line; and when there is none nothing is annotated. */
  lemma JudgeDecides(g: Grid, c: Annotation)
    requires IsSquare(g) && IsSquare(c)
    ensures Judge(g, c, Empty).winner != Empty <==> HasWin(g)
    ensures Judge(g, c, Empty).winner != Empty ==> WonBy(g, Judge(g, c, Empty).winner)
    ensures Judge(g, c, Empty).winner == Empty ==> Judge(g, c, Empty).crossing == c
  {
    var v := Judge(g, c, Empty);
    var lines := Lines(g);
    TransposeColumns(g);
    var cols := Transpose(g);
    match FirstUniform(g, 0)
    case FoundAt(i) =>
      assert lines[i] == g[i];
      assert Uniform(lines[i]) && lines[i][0] == v.winner;
    case NotFound =>
      match FirstUniform(cols, 0)
      case FoundAt(i) =>
        assert lines[3 + i] == cols[i];
        assert Uniform(lines[3 + i]) && lines[3 + i][0] == v.winner;
      case NotFound =>
        Uniform3(MainDiagonal(g));
        Uniform3(AntiDiagonal(g));
        if Uniform(AntiDiagonal(g)) {
          assert Uniform(lines[7]) && lines[7][0] == v.winner;
        } else if Uniform(MainDiagonal(g)) {
          assert Uniform(lines[6]) && lines[6][0] == v.winner;
        } else {
          forall k | 0 <= k < 8
            ensures !Uniform(lines[k])
          {
            if 3 <= k < 6 {
              assert lines[k] == cols[k - 3];
            }
          }
        }
  }
}
