/** Marks, winning-line annotations and turn requests of the tic-tac-toe board. */
module Marks {

  /** The three marks a cell or a player can carry; `Empty` is "no mark". */
  datatype Mark = Noughts | Crosses | Empty

  /** The character each mark is drawn with. */
  function Code(m: Mark): (c: char)
    ensures c == ' ' <==> m == Empty
  {
    match m
    case Noughts => 'O'
    case Crosses => 'X'
    case Empty => ' '
  }

  lemma CodeInjective(a: Mark, b: Mark)
    ensures Code(a) == Code(b) <==> a == b
  {
  }

  /** Hands the turn to the other player. Flipping `Empty` is a programming
      error in the source (it throws), so it is a precondition here. */
  function Change(m: Mark): (r: Mark)
    requires m != Empty
    ensures r != Empty && r != m
  {
    match m
    case Noughts => Crosses
    case Crosses => Noughts
  }

  /** Flipping twice gives the player back, and the flip is onto the two players. */
  lemma ChangeTwice(m: Mark)
    requires m != Empty
    ensures Change(Change(m)) == m
    ensures m == Noughts <==> Change(m) == Crosses
  {
  }

  /** How a cell takes part in the winning line, if at all. */
  datatype Crossing = None | Horizontal | Vertical | DiagonalUpDown | DiagonalDownUp

  /** The board is GridSize by GridSize. */
  const GridSize: int := 3

  /** A request by the player holding `mark` to claim cell (x, y); x is the row. */
  datatype Turn = Turn(x: int, y: int, mark: Mark)

  /** The placeholder turn the user interface shows when nothing is selected. */
  const WrongTurn: Turn := Turn(-1, -1, Empty)
}
