/**
 * The earlier snapshot in src/lib.rs: the same marks, players and positions
 * as the game core, but a board of one cell that ignores the coordinates
 * and that every write overwrites.
 */
module SingleCell {
  import opened Wrappers
  import T = TicTacToe

  class Board {
    var cell: Option<T.MoveMark>

    /** `Board::default`: the cell is empty. */
    constructor Default()
      ensures cell == None
      ensures forall x, y :: GetCellAt(x, y) == None
    {
      cell := None;
    }

    /** Whatever the coordinates, the one cell. */
    function GetCellAt(x: T.HorizontalPos, y: T.VerticalPos): (r: Option<T.MoveMark>)
      reads this
      ensures r == cell
    {
      cell
    }

    /** Overwrites the one cell, whatever the coordinates and whatever it held. */
    method SetCellAt(x: T.HorizontalPos, y: T.VerticalPos, mark: T.MoveMark)
      modifies this
      ensures cell == Some(mark)
      ensures forall x', y' :: GetCellAt(x', y') == Some(mark)
    {
      cell := Some(mark);
    }
  }

  /** The coordinates make no difference: every position of a board reads the same. */
  lemma GetCellAtIgnoresPosition(board: Board, x: T.HorizontalPos, y: T.VerticalPos,
                                 x': T.HorizontalPos, y': T.VerticalPos)
    ensures board.GetCellAt(x, y) == board.GetCellAt(x', y')
  {
  }

  /** Two computer players, the board, and the turn cycle, drawn from `turns` times so far. */
  class Game {
    var player1: T.Player
    var player2: T.Player
    var board: Board
    var turns: nat
    /** The marks handed out so far, in order. */
    ghost var Drawn: seq<T.MoveMark>

    ghost predicate Valid()
      reads this
    {
      |Drawn| == turns &&
      forall i :: 0 <= i < |Drawn| ==> Drawn[i] == T.Alternation(i)
    }

    /** `Game::default`: the computer against itself, an empty board, X to move first. */
    constructor Default()
      ensures Valid()
      ensures player1 == T.Computer && player2 == T.Computer
      ensures fresh(board) && board.cell == None
      ensures turns == 0 && Drawn == []
    {
      player1, player2 := T.Computer, T.Computer;
      board := new Board.Default();
      turns := 0;
      Drawn := [];
    }

    /** Draws the next mark of the cycle over `vec![X, O]`. */
    method NextMark() returns (mark: T.MoveMark)
      requires Valid()
      modifies this`turns, this`Drawn
      ensures Valid()
      ensures Drawn == old(Drawn) + [mark]
      ensures mark == T.Alternation(old(turns))
      ensures turns == old(turns) + 1
    {
      T.TurnsAlternate(turns);
      var next := T.CycleNth(T.TurnOrder(), turns);
      // the cycle over a non-empty vector never ends, so the unwrap cannot fail
      assert next.Some?;
      mark := next.value;
      turns := turns + 1;
      Drawn := Drawn + [mark];
    }

    /** The next mark, paired with the placeholder cell index 0. */
    method FetchMove() returns (cell: nat, mark: T.MoveMark)
      requires Valid()
      modifies this`turns, this`Drawn
      ensures Valid()
      ensures cell == 0
      ensures Drawn == old(Drawn) + [mark]
      ensures mark == T.Alternation(old(turns))
      ensures turns == old(turns) + 1
    {
      mark := NextMark();
      cell := 0;
    }
  }

  /** A fresh game hands out X first and O second, both for cell 0. */
  method OpeningMoves() returns (first: (nat, T.MoveMark), second: (nat, T.MoveMark))
    ensures first == (0, T.X) && second == (0, T.O)
  {
    var game := new Game.Default();
    var c1, m1 := game.FetchMove();
    var c2, m2 := game.FetchMove();
    first, second := (c1, m1), (c2, m2);
  }

  /**
   * Unlike the game core's board, a second write replaces the first, and a
   * write at one position shows at every other.
   */
  method LastWriteWins() returns (here: Option<T.MoveMark>, elsewhere: Option<T.MoveMark>)
    ensures here == Some(T.O) && elsewhere == Some(T.O)
  {
    var board := new Board.Default();
    board.SetCellAt(T.HorizontalPos.Center, T.VerticalPos.Center, T.X);
    board.SetCellAt(T.HorizontalPos.Center, T.VerticalPos.Center, T.O);
    here := board.GetCellAt(T.HorizontalPos.Center, T.VerticalPos.Center);
    elsewhere := board.GetCellAt(T.Left, T.Top);
  }
}
