/**
 * The game core of src/game.rs: marks, players, board positions, the
 * write-once `Board` and the `Game` that hands out marks X, O, X, O, ...
 */
module TicTacToe {
  import opened Wrappers

  datatype MoveMark = X | O

  /** Purely descriptive: neither kind of player has any behaviour. */
  datatype Player = Computer | Human

  datatype HorizontalPos = Left | Center | Right

  datatype VerticalPos = Top | Center | Bottom

  /** The key of a board cell: its column and its row. */
  type Position = (HorizontalPos, VerticalPos)

  /** The contents of a board: at most one mark per position. */
  type Cells = map<Position, MoveMark>

  /** Place of a column in the order Left, Center, Right. */
  function Column(x: HorizontalPos): (i: nat)
    ensures i < 3
  {
    match x
    case Left => 0
    case Center => 1
    case Right => 2
  }

  /** Place of a row in the order Top, Center, Bottom. */
  function Row(y: VerticalPos): (j: nat)
    ensures j < 3
  {
    match y
    case Top => 0
    case Center => 1
    case Bottom => 2
  }

  /** Every column exactly once, from left to right. */
  function HorizontalPositions(): (r: seq<HorizontalPos>)
    ensures |r| == 3
    ensures forall i :: 0 <= i < |r| ==> Column(r[i]) == i
    ensures forall x :: r[Column(x)] == x
    ensures forall i, j :: 0 <= i < j < |r| ==> r[i] != r[j]
  {
    [Left, HorizontalPos.Center, Right]
  }

  /** Every row exactly once, from top to bottom. */
  function VerticalPositions(): (r: seq<VerticalPos>)
    ensures |r| == 3
    ensures forall j :: 0 <= j < |r| ==> Row(r[j]) == j
    ensures forall y :: r[Row(y)] == y
    ensures forall i, j :: 0 <= i < j < |r| ==> r[i] != r[j]
  {
    [Top, VerticalPos.Center, Bottom]
  }

  /** The nine positions of the board. */
  function AllPositions(): set<Position>
  {
    {(Left, Top), (Left, VerticalPos.Center), (Left, Bottom),
     (HorizontalPos.Center, Top), (HorizontalPos.Center, VerticalPos.Center), (HorizontalPos.Center, Bottom),
     (Right, Top), (Right, VerticalPos.Center), (Right, Bottom)}
  }

  /** A board never holds more than nine marks. */
  lemma CellsAtMostNine(cells: Cells)
    ensures |cells| <= 9
  {
    var all := AllPositions();
    assert cells.Keys <= all by {
      forall p | p in cells.Keys ensures p in all {
        match p
        case (Left, Top) =>
        case (Left, Center) =>
        case (Left, Bottom) =>
        case (Center, Top) =>
        case (Center, Center) =>
        case (Center, Bottom) =>
        case (Right, Top) =>
        case (Right, Center) =>
        case (Right, Bottom) =>
      }
    }
    assert |all| == 9;
    SubsetCardinality(cells.Keys, all);
  }

  lemma {:induction false} SubsetCardinality<T>(a: set<T>, b: set<T>)
    requires a <= b
    ensures |a| <= |b|
  {
    if a != {} {
      var e :| e in a;
      SubsetCardinality(a - {e}, b - {e});
    }
  }

  /** What `get_cell_at` reads from a board's cells: the mark, or None for an empty cell. */
  function Lookup(cells: Cells, x: HorizontalPos, y: VerticalPos): (r: Option<MoveMark>)
    ensures r.None? <==> (x, y) !in cells
    ensures r.Some? ==> cells[(x, y)] == r.value
  {
    if (x, y) in cells then Some(cells[(x, y)]) else None
  }

  /** Cells are determined by what `Lookup` reads from them at the nine positions. */
  lemma CellsFromLookups(c1: Cells, c2: Cells)
    requires forall x, y :: Lookup(c1, x, y) == Lookup(c2, x, y)
    ensures c1 == c2
  {
    forall p | p in c1 ensures p in c2 && c1[p] == c2[p] {
      assert Lookup(c1, p.0, p.1) == Lookup(c2, p.0, p.1);
    }
    forall p | p in c2 ensures p in c1 {
      assert Lookup(c1, p.0, p.1) == Lookup(c2, p.0, p.1);
    }
  }

  /**
   * The cells after `set_cell_at(x, y, mark)`: an empty cell takes the mark,
   * an occupied one keeps its mark and the whole board is left as it was.
   */
  function Place(cells: Cells, x: HorizontalPos, y: VerticalPos, mark: MoveMark): (r: Cells)
    ensures Lookup(cells, x, y).None? ==> Lookup(r, x, y) == Some(mark)
    ensures Lookup(cells, x, y).Some? ==> r == cells
    ensures forall x', y' :: (x', y') != (x, y) ==> Lookup(r, x', y') == Lookup(cells, x', y')
    ensures forall p :: p in cells ==> p in r && r[p] == cells[p]
    ensures r.Keys == cells.Keys + {(x, y)}
  {
    if Lookup(cells, x, y).None? then cells[(x, y) := mark] else cells
  }

  /** Writing the same cell twice: the first write wins, whatever the second mark is. */
  lemma PlaceTwice(cells: Cells, x: HorizontalPos, y: VerticalPos, m1: MoveMark, m2: MoveMark)
    ensures Place(Place(cells, x, y, m1), x, y, m2) == Place(cells, x, y, m1)
    ensures Lookup(cells, x, y).None? ==> Lookup(Place(Place(cells, x, y, m1), x, y, m2), x, y) == Some(m1)
  {
  }

  /** Writes to two different cells do not interfere: their order does not matter. */
  lemma PlaceCommutes(cells: Cells, x1: HorizontalPos, y1: VerticalPos, m1: MoveMark,
                      x2: HorizontalPos, y2: VerticalPos, m2: MoveMark)
    requires (x1, y1) != (x2, y2)
    ensures Place(Place(cells, x1, y1, m1), x2, y2, m2) == Place(Place(cells, x2, y2, m2), x1, y1, m1)
  {
  }

  /** One write of a sequence of `set_cell_at` calls. */
  datatype Placement = Placement(x: HorizontalPos, y: VerticalPos, mark: MoveMark)

  /** The cells after the writes of `ps`, in order. */
  function PlaceAll(cells: Cells, ps: seq<Placement>): Cells
    decreases |ps|
  {
    if |ps| == 0 then cells
    else PlaceAll(Place(cells, ps[0].x, ps[0].y, ps[0].mark), ps[1..])
  }

  /** A marked cell keeps its mark through any sequence of writes. */
  lemma {:induction false} PlaceAllKeepsMarks(cells: Cells, ps: seq<Placement>, x: HorizontalPos, y: VerticalPos)
    requires (x, y) in cells
    ensures Lookup(PlaceAll(cells, ps), x, y) == Some(cells[(x, y)])
    decreases |ps|
  {
    if |ps| > 0 {
      PlaceAllKeepsMarks(Place(cells, ps[0].x, ps[0].y, ps[0].mark), ps[1..], x, y);
    }
  }

  /** A cell no write of `ps` names is left as it was. */
  lemma {:induction false} PlaceAllUntouched(cells: Cells, ps: seq<Placement>, x: HorizontalPos, y: VerticalPos)
    requires forall j :: 0 <= j < |ps| ==> (ps[j].x, ps[j].y) != (x, y)
    ensures Lookup(PlaceAll(cells, ps), x, y) == Lookup(cells, x, y)
    decreases |ps|
  {
    if |ps| > 0 {
      PlaceAllUntouched(Place(cells, ps[0].x, ps[0].y, ps[0].mark), ps[1..], x, y);
    }
  }

  /** The first write to an empty cell decides its mark for good. */
  lemma {:induction false} PlaceAllFirstWriteWins(cells: Cells, ps: seq<Placement>, i: nat)
    requires i < |ps|
    requires (ps[i].x, ps[i].y) !in cells
    requires forall j :: 0 <= j < i ==> (ps[j].x, ps[j].y) != (ps[i].x, ps[i].y)
    ensures Lookup(PlaceAll(cells, ps), ps[i].x, ps[i].y) == Some(ps[i].mark)
    decreases i
  {
    var next := Place(cells, ps[0].x, ps[0].y, ps[0].mark);
    if i == 0 {
      PlaceAllKeepsMarks(next, ps[1..], ps[0].x, ps[0].y);
    } else {
      assert ps[1..][i - 1] == ps[i];
      PlaceAllFirstWriteWins(next, ps[1..], i - 1);
    }
  }

  /**
   * Writing distinct cells of a fresh board: every written cell holds exactly
   * its mark and every other cell stays empty.
   */
  lemma DistinctPlacementsOnEmptyBoard(ps: seq<Placement>, x: HorizontalPos, y: VerticalPos)
    requires forall i, j :: 0 <= i < j < |ps| ==> (ps[i].x, ps[i].y) != (ps[j].x, ps[j].y)
    ensures forall i :: 0 <= i < |ps| ==> Lookup(PlaceAll(map[], ps), ps[i].x, ps[i].y) == Some(ps[i].mark)
    ensures (forall i :: 0 <= i < |ps| ==> (ps[i].x, ps[i].y) != (x, y)) ==> Lookup(PlaceAll(map[], ps), x, y) == None
  {
    forall i | 0 <= i < |ps|
      ensures Lookup(PlaceAll(map[], ps), ps[i].x, ps[i].y) == Some(ps[i].mark)
    {
      PlaceAllFirstWriteWins(map[], ps, i);
    }
    if forall i :: 0 <= i < |ps| ==> (ps[i].x, ps[i].y) != (x, y) {
      PlaceAllUntouched(map[], ps, x, y);
    }
  }

  /** A board of marks that only `SetCellAt` writes, and only into empty cells. */
  class Board {
    var cells: Cells

    /** `Board::default`: the empty board. */
    constructor Default()
      ensures cells == map[]
      ensures forall x, y :: GetCellAt(x, y) == None
    {
      cells := map[];
    }

    /** `get_cell_at`: the mark at (x, y), or None when that cell is empty. */
    function GetCellAt(x: HorizontalPos, y: VerticalPos): (r: Option<MoveMark>)
      reads this
      ensures r.None? <==> (x, y) !in cells
      ensures r.Some? ==> cells[(x, y)] == r.value
    {
      Lookup(cells, x, y)
    }

    /** Marks an empty cell; an occupied cell is silently left as it is. */
    method SetCellAt(x: HorizontalPos, y: VerticalPos, mark: MoveMark)
      modifies this
      ensures cells == Place(old(cells), x, y, mark)
      ensures old(GetCellAt(x, y)).None? ==> GetCellAt(x, y) == Some(mark)
      ensures old(GetCellAt(x, y)).Some? ==> cells == old(cells)
      ensures forall x', y' :: (x', y') != (x, y) ==> GetCellAt(x', y') == old(GetCellAt(x', y'))
      ensures forall p :: p in old(cells) ==> p in cells && cells[p] == old(cells)[p]
    {
      if GetCellAt(x, y).None? {
        cells := cells[(x, y) := mark];
      }
    }
  }

  /** The marks `Game::turns` cycles through: `vec![X, O]`. */
  function TurnOrder(): seq<MoveMark>
  {
    [X, O]
  }

  /**
   * What the n-th draw (counting from 0) of `s.into_iter().cycle()` gives:
   * nothing at all when `s` is empty, otherwise the elements of `s` round and round.
   */
  function CycleNth<T>(s: seq<T>, n: nat): Option<T>
  {
    if |s| == 0 then None else Some(s[n % |s|])
  }

  /** The alternation the turns follow: X on even draws, O on odd ones. */
  function Alternation(n: nat): MoveMark
  {
    if n % 2 == 0 then X else O
  }

  /** The turn cycle never runs dry, repeats every two draws and alternates X and O. */
  lemma TurnsAlternate(n: nat)
    ensures CycleNth(TurnOrder(), n) == Some(Alternation(n))
    ensures CycleNth(TurnOrder(), n + 2) == CycleNth(TurnOrder(), n)
    ensures Alternation(n) != Alternation(n + 1)
  {
  }

  /** Two players, a board, and the turn cycle, drawn from `turns` times so far. */
  class Game {
    var player1: Player
    var player2: Player
    var board: Board
    var turns: nat
    /** The marks handed out so far, in order. */
    ghost var Drawn: seq<MoveMark>

    ghost predicate Valid()
      reads this
    {
      |Drawn| == turns &&
      forall i :: 0 <= i < |Drawn| ==> Drawn[i] == Alternation(i)
    }

    /** `Game::new`: the given players, an empty board, and X to move first. */
    constructor (p1: Player, p2: Player)
      ensures Valid()
      ensures player1 == p1 && player2 == p2
      ensures fresh(board) && board.cells == map[]
      ensures turns == 0 && Drawn == []
    {
      player1, player2 := p1, p2;
      board := new Board.Default();
      turns := 0;
      Drawn := [];
    }

    /** `Game::default`: the computer against itself. */
    constructor Default()
      ensures Valid()
      ensures player1 == Computer && player2 == Computer
      ensures fresh(board) && board.cells == map[]
      ensures turns == 0 && Drawn == []
    {
      player1, player2 := Computer, Computer;
      board := new Board.Default();
      turns := 0;
      Drawn := [];
    }

    /** Draws the next mark of the cycle: X, O, X, O, ... */
    method NextMark() returns (mark: MoveMark)
      requires Valid()
      modifies this`turns, this`Drawn
      ensures Valid()
      ensures Drawn == old(Drawn) + [mark]
      ensures mark == Alternation(old(turns))
      ensures turns == old(turns) + 1
    {
      TurnsAlternate(turns);
      var next := CycleNth(TurnOrder(), turns);
      // the cycle over a non-empty vector never ends, so the unwrap cannot fail
      assert next.Some?;
      mark := next.value;
      turns := turns + 1;
      Drawn := Drawn + [mark];
    }

    /** The next mark, paired with the placeholder cell index 0. */
    method FetchMove() returns (cell: nat, mark: MoveMark)
      requires Valid()
      modifies this`turns, this`Drawn
      ensures Valid()
      ensures cell == 0
      ensures Drawn == old(Drawn) + [mark]
      ensures mark == Alternation(old(turns))
      ensures turns == old(turns) + 1
    {
      mark := NextMark();
      cell := 0;
    }
  }

  /** A fresh game hands out X first and O second. */
  method OpeningMarks() returns (first: MoveMark, second: MoveMark)
    ensures first == X && second == O
  {
    var game := new Game.Default();
    var _, m1 := game.FetchMove();
    var _, m2 := game.FetchMove();
    first, second := m1, m2;
  }

  /** On a fresh board, writing O over an X leaves the X. */
  method OverwriteIsIgnored() returns (cell: Option<MoveMark>)
    ensures cell == Some(X)
  {
    var board := new Board.Default();
    board.SetCellAt(Left, Top, X);
    board.SetCellAt(Left, Top, O);
    cell := board.GetCellAt(Left, Top);
  }

  /** Two writes to different cells of a fresh board: each cell reads back its own mark. */
  method MarkTwoCells() returns (first: Option<MoveMark>, second: Option<MoveMark>)
    ensures first == Some(X) && second == Some(O)
  {
    var board := new Board.Default();
    board.SetCellAt(HorizontalPos.Center, VerticalPos.Center, X);
    board.SetCellAt(Left, VerticalPos.Center, O);
    first := board.GetCellAt(HorizontalPos.Center, VerticalPos.Center);
    second := board.GetCellAt(Left, VerticalPos.Center);
  }
}
