/**
 * The text front end of src/ui.rs: the player-selection menu parser and the
 * renderer that draws a board as three rows of cells.
 */
module Ui {
  import opened Wrappers
  import opened TicTacToe

  /** Rust's `[String]::join`: the parts with `sep` between each two of them. */
  function Join(parts: seq<string>, sep: string): string
    decreases |parts|
  {
    if |parts| == 0 then ""
    else if |parts| == 1 then parts[0]
    else parts[0] + sep + Join(parts[1..], sep)
  }

  lemma JoinTwo(a: string, b: string, sep: string)
    ensures Join([a, b], sep) == a + sep + b
  {
  }

  lemma JoinThree(a: string, b: string, c: string, sep: string)
    ensures Join([a, b, c], sep) == a + sep + b + sep + c
  {
    assert [a, b, c][1..] == [b, c];
    JoinTwo(b, c, sep);
  }

  /** The text in front of the echoed input in a parse error. */
  const ParseErrorPrefix: string := "Unable to parse game players from string index: "

  /**
   * The menu choice: "1" is human against computer, "2" human against human,
   * "3" computer against computer; anything else is an error echoing the input.
   */
  function ParseGamePlayers(input: string): (r: Result<(Player, Player), string>)
    ensures r == Ok((Human, Computer)) <==> input == "1"
    ensures r == Ok((Human, Human)) <==> input == "2"
    ensures r == Ok((Computer, Computer)) <==> input == "3"
    ensures r.Err? <==> input != "1" && input != "2" && input != "3"
    ensures r.Err? ==> r.error == ParseErrorPrefix + input
  {
    match input
    case "1" => Ok((Human, Computer))
    case "2" => Ok((Human, Human))
    case "3" => Ok((Computer, Computer))
    case _ =>
      JoinTwo("Unable to parse game players from string index:", input, " ");
      Err(Join(["Unable to parse game players from string index:", input], " "))
  }

  /** The parse result determines the input: in particular an error repeats it unmodified. */
  lemma ParseGamePlayersInjective(s1: string, s2: string)
    ensures ParseGamePlayers(s1) == ParseGamePlayers(s2) <==> s1 == s2
  {
    var r1, r2 := ParseGamePlayers(s1), ParseGamePlayers(s2);
    if r1 == r2 && r1.Err? {
      assert s1 == r1.error[|ParseErrorPrefix|..];
      assert s2 == r2.error[|ParseErrorPrefix|..];
    }
  }

  /** Unrecognised choices, including the empty one and one with quotes, are echoed in the error. */
  lemma ParseGamePlayersErrors()
    ensures ParseGamePlayers("foobar") == Err("Unable to parse game players from string index: foobar")
    ensures ParseGamePlayers("") == Err("Unable to parse game players from string index: ")
    ensures ParseGamePlayers("1 would have been 'fine' if I stopped at the first \"char\"")
         == Err("Unable to parse game players from string index: " + "1 would have been 'fine' if I stopped at the first \"char\"")
  {
    var quoted := "1 would have been 'fine' if I stopped at the first \"char\"";
    ParseErrorEchoes(quoted);
    ParseErrorEchoes("foobar");
    ParseErrorEchoes("");
    var expected := "Unable to parse game players from string index: foobar";
    assert |ParseErrorPrefix + "foobar"| == |expected|;
    forall i | 0 <= i < |expected| ensures (ParseErrorPrefix + "foobar")[i] == expected[i] {}
    assert ParseErrorPrefix + "foobar" == expected;
    assert ParseErrorPrefix + "" == ParseErrorPrefix;
  }

  /** An input that is not one character long is no menu choice: the error repeats it after the prefix. */
  lemma ParseErrorEchoes(input: string)
    requires |input| != 1
    ensures ParseGamePlayers(input) == Err(ParseErrorPrefix + input)
  {
  }

  /** The `Debug` text of a mark. */
  function MarkSymbol(m: MoveMark): string
  {
    match m
    case X => "X"
    case O => "O"
  }

  /** One character for a cell: blank when empty, else the mark's symbol. */
  function ShowCell(board: Board, x: HorizontalPos, y: VerticalPos): (r: string)
    reads board
    ensures |r| == 1
    ensures r == " " <==> board.GetCellAt(x, y) == None
    ensures r == "X" <==> board.GetCellAt(x, y) == Some(X)
    ensures r == "O" <==> board.GetCellAt(x, y) == Some(O)
  {
    match board.GetCellAt(x, y)
    case None => " "
    case Some(mark) => MarkSymbol(mark)
  }

  /** The cells of row `y` at the columns `xs`, in that order. */
  function ShowCells(board: Board, xs: seq<HorizontalPos>, y: VerticalPos): (r: seq<string>)
    reads board
    ensures |r| == |xs|
    ensures forall i :: 0 <= i < |xs| ==> r[i] == ShowCell(board, xs[i], y)
    decreases |xs|
  {
    if |xs| == 0 then [] else [ShowCell(board, xs[0], y)] + ShowCells(board, xs[1..], y)
  }

  /** Row `y`: its three cells from left to right, separated by "|". */
  function ShowRow(board: Board, y: VerticalPos): (r: string)
    reads board
    ensures r == ShowCell(board, Left, y) + "|" + ShowCell(board, HorizontalPos.Center, y) + "|" + ShowCell(board, Right, y)
    ensures |r| == 5
    ensures forall x :: r[2 * Column(x)] == ShowCell(board, x, y)[0]
  {
    var cells := ShowCells(board, HorizontalPositions(), y);
    assert cells == [ShowCell(board, Left, y), ShowCell(board, HorizontalPos.Center, y), ShowCell(board, Right, y)];
    JoinThree(cells[0], cells[1], cells[2], "|");
    Join(cells, "|")
  }

  /** The rows `ys`, in that order. */
  function ShowRows(board: Board, ys: seq<VerticalPos>): (r: seq<string>)
    reads board
    ensures |r| == |ys|
    ensures forall j :: 0 <= j < |ys| ==> r[j] == ShowRow(board, ys[j])
    decreases |ys|
  {
    if |ys| == 0 then [] else [ShowRow(board, ys[0])] + ShowRows(board, ys[1..])
  }

  /** The separator drawn between two rows. */
  const RowSeparator: string := "\n-----\n"

  /** The board: the top, center and bottom rows, separated by a line of dashes. */
  function ShowBoard(board: Board): (r: string)
    reads board
    ensures r == ShowRow(board, Top) + RowSeparator + ShowRow(board, VerticalPos.Center) + RowSeparator + ShowRow(board, Bottom)
    ensures |r| == 29
  {
    var rows := ShowRows(board, VerticalPositions());
    assert rows == [ShowRow(board, Top), ShowRow(board, VerticalPos.Center), ShowRow(board, Bottom)];
    JoinThree(rows[0], rows[1], rows[2], RowSeparator);
    Join(rows, RowSeparator)
  }

  /** Where cell (x, y) sits in the rendered board, and that it is the cell's own character. */
  lemma ShowBoardCellAt(board: Board, x: HorizontalPos, y: VerticalPos)
    ensures ShowBoard(board)[12 * Row(y) + 2 * Column(x)] == ShowCell(board, x, y)[0]
  {
  }

  /** The rendering is faithful: two boards look the same exactly when they hold the same marks. */
  lemma ShowBoardInjective(b1: Board, b2: Board)
    ensures ShowBoard(b1) == ShowBoard(b2) <==> b1.cells == b2.cells
  {
    if ShowBoard(b1) == ShowBoard(b2) {
      forall x, y ensures Lookup(b1.cells, x, y) == Lookup(b2.cells, x, y) {
        SameCellFromSameBoard(b1, b2, x, y);
      }
      CellsFromLookups(b1.cells, b2.cells);
    }
  }

  lemma SameCellFromSameBoard(b1: Board, b2: Board, x: HorizontalPos, y: VerticalPos)
    requires ShowBoard(b1) == ShowBoard(b2)
    ensures b1.GetCellAt(x, y) == b2.GetCellAt(x, y)
  {
    var c1, c2 := ShowCell(b1, x, y), ShowCell(b2, x, y);
    assert c1[0] == c2[0] by {
      ShowBoardCellAt(b1, x, y);
      ShowBoardCellAt(b2, x, y);
    }
    SameCellFromSameSymbol(b1, b2, x, y);
  }

  lemma SameCellFromSameSymbol(b1: Board, b2: Board, x: HorizontalPos, y: VerticalPos)
    requires ShowCell(b1, x, y)[0] == ShowCell(b2, x, y)[0]
    ensures b1.GetCellAt(x, y) == b2.GetCellAt(x, y)
  {
  }

  /** The picture of an empty board. */
  lemma ShowEmptyBoard(board: Board)
    requires board.cells == map[]
    ensures ShowRow(board, Top) == " | | "
    ensures ShowBoard(board) == " | | \n-----\n | | \n-----\n | | "
  {
  }

  /** The top row of a board whose only mark is X at the top left. */
  lemma ShowMarkedRow(board: Board)
    requires board.cells == map[(Left, Top) := X]
    ensures ShowRow(board, Top) == "X| | "
  {
  }

  /** The picture of a board with X at the top left and O in the middle. */
  lemma ShowMarkedBoard(board: Board)
    requires board.cells == map[(Left, Top) := X, (HorizontalPos.Center, VerticalPos.Center) := O]
    ensures ShowRow(board, Top) == "X| | "
    ensures ShowBoard(board) == "X| | \n-----\n |O| \n-----\n | | "
  {
  }
}
