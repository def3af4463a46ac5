# Tic-tac-toe core, modelled in Dafny

A model of a small tic-tac-toe core written in Rust. It covers the write-once
board keyed by (column, row), the game that hands out marks X, O, X, O, …,
the text renderer, and the player-selection menu parser. It also covers an
earlier snapshot of the same types that has a single overwritable cell.

- `wrappers.dfy` (module `Wrappers`): Rust's `Option` and `Result`.
- `game.dfy` (module `TicTacToe`, src/game.rs): `MoveMark`, `Player`,
  `HorizontalPos` and `VerticalPos` as datatypes. `Board` is a class whose
  `cells` field is a `map` from (column, row) to mark, read by
  `Board.GetCellAt`. The write-once update is the value function
  `Place`, and `Board.SetCellAt` is specified by it. `Game` is a class with
  the two players, the board, and a counter `turns` of how many marks it has
  drawn from the turn cycle. A ghost `Drawn` sequence records every mark
  handed out, and `Valid()` says that the i-th one is X for even i and O for
  odd i.
- `ui.dfy` (module `Ui`, src/ui.rs): `ParseGamePlayers`, and the renderer
  `ShowCell`/`ShowRow`/`ShowBoard` as functions that only read a `Board`.
  `Join` models Rust's slice `join`.
- `single_cell.dfy` (module `SingleCell`, src/lib.rs): the earlier `Board`
  (one `Option` cell, coordinates ignored, every write overwrites) and `Game`.
  It reuses the enumerations and the turn-cycle functions of `TicTacToe`:
  src/lib.rs declares its own copies with the same variants and the same
  turn cycle (fewer derives, different visibility).

The iterator `vec![X, O].into_iter().cycle()` is modelled by its draw count.
`CycleNth(s, n)` is what the n-th draw yields: nothing when `s` is empty,
`s[n % |s|]` otherwise. `NextMark` asserts that the draw is present, which
is the proof that the `unwrap` never panics.

The scenario methods `OpeningMarks`, `OverwriteIsIgnored`, `MarkTwoCells`
and `OpeningMoves` restate the repository's unit tests as calls against the
class contracts. `LastWriteWins` exercises the overwrite at src/lib.rs:33,
which no unit test covers.

## Model

| member | source | states |
|---|---|---|
| TicTacToe.HorizontalPositions | src/game.rs:76-78 | three columns, each exactly once, in the order Left, Center, Right |
| TicTacToe.VerticalPositions | src/game.rs:80-82 | three rows, each exactly once, in the order Top, Center, Bottom |
| TicTacToe.CellsAtMostNine | src/game.rs:17-20 | a board holds at most nine marks, one per position |
| TicTacToe.Lookup | src/game.rs:29-31 | `get_cell_at` is None exactly for an unmarked position, else the stored mark |
| TicTacToe.CellsFromLookups | src/game.rs:17-20 | two boards that answer `get_cell_at` alike at all nine positions are equal |
| TicTacToe.Board.GetCellAt | src/game.rs:29-31 | None exactly when (x, y) holds no mark, else the mark stored there |
| TicTacToe.Place | src/game.rs:33-37 | write-once: an empty cell takes the mark; an occupied cell leaves the whole board unchanged; no other cell changes; no mark is ever erased |
| TicTacToe.PlaceTwice | src/game.rs:33-37 | a second write to the same cell is ignored: the first mark wins, whichever mark the second write carries |
| TicTacToe.PlaceCommutes | src/game.rs:33-37 | writes to two different cells give the same board in either order |
| TicTacToe.PlaceAllKeepsMarks | src/game.rs:34-36 | a marked cell keeps its mark through any sequence of writes |
| TicTacToe.PlaceAllUntouched | src/game.rs:33-37 | a cell that no write of a sequence names is left as it was |
| TicTacToe.PlaceAllFirstWriteWins | src/game.rs:33-37 | in a sequence of writes, the first write to an empty cell decides its mark |
| TicTacToe.DistinctPlacementsOnEmptyBoard | src/game.rs:167-190 | writing distinct cells of a fresh board: each written cell reads back exactly its mark, and every other cell reads None |
| TicTacToe.Board.Default | src/game.rs:23-27 | a fresh board is None at all nine positions |
| TicTacToe.Board.SetCellAt | src/game.rs:33-37 | the new cells are `Place` of the old: an empty cell now holds the mark; an occupied one leaves the board unchanged; other cells and earlier marks are kept |
| TicTacToe.TurnsAlternate | src/game.rs:63-65 | the cycle over `[X, O]` never runs dry, repeats every two draws, yields X on even draws and O on odd ones, and consecutive marks differ |
| TicTacToe.Game.constructor | src/game.rs:50-57 | stores both players as given, with a fresh empty board and no mark drawn yet |
| TicTacToe.Game.Default | src/game.rs:59-61 | computer against computer, with a fresh empty board and no mark drawn yet |
| TicTacToe.Game.NextMark | src/game.rs:67-69 | returns X on the 1st, 3rd, … call and O on the 2nd, 4th, …; appends it to the marks handed out; never fails |
| TicTacToe.Game.FetchMove | src/game.rs:71-73 | cell index 0, paired with the mark `NextMark` would give |
| TicTacToe.OpeningMarks | src/game.rs:114-127 | a fresh game's first move is X and its second is O |
| TicTacToe.OverwriteIsIgnored | src/game.rs:192-199 | writing O over X at (Left, Top) leaves X |
| TicTacToe.MarkTwoCells | src/game.rs:155-165 | two writes to different cells each read back their own mark |
| Ui.JoinTwo | src/ui.rs:19 | joining two parts puts the separator between them |
| Ui.JoinThree | src/ui.rs:27 | joining three parts puts the separator between each two |
| Ui.ParseGamePlayers | src/ui.rs:14-20 | "1", "2" and "3" (and only they) give (Human, Computer), (Human, Human) and (Computer, Computer); every other input is an Err of the fixed prefix followed by the input |
| Ui.ParseGamePlayersInjective | src/ui.rs:14-20 | different inputs give different results, so an error message repeats its input unmodified |
| Ui.ParseGamePlayersErrors | src/ui.rs:115-133 | "foobar", the empty string and a sentence with quotes are each answered by the error prefix followed by that exact input |
| Ui.ParseErrorEchoes | src/ui.rs:19 | any input that is not one character long is answered by the error prefix followed by the input |
| Ui.ShowCell | src/ui.rs:30-38 | one character: " " exactly for an empty cell, "X" exactly for X, "O" exactly for O |
| Ui.ShowCells | src/ui.rs:41-43 | the renderings of the given columns of a row, in their order |
| Ui.ShowRow | src/ui.rs:40-45 | the Left, Center and Right cells joined by a vertical bar: five characters, with column i at index 2i |
| Ui.ShowRows | src/ui.rs:24-26 | the renderings of the given rows, in their order |
| Ui.ShowBoard | src/ui.rs:23-28 | the Top, Center and Bottom rows joined by "\n-----\n": 29 characters |
| Ui.ShowBoardCellAt | src/ui.rs:23-45 | cell (x, y) is drawn at index 12·row + 2·column of the board picture |
| Ui.ShowBoardInjective | src/ui.rs:23-45 | two boards have the same picture exactly when they hold the same marks |
| Ui.ShowEmptyBoard | src/ui.rs:73-96 | an empty board draws as three rows of three blanks separated by bars, joined by newline, five dashes, newline; the top row alone is blank, bar, blank, bar, blank |
| Ui.ShowMarkedRow | src/ui.rs:80-89 | with only X at (Left, Top), the top row is X, bar, blank, bar, blank |
| Ui.ShowMarkedBoard | src/ui.rs:59-71 | with X at (Left, Top) and O at (Center, Center), the top row is X, bar, blank, bar, blank; the whole picture has X top left and O in the middle and blanks elsewhere, exactly as a string |
| SingleCell.Board.Default | src/lib.rs:22-26 | a fresh board is None at every position |
| SingleCell.Board.GetCellAt | src/lib.rs:28-30 | the one cell, whatever the coordinates |
| SingleCell.GetCellAtIgnoresPosition | src/lib.rs:28-30 | every pair of positions of a board reads the same value |
| SingleCell.Board.SetCellAt | src/lib.rs:32-34 | overwrites unconditionally: afterwards every position reads the mark just written |
| SingleCell.Game.Default | src/lib.rs:47-54 | computer against computer, with a fresh empty board and no mark drawn yet |
| SingleCell.Game.NextMark | src/lib.rs:60-62 | returns X on odd-numbered calls and O on even-numbered ones; never fails |
| SingleCell.Game.FetchMove | src/lib.rs:64-66 | cell index 0, paired with the mark `NextMark` would give |
| SingleCell.OpeningMoves | src/lib.rs:81-94 | a fresh game's first move is (0, X) and its second is (0, O) |
| SingleCell.LastWriteWins | src/lib.rs:28-34 | a second write replaces the first, and the mark reads back at any other position too |

## Left out

- Hashing and the `Hash`/`Eq`/`Debug`/`PartialEq` derives: the board is a Dafny `map`, compared by value.
- The internals of `Cycle<IntoIter<MoveMark>>`: the iterator is represented by its draw count `turns`, and `CycleNth` gives what it yields.
- `format!("{:?}", mark)`: it is modelled as the fixed texts "X" and "O" (`MarkSymbol`).
- The `Ui` struct and `Ui::default` (src/ui.rs:3-12): they only hold a `Game`, so the renderer takes the `Board` directly and the parser takes only its input string.
- `get_cell_at` returns `Option<&MoveMark>` in src/game.rs: the model returns the mark by value.
- `BoardCell` is `usize`: the model uses `nat`, which is safe because the only value ever produced is 0.
- The placeholder test `it_works` (src/lib.rs:69-72).
- There is no win or draw detection and no move selection in the source, so none is modelled.
