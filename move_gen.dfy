/**
  The generator loops shared by both Game classes: they read the board array,
  push destinations one at a time, and are proved to return exactly the
  sequences the rules in MoveRules describe.
 */
module MoveGen {
  import opened Wrappers
  import opened Coordinates
  import opened Pieces
  import opened MoveRules

  /**
    King and knight: a first loop keeps the table's on-board targets, a second
    keeps those that do not hold a piece of `color`.
   */
  method OffsetMoves(board: array<Option<Piece>>, from: Coord, offsets: seq<Offset>, color: Color)
    returns (possibleMoves: seq<Coord>)
    requires board.Length == 64
    ensures possibleMoves == StepMoves(board[..], from, offsets, color)
  {
    var movesOnTheBoard: seq<Coord> := [];
    for k := 0 to |offsets|
      invariant movesOnTheBoard == OnBoardTargets(from, offsets[..k])
    {
      assert offsets[..k + 1][..k] == offsets[..k];
      var (r, c) := offsets[k];
      var row1, column1 := from.0 + r, from.1 + c;
      if -1 < row1 && row1 < 8 {
        if -1 < column1 && column1 < 8 {
          movesOnTheBoard := movesOnTheBoard + [(row1 as nat, column1 as nat)];
        }
      }
    }
    assert offsets[..|offsets|] == offsets;
    possibleMoves := [];
    for i := 0 to |movesOnTheBoard|
      invariant possibleMoves == KeepEnterable(board[..], movesOnTheBoard[..i], color)
    {
      assert movesOnTheBoard[..i + 1][..i] == movesOnTheBoard[..i];
      var (row, column) := movesOnTheBoard[i];
      var square := row * 8 + column;
      match board[square] {
        case Some(piece) =>
          if color != piece.color {
            possibleMoves := possibleMoves + [(row, column)];
          }
        case None =>
          possibleMoves := possibleMoves + [(row, column)];
      }
    }
    assert movesOnTheBoard[..|movesOnTheBoard|] == movesOnTheBoard;
  }

  /**
    Rook, bishop and queen: for each direction a cursor starts one step from
    `from` and advances while it is on the board; an empty square is pushed and
    the scan goes on, an occupied one ends the scan and is pushed only when its
    piece is not of `color`.
   */
  method RayMoves(board: array<Option<Piece>>, from: Coord, directions: seq<Offset>, color: Color)
    returns (possibleMoves: seq<Coord>)
    requires board.Length == 64
    requires forall k :: 0 <= k < |directions| ==> IsDirection(directions[k])
    ensures possibleMoves == SlidingMoves(board[..], from, directions, color)
  {
    possibleMoves := [];
    for k := 0 to |directions|
      invariant possibleMoves == SlidingMoves(board[..], from, directions[..k], color)
    {
      assert directions[..k + 1][..k] == directions[..k];
      var (r, c) := directions[k];
      var ray := ScanRay(board, from.0 + r, from.1 + c, directions[k], color);
      possibleMoves := possibleMoves + ray;
    }
    assert directions[..|directions|] == directions;
  }

  /**
    The scan of one direction: the cursor starts at (toRow, toColumn) and
    advances by `d` while it is on the board.
   */
  method ScanRay(board: array<Option<Piece>>, toRow: int, toColumn: int, d: Offset, color: Color)
    returns (moves: seq<Coord>)
    requires board.Length == 64 && IsDirection(d)
    ensures moves == Ray(board[..], toRow, toColumn, d, color)
  {
    ghost var b: Board := board[..];
    var (r, c) := d;
    var row, column := toRow, toColumn;
    moves := [];
    while -1 < row && row < 8 && -1 < column && column < 8
      invariant moves + Ray(b, row, column, d, color) == Ray(b, toRow, toColumn, d, color)
      decreases StepsLeft(row, column, d)
    {
      var square := RowColumnToSquare((row as nat, column as nat));
      var here: Coord := (row as nat, column as nat);
      assert board[square] == At(b, here);
      match board[square] {
        case Some(piece) =>
          if color == piece.color {
            assert Ray(b, row, column, d, color) == [];
            break;
          } else {
            assert Ray(b, row, column, d, color) == [here];
            moves := moves + [here];
            break;
          }
        case None =>
          assert Ray(b, row, column, d, color) == [here] + Ray(b, row + r, column + c, d, color);
          assert moves + [here] + Ray(b, row + r, column + c, d, color) == moves + Ray(b, row, column, d, color);
          moves := moves + [here];
      }
      row, column := row + r, column + c;
    }
  }
}
