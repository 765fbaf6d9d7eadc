/**
  The engine of the library variant: the standard starting position and the
  Game object, whose board is a 64-slot array changed in place by MakeMove and
  whose side to move is changed by ChangePlayer. Move generation, the
  legality filter and the checkmate test read the board; the filter plays
  the move on a fresh copy, so the game itself is never changed by a query.
 */
module Engine {
  import opened Wrappers
  import opened Coordinates
  import opened Pieces
  import opened MoveRules
  import opened MoveGen
  import opened Legality

  /** The back-rank order, column 0 first. */
  function BackRank(column: nat): PieceType
    requires column < 8
  {
    [Rook, Knight, Bishop, Queen, King, Bishop, Knight, Rook][column]
  }

  function InitialOccupant(i: nat): Option<Piece>
    requires i < 64
  {
    if i < 8 then Some(Piece(White, BackRank(i)))
    else if i < 16 then Some(Piece(White, Pawn))
    else if i < 48 then None
    else if i < 56 then Some(Piece(Black, Pawn))
    else Some(Piece(Black, BackRank(i - 56)))
  }

  /** The standard starting position. */
  function InitialBoard(): Board {
    seq(64, i requires 0 <= i < 64 => InitialOccupant(i))
  }

  /** The number of pieces of `color` on squares 0 .. n-1. */
  function CountColor(b: Board, color: Color, n: nat): nat
    requires n <= 64
  {
    if n == 0 then 0
    else CountColor(b, color, n - 1) + (if b[n - 1].Some? && b[n - 1].value.color == color then 1 else 0)
  }

  lemma {:induction false} InitialCountsBelow(n: nat)
    requires n <= 64
    ensures CountColor(InitialBoard(), White, n) == if n < 16 then n else 16
    ensures CountColor(InitialBoard(), Black, n) == if n < 48 then 0 else n - 48
  {
    if n > 0 {
      InitialCountsBelow(n - 1);
    }
  }

  /**
    The starting position holds 16 pieces of each colour, one king of each
    colour (White's on square 4, Black's on 60), and nothing on squares 16 .. 47.
   */
  lemma InitialPosition()
    ensures CountColor(InitialBoard(), White, 64) == 16
    ensures CountColor(InitialBoard(), Black, 64) == 16
    ensures forall i :: 16 <= i < 48 ==> InitialBoard()[i] == None
    ensures forall i :: 0 <= i < 64 && IsKingOf(InitialBoard()[i], White) ==> i == 4
    ensures forall i :: 0 <= i < 64 && IsKingOf(InitialBoard()[i], Black) ==> i == 60
    ensures KingSquare(InitialBoard(), White) == 4
    ensures KingSquare(InitialBoard(), Black) == 60
  {
    InitialCountsBelow(64);
    var b := InitialBoard();
    assert IsKingOf(b[4], White) && IsKingOf(b[60], Black);
    KingSquareIsLastKing(b, White, 64);
    KingSquareIsLastKing(b, Black, 64);
  }

  /** Writes the back rank of `color` (Rook, Knight, Bishop, Queen, King, Bishop, Knight, Rook) to squares base .. base+7. */
  method PlaceBackRank(squares: array<Option<Piece>>, color: Color, base: nat)
    requires squares.Length == 64 && base + 8 <= 64
    modifies squares
    ensures forall j :: 0 <= j < 8 ==> squares[base + j] == Some(Piece(color, BackRank(j)))
    ensures forall j :: 0 <= j < 64 && !(base <= j < base + 8) ==> squares[j] == old(squares[j])
  {
    squares[base] := Some(Piece(color, Rook));
    squares[base + 1] := Some(Piece(color, Knight));
    squares[base + 2] := Some(Piece(color, Bishop));
    squares[base + 3] := Some(Piece(color, Queen));
    squares[base + 4] := Some(Piece(color, King));
    squares[base + 5] := Some(Piece(color, Bishop));
    squares[base + 6] := Some(Piece(color, Knight));
    squares[base + 7] := Some(Piece(color, Rook));
  }

  /** From square 1 three of the knight's eight offsets stay on the board. */
  lemma KnightTargetsFromSquareOne()
    ensures OnBoardTargets((0, 1), KnightOffsets) == [(2, 0), (2, 2), (1, 3)]
  {
    var offsets := KnightOffsets;
    assert offsets[..1][..0] == [] && offsets[..2][..1] == offsets[..1] && offsets[..3][..2] == offsets[..2];
    assert offsets[..4][..3] == offsets[..3] && offsets[..5][..4] == offsets[..4] && offsets[..6][..5] == offsets[..5];
    assert offsets[..7][..6] == offsets[..6] && offsets[..8][..7] == offsets[..7] && offsets[..8] == offsets;
    assert OnBoardTargets((0, 1), offsets[..1]) == [(2, 0)];
    assert OnBoardTargets((0, 1), offsets[..2]) == [(2, 0), (2, 2)];
    assert OnBoardTargets((0, 1), offsets[..3]) == [(2, 0), (2, 2)];
    assert OnBoardTargets((0, 1), offsets[..4]) == [(2, 0), (2, 2), (1, 3)];
    assert OnBoardTargets((0, 1), offsets[..5]) == [(2, 0), (2, 2), (1, 3)];
    assert OnBoardTargets((0, 1), offsets[..6]) == [(2, 0), (2, 2), (1, 3)];
    assert OnBoardTargets((0, 1), offsets[..7]) == [(2, 0), (2, 2), (1, 3)];
  }

  /** In the starting position the queen's-side knight has exactly two destinations. */
  lemma OpeningKnightMoves()
    ensures PossibleMoves(InitialBoard(), 1, true) == [(2, 0), (2, 2)]
  {
    var b := InitialBoard();
    assert b[1] == Some(Piece(White, Knight));
    KnightTargetsFromSquareOne();
    var targets: seq<Coord> := [(2, 0), (2, 2), (1, 3)];
    assert targets[..2][..1] == targets[..1] && targets[..3][..2] == targets[..2] && targets[..3] == targets;
    assert b[16] == None && b[18] == None && b[11] == Some(Piece(White, Pawn));
    assert KeepEnterable(b, targets[..1], White) == [(2, 0)];
    assert KeepEnterable(b, targets[..2], White) == [(2, 0), (2, 2)];
    assert StepMoves(b, (0, 1), KnightOffsets, White) == [(2, 0), (2, 2)];
  }

  /** In the starting position the king's pawn has its single and its double step. */
  lemma OpeningPawnMoves()
    ensures PossibleMoves(InitialBoard(), 12, true) == [(2, 4), (3, 4)]
  {
    var b := InitialBoard();
    var offsets := PawnOffsets(White);
    assert offsets[..1][..0] == [] && offsets[..2][..1] == offsets[..1] && offsets[..3][..2] == offsets[..2];
    assert offsets[..4][..3] == offsets[..3] && offsets[..4] == offsets;
    assert PawnTargets(b, (1, 4), offsets[..1], White) == [];
    assert PawnTargets(b, (1, 4), offsets[..3], White) == [(2, 4)];
  }

  /** In the starting position the corner rook is hemmed in by its own pieces. */
  lemma OpeningRookMoves()
    ensures PossibleMoves(InitialBoard(), 0, true) == []
  {
    var b := InitialBoard();
    var dirs := RookDirections;
    DirectionTables();
    assert Ray(b, 1, 0, (1, 0), White) == [];
    assert Ray(b, -1, 0, (-1, 0), White) == [];
    assert Ray(b, 0, 1, (0, 1), White) == [];
    assert Ray(b, 0, -1, (0, -1), White) == [];
    assert dirs[..1][..0] == [] && dirs[..2][..1] == dirs[..1] && dirs[..3][..2] == dirs[..2];
    assert dirs[..4] == dirs;
    assert SlidingMoves(b, (0, 0), dirs[..1], White) == [];
    assert SlidingMoves(b, (0, 0), dirs[..2], White) == [];
    assert SlidingMoves(b, (0, 0), dirs[..3], White) == [];
  }

  /** Board::new: 64 empty slots, then the two back ranks and the two pawn ranks. */
  method NewBoard() returns (squares: array<Option<Piece>>)
    ensures fresh(squares) && squares.Length == 64
    ensures squares[..] == InitialBoard()
  {
    squares := new Option<Piece>[64];
    for i := 0 to 64
      invariant forall j :: 0 <= j < i ==> squares[j] == None
    {
      squares[i] := None;
    }
    PlaceBackRank(squares, White, 0);
    for i := 8 to 16
      invariant forall j :: 0 <= j < 8 ==> squares[j] == InitialOccupant(j)
      invariant forall j :: 8 <= j < i ==> squares[j] == Some(Piece(White, Pawn))
      invariant forall j :: i <= j < 64 ==> squares[j] == None
    {
      squares[i] := Some(Piece(White, Pawn));
    }
    PlaceBackRank(squares, Black, 56);
    for i := 48 to 56
      invariant forall j :: 0 <= j < 48 ==> squares[j] == InitialOccupant(j)
      invariant forall j :: 48 <= j < i ==> squares[j] == Some(Piece(Black, Pawn))
      invariant forall j :: i <= j < 56 ==> squares[j] == None
      invariant forall j :: 56 <= j < 64 ==> squares[j] == InitialOccupant(j)
    {
      squares[i] := Some(Piece(Black, Pawn));
    }
    assert forall j :: 0 <= j < 64 ==> squares[j] == InitialOccupant(j);
  }

  class Game {
    var player: Player
    var state: GameState
    const board: array<Option<Piece>>

    ghost predicate Valid() {
      board.Length == 64
    }

    /** Game::new: the starting position, White to move, in progress. */
    constructor ()
      ensures Valid() && fresh(board)
      ensures board[..] == InitialBoard()
      ensures player == WhitePlayer && state == InProgress
      ensures WhoseTurn() == WhitePlayer && GetGameState() == InProgress
    {
      var squares := NewBoard();
      board := squares;
      player := WhitePlayer;
      state := InProgress;
    }

    /** The copy `clone` makes: a new array holding the same 64 slots, and the same player and state. */
    constructor Clone(other: Game)
      requires other.Valid()
      ensures Valid() && fresh(board)
      ensures board[..] == other.board[..]
      ensures player == other.player && state == other.state
    {
      var squares := new Option<Piece>[64];
      for i := 0 to 64
        invariant forall j :: 0 <= j < i ==> squares[j] == other.board[j]
      {
        squares[i] := other.board[i];
      }
      assert squares[..] == other.board[..];
      board := squares;
      player := other.player;
      state := other.state;
    }

    /** The recorded state of the game: InProgress from the constructor on, since no operation here writes it. */
    function GetGameState(): (s: GameState)
      reads this
      ensures s == state
    {
      state
    }

    /** The side to move: White in a new game, flipped by ChangePlayer, left alone by MakeMove. */
    function WhoseTurn(): (p: Player)
      reads this
      ensures p == player
    {
      player
    }

    /** Hands the turn to the other player; the board and the state stay as they are. */
    method ChangePlayer()
      modifies this
      ensures WhoseTurn() == Opponent(old(WhoseTurn()))
      ensures GetGameState() == old(GetGameState())
    {
      player := match player
        case WhitePlayer => BlackPlayer
        case BlackPlayer => WhitePlayer;
    }

    /** Empties `from` and then writes its old occupant to `to`, overwriting whatever was there. */
    method MakeMove(from: nat, to: nat)
      requires Valid() && from < 64 && to < 64
      modifies board
      ensures board[..] == ApplyMove(old(board[..]), from, to)
      ensures WhoseTurn() == old(WhoseTurn()) && GetGameState() == old(GetGameState())
    {
      var swap := board[from];
      board[from] := None;
      board[to] := swap;
    }

    method PossibleMovesKing(from: Coord, playerColor: Color) returns (possibleMoves: seq<Coord>)
      requires Valid()
      ensures possibleMoves == StepMoves(board[..], from, KingOffsets, playerColor)
    {
      possibleMoves := OffsetMoves(board, from, KingOffsets, playerColor);
    }

    method PossibleMovesKnight(from: Coord, playerColor: Color) returns (possibleMoves: seq<Coord>)
      requires Valid()
      ensures possibleMoves == StepMoves(board[..], from, KnightOffsets, playerColor)
    {
      possibleMoves := OffsetMoves(board, from, KnightOffsets, playerColor);
    }

    method PossibleMovesRook(from: Coord, playerColor: Color) returns (possibleMoves: seq<Coord>)
      requires Valid()
      ensures possibleMoves == SlidingMoves(board[..], from, RookDirections, playerColor)
    {
      DirectionTables();
      possibleMoves := RayMoves(board, from, RookDirections, playerColor);
    }

    method PossibleMovesBishop(from: Coord, playerColor: Color) returns (possibleMoves: seq<Coord>)
      requires Valid()
      ensures possibleMoves == SlidingMoves(board[..], from, BishopDirections, playerColor)
    {
      DirectionTables();
      possibleMoves := RayMoves(board, from, BishopDirections, playerColor);
    }

    method PossibleMovesQueen(from: Coord, playerColor: Color) returns (possibleMoves: seq<Coord>)
      requires Valid()
      ensures possibleMoves == SlidingMoves(board[..], from, QueenDirections, playerColor)
    {
      DirectionTables();
      possibleMoves := RayMoves(board, from, QueenDirections, playerColor);
    }

    /** The pawn loop: one pass over the colour's four offsets. */
    method PossibleMovesPawn(from: Coord, playerColor: Color) returns (possibleMoves: seq<Coord>)
      requires Valid()
      ensures possibleMoves == PawnMoves(board[..], from, playerColor)
    {
      ghost var b: Board := board[..];
      var moves: seq<Offset>;
      if playerColor == Black {
        moves := [(-1, 1), (-1, 0), (-1, -1), (-2, 0)];
      } else {
        moves := [(1, 1), (1, 0), (1, -1), (2, 0)];
      }
      assert moves == PawnOffsets(playerColor);
      var (row, column) := from;
      possibleMoves := [];
      for k := 0 to |moves|
        invariant possibleMoves == PawnTargets(b, from, moves[..k], playerColor)
      {
        assert moves[..k + 1][..k] == moves[..k];
        var (r, c) := moves[k];
        var row1, column1 := row + r, column + c;
        if -1 < row1 && row1 < 8 {
          if -1 < column1 && column1 < 8 {
            var square := RowColumnToSquare((row1 as nat, column1 as nat));
            match board[square] {
              case Some(piece) =>
                if playerColor != piece.color {
                  if c != 0 {
                    possibleMoves := possibleMoves + [(row1 as nat, column1 as nat)];
                  }
                }
              case None =>
                if r == 2 {
                  if row == 1 {
                    possibleMoves := possibleMoves + [(row1 as nat, column1 as nat)];
                  } else if row == 6 {
                    possibleMoves := possibleMoves + [(row1 as nat, column1 as nat)];
                  }
                } else {
                  if c == 0 {
                    possibleMoves := possibleMoves + [(row1 as nat, column1 as nat)];
                  }
                }
            }
          }
        }
      }
      assert moves[..|moves|] == moves;
    }

    /**
      The destinations of the piece on `from`, generated for the colour the
      `white` flag selects: on the board, never the source, never a square
      holding a piece of that colour; none for an empty square.
     */
    method GetPossibleMoves(from: nat, white: bool) returns (possibleMoves: seq<Coord>)
      requires Valid() && from < 64
      ensures possibleMoves == PossibleMoves(board[..], from, white)
      ensures board[from] == None ==> possibleMoves == []
      ensures forall m :: m in possibleMoves ==>
        OnBoard(m) && RowColumnToSquare(m) != from && !HoldsColor(board[..], m, ColorOfFlag(white))
    {
      PossibleMovesSound(board[..], from, white);
      var playerColor := if white then White else Black;
      var fromRowColumn := SquareToRowColumn(from);
      possibleMoves := [];
      match board[from] {
        case Some(piece) =>
          if piece.pieceType == King {
            possibleMoves := PossibleMovesKing(fromRowColumn, playerColor);
          } else if piece.pieceType == Knight {
            possibleMoves := PossibleMovesKnight(fromRowColumn, playerColor);
          } else if piece.pieceType == Rook {
            possibleMoves := PossibleMovesRook(fromRowColumn, playerColor);
          } else if piece.pieceType == Queen {
            possibleMoves := PossibleMovesQueen(fromRowColumn, playerColor);
          } else if piece.pieceType == Bishop {
            possibleMoves := PossibleMovesBishop(fromRowColumn, playerColor);
          } else if piece.pieceType == Pawn {
            possibleMoves := PossibleMovesPawn(fromRowColumn, playerColor);
          }
        case None =>
      }
    }

    /** The mover's king search of the legality check: the last square holding a king of `color`, or 0 when there is none. */
    method FindKing(color: Color) returns (kingSquare: nat)
      requires Valid()
      ensures kingSquare < 64
      ensures kingSquare == KingSquare(board[..], color)
    {
      ghost var b: Board := board[..];
      kingSquare := 0;
      for i := 0 to 64
        invariant kingSquare == KingSquareBelow(b, color, i)
      {
        match board[i] {
          case Some(piece) =>
            if color == piece.color && piece.pieceType == King {
              kingSquare := i;
            }
          case None =>
        }
      }
    }

    /**
      The attack search of the legality check: true as soon as a piece not of
      `color`, with its moves generated for the side opposite `color`, reaches
      `kingSquare`; false when none does.
     */
    method KingAttacked(color: Color, kingSquare: nat) returns (attacked: bool)
      requires Valid()
      ensures attacked <==> exists i :: 0 <= i < 64 && Attacks(board[..], i, color, kingSquare)
    {
      ghost var b: Board := board[..];
      var opponentWhite := color == Black;
      for i := 0 to 64
        invariant forall j :: 0 <= j < i ==> !Attacks(b, j, color, kingSquare)
      {
        match board[i] {
          case Some(piece) =>
            if color != piece.color {
              var possibleMoves := GetPossibleMoves(i, opponentWhite);
              for k := 0 to |possibleMoves|
                invariant forall j :: 0 <= j < k ==> RowColumnToSquare(possibleMoves[j]) != kingSquare
              {
                var moveSquare := RowColumnToSquare(possibleMoves[k]);
                if moveSquare == kingSquare {
                  assert Attacks(b, i, color, kingSquare);
                  return true;
                }
              }
              assert forall m :: m in possibleMoves ==> RowColumnToSquare(m) != kingSquare;
            }
          case None =>
        }
      }
      return false;
    }

    /**
      Plays the move on a copy of the game, finds the mover's king on the copy
      (the last one in square order, or square 0), and rejects the move when
      a piece of the other side, generated for that side, reaches it.
      The game itself is not changed.
     */
    method LegalMove(to: Coord, from: Coord) returns (legal: bool)
      requires Valid() && OnBoard(to) && OnBoard(from)
      ensures legal == IsLegal(board[..], player, from, to)
    {
      ghost var b: Board := board[..];
      var simulation := new Game.Clone(this);
      var fromSquare := RowColumnToSquare(from);
      var toSquare := RowColumnToSquare(to);
      simulation.MakeMove(fromSquare, toSquare);
      ghost var sim: Board := simulation.board[..];
      assert sim == Simulate(b, from, to);
      var playerColor := ColorOf(player);
      var kingSquare := simulation.FindKing(playerColor);
      var attacked := simulation.KingAttacked(playerColor, kingSquare);
      legal := !attacked;
    }

    /**
      The filtering step of choosing a destination: the pseudo-legal moves of
      the piece on `from`, generated for the side to move, that pass LegalMove.
     */
    method LegalMovesFrom(from: nat) returns (possibleMovesAfterCheck: seq<Coord>)
      requires Valid() && from < 64
      ensures possibleMovesAfterCheck ==
        LegalFilter(board[..], player, from, PossibleMoves(board[..], from, player == WhitePlayer))
      ensures forall m :: m in possibleMovesAfterCheck <==>
        m in PossibleMoves(board[..], from, player == WhitePlayer) && OnBoard(m) &&
        IsLegal(board[..], player, SquareToRowColumn(from), m)
    {
      ghost var b: Board := board[..];
      var white := player == WhitePlayer;
      var possibleMoves := GetPossibleMoves(from, white);
      LegalFilterMembers(b, player, from, possibleMoves);
      possibleMovesAfterCheck := [];
      for k := 0 to |possibleMoves|
        invariant possibleMovesAfterCheck == LegalFilter(b, player, from, possibleMoves[..k])
      {
        assert possibleMoves[..k + 1][..k] == possibleMoves[..k];
        var (row, column) := possibleMoves[k];
        var fromRowColumn := SquareToRowColumn(from);
        var legalMove := LegalMove((row, column), fromRowColumn);
        if legalMove {
          possibleMovesAfterCheck := possibleMovesAfterCheck + [(row, column)];
        }
      }
      assert possibleMoves[..|possibleMoves|] == possibleMoves;
    }

    /**
      True exactly when the side to move has no legal move: the union, over
      its pieces, of the pseudo-legal moves that pass LegalMove is empty.
      Checkmate and stalemate both give true. The game is not changed.
     */
    method Checkmate() returns (checkmate: bool)
      requires Valid()
      ensures checkmate <==> !HasLegalMove(board[..], player)
      ensures checkmate <==> forall i :: 0 <= i < 64 ==> !HasLegalMoveAt(board[..], player, i)
    {
      ghost var b: Board := board[..];
      var playerColor := ColorOf(player);
      var allMoves: seq<Coord> := [];
      for i := 0 to 64
        invariant allMoves == LegalMovesBelow(b, player, i)
      {
        match board[i] {
          case Some(piece) =>
            if playerColor == piece.color {
              var legalMoves := LegalMovesFrom(i);
              allMoves := allMoves + legalMoves;
            }
          case None =>
        }
      }
      LegalMovesBelowEmpty(b, player, 64);
      HasLegalMoveBelowExists(b, player, 64);
      checkmate := |allMoves| == 0;
    }
  }
}
