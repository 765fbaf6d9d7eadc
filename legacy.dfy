/**
  The older standalone variant of the engine. It shares the board layout,
  the coordinate conversions and the king, knight and sliding generators
  with the library variant, with three differences: the Black king and queen
  start on each other's squares, pawns produce no moves, and the own-colour
  test always uses the side to move. It has no legality filter.
 */
module Legacy {
  import opened Wrappers
  import opened Coordinates
  import opened Pieces
  import opened MoveRules
  import opened MoveGen
  import opened Legality
  import opened Engine

  /** Black's back rank in this variant: the king on column 3, the queen on column 4. */
  function LegacyBlackBackRank(column: nat): PieceType
    requires column < 8
  {
    [Rook, Knight, Bishop, King, Queen, Bishop, Knight, Rook][column]
  }

  function LegacyInitialOccupant(i: nat): Option<Piece>
    requires i < 64
  {
    if i < 56 then InitialOccupant(i) else Some(Piece(Black, LegacyBlackBackRank(i - 56)))
  }

  function LegacyInitialBoard(): Board {
    seq(64, i requires 0 <= i < 64 => LegacyInitialOccupant(i))
  }

  /**
    The starting position of this variant is the library's with the Black king
    and queen exchanged: the Black king stands on square 59, the queen on 60,
    and every other square holds what the library's starting position holds.
   */
  lemma LegacyInitialBoardDiffers()
    ensures forall i :: 0 <= i < 64 && i != 59 && i != 60 ==> LegacyInitialBoard()[i] == InitialBoard()[i]
    ensures LegacyInitialBoard()[59] == Some(Piece(Black, King)) == InitialBoard()[60]
    ensures LegacyInitialBoard()[60] == Some(Piece(Black, Queen)) == InitialBoard()[59]
    ensures KingSquare(LegacyInitialBoard(), Black) == 59
    ensures KingSquare(LegacyInitialBoard(), White) == 4
  {
    var b := LegacyInitialBoard();
    assert IsKingOf(b[4], White) && IsKingOf(b[59], Black);
    KingSquareIsLastKing(b, White, 64);
    KingSquareIsLastKing(b, Black, 64);
  }

  /**
    The destinations of this variant: the library's generators run with the
    colour of the side to move, except that a pawn, like an empty square,
    has none.
   */
  function LegacyPossibleMoves(b: Board, from: nat, player: Player): (r: seq<Coord>)
    requires from < 64
    ensures forall k :: 0 <= k < |r| ==> OnBoard(r[k])
  {
    DirectionTables();
    var color := ColorOf(player);
    var rc := SquareToRowColumn(from);
    match b[from]
    case None => []
    case Some(p) =>
      match p.pieceType
      case King => StepMoves(b, rc, KingOffsets, color)
      case Knight => StepMoves(b, rc, KnightOffsets, color)
      case Rook => SlidingMoves(b, rc, RookDirections, color)
      case Queen => SlidingMoves(b, rc, QueenDirections, color)
      case Bishop => SlidingMoves(b, rc, BishopDirections, color)
      case Pawn => []
  }

  /**
    For every piece but the pawn this variant agrees with the library's
    generator called with the side to move's flag; a pawn gets nothing.
   */
  lemma LegacyAgreesWithEngine(b: Board, from: nat, player: Player)
    requires from < 64
    ensures b[from].Some? && b[from].value.pieceType == Pawn ==> LegacyPossibleMoves(b, from, player) == []
    ensures b[from].Some? && b[from].value.pieceType != Pawn ==>
      LegacyPossibleMoves(b, from, player) == PossibleMoves(b, from, player == WhitePlayer)
  {
    assert ColorOfFlag(player == WhitePlayer) == ColorOf(player);
  }

  /**
    Every destination is on the board, differs from the source and does not
    hold a piece of the side to move, whatever the colour of the moving piece.
   */
  lemma LegacyMovesSound(b: Board, from: nat, player: Player)
    requires from < 64
    ensures b[from] == None ==> LegacyPossibleMoves(b, from, player) == []
    ensures forall m :: m in LegacyPossibleMoves(b, from, player) ==>
      OnBoard(m) && RowColumnToSquare(m) != from && !HoldsColor(b, m, ColorOf(player))
  {
    LegacyAgreesWithEngine(b, from, player);
    PossibleMovesSound(b, from, player == WhitePlayer);
    assert ColorOfFlag(player == WhitePlayer) == ColorOf(player);
  }

  /** Writes this variant's Black back rank to squares 56 .. 63. */
  method PlaceLegacyBlackBackRank(squares: array<Option<Piece>>)
    requires squares.Length == 64
    modifies squares
    ensures forall j :: 0 <= j < 8 ==> squares[56 + j] == Some(Piece(Black, LegacyBlackBackRank(j)))
    ensures forall j :: 0 <= j < 56 ==> squares[j] == old(squares[j])
  {
    squares[56] := Some(Piece(Black, Rook));
    squares[57] := Some(Piece(Black, Knight));
    squares[58] := Some(Piece(Black, Bishop));
    squares[59] := Some(Piece(Black, King));
    squares[60] := Some(Piece(Black, Queen));
    squares[61] := Some(Piece(Black, Bishop));
    squares[62] := Some(Piece(Black, Knight));
    squares[63] := Some(Piece(Black, Rook));
  }

  /** Board::new of this variant. */
  method LegacyNewBoard() returns (squares: array<Option<Piece>>)
    ensures fresh(squares) && squares.Length == 64
    ensures squares[..] == LegacyInitialBoard()
  {
    squares := new Option<Piece>[64];
    for i := 0 to 64
      invariant forall j :: 0 <= j < i ==> squares[j] == None
    {
      squares[i] := None;
    }
    PlaceBackRank(squares, White, 0);
    for i := 8 to 16
      invariant forall j :: 0 <= j < 8 ==> squares[j] == InitialOccupant(j)
      invariant forall j :: 8 <= j < i ==> squares[j] == Some(Piece(White, Pawn))
      invariant forall j :: i <= j < 64 ==> squares[j] == None
    {
      squares[i] := Some(Piece(White, Pawn));
    }
    PlaceLegacyBlackBackRank(squares);
    for i := 48 to 56
      invariant forall j :: 0 <= j < 48 ==> squares[j] == InitialOccupant(j)
      invariant forall j :: 48 <= j < i ==> squares[j] == Some(Piece(Black, Pawn))
      invariant forall j :: i <= j < 56 ==> squares[j] == None
      invariant forall j :: 56 <= j < 64 ==> squares[j] == Some(Piece(Black, LegacyBlackBackRank(j - 56)))
    {
      squares[i] := Some(Piece(Black, Pawn));
    }
    assert forall j :: 0 <= j < 64 ==> squares[j] == LegacyInitialBoard()[j];
  }

  class Game {
    var player: Player
    var state: GameState
    const board: array<Option<Piece>>

    ghost predicate Valid() {
      board.Length == 64
    }

    /** Game::new: this variant's starting position, White to move, in progress. */
    constructor ()
      ensures Valid() && fresh(board)
      ensures board[..] == LegacyInitialBoard()
      ensures player == WhitePlayer && state == InProgress
      ensures WhoseTurn() == WhitePlayer && GetGameState() == InProgress
    {
      var squares := LegacyNewBoard();
      board := squares;
      player := WhitePlayer;
      state := InProgress;
    }

    /** The recorded state of the game: InProgress from the constructor on, since no operation here writes it. */
    function GetGameState(): (s: GameState)
      reads this
      ensures s == state
    {
      state
    }

    /** The side to move: White in a new game, flipped by ChangePlayer, left alone by MakeMove. */
    function WhoseTurn(): (p: Player)
      reads this
      ensures p == player
    {
      player
    }

    /** Hands the turn to the other player; the board and the state stay as they are. */
    method ChangePlayer()
      modifies this
      ensures WhoseTurn() == Opponent(old(WhoseTurn()))
      ensures GetGameState() == old(GetGameState())
    {
      player := match player
        case WhitePlayer => BlackPlayer
        case BlackPlayer => WhitePlayer;
    }

    /** Empties `from` and then writes its old occupant to `to`, overwriting whatever was there. */
    method MakeMove(from: nat, to: nat)
      requires Valid() && from < 64 && to < 64
      modifies board
      ensures board[..] == ApplyMove(old(board[..]), from, to)
      ensures WhoseTurn() == old(WhoseTurn()) && GetGameState() == old(GetGameState())
    {
      var swap := board[from];
      board[from] := None;
      board[to] := swap;
    }

    method PossibleMovesKing(from: Coord) returns (possibleMoves: seq<Coord>)
      requires Valid()
      ensures possibleMoves == StepMoves(board[..], from, KingOffsets, ColorOf(player))
    {
      var playerColor := ColorOf(player);
      possibleMoves := OffsetMoves(board, from, KingOffsets, playerColor);
    }

    method PossibleMovesKnight(from: Coord) returns (possibleMoves: seq<Coord>)
      requires Valid()
      ensures possibleMoves == StepMoves(board[..], from, KnightOffsets, ColorOf(player))
    {
      var playerColor := ColorOf(player);
      possibleMoves := OffsetMoves(board, from, KnightOffsets, playerColor);
    }

    method PossibleMovesRook(from: Coord) returns (possibleMoves: seq<Coord>)
      requires Valid()
      ensures possibleMoves == SlidingMoves(board[..], from, RookDirections, ColorOf(player))
    {
      DirectionTables();
      var playerColor := ColorOf(player);
      possibleMoves := RayMoves(board, from, RookDirections, playerColor);
    }

    method PossibleMovesBishop(from: Coord) returns (possibleMoves: seq<Coord>)
      requires Valid()
      ensures possibleMoves == SlidingMoves(board[..], from, BishopDirections, ColorOf(player))
    {
      DirectionTables();
      var playerColor := ColorOf(player);
      possibleMoves := RayMoves(board, from, BishopDirections, playerColor);
    }

    method PossibleMovesQueen(from: Coord) returns (possibleMoves: seq<Coord>)
      requires Valid()
      ensures possibleMoves == SlidingMoves(board[..], from, QueenDirections, ColorOf(player))
    {
      DirectionTables();
      var playerColor := ColorOf(player);
      possibleMoves := RayMoves(board, from, QueenDirections, playerColor);
    }

    /**
      The destinations of the piece on `from` for the side to move: on the
      board, never the source, never a square holding a piece of the side to
      move; none for an empty square or a pawn.
     */
    method GetPossibleMoves(from: nat) returns (possibleMoves: seq<Coord>)
      requires Valid() && from < 64
      ensures possibleMoves == LegacyPossibleMoves(board[..], from, player)
      ensures board[from] == None ==> possibleMoves == []
      ensures board[from].Some? && board[from].value.pieceType == Pawn ==> possibleMoves == []
      ensures forall m :: m in possibleMoves ==>
        OnBoard(m) && RowColumnToSquare(m) != from && !HoldsColor(board[..], m, ColorOf(player))
    {
      LegacyMovesSound(board[..], from, player);
      var fromRowColumn := SquareToRowColumn(from);
      possibleMoves := [];
      match board[from] {
        case Some(piece) =>
          if piece.pieceType == King {
            possibleMoves := PossibleMovesKing(fromRowColumn);
          } else if piece.pieceType == Knight {
            possibleMoves := PossibleMovesKnight(fromRowColumn);
          } else if piece.pieceType == Rook {
            possibleMoves := PossibleMovesRook(fromRowColumn);
          } else if piece.pieceType == Queen {
            possibleMoves := PossibleMovesQueen(fromRowColumn);
          } else if piece.pieceType == Bishop {
            possibleMoves := PossibleMovesBishop(fromRowColumn);
          }
        case None =>
      }
    }
  }
}
