/**
  The board model: colours, piece types, pieces, the side to move, and the
  64-slot board with its single mutation primitive.
 */
module Pieces {
  import opened Wrappers
  import opened Coordinates

  datatype Color = White | Black

  datatype PieceType = Pawn | Rook | Knight | Bishop | Queen | King

  /** A piece never changes; a move relocates the value. */
  datatype Piece = Piece(color: Color, pieceType: PieceType)

  datatype Player = WhitePlayer | BlackPlayer

  /** Only InProgress is ever set; Check and GameOver are declared but never derived. */
  datatype GameState = InProgress | Check | GameOver

  /** 64 optional pieces, indexed by square. */
  type Board = b: seq<Option<Piece>> | |b| == 64 witness seq(64, _ => None)

  /** The colour a player moves. */
  function ColorOf(p: Player): Color {
    if p == WhitePlayer then White else Black
  }

  /** The colour selected by the engine's `white` flag. */
  function ColorOfFlag(white: bool): Color {
    if white then White else Black
  }

  /** The other player: what changing turns does. */
  function Opponent(p: Player): (q: Player)
    ensures q != p
    ensures ColorOf(q) != ColorOf(p)
  {
    match p
    case WhitePlayer => BlackPlayer
    case BlackPlayer => WhitePlayer
  }

  /** Changing turns twice gives the turn back. */
  lemma OpponentInvolution(p: Player)
    ensures Opponent(Opponent(p)) == p
  {
  }

  /** The occupant of an on-board square. */
  function At(b: Board, rc: Coord): Option<Piece>
    requires OnBoard(rc)
  {
    b[rc.0 * 8 + rc.1]
  }

  /** The square holds a piece of the given colour. */
  predicate HoldsColor(b: Board, rc: Coord, color: Color)
    requires OnBoard(rc)
  {
    At(b, rc).Some? && At(b, rc).value.color == color
  }

  /**
    Moving the occupant of `from` to `to`: the source is emptied first and the
    destination then overwritten, so a capture is an overwrite and a move onto
    the same square leaves the piece where it was.
   */
  function ApplyMove(b: Board, from: nat, to: nat): (r: Board)
    requires from < 64 && to < 64
    ensures r[to] == b[from]
    ensures from != to ==> r[from] == None
    ensures forall i :: 0 <= i < 64 && i != from && i != to ==> r[i] == b[i]
  {
    b[from := None][to := b[from]]
  }
}
