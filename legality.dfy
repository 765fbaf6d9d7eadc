/**
  The legality filter and the checkmate test as functions of a board and the
  side to move. A move is legal when, after it is played on a copy of the
  board, no piece of the other side has a pseudo-legal destination on the
  mover's king square. "Checkmate" means the side to move has no legal move
  at all, so a stalemate also counts as checkmate.
 */
module Legality {
  import opened Wrappers
  import opened Coordinates
  import opened Pieces
  import opened MoveRules

  predicate IsKingOf(slot: Option<Piece>, color: Color) {
    slot == Some(Piece(color, King))
  }

  /** The result of scanning squares 0 .. n-1 for a king of `color`, keeping the last one seen; 0 when none is seen. */
  function KingSquareBelow(b: Board, color: Color, n: nat): (k: nat)
    requires n <= 64
    ensures k < 64
  {
    if n == 0 then 0
    else if IsKingOf(b[n - 1], color) then n - 1
    else KingSquareBelow(b, color, n - 1)
  }

  /** Where the filter looks for the mover's king. */
  function KingSquare(b: Board, color: Color): nat {
    KingSquareBelow(b, color, 64)
  }

  /** The scan finds the highest-numbered king of `color`, and defaults to square 0 when there is none. */
  lemma {:induction false} KingSquareIsLastKing(b: Board, color: Color, n: nat)
    requires n <= 64
    ensures (exists j :: 0 <= j < n && IsKingOf(b[j], color)) ==>
      KingSquareBelow(b, color, n) < n && IsKingOf(b[KingSquareBelow(b, color, n)], color) &&
      forall j :: KingSquareBelow(b, color, n) < j < n ==> !IsKingOf(b[j], color)
    ensures (forall j :: 0 <= j < n ==> !IsKingOf(b[j], color)) ==> KingSquareBelow(b, color, n) == 0
  {
    if n > 0 && !IsKingOf(b[n - 1], color) {
      KingSquareIsLastKing(b, color, n - 1);
    }
  }

  /**
    The piece on square i is not of `color`, and its pseudo-legal moves,
    generated for the side other than `color`, include square `target`.
   */
  predicate Attacks(b: Board, i: nat, color: Color, target: nat)
    requires i < 64
  {
    b[i].Some? && b[i].value.color != color &&
    exists m :: m in PossibleMoves(b, i, color == Black) && RowColumnToSquare(m) == target
  }

  /** The board after `player` moves from `from` to `to`. */
  function Simulate(b: Board, from: Coord, to: Coord): Board
    requires OnBoard(from) && OnBoard(to)
  {
    ApplyMove(b, RowColumnToSquare(from), RowColumnToSquare(to))
  }

  /** The move leaves no piece of the other side reaching the square found for the mover's king. */
  predicate IsLegal(b: Board, player: Player, from: Coord, to: Coord)
    requires OnBoard(from) && OnBoard(to)
  {
    var sim := Simulate(b, from, to);
    var color := ColorOf(player);
    !exists i :: 0 <= i < 64 && Attacks(sim, i, color, KingSquare(sim, color))
  }

  /**
    When the mover still has a king after the move, the move is legal exactly
    when that king's square (the highest-numbered one, if several) is out of
    reach of every piece of the other side.
   */
  lemma LegalMeansKingSafe(b: Board, player: Player, from: Coord, to: Coord, king: nat)
    requires OnBoard(from) && OnBoard(to) && king < 64
    requires IsKingOf(Simulate(b, from, to)[king], ColorOf(player))
    requires forall j :: king < j < 64 ==> !IsKingOf(Simulate(b, from, to)[j], ColorOf(player))
    ensures IsLegal(b, player, from, to) <==>
      forall i :: 0 <= i < 64 ==> !Attacks(Simulate(b, from, to), i, ColorOf(player), king)
  {
    var sim := Simulate(b, from, to);
    KingSquareIsLastKing(sim, ColorOf(player), 64);
    assert KingSquare(sim, ColorOf(player)) == king;
  }

  /** The moves of `moves` that pass the filter for a piece on square `from`, in order. */
  function LegalFilter(b: Board, player: Player, from: nat, moves: seq<Coord>): (r: seq<Coord>)
    requires from < 64
    requires forall k :: 0 <= k < |moves| ==> OnBoard(moves[k])
    ensures forall k :: 0 <= k < |r| ==> OnBoard(r[k])
    ensures |r| <= |moves|
  {
    if moves == [] then []
    else
      var m := moves[|moves| - 1];
      var prefix := LegalFilter(b, player, from, moves[..|moves| - 1]);
      if IsLegal(b, player, SquareToRowColumn(from), m) then prefix + [m] else prefix
  }

  /** The filter keeps exactly the moves that are legal. */
  lemma {:induction false} LegalFilterMembers(b: Board, player: Player, from: nat, moves: seq<Coord>)
    requires from < 64
    requires forall k :: 0 <= k < |moves| ==> OnBoard(moves[k])
    ensures forall m :: m in LegalFilter(b, player, from, moves) <==>
      m in moves && OnBoard(m) && IsLegal(b, player, SquareToRowColumn(from), m)
  {
    if moves != [] {
      var n := |moves| - 1;
      LegalFilterMembers(b, player, from, moves[..n]);
      assert moves == moves[..n] + [moves[n]];
    }
  }

  /** `a` is `b` with some elements dropped and the rest kept in their order. */
  predicate Subsequence<T(==)>(a: seq<T>, b: seq<T>)
    decreases |b|
  {
    if b == [] then a == []
    else
      (a != [] && a[|a| - 1] == b[|b| - 1] && Subsequence(a[..|a| - 1], b[..|b| - 1])) ||
      Subsequence(a, b[..|b| - 1])
  }

  /** The filter only drops candidates: what it keeps comes in the candidates' order. */
  lemma {:induction false} LegalFilterKeepsOrder(b: Board, player: Player, from: nat, moves: seq<Coord>)
    requires from < 64
    requires forall k :: 0 <= k < |moves| ==> OnBoard(moves[k])
    ensures Subsequence(LegalFilter(b, player, from, moves), moves)
  {
    if moves != [] {
      var n := |moves| - 1;
      var prefix := LegalFilter(b, player, from, moves[..n]);
      LegalFilterKeepsOrder(b, player, from, moves[..n]);
      if IsLegal(b, player, SquareToRowColumn(from), moves[n]) {
        var r := prefix + [moves[n]];
        assert r[..|r| - 1] == prefix;
      }
    }
  }

  /** Square i holds a piece of the side to move. */
  predicate OwnPiece(b: Board, i: nat, player: Player)
    requires i < 64
  {
    b[i].Some? && b[i].value.color == ColorOf(player)
  }

  /** The legal moves of the own pieces on squares 0 .. n-1: what the checkmate test accumulates. */
  function LegalMovesBelow(b: Board, player: Player, n: nat): seq<Coord>
    requires n <= 64
  {
    if n == 0 then []
    else
      LegalMovesBelow(b, player, n - 1) + LegalMovesAt(b, player, n - 1)
  }

  /** Square i holds an own piece with a pseudo-legal move that passes the filter. */
  predicate HasLegalMoveAt(b: Board, player: Player, i: nat)
    requires i < 64
  {
    OwnPiece(b, i, player) &&
    exists m :: m in PossibleMoves(b, i, player == WhitePlayer) && OnBoard(m) &&
      IsLegal(b, player, SquareToRowColumn(i), m)
  }

  /** Some own piece on a square below n has a pseudo-legal move that passes the filter. */
  predicate HasLegalMoveBelow(b: Board, player: Player, n: nat)
    requires n <= 64
  {
    n > 0 && (HasLegalMoveBelow(b, player, n - 1) || HasLegalMoveAt(b, player, n - 1))
  }

  /** HasLegalMoveBelow is the existence of a square below n with a legal move. */
  lemma {:induction false} HasLegalMoveBelowExists(b: Board, player: Player, n: nat)
    requires n <= 64
    ensures HasLegalMoveBelow(b, player, n) <==> exists i :: 0 <= i < n && HasLegalMoveAt(b, player, i)
  {
    if n > 0 {
      HasLegalMoveBelowExists(b, player, n - 1);
      if HasLegalMoveAt(b, player, n - 1) {
        assert 0 <= n - 1 < n && HasLegalMoveAt(b, player, n - 1);
      } else if HasLegalMoveBelow(b, player, n - 1) {
        var i :| 0 <= i < n - 1 && HasLegalMoveAt(b, player, i);
        assert 0 <= i < n && HasLegalMoveAt(b, player, i);
      } else {
        forall i | 0 <= i < n
          ensures !HasLegalMoveAt(b, player, i)
        {
        }
      }
    }
  }

  /** The side to move has at least one legal move. */
  predicate HasLegalMove(b: Board, player: Player) {
    HasLegalMoveBelow(b, player, 64)
  }

  /** The moves square i contributes to the accumulated list. */
  function LegalMovesAt(b: Board, player: Player, i: nat): seq<Coord>
    requires i < 64
  {
    if OwnPiece(b, i, player)
    then LegalFilter(b, player, i, PossibleMoves(b, i, player == WhitePlayer))
    else []
  }

  /** Square i contributes nothing exactly when it holds no own piece with a legal move. */
  lemma LegalMovesAtEmpty(b: Board, player: Player, i: nat)
    requires i < 64
    ensures LegalMovesAt(b, player, i) == [] <==> !HasLegalMoveAt(b, player, i)
  {
    if OwnPiece(b, i, player) {
      var moves := PossibleMoves(b, i, player == WhitePlayer);
      LegalFilterMembers(b, player, i, moves);
      var f := LegalFilter(b, player, i, moves);
      if f != [] {
        assert f[0] in f;
      }
    }
  }

  /** The accumulated list is empty exactly when no own piece below n has a legal move. */
  lemma {:induction false} LegalMovesBelowEmpty(b: Board, player: Player, n: nat)
    requires n <= 64
    ensures LegalMovesBelow(b, player, n) == [] <==> !HasLegalMoveBelow(b, player, n)
  {
    if n > 0 {
      LegalMovesBelowEmpty(b, player, n - 1);
      LegalMovesAtEmpty(b, player, n - 1);
      assert LegalMovesBelow(b, player, n) == LegalMovesBelow(b, player, n - 1) + LegalMovesAt(b, player, n - 1);
    }
  }
}
