/**
  Worked positions for the engine variant: the pieces of the starting
  position that cannot move at all, a king stepping next to an enemy rook,
  the starting position, where White has a legal move, and a back-rank mate.
 */
module Positions {
  import opened Wrappers
  import opened Coordinates
  import opened Pieces
  import opened MoveRules
  import opened Legality
  import opened Engine

  // ---------------------------------------------------------------------
  // Pieces boxed in by their own side.
  // ---------------------------------------------------------------------

  /** Every square in the row of `from` and in the rows next to it holds a piece of `color`. */
  ghost predicate Surrounded(b: Board, from: Coord, color: Color) {
    forall m: Coord :: OnBoard(m) && (m.0 == from.0 || m.0 + 1 == from.0 || m.0 == from.0 + 1) ==>
      HoldsColor(b, m, color)
  }

  /** A rook, bishop or queen surrounded by its own side has no destination: every ray stops at once. */
  lemma {:induction false} SurroundedSliderIsStuck(b: Board, from: Coord, directions: seq<Offset>, color: Color)
    requires OnBoard(from) && Surrounded(b, from, color)
    requires forall k :: 0 <= k < |directions| ==> IsDirection(directions[k])
    ensures SlidingMoves(b, from, directions, color) == []
  {
    if directions != [] {
      var n := |directions| - 1;
      var d := directions[n];
      SurroundedSliderIsStuck(b, from, directions[..n], color);
      if InBounds(from.0 + d.0, from.1 + d.1) {
        assert HoldsColor(b, Target(from, d), color);
      }
    }
  }

  /** Targets that all hold a piece of `color` are all dropped by the second pass. */
  lemma {:induction false} OwnTargetsDropped(b: Board, targets: seq<Coord>, color: Color)
    requires forall k :: 0 <= k < |targets| ==> OnBoard(targets[k]) && HoldsColor(b, targets[k], color)
    ensures KeepEnterable(b, targets, color) == []
  {
    if targets != [] {
      OwnTargetsDropped(b, targets[..|targets| - 1], color);
    }
  }

  /** A king surrounded by its own side has no destination. */
  lemma SurroundedKingIsStuck(b: Board, from: Coord, color: Color)
    requires OnBoard(from) && Surrounded(b, from, color)
    ensures StepMoves(b, from, KingOffsets, color) == []
  {
    var targets := OnBoardTargets(from, KingOffsets);
    OnBoardTargetsMembers(from, KingOffsets);
    forall j | 0 <= j < |targets|
      ensures OnBoard(targets[j]) && HoldsColor(b, targets[j], color)
    {
      var k :| 0 <= k < |KingOffsets| && Lands(from, KingOffsets[k], targets[j]);
      assert -1 <= KingOffsets[k].0 <= 1;
    }
    OwnTargetsDropped(b, targets, color);
  }

  /** In the starting position both back ranks are surrounded by their own side. */
  lemma InitialBackRanksSurrounded(column: nat)
    requires column < 8
    ensures Surrounded(InitialBoard(), (0, column), White)
    ensures Surrounded(InitialBoard(), (7, column), Black)
  {
    var b := InitialBoard();
    forall m: Coord | OnBoard(m) && (m.0 == 0 || m.0 + 1 == 0 || m.0 == 1)
      ensures HoldsColor(b, m, White)
    {
      assert m.0 * 8 + m.1 < 16;
    }
    forall m: Coord | OnBoard(m) && (m.0 == 7 || m.0 + 1 == 7 || m.0 == 8)
      ensures HoldsColor(b, m, Black)
    {
      assert 48 <= m.0 * 8 + m.1;
    }
  }

  /** In the starting position the king has no destination. */
  lemma OpeningKingMoves()
    ensures PossibleMoves(InitialBoard(), 4, true) == []
  {
    InitialBackRanksSurrounded(4);
    SurroundedKingIsStuck(InitialBoard(), (0, 4), White);
  }

  /** In the starting position the queen's bishop has no destination. */
  lemma OpeningBishopMoves()
    ensures PossibleMoves(InitialBoard(), 2, true) == []
  {
    DirectionTables();
    InitialBackRanksSurrounded(2);
    SurroundedSliderIsStuck(InitialBoard(), (0, 2), BishopDirections, White);
  }

  /** In the starting position the queen has no destination. */
  lemma OpeningQueenMoves()
    ensures PossibleMoves(InitialBoard(), 3, true) == []
  {
    DirectionTables();
    InitialBackRanksSurrounded(3);
    SurroundedSliderIsStuck(InitialBoard(), (0, 3), QueenDirections, White);
  }

  // ---------------------------------------------------------------------
  // A king next to an enemy rook.
  // ---------------------------------------------------------------------

  /** White king on a1 (square 0), Black rook on b8 (square 57), nothing else. */
  function KingAndRook(): Board {
    seq(64, i requires 0 <= i < 64 =>
      if i == 0 then Some(Piece(White, King))
      else if i == 57 then Some(Piece(Black, Rook))
      else None)
  }

  /** The same board without the rook. */
  function KingAlone(): Board {
    seq(64, i requires 0 <= i < 64 => if i == 0 then Some(Piece(White, King)) else None)
  }

  /** Scanning down an empty column reaches a piece of the other side on row 0. */
  lemma {:induction false} RayDownReachesRowZero(b: Board, r: nat, c: nat, color: Color)
    requires r < 8 && c < 8
    requires forall k :: 1 <= k <= r ==> At(b, (k, c)) == None
    requires At(b, (0, c)).Some? && At(b, (0, c)).value.color != color
    ensures (0, c) in Ray(b, r, c, (-1, 0), color)
  {
    if r > 0 {
      RayDownReachesRowZero(b, r - 1, c, color);
      assert Ray(b, r, c, (-1, 0), color) == [(r, c)] + Ray(b, r - 1, c, (-1, 0), color);
    }
  }

  /** A rook on row 7 reaches a piece of the other side on row 0 of its column when the squares between are empty. */
  lemma RookReachesDownFile(b: Board, c: nat, color: Color)
    requires c < 8
    requires forall k :: 1 <= k <= 6 ==> At(b, (k, c)) == None
    requires At(b, (0, c)).Some? && At(b, (0, c)).value.color != color
    ensures (0, c) in SlidingMoves(b, (7, c), RookDirections, color)
  {
    RayDownReachesRowZero(b, 6, c, color);
    DirectionTables();
    SlidingMovesMembers(b, (7, c), RookDirections, color);
    assert RookDirections[1] == (-1, 0);
  }

  /** After the king's step to b1 the rook on b8 reaches b1 down the open b-file. */
  lemma RookReachesB1()
    ensures (0, 1) in PossibleMoves(ApplyMove(KingAndRook(), 0, 1), 57, false)
  {
    var sim := ApplyMove(KingAndRook(), 0, 1);
    assert sim[1] == Some(Piece(White, King)) && sim[57] == Some(Piece(Black, Rook));
    forall k | 1 <= k <= 6
      ensures At(sim, (k, 1)) == None
    {
      assert 1 < k * 8 + 1 < 57;
    }
    RookReachesDownFile(sim, 1, Black);
    assert PossibleMoves(sim, 57, false) == SlidingMoves(sim, (7, 1), RookDirections, Black);
  }

  /** The king may not step from a1 to b1: the rook reaches b1 down the open b-file. */
  lemma KingCannotStepOntoRookFile()
    ensures !IsLegal(KingAndRook(), WhitePlayer, (0, 0), (0, 1))
  {
    var b := KingAndRook();
    var sim := Simulate(b, (0, 0), (0, 1));
    assert sim == ApplyMove(b, 0, 1);
    assert sim[1] == Some(Piece(White, King)) && sim[57] == Some(Piece(Black, Rook));
    LegalMeansKingSafe(b, WhitePlayer, (0, 0), (0, 1), 1);
    RookReachesB1();
    assert RowColumnToSquare((0, 1)) == 1;
    assert Attacks(sim, 57, White, 1);
  }

  /** A rook's destinations lie on its own row or its own column. */
  lemma RookStaysOnLines(b: Board, from: Coord, color: Color)
    ensures forall m :: m in SlidingMoves(b, from, RookDirections, color) ==> m.0 == from.0 || m.1 == from.1
  {
    DirectionTables();
    var dirs := RookDirections;
    SlidingMovesMembers(b, from, dirs, color);
    forall m | m in SlidingMoves(b, from, dirs, color)
      ensures m.0 == from.0 || m.1 == from.1
    {
      var k :| 0 <= k < |dirs| && m in Ray(b, from.0 + dirs[k].0, from.1 + dirs[k].1, dirs[k], color);
      RayIsAhead(b, from.0 + dirs[k].0, from.1 + dirs[k].1, dirs[k], color);
    }
  }

  /** After the king's step to a2 the rook on b8 does not reach a2. */
  lemma RookMissesA2()
    ensures forall m :: m in PossibleMoves(ApplyMove(KingAndRook(), 0, 8), 57, false) ==> RowColumnToSquare(m) != 8
  {
    var sim := ApplyMove(KingAndRook(), 0, 8);
    assert sim[57] == Some(Piece(Black, Rook));
    assert PossibleMoves(sim, 57, false) == SlidingMoves(sim, (7, 1), RookDirections, Black);
    RookStaysOnLines(sim, (7, 1), Black);
  }

  /** The king may step from a1 to a2: the rook reaches only its own file and rank. */
  lemma KingMayStepOffRookFile()
    ensures IsLegal(KingAndRook(), WhitePlayer, (0, 0), (1, 0))
  {
    var b := KingAndRook();
    var sim := Simulate(b, (0, 0), (1, 0));
    assert sim == ApplyMove(b, 0, 8);
    assert sim[8] == Some(Piece(White, King));
    assert forall j :: 0 <= j < 64 && j != 57 ==> sim[j].None? || sim[j].value.color == White;
    RookMissesA2();
    LegalMeansKingSafe(b, WhitePlayer, (0, 0), (1, 0), 8);
  }

  /** Without the rook the step from a1 to b1 is legal. */
  lemma KingMayStepWithoutRook()
    ensures IsLegal(KingAlone(), WhitePlayer, (0, 0), (0, 1))
  {
    var b := KingAlone();
    var sim := Simulate(b, (0, 0), (0, 1));
    assert sim == ApplyMove(b, 0, 1);
    assert sim[1] == Some(Piece(White, King));
    LegalMeansKingSafe(b, WhitePlayer, (0, 0), (0, 1), 1);
  }

  // ---------------------------------------------------------------------
  // The starting position is not checkmate.
  // ---------------------------------------------------------------------

  /**
    While Black's two ranks are as in the starting position, no Black piece
    on them reaches a row below 4: the pawns step down one or two rows, the
    knights two at most, and the king and the sliding pieces are boxed in.
   */
  lemma BlackMovesStayHigh(b: Board, i: nat)
    requires 48 <= i < 64
    requires forall j :: 48 <= j < 64 ==> b[j] == InitialBoard()[j]
    ensures forall m :: m in PossibleMoves(b, i, false) ==> m.0 >= 4
  {
    DirectionTables();
    var rc := SquareToRowColumn(i);
    if i < 56 {
      assert b[i] == Some(Piece(Black, Pawn)) && rc.0 == 6;
      forall m | m in PawnMoves(b, rc, Black)
        ensures m.0 >= 4
      {
        PawnMovesShape(b, rc, Black, m);
      }
    } else {
      assert rc == (7, i - 56);
      assert Surrounded(b, rc, Black) by {
        forall m: Coord | OnBoard(m) && (m.0 == 7 || m.0 + 1 == 7 || m.0 == 8)
          ensures HoldsColor(b, m, Black)
        {
          assert 48 <= m.0 * 8 + m.1;
        }
      }
      var t := BackRank(i - 56);
      assert b[i] == Some(Piece(Black, t));
      if t == Knight {
        StepMovesExact(b, rc, KnightOffsets, Black);
        forall m | m in StepMoves(b, rc, KnightOffsets, Black)
          ensures m.0 >= 4
        {
          var k :| 0 <= k < |KnightOffsets| && Lands(rc, KnightOffsets[k], m);
          assert KnightOffsets[k].0 >= -2;
        }
      } else if t == King {
        SurroundedKingIsStuck(b, rc, Black);
      } else if t == Rook {
        SurroundedSliderIsStuck(b, rc, RookDirections, Black);
      } else if t == Bishop {
        SurroundedSliderIsStuck(b, rc, BishopDirections, Black);
      } else {
        assert t == Queen;
        SurroundedSliderIsStuck(b, rc, QueenDirections, Black);
      }
    }
  }

  /**
    In the starting position White is not checkmated: the knight's move from
    b1 to c3 passes the filter, since no Black piece reaches the king on e1.
   */
  lemma InitialNotCheckmate()
    ensures HasLegalMove(InitialBoard(), WhitePlayer)
  {
    var b := InitialBoard();
    var sim := Simulate(b, (0, 1), (2, 2));
    assert sim == ApplyMove(b, 1, 18);
    InitialPosition();
    assert IsKingOf(sim[4], White);
    forall i | 0 <= i < 64
      ensures !Attacks(sim, i, White, 4)
    {
      if i >= 48 {
        BlackMovesStayHigh(sim, i);
      }
    }
    LegalMeansKingSafe(b, WhitePlayer, (0, 1), (2, 2), 4);
    OpeningKnightMoves();
    assert (2, 2) in PossibleMoves(b, 1, true);
    assert HasLegalMoveAt(b, WhitePlayer, 1);
    HasLegalMoveBelowExists(b, WhitePlayer, 64);
  }

  // ---------------------------------------------------------------------
  // A back-rank mate.
  // ---------------------------------------------------------------------

  /** White king on a1 (square 0), White pawns on a2 and b2 (8, 9), Black rook on h1 (7). */
  function BackRankMate(): Board {
    seq(64, i requires 0 <= i < 64 =>
      if i == 0 then Some(Piece(White, King))
      else if i == 8 || i == 9 then Some(Piece(White, Pawn))
      else if i == 7 then Some(Piece(Black, Rook))
      else None)
  }

  /** Scanning leftwards along row 0 over empty squares reaches a piece of the other side on column k. */
  lemma {:induction false} RayLeftReaches(b: Board, c: nat, k: nat, color: Color)
    requires k <= c < 8
    requires forall j :: k < j <= c ==> At(b, (0, j)) == None
    requires At(b, (0, k)).Some? && At(b, (0, k)).value.color != color
    ensures (0, k) in Ray(b, 0, c, (0, -1), color)
    decreases c - k
  {
    if c > k {
      RayLeftReaches(b, c - 1, k, color);
      assert Ray(b, 0, c, (0, -1), color) == [(0, c)] + Ray(b, 0, c - 1, (0, -1), color);
    }
  }

  /**
    A White move that leaves White's last king on row 0 at column k, with a
    Black rook on h1 and only empty squares between them, fails the filter.
   */
  lemma RookOnH1Checks(b: Board, from: Coord, to: Coord, k: nat)
    requires OnBoard(from) && OnBoard(to) && k < 7
    requires IsKingOf(Simulate(b, from, to)[k], White)
    requires forall j :: k < j < 64 ==> !IsKingOf(Simulate(b, from, to)[j], White)
    requires forall j :: k < j < 7 ==> Simulate(b, from, to)[j] == None
    requires Simulate(b, from, to)[7] == Some(Piece(Black, Rook))
    ensures !IsLegal(b, WhitePlayer, from, to)
  {
    var sim := Simulate(b, from, to);
    LegalMeansKingSafe(b, WhitePlayer, from, to, k);
    RayLeftReaches(sim, 6, k, Black);
    DirectionTables();
    SlidingMovesMembers(sim, (0, 7), RookDirections, Black);
    assert RookDirections[3] == (0, -1);
    assert (0, k) in PossibleMoves(sim, 7, false);
    assert RowColumnToSquare((0, k)) == k;
    assert Attacks(sim, 7, White, k);
  }

  /** In the mate position the king's only destination is b1, where the rook still reaches it. */
  lemma MatedKingHasNoLegalMove()
    ensures forall m :: m in PossibleMoves(BackRankMate(), 0, true) ==> !IsLegal(BackRankMate(), WhitePlayer, (0, 0), m)
  {
    var b := BackRankMate();
    assert b[0] == Some(Piece(White, King));
    StepMovesExact(b, (0, 0), KingOffsets, White);
    forall m | m in PossibleMoves(b, 0, true)
      ensures !IsLegal(b, WhitePlayer, (0, 0), m)
    {
      var k :| 0 <= k < |KingOffsets| && Lands((0, 0), KingOffsets[k], m);
      assert b[8] == Some(Piece(White, Pawn)) && b[9] == Some(Piece(White, Pawn));
      assert m == (0, 1);
      var sim := ApplyMove(b, 0, 1);
      assert Simulate(b, (0, 0), m) == sim;
      assert sim[1] == Some(Piece(White, King)) && sim[7] == Some(Piece(Black, Rook));
      RookOnH1Checks(b, (0, 0), m, 1);
    }
  }

  /** In the mate position every pawn move leaves row 0 as it was, so the king stays in check. */
  lemma MatedPawnHasNoLegalMove(c: nat)
    requires c < 2
    ensures forall m :: m in PossibleMoves(BackRankMate(), 8 + c, true) ==> !IsLegal(BackRankMate(), WhitePlayer, (1, c), m)
  {
    var b := BackRankMate();
    assert b[8 + c] == Some(Piece(White, Pawn));
    assert SquareToRowColumn(8 + c) == (1, c);
    forall m | m in PossibleMoves(b, 8 + c, true)
      ensures !IsLegal(b, WhitePlayer, (1, c), m)
    {
      PawnMovesShape(b, (1, c), White, m);
      var to := RowColumnToSquare(m);
      assert 16 <= to < 64;
      var sim := ApplyMove(b, 8 + c, to);
      assert Simulate(b, (1, c), m) == sim;
      assert sim[0] == Some(Piece(White, King)) && sim[7] == Some(Piece(Black, Rook));
      assert sim[to] == Some(Piece(White, Pawn));
      RookOnH1Checks(b, (1, c), m, 0);
    }
  }

  /**
    The back-rank mate: the king on a1 is in check from the rook on h1, its
    pawns block a2 and b2, and b1 is covered too, so White has no move that
    passes the filter and the checkmate test is true.
   */
  lemma BackRankMateIsCheckmate()
    ensures !HasLegalMove(BackRankMate(), WhitePlayer)
  {
    var b := BackRankMate();
    HasLegalMoveBelowExists(b, WhitePlayer, 64);
    forall i | 0 <= i < 64
      ensures !HasLegalMoveAt(b, WhitePlayer, i)
    {
      if i == 0 {
        MatedKingHasNoLegalMove();
      } else if i == 8 {
        MatedPawnHasNoLegalMove(0);
      } else if i == 9 {
        MatedPawnHasNoLegalMove(1);
      }
    }
  }
}
