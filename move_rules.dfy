/**
  The pseudo-legal movement rules as pure functions over a board. Each function
  returns the destinations in the order the engine produces them; the generator
  methods (module MoveGen and the Game classes) are proved to compute exactly
  these sequences, and the lemmas below state what the sequences contain.
 */
module MoveRules {
  import opened Wrappers
  import opened Coordinates
  import opened Pieces

  /** A (row, column) step, signed. */
  type Offset = (int, int)

  const KingOffsets: seq<Offset> :=
    [(1, -1), (1, 0), (1, 1), (0, -1), (0, 1), (-1, -1), (-1, 0), (-1, 1)]

  const KnightOffsets: seq<Offset> :=
    [(2, -1), (2, 1), (1, -2), (1, 2), (-1, -2), (-1, 2), (-2, -1), (-2, 1)]

  const RookDirections: seq<Offset> := [(1, 0), (-1, 0), (0, 1), (0, -1)]

  const BishopDirections: seq<Offset> := [(1, 1), (1, -1), (-1, 1), (-1, -1)]

  /** The queen scans the rook's four directions and then the bishop's four. */
  const QueenDirections: seq<Offset> := RookDirections + BishopDirections

  /** The pawn's table depends on the colour it is generated for: two diagonals, one step, two steps. */
  function PawnOffsets(color: Color): seq<Offset> {
    if color == Black then [(-1, 1), (-1, 0), (-1, -1), (-2, 0)]
    else [(1, 1), (1, 0), (1, -1), (2, 0)]
  }

  /** The bounds test every generator applies to a signed candidate. */
  predicate InBounds(r: int, c: int) {
    -1 < r < 8 && -1 < c < 8
  }

  /** Stepping by `d` from `from` arrives at `m`. */
  predicate Lands(from: Coord, d: Offset, m: Coord) {
    from.0 + d.0 == m.0 && from.1 + d.1 == m.1
  }

  function Target(from: Coord, d: Offset): (m: Coord)
    requires InBounds(from.0 + d.0, from.1 + d.1)
    ensures OnBoard(m) && Lands(from, d, m)
  {
    ((from.0 + d.0) as nat, (from.1 + d.1) as nat)
  }

  /** A piece generated for `color` may end here: on the board and not holding a piece of `color`. */
  predicate Enterable(b: Board, m: Coord, color: Color) {
    OnBoard(m) && !HoldsColor(b, m, color)
  }

  // ---------------------------------------------------------------------
  // King and knight: a fixed table of offsets, filtered twice.
  // ---------------------------------------------------------------------

  /** The first pass: the table's targets that lie on the board, in table order. */
  function OnBoardTargets(from: Coord, offsets: seq<Offset>): (r: seq<Coord>)
    ensures forall k :: 0 <= k < |r| ==> OnBoard(r[k])
    ensures |r| <= |offsets|
  {
    if offsets == [] then []
    else
      var d := offsets[|offsets| - 1];
      var prefix := OnBoardTargets(from, offsets[..|offsets| - 1]);
      if InBounds(from.0 + d.0, from.1 + d.1) then prefix + [Target(from, d)] else prefix
  }

  /** The second pass: drop the targets that hold a piece of `color`. */
  function KeepEnterable(b: Board, targets: seq<Coord>, color: Color): (r: seq<Coord>)
    requires forall k :: 0 <= k < |targets| ==> OnBoard(targets[k])
    ensures forall k :: 0 <= k < |r| ==> Enterable(b, r[k], color)
  {
    if targets == [] then []
    else
      var m := targets[|targets| - 1];
      var prefix := KeepEnterable(b, targets[..|targets| - 1], color);
      if Enterable(b, m, color) then prefix + [m] else prefix
  }

  /** The second pass keeps exactly the targets a piece of `color` may enter. */
  lemma {:induction false} KeepEnterableMembers(b: Board, targets: seq<Coord>, color: Color)
    requires forall k :: 0 <= k < |targets| ==> OnBoard(targets[k])
    ensures forall m :: m in KeepEnterable(b, targets, color) <==> m in targets && Enterable(b, m, color)
  {
    if targets != [] {
      var n := |targets| - 1;
      KeepEnterableMembers(b, targets[..n], color);
      assert targets == targets[..n] + [targets[n]];
    }
  }

  /** The destinations of a king or knight generated for `color`. */
  function StepMoves(b: Board, from: Coord, offsets: seq<Offset>, color: Color): (r: seq<Coord>)
    ensures forall k :: 0 <= k < |r| ==> Enterable(b, r[k], color)
  {
    KeepEnterable(b, OnBoardTargets(from, offsets), color)
  }

  lemma {:induction false} OnBoardTargetsMembers(from: Coord, offsets: seq<Offset>)
    ensures forall m :: m in OnBoardTargets(from, offsets) <==>
      OnBoard(m) && exists k :: 0 <= k < |offsets| && Lands(from, offsets[k], m)
  {
    if offsets != [] {
      var n := |offsets| - 1;
      OnBoardTargetsMembers(from, offsets[..n]);
      forall m | OnBoard(m) && (exists k :: 0 <= k < |offsets| && Lands(from, offsets[k], m))
        ensures m in OnBoardTargets(from, offsets)
      {
        var k :| 0 <= k < |offsets| && Lands(from, offsets[k], m);
        if k < n {
          assert offsets[..n][k] == offsets[k];
        }
      }
      forall m | m in OnBoardTargets(from, offsets)
        ensures exists k :: 0 <= k < |offsets| && Lands(from, offsets[k], m)
      {
        if m in OnBoardTargets(from, offsets[..n]) {
          var k :| 0 <= k < n && Lands(from, offsets[..n][k], m);
          assert Lands(from, offsets[k], m);
        } else {
          assert Lands(from, offsets[n], m);
        }
      }
    }
  }

  /**
    King and knight destinations are exactly the on-board targets of the
    offset table that do not hold a piece of the colour generated for.
   */
  lemma StepMovesExact(b: Board, from: Coord, offsets: seq<Offset>, color: Color)
    ensures forall m :: m in StepMoves(b, from, offsets, color) <==>
      Enterable(b, m, color) && exists k :: 0 <= k < |offsets| && Lands(from, offsets[k], m)
  {
    OnBoardTargetsMembers(from, offsets);
    KeepEnterableMembers(b, OnBoardTargets(from, offsets), color);
  }

  // ---------------------------------------------------------------------
  // Rook, bishop and queen: rays scanned until the first occupied square.
  // ---------------------------------------------------------------------

  /** One of the eight unit directions. */
  predicate IsDirection(d: Offset) {
    -1 <= d.0 <= 1 && -1 <= d.1 <= 1 && d != (0, 0)
  }

  /** How many steps a scan in direction `d` from (r, c) can still take: the termination measure. */
  function StepsLeft(r: int, c: int, d: Offset): nat {
    if d.0 == 1 then (if r < 8 then 8 - r else 0)
    else if d.0 == -1 then (if r >= 0 then r + 1 else 0)
    else if d.1 == 1 then (if c < 8 then 8 - c else 0)
    else if c >= 0 then c + 1 else 0
  }

  /**
    The scan of one direction, starting at (r, c): empty squares are taken and
    the scan goes on; the first occupied square ends it, and is taken only when
    its piece is not of `color`.
   */
  function Ray(b: Board, r: int, c: int, d: Offset, color: Color): (s: seq<Coord>)
    requires IsDirection(d)
    ensures forall k :: 0 <= k < |s| ==> Enterable(b, s[k], color)
    decreases StepsLeft(r, c, d)
  {
    if !InBounds(r, c) then []
    else
      var here: Coord := (r as nat, c as nat);
      match At(b, here)
      case None => [here] + Ray(b, r + d.0, c + d.1, d, color)
      case Some(p) => if p.color == color then [] else [here]
  }

  /** The scans of the given directions, each starting one step away from `from`, in table order. */
  function SlidingMoves(b: Board, from: Coord, directions: seq<Offset>, color: Color): (r: seq<Coord>)
    requires forall k :: 0 <= k < |directions| ==> IsDirection(directions[k])
    ensures forall k :: 0 <= k < |r| ==> Enterable(b, r[k], color)
  {
    if directions == [] then []
    else
      var d := directions[|directions| - 1];
      SlidingMoves(b, from, directions[..|directions| - 1], color)
        + Ray(b, from.0 + d.0, from.1 + d.1, d, color)
  }

  /** `m` lies at or beyond (r, c) in direction `d`, never behind it. */
  predicate Ahead(m: Coord, r: int, c: int, d: Offset) {
    && (d.0 == 0 ==> m.0 == r) && (d.0 > 0 ==> m.0 >= r) && (d.0 < 0 ==> m.0 <= r)
    && (d.1 == 0 ==> m.1 == c) && (d.1 > 0 ==> m.1 >= c) && (d.1 < 0 ==> m.1 <= c)
  }

  /** The coordinate reached from `x` after `k` steps of `delta`. */
  function Walk(x: int, delta: int, k: nat): int
    decreases k
  {
    if k == 0 then x else Walk(x + delta, delta, k - 1)
  }

  /** A ray is a run of adjacent squares: its k-th square is k steps in direction `d` from (r, c). */
  lemma {:induction false} RayIsContiguous(b: Board, r: int, c: int, d: Offset, color: Color)
    requires IsDirection(d)
    ensures forall k :: 0 <= k < |Ray(b, r, c, d, color)| ==>
      Ray(b, r, c, d, color)[k].0 == Walk(r, d.0, k) && Ray(b, r, c, d, color)[k].1 == Walk(c, d.1, k)
    decreases StepsLeft(r, c, d)
  {
    var s := Ray(b, r, c, d, color);
    if InBounds(r, c) {
      var here: Coord := (r as nat, c as nat);
      if At(b, here) == None {
        RayIsContiguous(b, r + d.0, c + d.1, d, color);
        var t := Ray(b, r + d.0, c + d.1, d, color);
        assert s == [here] + t;
        forall k | 0 <= k < |s|
          ensures s[k].0 == Walk(r, d.0, k) && s[k].1 == Walk(c, d.1, k)
        {
          if k > 0 {
            assert s[k] == t[k - 1];
          }
        }
      }
    }
  }

  /** A ray moves away from its start: no square of it lies behind (r, c). */
  lemma {:induction false} RayIsAhead(b: Board, r: int, c: int, d: Offset, color: Color)
    requires IsDirection(d)
    ensures forall k :: 0 <= k < |Ray(b, r, c, d, color)| ==> Ahead(Ray(b, r, c, d, color)[k], r, c, d)
    decreases StepsLeft(r, c, d)
  {
    var s := Ray(b, r, c, d, color);
    if InBounds(r, c) {
      var here: Coord := (r as nat, c as nat);
      if At(b, here) == None {
        RayIsAhead(b, r + d.0, c + d.1, d, color);
        var t := Ray(b, r + d.0, c + d.1, d, color);
        assert s == [here] + t;
        forall k | 0 <= k < |s|
          ensures Ahead(s[k], r, c, d)
        {
          if k > 0 {
            assert s[k] == t[k - 1];
            assert Ahead(t[k - 1], r + d.0, c + d.1, d);
          }
        }
      }
    }
  }

  /** Nothing beyond the first occupied square: every square of a ray but its last is empty. */
  lemma {:induction false} RayStopsAtFirstPiece(b: Board, r: int, c: int, d: Offset, color: Color)
    requires IsDirection(d)
    ensures forall k :: 0 <= k < |Ray(b, r, c, d, color)| - 1 ==> At(b, Ray(b, r, c, d, color)[k]) == None
    decreases StepsLeft(r, c, d)
  {
    var s := Ray(b, r, c, d, color);
    if InBounds(r, c) {
      var here: Coord := (r as nat, c as nat);
      if At(b, here) == None {
        RayStopsAtFirstPiece(b, r + d.0, c + d.1, d, color);
        var t := Ray(b, r + d.0, c + d.1, d, color);
        assert s == [here] + t;
        forall k | 0 <= k < |s| - 1
          ensures At(b, s[k]) == None
        {
          if k > 0 {
            assert s[k] == t[k - 1];
          } else {
            assert s[0] == here;
          }
        }
      }
    }
  }

  /** Where a scan that produced `s` from (r, c) looks next. */
  function NextSquare(s: seq<Coord>, r: int, c: int, d: Offset): (int, int) {
    if s == [] then (r, c) else (s[|s| - 1].0 + d.0, s[|s| - 1].1 + d.1)
  }

  /**
    A ray is as long as it may be: unless it ended by taking a piece, the
    square after it is off the board or holds a piece of `color`.
   */
  lemma {:induction false} RayIsMaximal(b: Board, r: int, c: int, d: Offset, color: Color)
    requires IsDirection(d)
    ensures var s := Ray(b, r, c, d, color);
      var n := NextSquare(s, r, c, d);
      (s == [] || At(b, s[|s| - 1]) == None) ==>
        !InBounds(n.0, n.1) || HoldsColor(b, (n.0 as nat, n.1 as nat), color)
    decreases StepsLeft(r, c, d)
  {
    var s := Ray(b, r, c, d, color);
    if InBounds(r, c) {
      var here: Coord := (r as nat, c as nat);
      match At(b, here)
      case None =>
        RayIsMaximal(b, r + d.0, c + d.1, d, color);
        var t := Ray(b, r + d.0, c + d.1, d, color);
        assert s == [here] + t;
        if t == [] {
          assert NextSquare(s, r, c, d) == (r + d.0, c + d.1);
        } else {
          assert s[|s| - 1] == t[|t| - 1];
        }
      case Some(p) =>
        if p.color == color {
          assert s == [] && HoldsColor(b, here, color);
        } else {
          assert s == [here];
        }
    }
  }

  /** The sliding destinations are exactly the union of the rays of the direction table. */
  lemma {:induction false} SlidingMovesMembers(b: Board, from: Coord, directions: seq<Offset>, color: Color)
    requires forall k :: 0 <= k < |directions| ==> IsDirection(directions[k])
    ensures forall m :: m in SlidingMoves(b, from, directions, color) <==>
      exists k :: 0 <= k < |directions| &&
        m in Ray(b, from.0 + directions[k].0, from.1 + directions[k].1, directions[k], color)
  {
    if directions != [] {
      var n := |directions| - 1;
      var pre := directions[..n];
      SlidingMovesMembers(b, from, pre, color);
      forall m | m in SlidingMoves(b, from, directions, color)
        ensures exists k ::
          0 <= k < |directions| && m in Ray(b, from.0 + directions[k].0, from.1 + directions[k].1, directions[k], color)
      {
        if m in SlidingMoves(b, from, pre, color) {
          var k :| 0 <= k < n && m in Ray(b, from.0 + pre[k].0, from.1 + pre[k].1, pre[k], color);
          assert pre[k] == directions[k];
        }
      }
      forall m, k | 0 <= k < |directions| &&
          m in Ray(b, from.0 + directions[k].0, from.1 + directions[k].1, directions[k], color)
        ensures m in SlidingMoves(b, from, directions, color)
      {
        if k < n {
          assert pre[k] == directions[k];
        }
      }
    }
  }

  /** No sliding destination is the square the scans start from. */
  lemma SlidingMovesAvoidSource(b: Board, from: Coord, directions: seq<Offset>, color: Color)
    requires forall k :: 0 <= k < |directions| ==> IsDirection(directions[k])
    ensures from !in SlidingMoves(b, from, directions, color)
  {
    SlidingMovesMembers(b, from, directions, color);
    forall k | 0 <= k < |directions|
      ensures from !in Ray(b, from.0 + directions[k].0, from.1 + directions[k].1, directions[k], color)
    {
      RayIsAhead(b, from.0 + directions[k].0, from.1 + directions[k].1, directions[k], color);
    }
  }

  // ---------------------------------------------------------------------
  // Pawn.
  // ---------------------------------------------------------------------

  /**
    Whether the pawn takes offset `d`: on the board, and then either the square
    holds a piece not of `color` and the offset is diagonal, or the square is
    empty and the offset is straight. An offset of +2 rows additionally needs
    the pawn on row 1 or row 6; the Black table's -2 is not +2, so it falls into
    the straight-step case and has no row condition. The square in between is
    never looked at.
   */
  predicate PawnTakes(b: Board, from: Coord, d: Offset, color: Color) {
    InBounds(from.0 + d.0, from.1 + d.1) &&
    match At(b, Target(from, d))
    case Some(p) => color != p.color && d.1 != 0
    case None => if d.0 == 2 then from.0 == 1 || from.0 == 6 else d.1 == 0
  }

  /** The table's offsets the pawn takes, as squares, in table order. */
  function PawnTargets(b: Board, from: Coord, offsets: seq<Offset>, color: Color): (r: seq<Coord>)
    ensures forall k :: 0 <= k < |r| ==> OnBoard(r[k])
  {
    if offsets == [] then []
    else
      var d := offsets[|offsets| - 1];
      var prefix := PawnTargets(b, from, offsets[..|offsets| - 1], color);
      if PawnTakes(b, from, d, color) then prefix + [Target(from, d)] else prefix
  }

  /** The destinations of a pawn generated for `color`. */
  function PawnMoves(b: Board, from: Coord, color: Color): (r: seq<Coord>)
    ensures forall k :: 0 <= k < |r| ==> OnBoard(r[k])
  {
    PawnTargets(b, from, PawnOffsets(color), color)
  }

  lemma {:induction false} PawnTargetsMembers(b: Board, from: Coord, offsets: seq<Offset>, color: Color)
    ensures forall m :: m in PawnTargets(b, from, offsets, color) <==>
      exists k :: 0 <= k < |offsets| && PawnTakes(b, from, offsets[k], color) && Lands(from, offsets[k], m)
  {
    if offsets != [] {
      var n := |offsets| - 1;
      var pre := offsets[..n];
      PawnTargetsMembers(b, from, pre, color);
      forall m | m in PawnTargets(b, from, offsets, color)
        ensures exists k :: 0 <= k < |offsets| && PawnTakes(b, from, offsets[k], color) && Lands(from, offsets[k], m)
      {
        if m in PawnTargets(b, from, pre, color) {
          var k :| 0 <= k < n && PawnTakes(b, from, pre[k], color) && Lands(from, pre[k], m);
          assert pre[k] == offsets[k];
        } else {
          assert PawnTakes(b, from, offsets[n], color) && Lands(from, offsets[n], m);
        }
      }
      forall m, k | 0 <= k < |offsets| && PawnTakes(b, from, offsets[k], color) && Lands(from, offsets[k], m)
        ensures m in PawnTargets(b, from, offsets, color)
      {
        if k < n {
          assert pre[k] == offsets[k];
        } else {
          assert Target(from, offsets[k]) == m;
        }
      }
    }
  }

  /**
    What a pawn destination can be: one row forward for White (+1) or Black (-1),
    or two; a change of column only onto a piece not of `color`, a straight
    step only onto an empty square; White's two-row step only from row 1.
   */
  lemma PawnMovesShape(b: Board, from: Coord, color: Color, m: Coord)
    requires m in PawnMoves(b, from, color)
    ensures OnBoard(m) && m != from
    ensures color == White ==> m.0 == from.0 + 1 || (m.0 == from.0 + 2 && from.0 == 1)
    ensures color == Black ==> m.0 == from.0 - 1 || m.0 == from.0 - 2
    ensures m.1 != from.1 ==> At(b, m).Some? && At(b, m).value.color != color
    ensures m.1 == from.1 ==> At(b, m).None?
    ensures m.1 == from.1 + 1 || m.1 == from.1 || m.1 + 1 == from.1
  {
    PawnTargetsMembers(b, from, PawnOffsets(color), color);
    var offsets := PawnOffsets(color);
    var k :| 0 <= k < |offsets| && PawnTakes(b, from, offsets[k], color) && Lands(from, offsets[k], m);
    assert Target(from, offsets[k]) == m;
  }

  /**
    Every table entry the pawn takes is a destination. In particular a Black
    pawn steps two rows onto any empty on-board square, from any row, and
    neither colour's two-row step looks at the square in between.
   */
  lemma PawnMovesComplete(b: Board, from: Coord, color: Color, k: nat)
    requires k < 4 && PawnTakes(b, from, PawnOffsets(color)[k], color)
    ensures Target(from, PawnOffsets(color)[k]) in PawnMoves(b, from, color)
  {
    PawnTargetsMembers(b, from, PawnOffsets(color), color);
  }

  /** Black's two-row step needs only an empty target square: the row of the pawn is not checked. */
  lemma BlackDoubleStepFromAnyRow(b: Board, from: Coord)
    requires 2 <= from.0 < 8 && from.1 < 8
    requires At(b, (from.0 - 2, from.1)) == None
    ensures (from.0 - 2, from.1) in PawnMoves(b, from, Black)
  {
    assert PawnOffsets(Black)[3] == (-2, 0);
    PawnMovesComplete(b, from, Black, 3);
  }

  /** White's two-row step from row 1 needs only an empty target: a piece on row 2 does not block it. */
  lemma WhiteDoubleStepJumps(b: Board, column: nat)
    requires column < 8
    requires At(b, (3, column)) == None
    ensures (3, column) in PawnMoves(b, (1, column), White)
  {
    assert PawnOffsets(White)[3] == (2, 0);
    PawnMovesComplete(b, (1, column), White, 3);
  }

  // ---------------------------------------------------------------------
  // Dispatch on the piece type.
  // ---------------------------------------------------------------------

  lemma DirectionTables()
    ensures forall k :: 0 <= k < |RookDirections| ==> IsDirection(RookDirections[k])
    ensures forall k :: 0 <= k < |BishopDirections| ==> IsDirection(BishopDirections[k])
    ensures forall k :: 0 <= k < |QueenDirections| ==> IsDirection(QueenDirections[k])
  {
  }

  /**
    The pseudo-legal destinations of the piece on square `from`, generated for
    the colour the `white` flag selects (not the piece's own colour).
    An empty square has none.
   */
  function PossibleMoves(b: Board, from: nat, white: bool): (r: seq<Coord>)
    requires from < 64
    ensures forall k :: 0 <= k < |r| ==> OnBoard(r[k])
  {
    DirectionTables();
    var color := ColorOfFlag(white);
    var rc := SquareToRowColumn(from);
    match b[from]
    case None => []
    case Some(p) =>
      match p.pieceType
      case King => StepMoves(b, rc, KingOffsets, color)
      case Knight => StepMoves(b, rc, KnightOffsets, color)
      case Rook => SlidingMoves(b, rc, RookDirections, color)
      case Queen => SlidingMoves(b, rc, QueenDirections, color)
      case Bishop => SlidingMoves(b, rc, BishopDirections, color)
      case Pawn => PawnMoves(b, rc, color)
  }

  /**
    Every destination is on the board, differs from the source, and does not
    hold a piece of the colour passed in; an empty source square has none.
   */
  lemma PossibleMovesSound(b: Board, from: nat, white: bool)
    requires from < 64
    ensures b[from] == None ==> PossibleMoves(b, from, white) == []
    ensures forall m :: m in PossibleMoves(b, from, white) ==>
      OnBoard(m) && RowColumnToSquare(m) != from && !HoldsColor(b, m, ColorOfFlag(white))
  {
    DirectionTables();
    var color := ColorOfFlag(white);
    var rc := SquareToRowColumn(from);
    var r := PossibleMoves(b, from, white);
    forall m | m in r
      ensures OnBoard(m) && RowColumnToSquare(m) != from && !HoldsColor(b, m, color)
    {
      var p := b[from].value;
      match p.pieceType {
        case King =>
          StepMovesExact(b, rc, KingOffsets, color);
        case Knight =>
          StepMovesExact(b, rc, KnightOffsets, color);
        case Rook =>
          SlidingMovesAvoidSource(b, rc, RookDirections, color);
        case Queen =>
          SlidingMovesAvoidSource(b, rc, QueenDirections, color);
        case Bishop =>
          SlidingMovesAvoidSource(b, rc, BishopDirections, color);
        case Pawn =>
          PawnMovesShape(b, rc, color, m);
          if m.1 == rc.1 { assert At(b, m).None?; }
      }
      assert m != rc;
    }
  }
}
