/**
  Square numbering and the conversions between a square index, a (row, column)
  pair and the algebraic name shown to the players ("a1" .. "h8").
  Square = row * 8 + column; row 0 is White's back rank.
 */
module Coordinates {
  import opened Wrappers

  /** A (row, column) pair, as the engine passes it around (two unsigned numbers). */
  type Coord = (nat, nat)

  predicate OnBoard(rc: Coord) {
    rc.0 < 8 && rc.1 < 8
  }

  /** The file letters, column 0 first. */
  const Files: string := "abcdefgh"

  /** Splits a square index into its row and column. */
  function SquareToRowColumn(square: nat): (rc: Coord)
    ensures rc.1 < 8 && rc.0 * 8 + rc.1 == square
    ensures OnBoard(rc) <==> square < 64
    ensures RowColumnToSquare(rc) == square
  {
    (square / 8, square % 8)
  }

  /**
    Joins a row and a column into a square index. The source treats row 0 as a
    special case (the column alone); the first ensures says that this case
    agrees with the general formula.
   */
  function RowColumnToSquare(rc: Coord): (square: nat)
    ensures square == rc.0 * 8 + rc.1
    ensures OnBoard(rc) <==> square < 64 && rc.1 < 8
  {
    if rc.0 == 0 then rc.1 else rc.0 * 8 + rc.1
  }

  lemma RowColumnRoundTrip(rc: Coord)
    requires OnBoard(rc)
    ensures RowColumnToSquare(rc) < 64
    ensures SquareToRowColumn(RowColumnToSquare(rc)) == rc
  {
    var s := RowColumnToSquare(rc);
    assert s == rc.0 * 8 + rc.1;
    assert s / 8 == rc.0 && s % 8 == rc.1;
  }

  /** The unit test `conversion`: square 10 is row 1, column 2. */
  lemma ConversionExample()
    ensures SquareToRowColumn(10) == (1, 2)
  {
  }

  /**
    The display form of a square: the file letter and the 1-based rank.
    A column outside 0..7 leaves the letter at its initial value ' '.
   */
  function ConvertRowColumnToOutput(row: nat, column: nat): (out: (char, nat))
    ensures out.1 == row + 1
    ensures column < 8 ==> ParseFile(out.0) == Some(column)
    ensures column >= 8 ==> out.0 == ' ' && ParseFile(out.0) == None
  {
    (if column < 8 then Files[column] else ' ', row + 1)
  }

  /** The column a file letter names, or None for any other character. */
  function ParseFile(letter: char): (column: Option<nat>)
    ensures column.Some? ==> column.value < 8 && Files[column.value] == letter
    ensures (exists k :: 0 <= k < 8 && Files[k] == letter) ==> column.Some?
  {
    match letter
    case 'a' => Some(0)
    case 'b' => Some(1)
    case 'c' => Some(2)
    case 'd' => Some(3)
    case 'e' => Some(4)
    case 'f' => Some(5)
    case 'g' => Some(6)
    case 'h' => Some(7)
    case _ => None
  }

  /** The decimal digit character for 0..9. */
  function DigitChar(n: nat): (ch: char)
    requires n < 10
    ensures '0' <= ch <= '9'
  {
    ('0' as int + n) as char
  }

  /**
    The pure part of reading a square typed by a player: the first character
    selects the column (anything but a..h, or a missing character, leaves it 0),
    the second the row as digit - 1 (a non-digit or a missing character leaves it 0).
    The digit '0' makes the unsigned subtraction underflow; that case is None.
   */
  function ParseSquare(input: string): (rc: Option<Coord>)
    ensures rc.Some? ==> rc.value.0 <= 8 && rc.value.1 < 8
    ensures rc.None? <==> |input| > 1 && input[1] == '0'
    ensures rc.Some? && |input| > 0 && ParseFile(input[0]).Some? ==> Files[rc.value.1] == input[0]
    ensures rc.Some? && (|input| == 0 || ParseFile(input[0]).None?) ==> rc.value.1 == 0
    ensures rc.Some? && |input| > 1 && '1' <= input[1] <= '9' ==> DigitChar(rc.value.0 + 1) == input[1]
    ensures (|input| < 2 || !('0' <= input[1] <= '9')) ==> rc.Some? && rc.value.0 == 0
  {
    var column := if |input| > 0 && ParseFile(input[0]).Some? then ParseFile(input[0]).value else 0;
    if |input| > 1 && '0' <= input[1] <= '9' then
      if input[1] == '0' then None
      else Some(((input[1] as int - '1' as int) as nat, column))
    else Some((0, column))
  }

  /** Only the first two characters of the typed text matter. */
  lemma ParseSquareReadsTwoCharacters(input: string)
    requires |input| >= 2
    ensures ParseSquare(input) == ParseSquare(input[..2])
  {
  }

  /** Printing a square and reading the printed text back gives the same square. */
  lemma OutputParsesBack(row: nat, column: nat)
    requires row < 8 && column < 8
    ensures var out := ConvertRowColumnToOutput(row, column);
            ParseSquare([out.0, DigitChar(out.1)]) == Some((row, column))
  {
    var out := ConvertRowColumnToOutput(row, column);
    assert ParseFile(out.0) == Some(column);
    var input := [out.0, DigitChar(out.1)];
    assert input[1] as int == '0' as int + row + 1;
  }
}
