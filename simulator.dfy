/**
 * The helpers of `simulate_battleship_game.py`: the letter/number
 * coordinate parser and the text `print_board` prints for a board keyed by
 * `(x, y)` tuples. The printed lines are returned instead of printed.
 */
module Simulator {
  import opened Wrappers
  import opened PyStr
  import opened Connection

  const Letters := "ABCDE"
  const Header := "  A B C D E"

  /**
   * `coordinates(letter, number)`: the position of the upper-cased letter
   * as a substring of "ABCDE", and the number minus one. `None` where
   * `str.index` or `int` raises `ValueError`.
   */
  function Coordinates(letter: string, number: string): (r: Option<(int, int)>)
    ensures r.Some? ==> 0 <= r.value.0 < |Letters|
    ensures r.None? <==> Index(Letters, Upper(letter)).None? || ParseInt(number).None?
  {
    match Index(Letters, Upper(letter))
    case None => None
    case Some(x) =>
      match ParseInt(number)
      case None => None
      case Some(n) => Some((x, n - 1))
  }

  /** A single letter occurring in "ABCDE" is found at its own position: the letters differ. */
  lemma IndexOfLetter(x: nat)
    requires x < |Letters|
    ensures Index(Letters, [Letters[x]]) == Some(x)
  {
    var needle := [Letters[x]];
    assert OccursAt(Letters, needle, x);
    var r := Index(Letters, needle);
    assert r.Some?;
    assert Letters[r.value] == Letters[x] by {
      assert Letters[r.value..r.value + 1] == needle;
    }
  }

  /**
   * Column letters in either case and a 1-based row number give the
   * 0-based cell: `coordinates("c", "4") == (2, 3)`.
   */
  lemma CoordinatesOfCell(x: nat, n: int)
    requires x < |Letters|
    ensures Coordinates([Letters[x]], IntText(n)) == Some((x, n - 1))
    ensures Coordinates([LowerChar(Letters[x])], IntText(n)) == Some((x, n - 1))
  {
    IndexOfLetter(x);
    ParseIntText(n);
    UpperOfLetter(x);
    CoordinatesOfParts([Letters[x]], IntText(n), x, n);
    CoordinatesOfParts([LowerChar(Letters[x])], IntText(n), x, n);
  }

  /** Both cases of a column letter upper-case to the letter itself. */
  lemma UpperOfLetter(x: nat)
    requires x < |Letters|
    ensures Upper([Letters[x]]) == [Letters[x]]
    ensures Upper([LowerChar(Letters[x])]) == [Letters[x]]
  {
    assert 'A' <= Letters[x] <= 'E';
  }

  /** A found column and a parsed row give the cell, the row shifted to 0-based. */
  lemma CoordinatesOfParts(letter: string, number: string, x: nat, n: int)
    requires Index(Letters, Upper(letter)) == Some(x) && ParseInt(number) == Some(n)
    ensures Coordinates(letter, number) == Some((x, n - 1))
  {
  }

  /**
   * `str.index` searches for a substring, so "BC" gives column 1 and the
   * empty letter column 0; a letter outside "ABCDE" raises.
   */
  lemma SubstringLetters()
    ensures Coordinates("BC", "1") == Some((1, 0))
    ensures Coordinates("", "1") == Some((0, 0))
    ensures Coordinates("F", "1") == None
  {
    ParseOne();
    IndexOfPair();
    IndexOfEmpty();
    IndexOfOutsider();
    CoordinatesOfParts("BC", "1", 1, 1);
    CoordinatesOfParts("", "1", 0, 1);
  }

  lemma ParseOne()
    ensures ParseInt("1") == Some(1)
  {
    ParseIntText(1);
    assert IntText(1) == "1";
  }

  lemma IndexOfPair()
    ensures Index(Letters, Upper("BC")) == Some(1)
  {
    assert Upper("BC") == "BC";
    assert OccursAt(Letters, "BC", 1);
    assert Letters[0..2][0] == 'A';
  }

  lemma IndexOfEmpty()
    ensures Index(Letters, Upper("")) == Some(0)
  {
    assert Upper("") == "";
    assert OccursAt(Letters, "", 0);
  }

  lemma IndexOfOutsider()
    ensures Index(Letters, Upper("F")) == None
  {
    assert Upper("F") == "F";
    forall j | 0 <= j <= |Letters|
      ensures !OccursAt(Letters, "F", j)
    {
      if j < |Letters| {
        assert Letters[j..j + 1][0] == Letters[j];
      }
    }
  }

  /** The character `print_board` shows for cell `(x, y)`: the value's first letter, or ".". */
  function Glyph(board: map<BoardKey, Mark>, x: int, y: int): char
  {
    var k := CellKey(x, y);
    if k in board then MarkText(board[k])[0] else '.'
  }

  /** The four glyphs tell the four states of a cell apart. */
  lemma GlyphMeaning(board: map<BoardKey, Mark>, x: int, y: int)
    ensures Glyph(board, x, y) == '.' <==> CellKey(x, y) !in board
    ensures Glyph(board, x, y) == 'S' <==> CellKey(x, y) in board && board[CellKey(x, y)] == Ship
    ensures Glyph(board, x, y) == 'H' <==> CellKey(x, y) in board && board[CellKey(x, y)] == Hit
    ensures Glyph(board, x, y) == 'M' <==> CellKey(x, y) in board && board[CellKey(x, y)] == Miss
  {
  }

  /**
   * Row `y` as printed: the 1-based label and a space, then for each of the
   * five columns its glyph followed by a space.
   */
  predicate IsRow(board: map<BoardKey, Mark>, y: nat, row: string)
  {
    && |row| == 12
    && row[..2] == NatText(y + 1) + " "
    && forall x :: 0 <= x < 5 ==> row[2 * x + 2] == Glyph(board, x, y) && row[2 * x + 3] == ' '
  }

  /** The row is built with `row +=`, one glyph and a space per column. */
  method RenderRow(board: map<BoardKey, Mark>, y: nat) returns (row: string)
    requires y < 5
    ensures IsRow(board, y, row)
  {
    row := NatText(y + 1) + " ";
    assert |NatText(y + 1)| == 1;
    for x := 0 to 5
      invariant |row| == 2 * x + 2
      invariant row[..2] == NatText(y + 1) + " "
      invariant forall i :: 0 <= i < x ==> row[2 * i + 2] == Glyph(board, i, y) && row[2 * i + 3] == ' '
    {
      row := row + [Glyph(board, x, y), ' '];
    }
  }

  /** The lines of `print_board`: a blank line, the title, the header, five rows, a blank line. */
  predicate Printed(board: map<BoardKey, Mark>, title: string, lines: seq<string>)
  {
    && |lines| == 9
    && lines[0] == "" && lines[1] == title && lines[2] == Header && lines[8] == ""
    && var rows := lines[3..8];
       forall y :: 0 <= y < 5 ==> IsRow(board, y, rows[y])
  }

  method PrintBoard(board: map<BoardKey, Mark>, title: string) returns (lines: seq<string>)
    ensures Printed(board, title, lines)
  {
    var rows := [];
    for y := 0 to 5
      invariant |rows| == y
      invariant forall i :: 0 <= i < y ==> IsRow(board, i, rows[i])
    {
      var row := RenderRow(board, y);
      rows := rows + [row];
    }
    lines := ["", title, Header] + rows + [""];
    assert lines[3..8] == rows;
  }

  /**
   * The printed rows determine the board on the grid: two boards printed
   * alike hold the same marks at all 25 tuple keys.
   */
  lemma PrintedDeterminesGrid(b1: map<BoardKey, Mark>, b2: map<BoardKey, Mark>, title: string, lines: seq<string>)
    requires Printed(b1, title, lines) && Printed(b2, title, lines)
    ensures forall x, y :: 0 <= x < 5 && 0 <= y < 5 ==>
              (CellKey(x, y) in b1 <==> CellKey(x, y) in b2)
              && (CellKey(x, y) in b1 ==> b1[CellKey(x, y)] == b2[CellKey(x, y)])
  {
    forall x, y | 0 <= x < 5 && 0 <= y < 5
      ensures (CellKey(x, y) in b1 <==> CellKey(x, y) in b2)
              && (CellKey(x, y) in b1 ==> b1[CellKey(x, y)] == b2[CellKey(x, y)])
    {
      assert IsRow(b1, y, lines[3..8][y]) && IsRow(b2, y, lines[3..8][y]);
      assert Glyph(b1, x, y) == Glyph(b2, x, y);
      GlyphMeaning(b1, x, y);
      GlyphMeaning(b2, x, y);
    }
  }
}
