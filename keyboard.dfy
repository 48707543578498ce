/**
 * The on-screen keyboard of the round screen (src/typing_session.cpp, displayKeyboard):
 * two fixed three-row layouts, each key a label and a column offset inside the
 * 50-column frame, and the search that picks the key to highlight.
 */
module Keyboard {
  import opened Common

  datatype Key = Key(face: char, column: int)

  /** A highlighted key: its row (1 to 3, below the frame's top line) and its column offset. */
  datatype Hit = Hit(row: nat, column: int)

  const FrameWidth: int := 50

  const RuRow1: seq<Key> := [
    Key('Й', 2), Key('Ц', 6), Key('У', 10), Key('К', 14), Key('Е', 18), Key('Н', 22),
    Key('Г', 26), Key('Ш', 30), Key('Щ', 34), Key('З', 38), Key('Х', 42), Key('Ъ', 46)]
  const RuRow2: seq<Key> := [
    Key('Ф', 4), Key('Ы', 8), Key('В', 12), Key('А', 16), Key('П', 20), Key('Р', 24),
    Key('О', 28), Key('Л', 32), Key('Д', 36), Key('Ж', 40), Key('Э', 44)]
  const RuRow3: seq<Key> := [
    Key('Я', 6), Key('Ч', 10), Key('С', 14), Key('М', 18), Key('И', 22), Key('Т', 26),
    Key('Ь', 30), Key('Б', 34), Key('Ю', 38)]

  const EnRow1: seq<Key> := [
    Key('Q', 2), Key('W', 6), Key('E', 10), Key('R', 14), Key('T', 18), Key('Y', 22),
    Key('U', 26), Key('I', 30), Key('O', 34), Key('P', 38), Key('[', 42), Key(']', 46)]
  const EnRow2: seq<Key> := [
    Key('A', 4), Key('S', 8), Key('D', 12), Key('F', 16), Key('G', 20), Key('H', 24),
    Key('J', 28), Key('K', 32), Key('L', 36), Key(';', 40), Key('\'', 44)]
  const EnRow3: seq<Key> := [
    Key('Z', 6), Key('X', 10), Key('C', 14), Key('V', 18), Key('B', 22), Key('N', 26),
    Key('M', 30), Key(',', 34), Key('.', 38)]

  function Layout(isRussian: bool): (rows: seq<seq<Key>>)
    ensures |rows| == 3
  {
    if isRussian then [RuRow1, RuRow2, RuRow3] else [EnRow1, EnRow2, EnRow3]
  }

  /** Every key of a layout, as (row, index in the row) -> face, is a different character. */
  ghost predicate DistinctKeys(rows: seq<seq<Key>>)
  {
    forall r1, i1, r2, i2 ::
      (0 <= r1 < |rows| && 0 <= r2 < |rows| && 0 <= i1 < |rows[r1]| && 0 <= i2 < |rows[r2]| &&
       rows[r1][i1].face == rows[r2][i2].face) ==> r1 == r2 && i1 == i2
  }

  /** Column offsets strictly increase along the row and stay inside the frame's border columns. */
  ghost predicate WellPlaced(row: seq<Key>)
  {
    && (forall i :: 0 <= i < |row| ==> 2 <= row[i].column <= FrameWidth - 4)
    && (forall i :: 0 <= i < |row| - 1 ==> row[i].column < row[i + 1].column)
  }

  /** Proof helper: numbers every key of the Cyrillic layout by 100 * row + index. */
  ghost function RuCode(c: char): int
  {
    match c
    case 'Й' => 0 case 'Ц' => 1 case 'У' => 2 case 'К' => 3 case 'Е' => 4 case 'Н' => 5
    case 'Г' => 6 case 'Ш' => 7 case 'Щ' => 8 case 'З' => 9 case 'Х' => 10 case 'Ъ' => 11
    case 'Ф' => 100 case 'Ы' => 101 case 'В' => 102 case 'А' => 103 case 'П' => 104 case 'Р' => 105
    case 'О' => 106 case 'Л' => 107 case 'Д' => 108 case 'Ж' => 109 case 'Э' => 110
    case 'Я' => 200 case 'Ч' => 201 case 'С' => 202 case 'М' => 203 case 'И' => 204 case 'Т' => 205
    case 'Ь' => 206 case 'Б' => 207 case 'Ю' => 208
    case _ => -1
  }

  /** Proof helper: numbers every key of the Latin layout by 100 * row + index. */
  ghost function EnCode(c: char): int
  {
    match c
    case 'Q' => 0 case 'W' => 1 case 'E' => 2 case 'R' => 3 case 'T' => 4 case 'Y' => 5
    case 'U' => 6 case 'I' => 7 case 'O' => 8 case 'P' => 9 case '[' => 10 case ']' => 11
    case 'A' => 100 case 'S' => 101 case 'D' => 102 case 'F' => 103 case 'G' => 104 case 'H' => 105
    case 'J' => 106 case 'K' => 107 case 'L' => 108 case ';' => 109 case '\'' => 110
    case 'Z' => 200 case 'X' => 201 case 'C' => 202 case 'V' => 203 case 'B' => 204 case 'N' => 205
    case 'M' => 206 case ',' => 207 case '.' => 208
    case _ => -1
  }

  /** A layout whose faces are numbered injectively by row and index has no repeated key. */
  lemma CodedKeysDistinct(rows: seq<seq<Key>>, code: char -> int)
    requires forall r, i :: 0 <= r < |rows| && 0 <= i < |rows[r]| ==> code(rows[r][i].face) == 100 * r + i
    requires forall r :: 0 <= r < |rows| ==> |rows[r]| <= 100
    ensures DistinctKeys(rows)
  {
    forall r1, i1, r2, i2 |
      0 <= r1 < |rows| && 0 <= r2 < |rows| && 0 <= i1 < |rows[r1]| && 0 <= i2 < |rows[r2]| &&
      rows[r1][i1].face == rows[r2][i2].face
      ensures r1 == r2 && i1 == i2
    {
      assert 100 * r1 + i1 == 100 * r2 + i2;
    }
  }

  lemma RuRowsCoded()
    ensures forall i :: 0 <= i < |RuRow1| ==> RuCode(RuRow1[i].face) == i
    ensures forall i :: 0 <= i < |RuRow2| ==> RuCode(RuRow2[i].face) == 100 + i
    ensures forall i :: 0 <= i < |RuRow3| ==> RuCode(RuRow3[i].face) == 200 + i
  {
  }

  lemma EnRowsCoded()
    ensures forall i :: 0 <= i < |EnRow1| ==> EnCode(EnRow1[i].face) == i
    ensures forall i :: 0 <= i < |EnRow2| ==> EnCode(EnRow2[i].face) == 100 + i
    ensures forall i :: 0 <= i < |EnRow3| ==> EnCode(EnRow3[i].face) == 200 + i
  {
  }

  /** Both tables: no key occurs twice, so at most one key can match the expected character. */
  lemma LayoutsDistinct(isRussian: bool)
    ensures DistinctKeys(Layout(isRussian))
  {
    var rows := Layout(isRussian);
    if isRussian {
      RuRowsCoded();
      CodedKeysDistinct(rows, RuCode);
    } else {
      EnRowsCoded();
      CodedKeysDistinct(rows, EnCode);
    }
  }

  /** A row whose keys are four columns apart, starting at `first`, fits the frame when its last key does. */
  lemma EvenlySpaced(row: seq<Key>, first: int)
    requires forall i :: 0 <= i < |row| ==> row[i].column == first + 4 * i
    requires 2 <= first && first + 4 * |row| <= FrameWidth
    ensures WellPlaced(row)
  {
  }

  /** Both tables: offsets increase along each row and stay within 2..46, inside the 50-wide frame. */
  lemma LayoutsWellPlaced(isRussian: bool)
    ensures forall r :: 0 <= r < 3 ==> WellPlaced(Layout(isRussian)[r])
  {
    if isRussian {
      EvenlySpaced(RuRow1, 2);
      EvenlySpaced(RuRow2, 4);
      EvenlySpaced(RuRow3, 6);
    } else {
      EvenlySpaced(EnRow1, 2);
      EvenlySpaced(EnRow2, 4);
      EvenlySpaced(EnRow3, 6);
    }
  }

  ghost predicate InRow(row: seq<Key>, c: char)
  {
    exists i :: 0 <= i < |row| && row[i].face == c
  }

  /** The column of the first key in the row whose face is `c`: the inner search loop, which stops at the first match. */
  function FirstMatch(row: seq<Key>, c: char): (m: Option<int>)
    ensures m.None? <==> !InRow(row, c)
    ensures m.Some? ==> exists i :: 0 <= i < |row| && row[i] == Key(c, m.value) &&
                                    forall k :: 0 <= k < i ==> row[k].face != c
  {
    if row == [] then None
    else if row[0].face == c then Some(row[0].column)
    else
      var m := FirstMatch(row[1..], c);
      if m.Some? then
        var i :| 0 <= i < |row[1..]| && row[1..][i] == Key(c, m.value) &&
                 forall k :: 0 <= k < i ==> row[1..][k].face != c;
        assert row[i + 1] == Key(c, m.value);
        m
      else
        assert forall i :: 1 <= i < |row| ==> row[i] == row[1..][i - 1];
        m
  }

  /** The keys highlighted when the rows are searched in order, each row stopping at its first match. */
  function Hits(rows: seq<seq<Key>>, c: char): seq<Hit>
    decreases |rows|
  {
    if rows == [] then []
    else
      var last := |rows| - 1;
      Hits(rows[..last], c) + match FirstMatch(rows[last], c) {
        case None => []
        case Some(x) => [Hit(last + 1, x)]
      }
  }

  /** A hit names a real key with face `c`, and there is a hit exactly when some row holds such a key. */
  lemma {:induction false} HitsSound(rows: seq<seq<Key>>, c: char)
    ensures forall h :: h in Hits(rows, c) ==> 1 <= h.row <= |rows| && Key(c, h.column) in rows[h.row - 1]
    ensures Hits(rows, c) == [] <==> forall r :: 0 <= r < |rows| ==> !InRow(rows[r], c)
    decreases |rows|
  {
    if rows != [] {
      var last := |rows| - 1;
      HitsSound(rows[..last], c);
      assert forall r :: 0 <= r < last ==> rows[..last][r] == rows[r];
      var m := FirstMatch(rows[last], c);
      if m.Some? {
        var i :| 0 <= i < |rows[last]| && rows[last][i] == Key(c, m.value) &&
                 forall k :: 0 <= k < i ==> rows[last][k].face != c;
        assert Key(c, m.value) in rows[last];
      }
    }
  }

  /** With no repeated key, at most one key is highlighted. */
  lemma {:induction false} HitsAtMostOne(rows: seq<seq<Key>>, c: char)
    requires DistinctKeys(rows)
    ensures |Hits(rows, c)| <= 1
    decreases |rows|
  {
    if rows != [] {
      var last := |rows| - 1;
      var front := rows[..last];
      assert forall r :: 0 <= r < last ==> front[r] == rows[r];
      assert DistinctKeys(front);
      HitsAtMostOne(front, c);
      if FirstMatch(rows[last], c).Some? {
        var i :| 0 <= i < |rows[last]| && rows[last][i].face == c;
        assert forall r :: 0 <= r < last ==> !InRow(front[r], c);
        HitsSound(front, c);
      }
    }
  }

  /**
   * The highlight search over the rows in order: each row is scanned for `c` and the scan
   * of a row stops at its first match.
   */
  method SearchRows(rows: seq<seq<Key>>, c: char) returns (hits: seq<Hit>)
    ensures hits == Hits(rows, c)
  {
    hits := [];
    var r := 0;
    while r < |rows|
      invariant 0 <= r <= |rows|
      invariant hits == Hits(rows[..r], c)
    {
      var row := rows[r];
      var j := 0;
      while j < |row|
        invariant 0 <= j <= |row|
        invariant forall k :: 0 <= k < j ==> row[k].face != c
      {
        if row[j].face == c {
          hits := hits + [Hit(r + 1, row[j].column)];
          break;
        }
        j := j + 1;
      }
      assert rows[..r + 1][..r] == rows[..r];
      r := r + 1;
    }
    assert rows[..r] == rows;
  }

  /**
   * The highlight of displayKeyboard: the chosen layout is searched for the upper-cased
   * expected character. At most one key lights up, and one does exactly when the
   * character is on the layout.
   */
  method HighlightKey(isRussian: bool, upper: char) returns (hits: seq<Hit>)
    ensures hits == Hits(Layout(isRussian), upper)
    ensures |hits| <= 1
    ensures |hits| == 1 <==> exists r :: 0 <= r < 3 && InRow(Layout(isRussian)[r], upper)
    ensures forall h :: h in hits ==> 1 <= h.row <= 3 && Key(upper, h.column) in Layout(isRussian)[h.row - 1]
  {
    var rows := Layout(isRussian);
    hits := SearchRows(rows, upper);
    LayoutsDistinct(isRussian);
    HitsAtMostOne(rows, upper);
    HitsSound(rows, upper);
  }
}
