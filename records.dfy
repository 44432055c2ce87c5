/** The records of the script: one per spreadsheet row whose first cell is not
    blank (`parseWorkbook`, app.js:310-334). */
module Records {
  import opened Wrappers
  import opened Text
  import Hex

  /** A spreadsheet row as read by position; a cell past the end is missing. */
  type Row = seq<string>

  /** One record: the first ten cells as text, the colour normalised from the
      eleventh, and the 1-based position of its row in the sheet. */
  datatype Script = Script(
    a: string, b: string, c: string, d: string, e: string,
    f: string, g: string, h: string, i: string, j: string,
    color: Option<string>, row: nat)

  /** The cell at position `n`, or `''` when the row is too short. */
  function Cell(row: Row, n: nat): string {
    if n < |row| then row[n] else ""
  }

  /** A row is kept when its first cell is not blank after trimming. */
  predicate Keep(row: Row) {
    Trim(Cell(row, 0)) != ""
  }

  /** The record built from the row at 1-based position `number`. */
  function RecordOf(row: Row, number: nat): Script {
    Script(Cell(row, 0), Cell(row, 1), Cell(row, 2), Cell(row, 3), Cell(row, 4),
           Cell(row, 5), Cell(row, 6), Cell(row, 7), Cell(row, 8), Cell(row, 9),
           Hex.NormalizeHex(Cell(row, 10)), number)
  }

  /** What one pass of the loop pushes for the row at position `number`. */
  function Pushed(row: Row, number: nat): (r: seq<Script>)
    ensures |r| <= 1
    ensures |r| == 1 <==> Keep(row)
    ensures |r| == 1 ==> r[0] == RecordOf(row, number)
  {
    if Keep(row) then [RecordOf(row, number)] else []
  }

  /** The records of a sheet, row by row in sheet order, as the loop of
      `parseWorkbook` pushes them: no more records than rows, each numbered
      with a position of the sheet. */
  function ParseRows(rows: seq<Row>): (out: seq<Script>)
    ensures |out| <= |rows|
    ensures forall k :: 0 <= k < |out| ==> 1 <= out[k].row <= |rows|
  {
    if rows == [] then []
    else
      var n := |rows| - 1;
      ParseRows(rows[..n]) + Pushed(rows[n], n + 1)
  }

  /** One more row pushes its record when it is kept. */
  lemma ParseRowsSnoc(rows: seq<Row>, n: nat)
    requires n < |rows|
    ensures ParseRows(rows[..n + 1]) == ParseRows(rows[..n]) + Pushed(rows[n], n + 1)
  {
    assert rows[..n + 1][..n] == rows[..n];
  }

  /** `s` is the record of the kept row of `rows` that it names. */
  predicate FromRow(rows: seq<Row>, s: Script) {
    && 1 <= s.row <= |rows|
    && Keep(rows[s.row - 1])
    && s == RecordOf(rows[s.row - 1], s.row)
  }

  /** A record of a prefix of the sheet is a record of the whole sheet. */
  lemma FromRowPrefix(rows: seq<Row>, n: nat, s: Script)
    requires n <= |rows| && FromRow(rows[..n], s)
    ensures FromRow(rows, s)
  {
    assert rows[..n][s.row - 1] == rows[s.row - 1];
  }

  /** Every record is the record of the kept row it names. */
  lemma {:induction false} ParseRowsSound(rows: seq<Row>)
    ensures forall k :: 0 <= k < |ParseRows(rows)| ==> FromRow(rows, ParseRows(rows)[k])
  {
    if rows != [] {
      var n := |rows| - 1;
      var prefix := rows[..n];
      ParseRowsSound(prefix);
      var front := ParseRows(prefix);
      var tail := Pushed(rows[n], n + 1);
      var out := ParseRows(rows);
      assert out == front + tail;
      forall k | 0 <= k < |out| ensures FromRow(rows, out[k]) {
        if k < |front| {
          assert out[k] == front[k];
          FromRowPrefix(rows, n, front[k]);
        } else {
          assert out[k] == tail[0];
        }
      }
    }
  }

  /** Row numbers strictly increase along the records. */
  lemma {:induction false} ParseRowsIncreasing(rows: seq<Row>)
    ensures forall k, l :: 0 <= k < l < |ParseRows(rows)| ==> ParseRows(rows)[k].row < ParseRows(rows)[l].row
  {
    if rows != [] {
      var n := |rows| - 1;
      var prefix := rows[..n];
      ParseRowsIncreasing(prefix);
      var front := ParseRows(prefix);
      var out := ParseRows(rows);
      forall k, l | 0 <= k < l < |out| ensures out[k].row < out[l].row {
        assert out[k] == front[k];
        if l < |front| {
          assert out[l] == front[l];
        }
      }
    }
  }

  /** Some record of `out` carries the row number `m`. */
  predicate Numbered(out: seq<Script>, m: nat) {
    exists k :: 0 <= k < |out| && out[k].row == m
  }

  lemma NumberedAppend(x: seq<Script>, y: seq<Script>, m: nat)
    ensures Numbered(x + y, m) <==> Numbered(x, m) || Numbered(y, m)
  {
    if Numbered(x + y, m) {
      var k :| 0 <= k < |x + y| && (x + y)[k].row == m;
      if k >= |x| {
        assert y[k - |x|].row == m;
      }
    }
    if Numbered(x, m) {
      var k :| 0 <= k < |x| && x[k].row == m;
      assert (x + y)[k].row == m;
    }
    if Numbered(y, m) {
      var k :| 0 <= k < |y| && y[k].row == m;
      assert (x + y)[k + |x|].row == m;
    }
  }

  /** Every kept row gives a record: the row at position `n` (0-based) is kept
      exactly when some record carries the number `n + 1`. */
  lemma {:induction false} ParseRowsComplete(rows: seq<Row>, n: nat)
    requires n < |rows|
    ensures Keep(rows[n]) <==> Numbered(ParseRows(rows), n + 1)
  {
    var last := |rows| - 1;
    var prefix := rows[..last];
    var front := ParseRows(prefix);
    var tail := Pushed(rows[last], last + 1);
    assert ParseRows(rows) == front + tail;
    NumberedAppend(front, tail, n + 1);
    NumberedPushed(rows[last], last + 1, n + 1);
    if n == last {
      NumberedBeyond(prefix, n + 1);
    } else {
      assert prefix[n] == rows[n];
      ParseRowsComplete(prefix, n);
    }
  }

  /** The row pushed for a row carries its number, when it is kept. */
  lemma NumberedPushed(row: Row, number: nat, m: nat)
    ensures Numbered(Pushed(row, number), m) <==> Keep(row) && m == number
  {
    if Keep(row) && m == number {
      assert Pushed(row, number)[0].row == m;
    }
  }

  /** No record of a sheet carries a number past its last row. */
  lemma NumberedBeyond(rows: seq<Row>, m: nat)
    requires m > |rows|
    ensures !Numbered(ParseRows(rows), m)
  {
  }

  /** Rows never share a record: two records with one row number are one record. */
  lemma ParseRowsUnique(rows: seq<Row>, k: nat, l: nat)
    requires k < |ParseRows(rows)| && l < |ParseRows(rows)|
    requires ParseRows(rows)[k].row == ParseRows(rows)[l].row
    ensures k == l
  {
    ParseRowsIncreasing(rows);
  }

  /** A blank first cell drops the row but still uses up its number: the
      next row keeps its own position. */
  lemma ParseRowsExample()
    ensures ParseRows([["", "x"], ["Alta"]]) ==
      [Script("Alta", "", "", "", "", "", "", "", "", "", None, 2)]
  {
    var rows: seq<Row> := [["", "x"], ["Alta"]];
    assert rows[..1] == [["", "x"]];
    assert rows[..1][..0] == [];
    assert Trim("") == "";
    assert !IsSpace('A');
    assert Trim("Alta") != "";
  }
}
