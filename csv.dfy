/**
 * The active-roster CSV export of script.js: every cell that holds a
 * double quote, a comma or a newline is wrapped in double quotes with its
 * own quotes doubled, cells are joined by commas and lines by newlines
 * under an unquoted header line. A reader for that format is defined
 * beside it, and the export is proved to read back as the table it came
 * from.
 */
module CsvExport {
  import opened Wrappers

  /** The characters of the test `/[",\n]/`. */
  predicate Special(c: char) {
    c == '"' || c == ',' || c == '\n'
  }

  predicate NeedsQuoting(v: string) {
    exists k :: 0 <= k < |v| && Special(v[k])
  }

  /** `v.replace(/"/g, '""')`. */
  function DoubleQuotes(v: string): string {
    if v == [] then []
    else (if v[0] == '"' then "\"\"" else [v[0]]) + DoubleQuotes(v[1..])
  }

  /** One exported cell. */
  function CsvCell(v: string): string {
    if NeedsQuoting(v) then "\"" + DoubleQuotes(v) + "\"" else v
  }

  /** A cell without special characters is written as it is; any other is wrapped in quotes. */
  lemma CellShape(v: string)
    ensures !NeedsQuoting(v) ==> CsvCell(v) == v
    ensures NeedsQuoting(v) ==> var cell := CsvCell(v); |cell| >= 2 && cell[0] == '"' && cell[|cell| - 1] == '"'
  {
  }

  /** The cells of one line, quoted where needed, joined by commas. */
  function Line(cells: seq<string>): string {
    if cells == [] then ""
    else if |cells| == 1 then CsvCell(cells[0])
    else CsvCell(cells[0]) + "," + Line(cells[1..])
  }

  /** The lines of a table joined by newlines. */
  function Lines(rows: seq<seq<string>>): string {
    if rows == [] then ""
    else if |rows| == 1 then Line(rows[0])
    else Line(rows[0]) + "\n" + Lines(rows[1..])
  }

  /** `headers.join(",")`: the header cells as they are, without quoting. */
  function JoinPlain(cells: seq<string>): string {
    if cells == [] then ""
    else if |cells| == 1 then cells[0]
    else cells[0] + "," + JoinPlain(cells[1..])
  }

  /** The keys of an active-roster row, in the order the rows are built with. */
  const Headers: seq<string> := ["id", "name", "team", "handicap", "email", "phone", "photo"]

  /**
   * `exportActiveCSV`: nothing when there are no rows, otherwise the
   * header line and one line per row.
   */
  function ExportCsv(rows: seq<seq<string>>): (csv: Option<string>)
    ensures csv.None? <==> rows == []
  {
    if rows == [] then None else Some(JoinPlain(Headers) + "\n" + Lines(rows))
  }

  // ---------------------------------------------------------------------
  // A reader for the exported format.

  /** An unquoted cell: everything up to the next comma or newline. */
  function ReadPlain(t: string): (r: (string, string))
    ensures |r.1| <= |t|
  {
    if t == [] || t[0] == ',' || t[0] == '\n' then ("", t)
    else var (c, rest) := ReadPlain(t[1..]); ([t[0]] + c, rest)
  }

  /**
   * The inside of a quoted cell, after its opening quote: a doubled quote
   * stands for one quote and a single quote closes the cell. An
   * unterminated cell runs to the end of the text.
   */
  function ReadQuoted(t: string): (r: (string, string))
    ensures |r.1| <= |t|
  {
    if t == [] then ("", [])
    else if t[0] == '"' then
      if |t| > 1 && t[1] == '"' then var (c, rest) := ReadQuoted(t[2..]); ("\"" + c, rest)
      else ("", t[1..])
    else var (c, rest) := ReadQuoted(t[1..]); ([t[0]] + c, rest)
  }

  function ReadCell(t: string): (r: (string, string))
    ensures |r.1| <= |t|
  {
    if t != [] && t[0] == '"' then ReadQuoted(t[1..]) else ReadPlain(t)
  }

  /** Puts a cell in front of the first row. */
  function AddCell(c: string, rows: seq<seq<string>>): seq<seq<string>>
    requires rows != []
  {
    [[c] + rows[0]] + rows[1..]
  }

  /**
   * The rows of a text: cells separated by commas, rows by newlines. Any
   * other character after a closing quote is skipped.
   */
  function ReadRows(t: string): (rows: seq<seq<string>>)
    ensures rows != []
    decreases |t|
  {
    var (c, rest) := ReadCell(t);
    if rest == [] then [[c]]
    else if rest[0] == '\n' then [[c]] + ReadRows(rest[1..])
    else AddCell(c, ReadRows(rest[1..]))
  }

  // ---------------------------------------------------------------------
  // Reading back what was exported.

  /** What may follow a cell: the end of the text, a comma or a newline. */
  predicate CellEnd(rest: string) {
    rest == [] || rest[0] == ',' || rest[0] == '\n'
  }

  lemma {:induction false} ReadPlainOf(v: string, rest: string)
    requires !NeedsQuoting(v) && CellEnd(rest)
    ensures ReadPlain(v + rest) == (v, rest)
  {
    if v != [] {
      assert !NeedsQuoting(v[1..]) by {
        forall k | 0 <= k < |v[1..]|
          ensures !Special(v[1..][k])
        {
          assert v[1..][k] == v[k + 1];
        }
      }
      assert ReadPlain(v[1..] + rest) == (v[1..], rest) by {
        ReadPlainOf(v[1..], rest);
      }
      assert ReadPlain(v + rest) == ([v[0]] + v[1..], rest) by {
        assert v + rest == [v[0]] + (v[1..] + rest);
        assert !Special(v[0]);
        assert (v + rest)[0] == v[0];
        assert (v + rest)[1..] == v[1..] + rest;
      }
      assert v == [v[0]] + v[1..];
    } else {
      assert v + rest == rest;
    }
  }

  lemma {:induction false} ReadQuotedOf(v: string, rest: string)
    requires CellEnd(rest)
    ensures ReadQuoted(DoubleQuotes(v) + "\"" + rest) == (v, rest)
  {
    var t := DoubleQuotes(v) + "\"" + rest;
    if v == [] {
      assert t == "\"" + rest;
    } else if v[0] == '"' {
      assert t == "\"\"" + (DoubleQuotes(v[1..]) + "\"" + rest);
      assert t[2..] == DoubleQuotes(v[1..]) + "\"" + rest;
      ReadQuotedOf(v[1..], rest);
      assert v == "\"" + v[1..];
    } else {
      assert t == [v[0]] + (DoubleQuotes(v[1..]) + "\"" + rest);
      assert t[1..] == DoubleQuotes(v[1..]) + "\"" + rest;
      ReadQuotedOf(v[1..], rest);
      assert v == [v[0]] + v[1..];
    }
  }

  /** A cell that opens with a quote is read as a quoted cell. */
  lemma OpenQuote(inner: string)
    ensures ReadCell("\"" + inner) == ReadQuoted(inner)
  {
    var t := "\"" + inner;
    assert t[0] == '"' && t[1..] == inner;
  }

  lemma QuotedCellReads(v: string, rest: string)
    requires CellEnd(rest)
    ensures ReadCell("\"" + (DoubleQuotes(v) + "\"" + rest)) == (v, rest)
  {
    OpenQuote(DoubleQuotes(v) + "\"" + rest);
    ReadQuotedOf(v, rest);
  }

  lemma PlainCellReads(v: string, rest: string)
    requires !NeedsQuoting(v) && CellEnd(rest)
    ensures ReadCell(CsvCell(v) + rest) == (v, rest)
  {
    assert v == [] || v[0] != '"' by {
      if v != [] {
        assert !Special(v[0]);
      }
    }
    ReadPlainOf(v, rest);
  }

  /** Every exported cell reads back as the value it was made from. */
  lemma ReadCellOf(v: string, rest: string)
    requires CellEnd(rest)
    ensures ReadCell(CsvCell(v) + rest) == (v, rest)
  {
    if NeedsQuoting(v) {
      QuotedCellReads(v, rest);
      assert CsvCell(v) + rest == "\"" + (DoubleQuotes(v) + "\"" + rest);
    } else {
      PlainCellReads(v, rest);
    }
  }

  /** The rows after a line: none at the end of the text, else those after the newline. */
  function RowsAfter(rest: string): seq<seq<string>>
    requires rest == [] || rest[0] == '\n'
  {
    if rest == [] then [] else ReadRows(rest[1..])
  }

  /** One step of the reader: the first cell, then what follows it. */
  lemma ReadRowsStep(t: string, c: string, rest: string)
    requires ReadCell(t) == (c, rest)
    ensures rest == [] ==> ReadRows(t) == [[c]]
    ensures rest != [] && rest[0] == '\n' ==> ReadRows(t) == [[c]] + ReadRows(rest[1..])
    ensures rest != [] && rest[0] == ',' ==> ReadRows(t) == AddCell(c, ReadRows(rest[1..]))
  {
  }

  lemma Regroup(a: string, b: string, c: string, d: string)
    ensures a + b + c + d == a + (b + c + d)
  {
  }

  lemma {:induction false} ReadLine(cells: seq<string>, rest: string)
    requires cells != [] && (rest == [] || rest[0] == '\n')
    ensures ReadRows(Line(cells) + rest) == [cells] + RowsAfter(rest)
    decreases |cells|, 1
  {
    var c := cells[0];
    if |cells| == 1 {
      ReadCellOf(c, rest);
      ReadRowsStep(CsvCell(c) + rest, c, rest);
      assert cells == [c];
    } else {
      ReadLineMore(cells, rest);
    }
  }

  lemma {:induction false} ReadLineMore(cells: seq<string>, rest: string)
    requires |cells| > 1 && (rest == [] || rest[0] == '\n')
    ensures ReadRows(Line(cells) + rest) == [cells] + RowsAfter(rest)
    decreases |cells|, 0
  {
    var c := cells[0];
    var after := "," + Line(cells[1..]) + rest;
    assert ReadRows(CsvCell(c) + after) == AddCell(c, ReadRows(Line(cells[1..]) + rest)) by {
      ReadCellOf(c, after);
      ReadRowsStep(CsvCell(c) + after, c, after);
      assert after[1..] == Line(cells[1..]) + rest;
    }
    assert ReadRows(Line(cells[1..]) + rest) == [cells[1..]] + RowsAfter(rest) by {
      ReadLine(cells[1..], rest);
    }
    assert Line(cells) + rest == CsvCell(c) + after by {
      Regroup(CsvCell(c), ",", Line(cells[1..]), rest);
    }
    assert AddCell(c, [cells[1..]] + RowsAfter(rest)) == [cells] + RowsAfter(rest) by {
      assert cells == [c] + cells[1..];
    }
  }

  lemma {:induction false} ReadLines(rows: seq<seq<string>>)
    requires rows != [] && forall k :: 0 <= k < |rows| ==> rows[k] != []
    ensures ReadRows(Lines(rows)) == rows
  {
    if |rows| == 1 {
      ReadLine(rows[0], "");
      assert Line(rows[0]) + "" == Line(rows[0]);
    } else {
      var rest := "\n" + Lines(rows[1..]);
      ReadLine(rows[0], rest);
      assert Lines(rows) == Line(rows[0]) + rest;
      assert rest[1..] == Lines(rows[1..]);
      ReadLines(rows[1..]);
      assert rows == [rows[0]] + rows[1..];
    }
  }

  /** No header needs quoting, so the plain header line is its quoted line. */
  lemma HeaderLine()
    ensures JoinPlain(Headers) == Line(Headers)
  {
    forall k | 0 <= k < |Headers|
      ensures !NeedsQuoting(Headers[k])
    {
      var h := Headers[k];
      forall j | 0 <= j < |h|
        ensures !Special(h[j])
      {
      }
    }
    assert Headers[1..][1..][1..][1..][1..][1..] == ["photo"];
  }

  /**
   * The export reads back as the header row followed by the rows, cell
   * for cell, whatever quotes, commas and newlines the values hold.
   */
  lemma ExportReadsBack(rows: seq<seq<string>>)
    requires rows != [] && forall k :: 0 <= k < |rows| ==> rows[k] != []
    ensures ExportCsv(rows).Some? && ReadRows(ExportCsv(rows).value) == [Headers] + rows
  {
    HeaderLine();
    var all := [Headers] + rows;
    assert all[1..] == rows;
    assert Lines(all) == Line(Headers) + "\n" + Lines(rows);
    ReadLines(all);
  }
}
