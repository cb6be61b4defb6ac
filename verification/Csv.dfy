/** The CSV printer, and a strict reader of section 2 of RFC 4180 to check it against. */
module Csv {
  import opened Text
  import opened Collections

  // ---------- printing ----------

  /** A spreadsheet would evaluate a cell that starts like this. */
  predicate StartsFormula(s: string) {
    s != "" && s[0] in ['=', '+', '-', '@', '\t', '\r']
  }

  predicate IsSpecial(c: char) { c == '"' || c == ',' || c == '\n' || c == '\r' }

  predicate NeedsQuotes(s: string) { exists i :: 0 <= i < |s| && IsSpecial(s[i]) }

  function DoubleQuotes(s: string): string {
    if s == "" then "" else (if s[0] == '"' then "\"\"" else [s[0]]) + DoubleQuotes(s[1..])
  }

  /** What a cell says: missing values are empty, and a formula is made literal. */
  function Shown(value: Option<string>): string {
    var raw := value.GetOr("");
    if StartsFormula(raw) then "'" + raw else raw
  }

  function CsvCell(value: Option<string>): string {
    var safe := Shown(value);
    if NeedsQuotes(safe) then "\"" + DoubleQuotes(safe) + "\"" else safe
  }

  function Printed(row: seq<Option<string>>): seq<string> {
    seq(|row|, i requires 0 <= i < |row| => CsvCell(row[i]))
  }

  function JoinCells(row: seq<Option<string>>): string { Join(Printed(row), ",") }

  const CRLF := "\r\n"

  function Lines(rows: seq<seq<Option<string>>>): seq<string> {
    seq(|rows|, i requires 0 <= i < |rows| => JoinCells(rows[i]))
  }

  function JoinRows(rows: seq<seq<Option<string>>>): string { Join(Lines(rows), CRLF) }

  function Cells(header: seq<string>): seq<Option<string>> {
    seq(|header|, i requires 0 <= i < |header| => Some(header[i]))
  }

  function ToCsv(header: seq<string>, rows: seq<seq<Option<string>>>): string {
    JoinRows([Cells(header)] + rows)
  }

  // ---------- reading ----------

  datatype Read<T> = Read(value: T, rest: string)

  /** Characters up to the next comma, quote or line-break character. */
  function ReadBare(s: string): (r: Read<string>)
    ensures |r.rest| <= |s|
  {
    if s == "" || IsSpecial(s[0]) then Read("", s)
    else
      var tail := ReadBare(s[1..]);
      Read([s[0]] + tail.value, tail.rest)
  }

  /** The inside of a quoted field, up to its closing quote. */
  function ReadQuoted(s: string): (r: Option<Read<string>>)
    ensures r.Some? ==> |r.value.rest| < |s|
    decreases |s|
  {
    if s == "" then None
    else if s[0] != '"' then
      match ReadQuoted(s[1..])
      case Some(tail) => Some(Read([s[0]] + tail.value, tail.rest))
      case None => None
    else if |s| > 1 && s[1] == '"' then
      match ReadQuoted(s[2..])
      case Some(tail) => Some(Read("\"" + tail.value, tail.rest))
      case None => None
    else Some(Read("", s[1..]))
  }

  function ReadField(s: string): (r: Option<Read<string>>)
    ensures r.Some? ==> |r.value.rest| <= |s|
  {
    if s != "" && s[0] == '"' then ReadQuoted(s[1..]) else Some(ReadBare(s))
  }

  /** One or more fields separated by commas. */
  function ReadRecord(s: string): (r: Option<Read<seq<string>>>)
    ensures r.Some? ==> |r.value.rest| <= |s| && r.value.value != []
    decreases |s|
  {
    match ReadField(s)
    case None => None
    case Some(field) =>
      if field.rest != "" && field.rest[0] == ',' then
        match ReadRecord(field.rest[1..])
        case Some(tail) => Some(Read([field.value] + tail.value, tail.rest))
        case None => None
      else Some(Read([field.value], field.rest))
  }

  /** Records separated by CRLF, to the very end. */
  function Parse(s: string): (r: Option<seq<seq<string>>>)
    decreases |s|
  {
    match ReadRecord(s)
    case None => None
    case Some(first) =>
      if first.rest == "" then Some([first.value])
      else if CRLF <= first.rest then
        match Parse(first.rest[2..])
        case Some(tail) => Some([first.value] + tail)
        case None => None
      else None
  }

  // ---------- one cell ----------

  /** What may follow a cell: the end, a comma, or the end of the record. */
  predicate EndsCell(tail: string) { tail == "" || tail[0] == ',' || CRLF <= tail }

  predicate IsPlain(s: string) { forall i :: 0 <= i < |s| ==> !IsSpecial(s[i]) }

  lemma {:induction false} BareReadsBack(s: string, tail: string)
    requires IsPlain(s) && EndsCell(tail)
    ensures ReadBare(s + tail) == Read(s, tail)
  {
    if s == "" {
      assert s + tail == tail;
    } else {
      BareReadsBack(s[1..], tail);
      assert (s + tail)[1..] == s[1..] + tail;
      assert [s[0]] + s[1..] == s;
    }
  }

  lemma {:induction false} QuotedReadsBack(s: string, tail: string)
    requires tail == "" || tail[0] != '"'
    ensures ReadQuoted(DoubleQuotes(s) + "\"" + tail) == Some(Read(s, tail))
  {
    var all := DoubleQuotes(s) + "\"" + tail;
    if s == "" {
      assert all == "\"" + tail;
      assert all[1..] == tail;
    } else {
      QuotedReadsBack(s[1..], tail);
      assert [s[0]] + s[1..] == s;
      var more := DoubleQuotes(s[1..]) + "\"" + tail;
      if s[0] == '"' {
        assert all == "\"\"" + more;
        assert all[2..] == more;
      } else {
        assert all == [s[0]] + more;
        assert all[1..] == more;
      }
    }
  }

  lemma CellReadsBack(value: Option<string>, tail: string)
    requires EndsCell(tail)
    ensures ReadField(CsvCell(value) + tail) == Some(Read(Shown(value), tail))
  {
    hide ReadBare, ReadQuoted, DoubleQuotes, Shown;
    var safe := Shown(value);
    var all := CsvCell(value) + tail;
    if NeedsQuotes(safe) {
      assert all[1..] == DoubleQuotes(safe) + "\"" + tail;
      QuotedReadsBack(safe, tail);
    } else {
      BareReadsBack(safe, tail);
      assert all == "" || all[0] != '"' by {
        if safe != "" { assert all[0] == safe[0]; }
      }
    }
  }

  // ---------- a row, and a document ----------

  /** What a row says; one with no cells is printed as one empty cell. */
  function ShownRow(row: seq<Option<string>>): seq<string> {
    if row == [] then [""] else seq(|row|, i requires 0 <= i < |row| => Shown(row[i]))
  }

  function ShownRows(rows: seq<seq<Option<string>>>): seq<seq<string>> {
    seq(|rows|, i requires 0 <= i < |rows| => ShownRow(rows[i]))
  }

  predicate EndsRecord(tail: string) { tail == "" || CRLF <= tail }

  lemma {:induction false} RowReadsBack(row: seq<Option<string>>, tail: string)
    requires EndsRecord(tail)
    ensures ReadRecord(JoinCells(row) + tail) == Some(Read(ShownRow(row), tail))
  {
    hide ReadField, CsvCell, Shown;
    if row == [] {
      EmptyCell();
      CellReadsBack(None, tail);
      assert JoinCells(row) == CsvCell(None);
    } else if |row| == 1 {
      CellReadsBack(row[0], tail);
      assert ShownRow(row) == [Shown(row[0])];
    } else {
      var more := JoinCells(row[1..]) + tail;
      RowReadsBack(row[1..], tail);
      CellReadsBack(row[0], "," + more);
      assert Printed(row)[1..] == Printed(row[1..]);
      assert JoinCells(row) + tail == CsvCell(row[0]) + ("," + more);
      assert ("," + more)[1..] == more;
      assert ShownRow(row) == [Shown(row[0])] + ShownRow(row[1..]);
    }
  }

  lemma EmptyCell()
    ensures CsvCell(None) == "" && Shown(None) == ""
  {
  }

  lemma {:induction false} RowsReadBack(rows: seq<seq<Option<string>>>)
    requires rows != []
    ensures Parse(JoinRows(rows)) == Some(ShownRows(rows))
  {
    hide ReadRecord, JoinCells, ShownRow;
    if |rows| == 1 {
      RowReadsBack(rows[0], "");
      assert JoinCells(rows[0]) + "" == JoinCells(rows[0]);
      assert ShownRows(rows) == [ShownRow(rows[0])];
    } else {
      var more := JoinRows(rows[1..]);
      RowsReadBack(rows[1..]);
      RowReadsBack(rows[0], CRLF + more);
      assert Lines(rows)[1..] == Lines(rows[1..]);
      assert JoinRows(rows) == JoinCells(rows[0]) + (CRLF + more);
      assert (CRLF + more)[2..] == more;
      assert ShownRows(rows) == [ShownRow(rows[0])] + ShownRows(rows[1..]);
    }
  }

  /** For every header and every rows, a strict reader gets back exactly the cells as shown, with
      the same record and cell boundaries; only a row without cells comes back as one empty cell. */
  lemma CsvRoundTrip(header: seq<string>, rows: seq<seq<Option<string>>>)
    ensures Parse(ToCsv(header, rows)) == Some([ShownRow(Cells(header))] + ShownRows(rows))
  {
    hide Parse, ShownRow, JoinRows;
    var all := [Cells(header)] + rows;
    RowsReadBack(all);
    assert ShownRows(all) == [ShownRow(Cells(header))] + ShownRows(rows);
  }

  /** The rows come back cell by cell exactly when every one of them has a cell. */
  lemma BoundariesSurvive(header: seq<string>, rows: seq<seq<Option<string>>>)
    ensures (forall i :: 0 <= i < |rows| ==> |ShownRow(rows[i])| == |rows[i]|) <==> forall i :: 0 <= i < |rows| ==> rows[i] != []
    ensures Parse(ToCsv(header, rows)).Some? && |Parse(ToCsv(header, rows)).value| == |rows| + 1
  {
    hide Parse, ToCsv, Shown;
    CsvRoundTrip(header, rows);
    forall i | 0 <= i < |rows| ensures |ShownRow(rows[i])| == |rows[i]| <==> rows[i] != [] {
    }
  }

  /** No cell the reader sees is a formula, and every other value is shown unchanged; the one
      thing lost is whether a leading apostrophe was there before. */
  lemma NoFormulaIsShown(a: Option<string>, b: Option<string>)
    ensures !StartsFormula(Shown(a))
    ensures !StartsFormula(a.GetOr("")) ==> Shown(a) == a.GetOr("")
    ensures Shown(a) == Shown(b) <==>
              || a.GetOr("") == b.GetOr("")
              || (StartsFormula(a.GetOr("")) && b.GetOr("") == "'" + a.GetOr(""))
              || (StartsFormula(b.GetOr("")) && a.GetOr("") == "'" + b.GetOr(""))
  {
    var x, y := a.GetOr(""), b.GetOr("");
    assert ("'" + x)[1..] == x && ("'" + y)[1..] == y;
  }
}
