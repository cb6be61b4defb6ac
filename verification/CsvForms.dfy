/** How one cell is printed, written out. */
module CsvForms {
  import opened Collections
  import opened Csv

  /** The characters that would end a bare cell. */
  predicate EndsBareCell(c: char) { c in [',', '"', '\n', '\r'] }

  /** The characters a spreadsheet takes for the start of a formula. */
  predicate StartsAFormula(c: char) { c in ['=', '+', '-', '@', '\t', '\r'] }

  lemma {:induction false} NothingDoubled(s: string)
    requires '"' !in s
    ensures DoubleQuotes(s) == s
  {
    if s != "" {
      assert s[0] in s && forall c :: c in s[1..] ==> c in s;
      NothingDoubled(s[1..]);
      assert [s[0]] + s[1..] == s;
    }
  }

  /** Each quote is doubled where it stands. */
  lemma {:induction false} QuoteIsDoubled(front: string, back: string)
    requires '"' !in front
    ensures DoubleQuotes(front + "\"" + back) == front + "\"\"" + DoubleQuotes(back)
  {
    var s := front + "\"" + back;
    if front == "" {
      assert s[1..] == back && s[0] == '"';
    } else {
      assert front[0] in front && forall c :: c in front[1..] ==> c in front;
      QuoteIsDoubled(front[1..], back);
      assert s[1..] == front[1..] + "\"" + back && s[0] == front[0];
      assert [front[0]] + front[1..] == front;
    }
  }

  /** A missing value is an empty cell; a formula gets an apostrophe; and a text is put into quotes only when a
      character of it would end the cell. */
  lemma CellIs(value: Option<string>)
    ensures var raw := if value.Some? then value.value else "";
            var text := if raw != "" && StartsAFormula(raw[0]) then "'" + raw else raw;
            CsvCell(value) == if exists i :: 0 <= i < |text| && EndsBareCell(text[i]) then "\"" + DoubleQuotes(text) + "\"" else text
  {
    var text := Shown(value);
    assert NeedsQuotes(text) <==> exists i :: 0 <= i < |text| && EndsBareCell(text[i]);
  }
}
