/** VALUES bodies as MySQL writes them, read by the tokenizer of scripts/import_legacy.py. */
module MysqlDumps {
  import opened Options
  import opened SqlDump
  import opened SqlRoundTrip

  const CONTROL_Z: char := 26 as char

  /** MySQL's own escapes: NUL, line ends, both quotes, the backslash, and U+001A as `\Z`. */
  function Escaped(c: char): string {
    if c as int == 0 then "\\0" else if c == '\n' then "\\n" else if c == '\r' then "\\r"
    else if c == '\'' || c == '"' || c == '\\' then ['\\', c]
    else if c == CONTROL_Z then "\\Z" else [c]
  }

  function EscapedText(text: string): string {
    if text == "" then "" else Escaped(text[0]) + EscapedText(text[1..])
  }

  function DumpedTail(texts: seq<string>): string {
    if texts == [] then ")" else "," + ("'" + EscapedText(texts[0]) + "'" + DumpedTail(texts[1..]))
  }

  function DumpedTuple(texts: seq<string>): string {
    if texts == [] then "()" else "(" + ("'" + EscapedText(texts[0]) + "'" + DumpedTail(texts[1..]))
  }

  /** Tuples behind commas; the comma before the first one is not written. */
  function DumpedRows(rows: seq<seq<string>>, first: bool): string {
    if rows == [] then "" else (if first then "" else ",") + DumpedTuple(rows[0]) + DumpedRows(rows[1..], false)
  }

  function TextValues(texts: seq<string>): seq<Value> { seq(|texts|, k requires 0 <= k < |texts| => Text(texts[k])) }

  function AllTextValues(rows: seq<seq<string>>): seq<seq<Value>> {
    seq(|rows|, k requires 0 <= k < |rows| => TextValues(rows[k]))
  }

  // ── What the tokenizer hears ──────────────────────────────────────────────────────────────

  /** It has no `\Z` in its table, and keeps the letter. */
  function Heard(c: char): char { if c == CONTROL_Z then 'Z' else c }

  function HeardText(text: string): string { seq(|text|, k requires 0 <= k < |text| => Heard(text[k])) }

  function HeardTexts(texts: seq<string>): seq<string> {
    seq(|texts|, k requires 0 <= k < |texts| => HeardText(texts[k]))
  }

  function HeardRows(rows: seq<seq<string>>): seq<seq<string>> {
    seq(|rows|, k requires 0 <= k < |rows| => HeardTexts(rows[k]))
  }

  function StyleOf(c: char): (style: Style)
    ensures Legal(Heard(c), style) && PrintChar(Heard(c), style) == Escaped(c)
  {
    if c as int == 0 then Escape('0') else if c == '\n' then Escape('n') else if c == '\r' then Escape('r')
    else if c == '\'' || c == '"' || c == '\\' then Escape(c)
    else if c == CONTROL_Z then Escape('Z') else Plain
  }

  function StylesOf(text: string): (styles: seq<Style>)
    ensures |styles| == |text|
  {
    seq(|text|, k requires 0 <= k < |text| => StyleOf(text[k]))
  }

  lemma {:induction false} PrintedAsDumped(text: string)
    ensures PrintText(HeardText(text), StylesOf(text)) == EscapedText(text)
  {
    hide Escaped, StyleOf, Heard, PrintChar;
    if text != "" {
      PrintedAsDumped(text[1..]);
      assert HeardText(text)[1..] == HeardText(text[1..]) && StylesOf(text)[1..] == StylesOf(text[1..]);
    }
  }

  function CellOf(text: string): (c: Cell)
    ensures c.Printable() && c.Print() == "'" + EscapedText(text) + "'" && c.item.Value() == Text(HeardText(text))
  {
    PrintedAsDumped(text);
    Cell("", Quoted(HeardText(text), StylesOf(text)), "")
  }

  function CellsOf(texts: seq<string>): (cells: seq<Cell>)
    ensures |cells| == |texts| && forall k :: 0 <= k < |cells| ==> cells[k] == CellOf(texts[k])
  {
    seq(|texts|, k requires 0 <= k < |texts| => CellOf(texts[k]))
  }

  lemma {:induction false} TailAsDumped(texts: seq<string>)
    ensures PrintTail(CellsOf(texts)) == DumpedTail(texts)
    ensures CellValues(CellsOf(texts)) == TextValues(HeardTexts(texts))
  {
    hide EscapedText, HeardText, CellOf, Cell.Print, Item.Value, Item.Printable, Cell.Printable;
    if texts != [] {
      TailAsDumped(texts[1..]);
      assert CellsOf(texts)[1..] == CellsOf(texts[1..]);
    }
  }

  function RowsOf(rows: seq<seq<string>>, first: bool): (printed: seq<Row>)
    ensures Printable(printed)
  {
    if rows == [] then [] else [Row(if first then "" else ",", CellsOf(rows[0]))] + RowsOf(rows[1..], false)
  }

  lemma TupleAsDumped(texts: seq<string>)
    ensures ['('] + PrintCells(CellsOf(texts)) == DumpedTuple(texts)
  {
    hide EscapedText, HeardText, CellOf, Cell.Print, Item.Value, Item.Printable, Cell.Printable;
    if texts != [] {
      TailAsDumped(texts[1..]);
      assert CellsOf(texts)[1..] == CellsOf(texts[1..]);
    }
  }

  lemma {:induction false} RowsAsDumped(rows: seq<seq<string>>, first: bool)
    ensures PrintRows(RowsOf(rows, first)) == DumpedRows(rows, first)
  {
    hide DumpedTuple, PrintCells, CellsOf, Row.Printable;
    if rows != [] {
      RowsAsDumped(rows[1..], false);
      TupleAsDumped(rows[0]);
      assert RowsOf(rows, first)[1..] == RowsOf(rows[1..], false);
    }
  }

  lemma {:induction false} RowsAreHeard(rows: seq<seq<string>>, first: bool)
    ensures RowValues(RowsOf(rows, first)) == AllTextValues(HeardRows(rows))
  {
    hide CellsOf, CellValues, HeardTexts, TextValues, Row.Printable;
    if rows != [] {
      RowsAreHeard(rows[1..], false);
      TailAsDumped(rows[0]);
      var printed, heard := RowsOf(rows, first), AllTextValues(HeardRows(rows));
      assert printed[1..] == RowsOf(rows[1..], false);
      assert heard == [heard[0]] + heard[1..];
      assert heard[1..] == AllTextValues(HeardRows(rows[1..]));
    }
  }

  /** A dumped body parses, every U+001A read as the letter Z. */
  lemma DumpIsHeard(rows: seq<seq<string>>, end: string)
    requires AllJunk(end)
    ensures Parse(DumpedRows(rows, true) + end) == Parsed(AllTextValues(HeardRows(rows)), None)
  {
    hide Parse, PrintRows, DumpedRows, RowValues, RowsOf;
    RowsAsDumped(rows, true);
    RowsAreHeard(rows, true);
    RoundTrip(RowsOf(rows, true), end);
  }

  predicate HasControlZ(rows: seq<seq<string>>) {
    exists i, j :: 0 <= i < |rows| && 0 <= j < |rows[i]| && CONTROL_Z in rows[i][j]
  }

  /** The texts of a dump come back as they were if and only if none of them holds U+001A. */
  lemma DumpReadsBackIff(rows: seq<seq<string>>, end: string)
    requires AllJunk(end)
    ensures Parse(DumpedRows(rows, true) + end) == Parsed(AllTextValues(rows), None) <==> !HasControlZ(rows)
  {
    hide Parse, DumpedRows;
    DumpIsHeard(rows, end);
    var heard := HeardRows(rows);
    if HasControlZ(rows) {
      var i, j :| 0 <= i < |rows| && 0 <= j < |rows[i]| && CONTROL_Z in rows[i][j];
      var k :| 0 <= k < |rows[i][j]| && rows[i][j][k] == CONTROL_Z;
      assert heard[i][j][k] == 'Z';
      assert AllTextValues(heard)[i][j] == Text(heard[i][j]) && AllTextValues(rows)[i][j] == Text(rows[i][j]);
    } else {
      forall i | 0 <= i < |rows| ensures heard[i] == rows[i] {
        forall j | 0 <= j < |rows[i]| ensures heard[i][j] == rows[i][j] {
          assert CONTROL_Z !in rows[i][j];
        }
      }
      assert heard == rows;
    }
  }
}
