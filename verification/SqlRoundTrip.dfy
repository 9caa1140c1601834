/** The printer that goes with the tokenizer, and what the two scanners make of its output. */
module SqlRoundTrip {
  import opened Options
  import opened SqlDump

  /** How one character of a string is written: as itself, as a doubled quote, or as an escape. */
  datatype Style = Plain | Doubled | Escape(letter: char)

  predicate Legal(c: char, style: Style) {
    match style
    case Plain => c != '\\' && c != '\''
    case Doubled => c == '\''
    case Escape(x) => Unescape(x) == c
  }

  function PrintChar(c: char, style: Style): (r: string)
    ensures |r| > 0
  {
    match style
    case Plain => [c]
    case Doubled => ['\'', '\'']
    case Escape(x) => ['\\', x]
  }

  function PrintText(text: string, styles: seq<Style>): string
    requires |text| == |styles|
  {
    if text == [] then [] else PrintChar(text[0], styles[0]) + PrintText(text[1..], styles[1..])
  }

  /** A value with its spelling. */
  datatype Item = Quoted(text: string, styles: seq<Style>) | NullWord(word: string) | Token(token: string)
  {
    predicate Printable() {
      match this
      case Quoted(text, styles) => |text| == |styles| && forall i :: 0 <= i < |text| ==> Legal(text[i], styles[i])
      case NullWord(word) => |word| == 4 && NullAt(word, 0)
      case Token(token) => TokenOk(token)
    }

    function Value(): Value {
      match this
      case Quoted(text, styles) => Text(text)
      case NullWord(word) => Null
      case Token(token) => Bare(token)
    }

    function Print(): string
      requires Printable()
    {
      match this
      case Quoted(text, styles) => ['\''] + PrintText(text, styles) + ['\'']
      case NullWord(word) => word
      case Token(token) => token
    }
  }

  /** The words that read back as themselves: numbers, and more. */
  predicate TokenOk(token: string) {
    && token != [] && token[0] != '\'' && !NullAt(token, 0)
    && forall i :: 0 <= i < |token| ==> !EndsToken(token[i])
  }

  predicate AllBlank(s: string) { forall i :: 0 <= i < |s| ==> IsBlank(s[i]) }

  predicate AllJunk(s: string) { forall i :: 0 <= i < |s| ==> Junk(s[i]) }

  /** A value with blanks around it. */
  datatype Cell = Cell(before: string, item: Item, after: string)
  {
    predicate Printable() { AllBlank(before) && item.Printable() && AllBlank(after) }

    function Print(): string
      requires Printable()
    {
      before + (item.Print() + after)
    }
  }

  /** A tuple with the separators in front of it. */
  datatype Row = Row(before: string, cells: seq<Cell>)
  {
    predicate Printable() { AllJunk(before) && forall i :: 0 <= i < |cells| ==> cells[i].Printable() }
  }

  /** Cells after the first, each behind a comma, and the closing parenthesis. */
  function PrintTail(cells: seq<Cell>): string
    requires forall i :: 0 <= i < |cells| ==> cells[i].Printable()
  {
    if cells == [] then [')'] else [','] + (cells[0].Print() + PrintTail(cells[1..]))
  }

  function PrintCells(cells: seq<Cell>): string
    requires forall i :: 0 <= i < |cells| ==> cells[i].Printable()
  {
    if cells == [] then [')'] else cells[0].Print() + PrintTail(cells[1..])
  }

  predicate Printable(rows: seq<Row>) { forall i :: 0 <= i < |rows| ==> rows[i].Printable() }

  function PrintRow(row: Row): string
    requires row.Printable()
  {
    row.before + (['('] + PrintCells(row.cells))
  }

  function PrintRows(rows: seq<Row>): string
    requires Printable(rows)
  {
    if rows == [] then [] else PrintRow(rows[0]) + PrintRows(rows[1..])
  }

  function CellValues(cells: seq<Cell>): seq<Value> {
    if cells == [] then [] else [cells[0].item.Value()] + CellValues(cells[1..])
  }

  function RowValues(rows: seq<Row>): seq<seq<Value>> {
    if rows == [] then [] else [CellValues(rows[0].cells)] + RowValues(rows[1..])
  }

  // ── Text at a position ────────────────────────────────────────────────────────────────────

  predicate At(s: string, i: nat, p: string) { i + |p| <= |s| && s[i..i + |p|] == p }

  lemma AtSplit(s: string, i: nat, a: string, b: string)
    requires At(s, i, a + b)
    ensures At(s, i, a) && At(s, i + |a|, b) && i + |a| + |b| <= |s|
  {
    assert s[i..i + |a|] == (a + b)[..|a|];
    assert s[i + |a|..i + |a| + |b|] == (a + b)[|a|..];
  }

  lemma AtChar(s: string, i: nat, p: string, k: nat)
    requires At(s, i, p) && k < |p|
    ensures i + k < |s| && s[i + k] == p[k]
  {
  }

  // ── Reading back ──────────────────────────────────────────────────────────────────────────

  lemma {:induction false} BlanksSkipped(s: string, i: nat, blanks: string)
    requires At(s, i, blanks) && AllBlank(blanks)
    ensures SkipBlanks(s, i) == SkipBlanks(s, i + |blanks|)
    decreases |blanks|
  {
    if blanks != [] {
      AtChar(s, i, blanks, 0);
      AtSplit(s, i, blanks[..1], blanks[1..]);
      BlanksSkipped(s, i + 1, blanks[1..]);
    }
  }

  lemma {:induction false} JunkSkipped(s: string, i: nat, junk: string)
    requires At(s, i, junk) && AllJunk(junk)
    ensures SkipJunk(s, i) == SkipJunk(s, i + |junk|)
    decreases |junk|
  {
    if junk != [] {
      AtChar(s, i, junk, 0);
      AtSplit(s, i, junk[..1], junk[1..]);
      JunkSkipped(s, i + 1, junk[1..]);
    }
  }

  lemma CharStep(s: string, i: nat, c: char, style: Style, buf: string)
    requires Legal(c, style) && At(s, i, PrintChar(c, style))
    ensures ScanText(s, i, buf) == ScanText(s, i + |PrintChar(c, style)|, buf + [c])
  {
    var p := PrintChar(c, style);
    AtChar(s, i, p, 0);
    if |p| == 2 { AtChar(s, i, p, 1); }
  }

  lemma ClosingQuote(s: string, i: nat, buf: string)
    requires i < |s| && s[i] == '\'' && (i + 1 < |s| ==> s[i + 1] != '\'')
    ensures ScanText(s, i, buf) == Got(buf, i + 1)
  {
  }

  /** A printed string, with its closing quote not followed by another quote, reads back whole. */
  lemma {:induction false} TextReadsBack(s: string, i: nat, text: string, styles: seq<Style>, buf: string)
    requires |text| == |styles| && forall k :: 0 <= k < |text| ==> Legal(text[k], styles[k])
    requires At(s, i, PrintText(text, styles) + ['\''])
    requires var end := i + |PrintText(text, styles)| + 1; end < |s| ==> s[end] != '\''
    ensures ScanText(s, i, buf) == Got(buf + text, i + |PrintText(text, styles)| + 1)
    decreases |text|
  {
    hide ScanText, At, Legal, PrintChar;
    if text == [] {
      assert PrintText(text, styles) + ['\''] == ['\''];
      AtChar(s, i, ['\''], 0);
      ClosingQuote(s, i, buf);
      assert buf + text == buf;
    } else {
      var head, tail := PrintChar(text[0], styles[0]), PrintText(text[1..], styles[1..]);
      assert PrintText(text, styles) + ['\''] == head + (tail + ['\'']);
      AtSplit(s, i, head, tail + ['\'']);
      CharStep(s, i, text[0], styles[0], buf);
      TextReadsBack(s, i + |head|, text[1..], styles[1..], buf + [text[0]]);
      assert (buf + [text[0]]) + text[1..] == buf + text;
    }
  }

  lemma {:induction false} TokenReadsBack(s: string, i: nat, token: string)
    requires At(s, i, token) && i + |token| < |s| && EndsToken(s[i + |token|])
    requires forall k :: 0 <= k < |token| ==> !EndsToken(token[k])
    ensures TokenEnd(s, i) == i + |token|
    decreases |token|
  {
    if token != [] {
      AtChar(s, i, token, 0);
      AtSplit(s, i, token[..1], token[1..]);
      TokenReadsBack(s, i + 1, token[1..]);
    }
  }

  lemma NullWordAt(s: string, i: nat, word: string)
    requires At(s, i, word) && |word| == 4
    ensures NullAt(s, i) <==> NullAt(word, 0)
  {
    AtChar(s, i, word, 0);
    AtChar(s, i, word, 1);
    AtChar(s, i, word, 2);
    AtChar(s, i, word, 3);
  }

  lemma TokenIsNotNull(s: string, i: nat, token: string)
    requires At(s, i, token) && TokenOk(token) && i + |token| < |s| && EndsToken(s[i + |token|])
    ensures !NullAt(s, i)
  {
    if |token| >= 4 {
      assert token[..4] + token[4..] == token;
      AtSplit(s, i, token[..4], token[4..]);
      NullWordAt(s, i, token[..4]);
    }
  }

  lemma QuotedReadsBack(s: string, i: nat, text: string, styles: seq<Style>)
    requires |text| == |styles| && forall k :: 0 <= k < |text| ==> Legal(text[k], styles[k])
    requires At(s, i, ['\''] + (PrintText(text, styles) + ['\'']))
    requires var end := i + |PrintText(text, styles)| + 2; end < |s| && EndsToken(s[end])
    ensures s[i] == '\'' && ScanValue(s, i) == Got(Text(text), i + |PrintText(text, styles)| + 2)
  {
    AtSplit(s, i, ['\''], PrintText(text, styles) + ['\'']);
    AtChar(s, i, ['\''], 0);
    TextReadsBack(s, i + 1, text, styles, "");
    assert "" + text == text;
  }

  lemma TokenItemReadsBack(s: string, i: nat, token: string)
    requires TokenOk(token) && At(s, i, token) && i + |token| < |s| && EndsToken(s[i + |token|])
    ensures !EndsToken(s[i]) && ScanValue(s, i) == Got(Bare(token), i + |token|)
  {
    AtChar(s, i, token, 0);
    TokenReadsBack(s, i, token);
    TokenIsNotNull(s, i, token);
  }

  lemma ItemReadsBack(s: string, i: nat, item: Item)
    requires item.Printable() && At(s, i, item.Print())
    requires i + |item.Print()| < |s| && EndsToken(s[i + |item.Print()|])
    ensures !EndsToken(s[i]) && ScanValue(s, i) == Got(item.Value(), i + |item.Print()|)
  {
    match item
    case Quoted(text, styles) =>
      assert item.Print() == ['\''] + (PrintText(text, styles) + ['\'']);
      QuotedReadsBack(s, i, text, styles);
    case NullWord(word) =>
      NullWordAt(s, i, word);
    case Token(token) =>
      TokenItemReadsBack(s, i, token);
  }

  /** Blanks in front of the next value make no difference to the tuple scanner. */
  lemma BlanksDoNotMatter(s: string, i: nat, blanks: string, values: seq<Value>)
    requires At(s, i, blanks) && AllBlank(blanks)
    ensures ScanTuple(s, i, values) == ScanTuple(s, i + |blanks|, values)
  {
    BlanksSkipped(s, i, blanks);
  }

  lemma SkipNothing(s: string, i: nat)
    requires i < |s| && !IsBlank(s[i])
    ensures SkipBlanks(s, i) == i
  {
  }

  lemma ItemStep(s: string, i: nat, item: Item, values: seq<Value>)
    requires item.Printable() && At(s, i, item.Print())
    requires i + |item.Print()| < |s| && EndsToken(s[i + |item.Print()|])
    ensures ScanTuple(s, i, values) == ScanTuple(s, i + |item.Print()|, values + [item.Value()])
  {
    ItemReadsBack(s, i, item);
    SkipNothing(s, i);
  }

  lemma CellReadsBack(s: string, i: nat, cell: Cell, values: seq<Value>)
    requires cell.Printable() && At(s, i, cell.Print())
    requires i + |cell.Print()| < |s| && (s[i + |cell.Print()|] == ',' || s[i + |cell.Print()|] == ')')
    ensures ScanTuple(s, i, values) == ScanTuple(s, i + |cell.Print()|, values + [cell.item.Value()])
  {
    hide ScanTuple, At;
    var p := cell.item.Print();
    AtSplit(s, i, cell.before, p + cell.after);
    var j := i + |cell.before|;
    AtSplit(s, j, p, cell.after);
    var k := j + |p|;
    assert EndsToken(s[k]) by {
      if cell.after != [] {
        AtChar(s, k, cell.after, 0);
      }
    }
    BlanksDoNotMatter(s, i, cell.before, values);
    ItemStep(s, j, cell.item, values);
    BlanksDoNotMatter(s, k, cell.after, values + [cell.item.Value()]);
  }

  lemma TailStarts(cells: seq<Cell>)
    requires forall i :: 0 <= i < |cells| ==> cells[i].Printable()
    ensures |PrintTail(cells)| > 0 && (PrintTail(cells)[0] == ',' || PrintTail(cells)[0] == ')')
  {
  }

  lemma CommaStep(s: string, i: nat, values: seq<Value>)
    requires i < |s| && s[i] == ','
    ensures ScanTuple(s, i, values) == ScanTuple(s, i + 1, values)
  {
    SkipNothing(s, i);
  }

  lemma CloseParen(s: string, i: nat, values: seq<Value>)
    requires i < |s| && s[i] == ')'
    ensures ScanTuple(s, i, values) == Got(values, i + 1)
  {
    SkipNothing(s, i);
  }

  lemma {:induction false} TailReadsBack(s: string, i: nat, cells: seq<Cell>, values: seq<Value>)
    requires forall k :: 0 <= k < |cells| ==> cells[k].Printable()
    requires At(s, i, PrintTail(cells))
    ensures ScanTuple(s, i, values) == Got(values + CellValues(cells), i + |PrintTail(cells)|)
    decreases |cells|
  {
    hide ScanTuple, At, Cell.Print, Cell.Printable, Item.Value, EndsToken, IsBlank;
    if cells == [] {
      AtChar(s, i, PrintTail(cells), 0);
      CloseParen(s, i, values);
      assert values + CellValues(cells) == values;
    } else {
      var p, tail, v := cells[0].Print(), PrintTail(cells[1..]), cells[0].item.Value();
      NextCellReadsBack(s, i, cells[0], cells[1..], values);
      TailReadsBack(s, i + 1 + |p|, cells[1..], values + [v]);
      assert (values + [v]) + CellValues(cells[1..]) == values + CellValues(cells);
    }
  }

  lemma NextCellReadsBack(s: string, i: nat, cell: Cell, rest: seq<Cell>, values: seq<Value>)
    requires cell.Printable() && forall k :: 0 <= k < |rest| ==> rest[k].Printable()
    requires At(s, i, [','] + (cell.Print() + PrintTail(rest)))
    ensures At(s, i + 1 + |cell.Print()|, PrintTail(rest))
    ensures ScanTuple(s, i, values) == ScanTuple(s, i + 1 + |cell.Print()|, values + [cell.item.Value()])
  {
    hide ScanTuple, At, Cell.Print, Cell.Printable, PrintTail, Item.Value, EndsToken, IsBlank;
    var p, tail := cell.Print(), PrintTail(rest);
    AtChar(s, i, [','] + (p + tail), 0);
    CommaStep(s, i, values);
    AtSplit(s, i, [','], p + tail);
    AtSplit(s, i + 1, p, tail);
    TailStarts(rest);
    AtChar(s, i + 1 + |p|, tail, 0);
    CellReadsBack(s, i + 1, cell, values);
  }

  lemma CellsReadBack(s: string, i: nat, cells: seq<Cell>)
    requires forall k :: 0 <= k < |cells| ==> cells[k].Printable()
    requires At(s, i, PrintCells(cells))
    ensures ScanTuple(s, i, []) == Got(CellValues(cells), i + |PrintCells(cells)|)
  {
    hide ScanTuple, At, Cell.Print, Cell.Printable, Item.Value, EndsToken, IsBlank;
    if cells == [] {
      TailReadsBack(s, i, cells, []);
      assert [] + CellValues(cells) == CellValues(cells);
    } else {
      FirstCellReadsBack(s, i, cells[0], cells[1..]);
    }
  }

  lemma FirstCellReadsBack(s: string, i: nat, cell: Cell, rest: seq<Cell>)
    requires cell.Printable() && forall k :: 0 <= k < |rest| ==> rest[k].Printable()
    requires At(s, i, cell.Print() + PrintTail(rest))
    ensures ScanTuple(s, i, []) == Got([cell.item.Value()] + CellValues(rest), i + |cell.Print() + PrintTail(rest)|)
  {
    hide ScanTuple, At, Cell.Print, Cell.Printable, PrintTail, CellValues, Item.Value, EndsToken, IsBlank;
    var p, tail := cell.Print(), PrintTail(rest);
    AtSplit(s, i, p, tail);
    TailStarts(rest);
    AtChar(s, i + |p|, tail, 0);
    CellReadsBack(s, i, cell, []);
    TailReadsBack(s, i + |p|, rest, [cell.item.Value()]);
    assert [] + [cell.item.Value()] == [cell.item.Value()];
  }

  lemma JunkDoesNotMatter(s: string, i: nat, junk: string, done: seq<seq<Value>>)
    requires At(s, i, junk) && AllJunk(junk)
    ensures ScanRows(s, i, done) == ScanRows(s, i + |junk|, done)
  {
    JunkSkipped(s, i, junk);
  }

  lemma TupleStep(s: string, i: nat, values: seq<Value>, next: nat, done: seq<seq<Value>>)
    requires i < |s| && s[i] == '(' && ScanTuple(s, i + 1, []) == Got(values, next)
    ensures ScanRows(s, i, done) == ScanRows(s, next, done + [values])
  {
  }

  lemma RowReadsBack(s: string, i: nat, row: Row, done: seq<seq<Value>>)
    requires row.Printable() && At(s, i, PrintRow(row))
    ensures ScanRows(s, i, done) == ScanRows(s, i + |PrintRow(row)|, done + [CellValues(row.cells)])
  {
    hide ScanRows, ScanTuple, PrintCells, CellValues;
    var cells := PrintCells(row.cells);
    AtSplit(s, i, row.before, ['('] + cells);
    JunkDoesNotMatter(s, i, row.before, done);
    var j := i + |row.before|;
    AtSplit(s, j, ['('], cells);
    AtChar(s, j, ['('], 0);
    CellsReadBack(s, j + 1, row.cells);
    TupleStep(s, j, CellValues(row.cells), j + 1 + |cells|, done);
  }

  lemma {:induction false} RowsReadBack(s: string, i: nat, rows: seq<Row>, done: seq<seq<Value>>)
    requires Printable(rows) && At(s, i, PrintRows(rows))
    ensures ScanRows(s, i, done) == ScanRows(s, i + |PrintRows(rows)|, done + RowValues(rows))
    decreases |rows|
  {
    hide ScanRows, PrintRow, CellValues;
    if rows == [] {
      assert done + RowValues(rows) == done;
    } else {
      var values := CellValues(rows[0].cells);
      AtSplit(s, i, PrintRow(rows[0]), PrintRows(rows[1..]));
      RowReadsBack(s, i, rows[0], done);
      RowsReadBack(s, i + |PrintRow(rows[0])|, rows[1..], done + [values]);
      assert (done + [values]) + RowValues(rows[1..]) == done + RowValues(rows);
    }
  }

  /** The round trip: whatever the strings contain, however each character is escaped, whatever
      blanks and separators are used, the printed body parses to exactly the printed rows. */
  lemma RoundTrip(rows: seq<Row>, end: string)
    requires Printable(rows) && AllJunk(end)
    ensures Parse(PrintRows(rows) + end) == Parsed(RowValues(rows), None)
  {
    hide PrintRows, RowValues;
    var s := PrintRows(rows) + end;
    assert s[0..0 + |s|] == s;
    AtSplit(s, 0, PrintRows(rows), end);
    RowsReadBack(s, 0, rows, []);
    assert [] + RowValues(rows) == RowValues(rows);
    JunkDoesNotMatter(s, |PrintRows(rows)|, end, RowValues(rows));
  }

  // ── What the tokenizer yields on any input at all ─────────────────────────────────────────

  predicate ValueOk(v: Value) { v.Bare? ==> TokenOk(v.token) }

  predicate ValuesOk(values: seq<Value>) { forall k :: 0 <= k < |values| ==> ValueOk(values[k]) }

  lemma ValueScanned(s: string, i: nat)
    requires i < |s| && !EndsToken(s[i]) && ScanValue(s, i).Got?
    ensures ValueOk(ScanValue(s, i).value)
  {
    var v := ScanValue(s, i).value;
    if v.Bare? {
      assert v.token == s[i..i + |v.token|] && v.token[0] == s[i];
      if |v.token| >= 4 {
        assert v.token[..4] + v.token[4..] == v.token;
        AtSplit(s, i, v.token[..4], v.token[4..]);
        NullWordAt(s, i, v.token[..4]);
      }
    }
  }

  lemma {:induction false} TupleScanned(s: string, i: nat, values: seq<Value>)
    requires i <= |s| && ValuesOk(values) && ScanTuple(s, i, values).Got?
    ensures ValuesOk(ScanTuple(s, i, values).value)
    decreases |s| - i
  {
    hide ValueOk, ScanValue;
    var j := SkipBlanks(s, i);
    if s[j] == ',' {
      TupleScanned(s, j + 1, values);
    } else if s[j] != ')' {
      ValueScanned(s, j);
      TupleScanned(s, ScanValue(s, j).next, values + [ScanValue(s, j).value]);
    }
  }

  lemma {:induction false} RowsScanned(s: string, i: nat, rows: seq<seq<Value>>)
    requires i <= |s| && forall k :: 0 <= k < |rows| ==> ValuesOk(rows[k])
    ensures forall k :: 0 <= k < |ScanRows(s, i, rows).rows| ==> ValuesOk(ScanRows(s, i, rows).rows[k])
    decreases |s| - i
  {
    hide ValuesOk, ScanTuple;
    var j := SkipJunk(s, i);
    if j < |s| && s[j] == '(' {
      var t := ScanTuple(s, j + 1, []);
      if t.Got? {
        assert ValuesOk([]) by { EmptyOk(); }
        TupleScanned(s, j + 1, []);
        RowsScanned(s, t.next, rows + [t.value]);
      }
    }
  }

  lemma EmptyOk()
    ensures ValuesOk([])
  {
  }

  /** The plainest printing of a parse: quotes doubled, backslashes escaped, nothing else touched. */
  function PlainStyles(text: string): (styles: seq<Style>)
    ensures |styles| == |text| && forall k :: 0 <= k < |text| ==> Legal(text[k], styles[k])
  {
    seq(|text|, k requires 0 <= k < |text| =>
      if text[k] == '\'' then Doubled else if text[k] == '\\' then Escape('\\') else Plain)
  }

  function PlainCell(v: Value): (c: Cell)
    requires ValueOk(v)
    ensures c.Printable() && c.item.Value() == v
  {
    match v
    case Text(text) => Cell("", Quoted(text, PlainStyles(text)), "")
    case Null => Cell("", NullWord("NULL"), "")
    case Bare(token) => Cell("", Token(token), "")
  }

  function PlainCells(values: seq<Value>): (cells: seq<Cell>)
    requires ValuesOk(values)
    ensures (forall k :: 0 <= k < |cells| ==> cells[k].Printable()) && CellValues(cells) == values
  {
    if values == [] then [] else [PlainCell(values[0])] + PlainCells(values[1..])
  }

  function PlainRows(rows: seq<seq<Value>>): (printed: seq<Row>)
    requires forall k :: 0 <= k < |rows| ==> ValuesOk(rows[k])
    ensures Printable(printed) && RowValues(printed) == rows
  {
    if rows == [] then [] else [Row(",", PlainCells(rows[0]))] + PlainRows(rows[1..])
  }

  /** On every text, well-formed or not: printing what was parsed and parsing that gives it back. */
  lemma ParsePrintParse(s: string)
    ensures forall k :: 0 <= k < |Parse(s).rows| ==> ValuesOk(Parse(s).rows[k])
    ensures Parse(PrintRows(PlainRows(Parse(s).rows))) == Parsed(Parse(s).rows, None)
  {
    RowsScanned(s, 0, []);
    var printed := PlainRows(Parse(s).rows);
    RoundTrip(printed, "");
    assert PrintRows(printed) + "" == PrintRows(printed);
  }

  /** Exactly which words come back as themselves: not the empty word, not one that begins with a
      quote or with NULL, not one with a blank, a comma or a closing parenthesis in it. */
  lemma BareWordIff(token: string)
    ensures Parse("(" + token + ")").rows == [[Bare(token)]] <==> TokenOk(token)
  {
    var s := "(" + token + ")";
    if TokenOk(token) {
      var rows := [Row("", [Cell("", Token(token), "")])];
      assert PrintTail(rows[0].cells[1..]) == ")";
      assert PrintRows(rows) + "" == s by {
        assert rows[1..] == [];
        assert PrintCells(rows[0].cells) == token + ")";
      }
      RoundTrip(rows, "");
      assert CellValues(rows[0].cells) == [Bare(token)];
    } else {
      RowsScanned(s, 0, []);
      var bad := [[Bare(token)]];
      assert !ValueOk(bad[0][0]) && !ValuesOk(bad[0]);
    }
  }
}
