/** The statement splitter on what the tokenizer reads: both leave every string at the same index,
    so printed bodies are cut exactly where they were joined. */
module SqlSplitting {
  import opened Options
  import opened SqlDump
  import opened SqlRoundTrip

  // ── The two scanners, on any text ─────────────────────────────────────────────────────────

  /** Wherever the tokenizer finds the end of a string, the splitter leaves its string there too,
      also when more text follows the part the tokenizer sees, unless that text goes on with a
      quote; and when the tokenizer finds no end, the splitter runs to the end of that part. */
  lemma {:induction false} StringStatesAgree(body: string, rest: string, i: nat, buf: string)
    requires i <= |body| && (rest != [] ==> rest[0] != '\'')
    ensures
      var r := ScanText(body, i, buf);
      && (r.Got? ==> FindEnd(body + rest, i, true) == FindEnd(body + rest, r.next, false))
      && (r.Failed? && rest == [] ==> FindEnd(body, i, true) == |body|)
    decreases |body| - i
  {
    var s := body + rest;
    if rest == [] { assert s == body; }
    if i < |body| {
      assert s[i] == body[i];
      if i + 1 < |body| { assert s[i + 1] == body[i + 1]; }
      if body[i] == '\\' {
        if i + 1 < |body| {
          StringStatesAgree(body, rest, i + 2, buf + [Unescape(body[i + 1])]);
        }
      } else if body[i] == '\'' {
        if i + 1 < |body| && body[i + 1] == '\'' {
          StringStatesAgree(body, rest, i + 2, buf + ['\'']);
        } else if i + 1 < |s| && i + 1 >= |body| {
          assert s[i + 1] == rest[0];
        }
      } else {
        StringStatesAgree(body, rest, i + 1, buf + [body[i]]);
      }
    }
  }

  // ── Printed bodies ────────────────────────────────────────────────────────────────────────

  /** Text with no quote and no semicolon does not concern the splitter. */
  predicate Quiet(s: string) { forall i :: 0 <= i < |s| ==> s[i] != '\'' && s[i] != ';' }

  lemma {:induction false} QuietPassed(s: string, i: nat, quiet: string)
    requires At(s, i, quiet) && Quiet(quiet)
    ensures FindEnd(s, i, false) == FindEnd(s, i + |quiet|, false)
    decreases |quiet|
  {
    if quiet != [] {
      AtChar(s, i, quiet, 0);
      assert quiet[..1] + quiet[1..] == quiet;
      AtSplit(s, i, quiet[..1], quiet[1..]);
      QuietPassed(s, i + 1, quiet[1..]);
    }
  }

  lemma CharPassed(s: string, i: nat, c: char)
    requires At(s, i, [c]) && c != '\'' && c != ';'
    ensures FindEnd(s, i, false) == FindEnd(s, i + 1, false)
  {
    QuietPassed(s, i, [c]);
  }

  lemma SemicolonStops(s: string, i: nat)
    requires At(s, i, [';'])
    ensures FindEnd(s, i, false) == i && i < |s|
  {
    AtChar(s, i, [';'], 0);
  }

  /** Numbers and words without quotes and semicolons; separators without semicolons. */
  predicate Splittable(row: Row) {
    && row.Printable()
    && Quiet(row.before)
    && forall i :: 0 <= i < |row.cells| ==> (row.cells[i].item.Token? ==> Quiet(row.cells[i].item.token))
  }

  lemma TextPassed(s: string, i: nat, text: string, styles: seq<Style>)
    requires |text| == |styles| && forall k :: 0 <= k < |text| ==> Legal(text[k], styles[k])
    requires At(s, i, ['\''] + (PrintText(text, styles) + ['\'']))
    requires var end := i + |PrintText(text, styles)| + 2; end < |s| ==> s[end] != '\''
    ensures FindEnd(s, i, false) == FindEnd(s, i + |PrintText(text, styles)| + 2, false)
  {
    AtSplit(s, i, ['\''], PrintText(text, styles) + ['\'']);
    AtChar(s, i, ['\''], 0);
    TextReadsBack(s, i + 1, text, styles, "");
    StringStatesAgree(s, [], i + 1, "");
    assert s + [] == s;
  }

  lemma ItemPassed(s: string, i: nat, item: Item)
    requires item.Printable() && (item.Token? ==> Quiet(item.token)) && At(s, i, item.Print())
    requires i + |item.Print()| < |s| ==> s[i + |item.Print()|] != '\''
    ensures FindEnd(s, i, false) == FindEnd(s, i + |item.Print()|, false)
  {
    hide FindEnd, At;
    match item
    case Quoted(text, styles) =>
      assert item.Print() == ['\''] + (PrintText(text, styles) + ['\'']);
      TextPassed(s, i, text, styles);
    case NullWord(word) =>
      assert Quiet(word);
      QuietPassed(s, i, word);
    case Token(token) =>
      QuietPassed(s, i, token);
  }

  lemma CellPassed(s: string, i: nat, cell: Cell)
    requires cell.Printable() && (cell.item.Token? ==> Quiet(cell.item.token)) && At(s, i, cell.Print())
    requires i + |cell.Print()| < |s| && (s[i + |cell.Print()|] == ',' || s[i + |cell.Print()|] == ')')
    ensures FindEnd(s, i, false) == FindEnd(s, i + |cell.Print()|, false)
  {
    hide FindEnd, At;
    var p := cell.item.Print();
    AtSplit(s, i, cell.before, p + cell.after);
    var j := i + |cell.before|;
    AtSplit(s, j, p, cell.after);
    var k := j + |p|;
    assert s[k] != '\'' by {
      if cell.after != [] {
        AtChar(s, k, cell.after, 0);
      }
    }
    QuietPassed(s, i, cell.before);
    ItemPassed(s, j, cell.item);
    QuietPassed(s, k, cell.after);
  }

  lemma {:induction false} TailPassed(s: string, i: nat, cells: seq<Cell>)
    requires forall k :: 0 <= k < |cells| ==>
               cells[k].Printable() && (cells[k].item.Token? ==> Quiet(cells[k].item.token))
    requires At(s, i, PrintTail(cells))
    ensures FindEnd(s, i, false) == FindEnd(s, i + |PrintTail(cells)|, false)
    decreases |cells|
  {
    hide FindEnd, At, Quiet, Cell.Print, Cell.Printable;
    if cells == [] {
      CharPassed(s, i, ')');
    } else {
      var p, tail := cells[0].Print(), PrintTail(cells[1..]);
      AtSplit(s, i, [','], p + tail);
      AtSplit(s, i + 1, p, tail);
      TailStarts(cells[1..]);
      AtChar(s, i + 1 + |p|, tail, 0);
      CharPassed(s, i, ',');
      CellPassed(s, i + 1, cells[0]);
      TailPassed(s, i + 1 + |p|, cells[1..]);
    }
  }

  lemma CellsPassed(s: string, i: nat, cells: seq<Cell>)
    requires forall k :: 0 <= k < |cells| ==>
               cells[k].Printable() && (cells[k].item.Token? ==> Quiet(cells[k].item.token))
    requires At(s, i, PrintCells(cells))
    ensures FindEnd(s, i, false) == FindEnd(s, i + |PrintCells(cells)|, false)
  {
    hide FindEnd, At, Quiet, Cell.Print, Cell.Printable;
    if cells == [] {
      CharPassed(s, i, ')');
    } else {
      var p, tail := cells[0].Print(), PrintTail(cells[1..]);
      AtSplit(s, i, p, tail);
      TailStarts(cells[1..]);
      AtChar(s, i + |p|, tail, 0);
      CellPassed(s, i, cells[0]);
      TailPassed(s, i + |p|, cells[1..]);
    }
  }

  lemma RowPassed(s: string, i: nat, row: Row)
    requires Splittable(row) && At(s, i, PrintRow(row))
    ensures FindEnd(s, i, false) == FindEnd(s, i + |PrintRow(row)|, false)
  {
    hide FindEnd, At, Quiet, PrintCells;
    var cells := PrintCells(row.cells);
    AtSplit(s, i, row.before, ['('] + cells);
    var j := i + |row.before|;
    AtSplit(s, j, ['('], cells);
    QuietPassed(s, i, row.before);
    CharPassed(s, j, '(');
    CellsPassed(s, j + 1, row.cells);
  }

  lemma {:induction false} RowsPassed(s: string, i: nat, rows: seq<Row>)
    requires Printable(rows) && (forall k :: 0 <= k < |rows| ==> Splittable(rows[k])) && At(s, i, PrintRows(rows))
    ensures FindEnd(s, i, false) == FindEnd(s, i + |PrintRows(rows)|, false)
    decreases |rows|
  {
    hide FindEnd, At, PrintRow;
    if rows != [] {
      AtSplit(s, i, PrintRow(rows[0]), PrintRows(rows[1..]));
      RowPassed(s, i, rows[0]);
      RowsPassed(s, i + |PrintRow(rows[0])|, rows[1..]);
    }
  }

  /** A printed body: rows and the blanks after them. */
  datatype Body = Body(rows: seq<Row>, end: string)
  {
    predicate Ok() {
      && Printable(rows) && (forall k :: 0 <= k < |rows| ==> Splittable(rows[k]))
      && AllJunk(end) && Quiet(end)
    }

    function Print(): string
      requires Ok()
    {
      PrintRows(rows) + end
    }
  }

  /** The splitter stops exactly at the semicolon after a printed body, whatever the strings in it
      contain and whatever text follows. */
  lemma TerminatorFound(s: string, i: nat, body: Body)
    requires body.Ok() && At(s, i, body.Print() + [';'])
    ensures FindEnd(s, i, false) == i + |body.Print()|
    ensures i + |body.Print()| < |s| && s[i..i + |body.Print()|] == body.Print()
  {
    hide FindEnd, PrintRows, Quiet;
    var p, rows := body.Print(), PrintRows(body.rows);
    AtSplit(s, i, p, [';']);
    SemicolonStops(s, i + |p|);
    AtSplit(s, i, rows, body.end);
    RowsPassed(s, i, body.rows);
    QuietPassed(s, i + |rows|, body.end);
  }

  // ── Joined statements ─────────────────────────────────────────────────────────────────────

  function Join(bodies: seq<Body>): string
    requires forall k :: 0 <= k < |bodies| ==> bodies[k].Ok()
  {
    if bodies == [] then [] else bodies[0].Print() + ([';'] + Join(bodies[1..]))
  }

  /** Cutting at each terminator in turn, `n` times, and parsing each piece. */
  function SplitAndParse(s: string, i: nat, n: nat): seq<Parsed>
    requires i <= |s|
    decreases n
  {
    if n == 0 then []
    else
      var end := FindEnd(s, i, false);
      [Parse(s[i..end])] + (if end < |s| then SplitAndParse(s, end + 1, n - 1) else [])
  }

  function Meanings(bodies: seq<Body>): seq<Parsed> {
    if bodies == [] then [] else [Parsed(RowValues(bodies[0].rows), None)] + Meanings(bodies[1..])
  }

  /** Bodies joined with semicolons come apart where they were joined, each with its own rows. */
  lemma {:induction false} JoinedBodiesComeApart(s: string, i: nat, bodies: seq<Body>)
    requires forall k :: 0 <= k < |bodies| ==> bodies[k].Ok()
    requires At(s, i, Join(bodies))
    ensures SplitAndParse(s, i, |bodies|) == Meanings(bodies)
    decreases |bodies|
  {
    hide FindEnd, At, Parse, RowValues;
    if bodies != [] {
      var p, rest := bodies[0].Print(), Join(bodies[1..]);
      assert p + ([';'] + rest) == (p + [';']) + rest;
      AtSplit(s, i, p + [';'], rest);
      TerminatorFound(s, i, bodies[0]);
      RoundTrip(bodies[0].rows, bodies[0].end);
      JoinedBodiesComeApart(s, i + |p| + 1, bodies[1..]);
    }
  }
}
