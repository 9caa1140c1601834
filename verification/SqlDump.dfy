/** The VALUES tokenizer and the statement splitter of scripts/import_legacy.py. */
module SqlDump {
  import opened Options
  import Texts

  datatype Value = Text(text: string) | Null | Bare(token: string)
  datatype ParseError = UnterminatedTuple | DanglingBackslash | UnterminatedString

  const BACKSPACE: char := 8 as char
  const NUL: char := 0 as char

  /** The character an escape stands for; unknown ones stand for themselves. */
  function Unescape(c: char): char {
    if c == 'n' then '\n' else if c == 'r' then '\r' else if c == 't' then '\t'
    else if c == '0' then NUL else if c == 'b' then BACKSPACE else c
  }

  predicate IsBlank(c: char) { c == ' ' || c == '\t' || c == '\r' || c == '\n' }

  predicate Junk(c: char) { IsBlank(c) || c == ',' || c == ';' }

  predicate EndsToken(c: char) { IsBlank(c) || c == ',' || c == ')' }

  predicate NullAt(s: string, i: nat) {
    && i + 4 <= |s|
    && Texts.UpperChar(s[i]) == 'N' && Texts.UpperChar(s[i + 1]) == 'U'
    && Texts.UpperChar(s[i + 2]) == 'L' && Texts.UpperChar(s[i + 3]) == 'L'
  }

  // ── The scanners as functions of the text and an index ────────────────────────────────────

  function SkipBlanks(s: string, i: nat): (j: nat)
    requires i <= |s|
    ensures i <= j <= |s| && (j < |s| ==> !IsBlank(s[j]))
    decreases |s| - i
  {
    if i < |s| && IsBlank(s[i]) then SkipBlanks(s, i + 1) else i
  }

  function SkipJunk(s: string, i: nat): (j: nat)
    requires i <= |s|
    ensures i <= j <= |s| && (j < |s| ==> !Junk(s[j]))
    decreases |s| - i
  {
    if i < |s| && Junk(s[i]) then SkipJunk(s, i + 1) else i
  }

  function TokenEnd(s: string, i: nat): (j: nat)
    requires i <= |s|
    ensures i <= j <= |s|
    ensures forall k :: i <= k < j ==> !EndsToken(s[k])
    ensures j < |s| ==> EndsToken(s[j])
    decreases |s| - i
  {
    if i < |s| && !EndsToken(s[i]) then TokenEnd(s, i + 1) else i
  }

  datatype Scan<T> = Got(value: T, next: nat) | Failed(error: ParseError)

  /** From inside a string: its characters up to the closing quote, and the index after it. */
  function ScanText(s: string, i: nat, buf: string): (r: Scan<string>)
    requires i <= |s|
    ensures r.Got? ==> i < r.next <= |s|
    decreases |s| - i
  {
    if i >= |s| then Failed(UnterminatedString)
    else if s[i] == '\\' then
      if i + 1 >= |s| then Failed(DanglingBackslash) else ScanText(s, i + 2, buf + [Unescape(s[i + 1])])
    else if s[i] == '\'' then
      if i + 1 < |s| && s[i + 1] == '\'' then ScanText(s, i + 2, buf + ['\'']) else Got(buf, i + 1)
    else ScanText(s, i + 1, buf + [s[i]])
  }

  /** One value, at a character that is neither blank, nor a comma, nor a closing parenthesis. */
  function ScanValue(s: string, i: nat): (r: Scan<Value>)
    requires i < |s| && !EndsToken(s[i])
    ensures r.Got? ==> i < r.next <= |s|
  {
    if s[i] == '\'' then
      match ScanText(s, i + 1, "")
      case Got(text, next) => Got(Text(text), next)
      case Failed(e) => Failed(e)
    else if NullAt(s, i) then Got(Null, i + 4)
    else Got(Bare(s[i..TokenEnd(s, i)]), TokenEnd(s, i))
  }

  /** From inside a tuple: its values up to the closing parenthesis. */
  function ScanTuple(s: string, i: nat, values: seq<Value>): (r: Scan<seq<Value>>)
    requires i <= |s|
    ensures r.Got? ==> i < r.next <= |s|
    decreases |s| - i
  {
    var j := SkipBlanks(s, i);
    if j >= |s| then Failed(UnterminatedTuple)
    else if s[j] == ')' then Got(values, j + 1)
    else if s[j] == ',' then ScanTuple(s, j + 1, values)
    else
      match ScanValue(s, j)
      case Got(v, next) => ScanTuple(s, next, values + [v])
      case Failed(e) => Failed(e)
  }

  /** The rows yielded before the end, a stray character, or an error. */
  datatype Parsed = Parsed(rows: seq<seq<Value>>, error: Option<ParseError>)

  function ScanRows(s: string, i: nat, rows: seq<seq<Value>>): Parsed
    requires i <= |s|
    decreases |s| - i
  {
    var j := SkipJunk(s, i);
    if j >= |s| || s[j] != '(' then Parsed(rows, None)
    else
      match ScanTuple(s, j + 1, [])
      case Got(values, next) => ScanRows(s, next, rows + [values])
      case Failed(e) => Parsed(rows, Some(e))
  }

  function Parse(s: string): Parsed { ScanRows(s, 0, []) }

  /** The statement splitter. */
  function FindEnd(s: string, i: nat, inStr: bool): (end: nat)
    ensures end <= |s| && (i <= |s| ==> i <= end)
    decreases |s| - i
  {
    if i >= |s| then |s|
    else if inStr then
      if s[i] == '\\' then FindEnd(s, i + 2, true)
      else if s[i] == '\'' then
        if i + 1 < |s| && s[i + 1] == '\'' then FindEnd(s, i + 2, true) else FindEnd(s, i + 1, false)
      else FindEnd(s, i + 1, true)
    else if s[i] == '\'' then FindEnd(s, i + 1, true)
    else if s[i] == ';' then i
    else FindEnd(s, i + 1, false)
  }

  // ── The methods ───────────────────────────────────────────────────────────────────────────

  method ReadText(s: string, start: nat) returns (r: Scan<string>)
    requires start <= |s|
    ensures r == ScanText(s, start, "")
  {
    var i, buf := start, "";
    while i < |s|
      invariant start <= i <= |s|
      invariant ScanText(s, i, buf) == ScanText(s, start, "")
      decreases |s| - i
    {
      var c := s[i];
      if c == '\\' {
        if i + 1 >= |s| {
          return Failed(DanglingBackslash);
        }
        buf := buf + [Unescape(s[i + 1])];
        i := i + 2;
        continue;
      }
      if c == '\'' {
        if i + 1 < |s| && s[i + 1] == '\'' {
          buf := buf + ['\''];
          i := i + 2;
          continue;
        }
        return Got(buf, i + 1);
      }
      buf := buf + [c];
      i := i + 1;
    }
    return Failed(UnterminatedString);
  }

  method ReadValue(s: string, i: nat) returns (r: Scan<Value>)
    requires i < |s| && !EndsToken(s[i])
    ensures r == ScanValue(s, i)
  {
    if s[i] == '\'' {
      var text := ReadText(s, i + 1);
      return if text.Got? then Got(Text(text.value), text.next) else Failed(text.error);
    }
    if NullAt(s, i) {
      return Got(Null, i + 4);
    }
    var j := i;
    while j < |s| && !EndsToken(s[j])
      invariant i <= j <= |s|
      invariant TokenEnd(s, j) == TokenEnd(s, i)
    {
      j := j + 1;
    }
    return Got(Bare(s[i..j]), j);
  }

  method ReadTuple(s: string, start: nat) returns (r: Scan<seq<Value>>)
    requires start <= |s|
    ensures r == ScanTuple(s, start, [])
  {
    var i, values := start, [];
    while true
      invariant start <= i <= |s|
      invariant ScanTuple(s, i, values) == ScanTuple(s, start, [])
      decreases |s| - i
    {
      ghost var before := i;
      while i < |s| && IsBlank(s[i])
        invariant before <= i <= |s|
        invariant SkipBlanks(s, i) == SkipBlanks(s, before)
      {
        i := i + 1;
      }
      if i >= |s| {
        return Failed(UnterminatedTuple);
      }
      if s[i] == ')' {
        return Got(values, i + 1);
      }
      if s[i] == ',' {
        i := i + 1;
        continue;
      }
      var v := ReadValue(s, i);
      if v.Failed? {
        return Failed(v.error);
      }
      values := values + [v.value];
      i := v.next;
    }
  }

  method ParseValueTuples(s: string) returns (rows: seq<seq<Value>>, error: Option<ParseError>)
    ensures Parsed(rows, error) == Parse(s)
  {
    var i := 0;
    rows, error := [], None;
    while i < |s|
      invariant i <= |s|
      invariant ScanRows(s, i, rows) == Parse(s)
    {
      ghost var before := i;
      while i < |s| && Junk(s[i])
        invariant before <= i <= |s|
        invariant SkipJunk(s, i) == SkipJunk(s, before)
      {
        i := i + 1;
      }
      if i >= |s| {
        break;
      }
      if s[i] != '(' {
        return;
      }
      var tuple := ReadTuple(s, i + 1);
      if tuple.Failed? {
        return rows, Some(tuple.error);
      }
      rows := rows + [tuple.value];
      i := tuple.next;
    }
  }

  method FindStatementTerminator(text: string, start: nat) returns (end: nat)
    requires start <= |text|
    ensures end == FindEnd(text, start, false)
  {
    var i, inStr := start, false;
    while i < |text|
      invariant FindEnd(text, i, inStr) == FindEnd(text, start, false)
      decreases |text| - i
    {
      var c := text[i];
      if inStr {
        if c == '\\' {
          i := i + 2;
          continue;
        }
        if c == '\'' {
          if i + 1 < |text| && text[i + 1] == '\'' {
            i := i + 2;
            continue;
          }
          inStr := false;
          i := i + 1;
          continue;
        }
        i := i + 1;
        continue;
      }
      if c == '\'' {
        inStr := true;
        i := i + 1;
        continue;
      }
      if c == ';' {
        return i;
      }
      i := i + 1;
    }
    return |text|;
  }
}
