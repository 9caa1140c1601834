/** The characters a dump gives a meaning to, read off what parses. */
module SqlLaws {
  import opened Options
  import opened SqlDump
  import Texts

  /** A row that starts at `i` and ends the text. */
  lemma OneRow(s: string, i: nat, values: seq<Value>)
    requires i < |s| && s[i] == '(' && ScanTuple(s, i + 1, []) == Got(values, |s|)
    ensures ScanRows(s, i, []) == Parsed([values], None)
  {
    assert [] + [values] == [values];
    assert ScanRows(s, |s|, [values]) == Parsed([values], None);
  }

  /** What a backslash makes of the character after it. */
  lemma EscapesAre(c: char)
    ensures
      var meant := match c
                   case 'n' => '\n'
                   case 'r' => '\r'
                   case 't' => '\t'
                   case '0' => 0 as char
                   case 'b' => 8 as char
                   case _ => c;
      Parse("('\\" + [c] + "')") == Parsed([[Text([meant])]], None)
  {
    var s := "('\\" + [c] + "')";
    var text := [Unescape(c)];
    assert s[3] == c && s[4] == '\'' && s[5] == ')' && |s| == 6;
    assert ScanText(s, 4, text) == Got(text, 5);
    assert "" + text == text;
    assert ScanText(s, 2, "") == Got(text, 5);
    assert ScanTuple(s, 5, [Text(text)]) == Got([Text(text)], 6);
    assert [] + [Text(text)] == [Text(text)];
    assert ScanTuple(s, 1, []) == Got([Text(text)], 6);
    OneRow(s, 0, [Text(text)]);
  }

  /** From `i` on there is `x)` and nothing else. */
  lemma LastValue(s: string, i: nat, x: char, values: seq<Value>)
    requires |s| == i + 2 && s[i] == x && s[i + 1] == ')' && x in {'x', 'y'}
    ensures ScanTuple(s, i, values) == Got(values + [Bare([x])], i + 2)
  {
    assert TokenEnd(s, i) == i + 1;
    assert s[i..i + 1] == [x];
    assert ScanTuple(s, i + 1, values + [Bare([x])]) == Got(values + [Bare([x])], i + 2);
  }

  /** What may stand before a row: four blanks, the comma and the semicolon. */
  lemma SeparatorIff(c: char)
    ensures Parse([c] + "(x)").rows == [[Bare("x")]] <==> c in " \t\r\n,;"
  {
    var s := [c] + "(x)";
    assert s[0] == c && s[1] == '(' && s[2] == 'x' && s[3] == ')' && |s| == 4;
    if Junk(c) {
      assert SkipJunk(s, 0) == 1;
      LastValue(s, 2, 'x', []);
      assert [] + [Bare("x")] == [Bare("x")];
      OneRow(s, 1, [Bare("x")]);
      assert Parse(s) == ScanRows(s, 1, []);
    } else if c == '(' {
      assert TokenEnd(s, 3) == 3;
      assert TokenEnd(s, 2) == 3;
      assert TokenEnd(s, 1) == 3;
      assert s[1..3] == "(x" != "x";
      var word := [Bare(s[1..3])];
      assert ScanTuple(s, 3, word) == Got(word, 4);
      assert [] + word == word;
      OneRow(s, 0, word);
    }
  }

  /** What ends a value and starts the next: four blanks and the comma, but not the semicolon. */
  lemma ValueSeparatorIff(c: char)
    ensures Parse("(x" + [c] + "y)").rows == [[Bare("x"), Bare("y")]] <==> c in " \t\r\n,"
  {
    var s := "(x" + [c] + "y)";
    assert s[0] == '(' && s[1] == 'x' && s[2] == c && s[3] == 'y' && s[4] == ')' && |s| == 5;
    if EndsToken(c) {
      TwoValues(s, c);
    } else {
      assert TokenEnd(s, 4) == 4;
      assert TokenEnd(s, 3) == 4;
      assert TokenEnd(s, 2) == 4;
      assert TokenEnd(s, 1) == 4;
      var word := [Bare(s[1..4])];
      assert ScanTuple(s, 4, word) == Got(word, 5);
      assert [] + word == word;
      OneRow(s, 0, word);
      assert |word| == 1;
    }
  }

  lemma TwoValues(s: string, c: char)
    requires s == "(x" + [c] + "y)" && EndsToken(c)
    ensures Parse(s).rows == if c == ')' then [[Bare("x")]] else [[Bare("x"), Bare("y")]]
  {
    assert s[0] == '(' && s[1] == 'x' && s[2] == c && s[3] == 'y' && s[4] == ')' && |s| == 5;
    assert TokenEnd(s, 1) == 2;
    assert s[1..2] == "x";
    var x := [Bare("x")];
    assert [] + x == x;
    assert ScanTuple(s, 1, []) == ScanTuple(s, 2, x);
    if c == ')' {
      assert [] + [x] == [x];
      assert ScanRows(s, 3, [x]).rows == [x];
    } else {
      LastValue(s, 3, 'y', x);
      assert ScanTuple(s, 2, x) == ScanTuple(s, 3, x);
      assert x + [Bare("y")] == [Bare("x"), Bare("y")];
      OneRow(s, 0, [Bare("x"), Bare("y")]);
    }
  }

  /** NULL, in any case, is read as soon as its four letters are there: what follows them is the next value. */
  lemma NullIsFourLetters(word: string)
    requires |word| == 4 && Texts.Upper(word) == "NULL"
    ensures Parse("(" + word + "x)") == Parsed([[Null, Bare("x")]], None)
  {
    var s := "(" + word + "x)";
    forall k | 0 <= k < 4 ensures s[1 + k] == word[k] && Texts.UpperChar(s[1 + k]) == "NULL"[k] {
      assert Texts.Upper(word)[k] == Texts.UpperChar(word[k]);
    }
    assert s[0] == '(' && s[5] == 'x' && s[6] == ')' && |s| == 7;
    assert NullAt(s, 1);
    assert !EndsToken(s[1]) && s[1] != '\'';
    var start := [Null];
    assert [] + start == start && start + [Bare("x")] == [Null, Bare("x")];
    LastValue(s, 5, 'x', start);
    assert ScanTuple(s, 1, []) == ScanTuple(s, 5, start);
    OneRow(s, 0, [Null, Bare("x")]);
  }
}
