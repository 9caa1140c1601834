/** Python's `strip`, `upper` and `lower`; letters other than A-Z and a-z are left as they are. */
module Texts {
  /** What `str.strip()` removes. */
  predicate IsSpace(c: char) {
    var n := c as int;
    || 9 <= n <= 13 || 28 <= n <= 32 || n == 0x85 || n == 0xA0 || n == 0x1680 || 0x2000 <= n <= 0x200A
    || n == 0x2028 || n == 0x2029 || n == 0x202F || n == 0x205F || n == 0x3000
  }

  function UpperChar(c: char): char { if 'a' <= c <= 'z' then 'A' + (c - 'a') else c }

  function LowerChar(c: char): char { if 'A' <= c <= 'Z' then 'a' + (c - 'A') else c }

  function Upper(s: string): (r: string)
    ensures |r| == |s|
  {
    seq(|s|, i requires 0 <= i < |s| => UpperChar(s[i]))
  }

  function Lower(s: string): (r: string)
    ensures |r| == |s|
  {
    seq(|s|, i requires 0 <= i < |s| => LowerChar(s[i]))
  }

  function TrimLeft(s: string): string { if s != "" && IsSpace(s[0]) then TrimLeft(s[1..]) else s }

  function TrimRight(s: string): string {
    if s != "" && IsSpace(s[|s| - 1]) then TrimRight(s[..|s| - 1]) else s
  }

  function Strip(s: string): string { TrimRight(TrimLeft(s)) }

  predicate Blank(s: string) { forall i :: 0 <= i < |s| ==> IsSpace(s[i]) }

  predicate Stripped(s: string) { s == "" || (!IsSpace(s[0]) && !IsSpace(s[|s| - 1])) }

  lemma {:induction false} TrimLeftDropsBlanks(a: string, s: string)
    requires Blank(a)
    ensures TrimLeft(a + s) == TrimLeft(s)
  {
    if a == "" {
      assert a + s == s;
    } else {
      TrimLeftDropsBlanks(a[1..], s);
      assert (a + s)[1..] == a[1..] + s;
    }
  }

  lemma {:induction false} TrimRightDropsBlanks(s: string, b: string)
    requires Blank(b)
    ensures TrimRight(s + b) == TrimRight(s)
  {
    if b == "" {
      assert s + b == s;
    } else {
      TrimRightDropsBlanks(s, b[..|b| - 1]);
      assert (s + b)[..|s + b| - 1] == s + b[..|b| - 1];
    }
  }

  /** Every text is what is left of it with blanks on both sides. */
  lemma {:induction false} TrimLeftSplits(s: string) returns (a: string)
    ensures Blank(a) && s == a + TrimLeft(s) && (TrimLeft(s) != "" ==> !IsSpace(TrimLeft(s)[0]))
  {
    if s != "" && IsSpace(s[0]) {
      var rest := TrimLeftSplits(s[1..]);
      a := [s[0]] + rest;
      assert s == [s[0]] + s[1..];
    } else {
      a := "";
    }
  }

  lemma {:induction false} TrimRightSplits(s: string) returns (b: string)
    ensures Blank(b) && s == TrimRight(s) + b && (TrimRight(s) != "" ==> !IsSpace(TrimRight(s)[|TrimRight(s)| - 1]))
  {
    hide IsSpace;
    if s != "" && IsSpace(s[|s| - 1]) {
      var rest := TrimRightSplits(s[..|s| - 1]);
      b := rest + [s[|s| - 1]];
      assert s == s[..|s| - 1] + [s[|s| - 1]];
    } else {
      b := "";
    }
  }

  lemma StripSplits(s: string) returns (a: string, b: string)
    ensures Blank(a) && Blank(b) && s == a + Strip(s) + b && Stripped(Strip(s))
  {
    hide TrimLeft, TrimRight, IsSpace;
    a := TrimLeftSplits(s);
    b := TrimRightSplits(TrimLeft(s));
    assert Strip(s) != "" ==> Strip(s)[0] == TrimLeft(s)[0];
  }

  lemma StripOfStripped(s: string)
    requires Stripped(s)
    ensures Strip(s) == s
  {
  }

  /** Blanks around a text do not count, whatever the text. */
  lemma StripIgnoresBlanks(a: string, s: string, b: string)
    requires Blank(a) && Blank(b)
    ensures Strip(a + s + b) == Strip(s)
  {
    assert TrimLeft("") == "";
    var trimmed := TrimLeft(s);
    assert trimmed != "" && !IsSpace(trimmed[0]) ==> TrimLeft(trimmed + b) == trimmed + b;
    hide TrimLeft, TrimRight;
    TrimLeftDropsBlanks(a, s + b);
    assert a + (s + b) == a + s + b;
    var left := TrimLeftSplits(s);
    TrimLeftDropsBlanks(left, TrimLeft(s) + b);
    assert left + (TrimLeft(s) + b) == s + b;
    if TrimLeft(s) == "" {
      assert TrimLeft(s) + b == b;
      TrimLeftDropsBlanks(b, "");
      assert b + "" == b;
    } else {
      TrimRightDropsBlanks(TrimLeft(s), b);
    }
  }

  /** Case does not count for what is blank, nor for stripping. */
  lemma StripOfSameLower(s: string, t: string)
    requires Lower(s) == Lower(t)
    ensures Lower(Strip(s)) == Lower(Strip(t))
  {
    hide TrimLeft, TrimRight, LowerChar, IsSpace;
    assert |s| == |t|;
    var a, b := StripSplits(s);
    var left, right := t[..|a|], t[|a| + |Strip(s)|..];
    var middle := t[|a|..|a| + |Strip(s)|];
    forall i | 0 <= i < |s| ensures IsSpace(s[i]) == IsSpace(t[i]) && LowerChar(s[i]) == LowerChar(t[i]) {
      assert Lower(s)[i] == Lower(t)[i];
      SameLowerSameSpace(s[i], t[i]);
    }
    assert t == left + middle + right;
    StripIgnoresBlanks(left, middle, right);
    StripOfStripped(middle);
  }

  lemma SameLowerSameSpace(c: char, d: char)
    requires LowerChar(c) == LowerChar(d)
    ensures IsSpace(c) == IsSpace(d) && UpperChar(c) == UpperChar(d)
  {
  }

  lemma SameLowerSameUpper(s: string, t: string)
    requires Lower(s) == Lower(t)
    ensures Upper(s) == Upper(t)
  {
    forall i | 0 <= i < |s| ensures UpperChar(s[i]) == UpperChar(t[i]) {
      assert Lower(s)[i] == Lower(t)[i];
    }
  }

  /** The twenty-nine characters that count as outer space. */
  lemma SpacesAre(c: char)
    ensures Strip([c]) == "" <==> c as int in {
      9, 10, 11, 12, 13, 28, 29, 30, 31, 32, 0x85, 0xA0, 0x1680, 0x2000, 0x2001, 0x2002, 0x2003, 0x2004, 0x2005, 0x2006,
      0x2007, 0x2008, 0x2009, 0x200A, 0x2028, 0x2029, 0x202F, 0x205F, 0x3000}
  {
    assert TrimLeft([c]) == if IsSpace(c) then "" else [c];
  }
}
