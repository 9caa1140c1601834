/** Hexadecimal and the two base64 alphabets of RFC 4648 (sections 4, 5 and 8), as far as they spell
    32-byte identities. Bytes are integers from 0 to 255. */
module Base64 {
  import opened Options

  ghost predicate AreBytes(b: seq<int>) { forall i :: 0 <= i < |b| ==> 0 <= b[i] < 256 }

  ghost predicate AreSextets(s: seq<int>) { forall i :: 0 <= i < |s| ==> 0 <= s[i] < 64 }

  // ── Symbols ───────────────────────────────────────────────────────────────────────────────

  /** `-_` are translated to `+/` first, so both alphabets are read. */
  function Sextet(c: char): int {
    if 'A' <= c <= 'Z' then c as int - 'A' as int
    else if 'a' <= c <= 'z' then c as int - 'a' as int + 26
    else if '0' <= c <= '9' then c as int - '0' as int + 52
    else if c == '+' || c == '-' then 62
    else if c == '/' || c == '_' then 63
    else -1
  }

  predicate IsData(c: char) { Sextet(c) >= 0 }

  function Symbol(v: int, url: bool): (c: char)
    requires 0 <= v < 64
    ensures Sextet(c) == v && (url ==> c != '+' && c != '/') && (!url ==> c != '-' && c != '_')
  {
    if v < 26 then 'A' + v as char
    else if v < 52 then 'a' + (v - 26) as char
    else if v < 62 then '0' + (v - 52) as char
    else if v == 62 then if url then '-' else '+'
    else if url then '_' else '/'
  }

  // ── Groups ────────────────────────────────────────────────────────────────────────────────

  /** Bits beyond the last whole byte are dropped. */
  function Bytes(s: seq<int>): seq<int> {
    if |s| >= 4 then [s[0] * 4 + s[1] / 16, (s[1] % 16) * 16 + s[2] / 4, (s[2] % 4) * 64 + s[3]] + Bytes(s[4..])
    else if |s| == 3 then [s[0] * 4 + s[1] / 16, (s[1] % 16) * 16 + s[2] / 4]
    else if |s| == 2 then [s[0] * 4 + s[1] / 16]
    else []
  }

  function Sextets(b: seq<int>): seq<int> {
    if |b| >= 3 then
      [b[0] / 4, (b[0] % 4) * 16 + b[1] / 16, (b[1] % 16) * 4 + b[2] / 64, b[2] % 64] + Sextets(b[3..])
    else if |b| == 2 then [b[0] / 4, (b[0] % 4) * 16 + b[1] / 16, (b[1] % 16) * 4]
    else if |b| == 1 then [b[0] / 4, (b[0] % 4) * 16]
    else []
  }

  lemma {:induction false} BytesOfSextets(b: seq<int>)
    requires AreBytes(b)
    ensures AreSextets(Sextets(b)) && Bytes(Sextets(b)) == b && |Sextets(b)| == (4 * |b| + 2) / 3
  {
    if |b| >= 3 {
      BytesOfSextets(b[3..]);
      assert Sextets(b)[4..] == Sextets(b[3..]);
      assert b == b[..3] + b[3..];
    }
  }

  lemma {:induction false} BytesAreBytes(s: seq<int>)
    requires AreSextets(s)
    ensures AreBytes(Bytes(s)) && |Bytes(s)| == |s| * 3 / 4
  {
    if |s| >= 4 {
      BytesAreBytes(s[4..]);
    }
  }

  // ── Strict decoding ───────────────────────────────────────────────────────────────────────

  /** Leading symbols of either alphabet. */
  function DataLength(text: string): (n: nat)
    ensures n <= |text| && (forall i :: 0 <= i < n ==> IsData(text[i])) && (n < |text| ==> !IsData(text[n]))
  {
    if text != [] && IsData(text[0]) then 1 + DataLength(text[1..]) else 0
  }

  predicate AllPads(text: string) { forall i :: 0 <= i < |text| ==> text[i] == '=' }

  function Values(text: string): seq<int> { seq(|text|, i requires 0 <= i < |text| => Sextet(text[i])) }

  /** Data, then the padding that fills the last group and nothing else; `None` for an error. */
  function Decode(text: string): (r: Option<seq<int>>)
    ensures r.Some? ==> AreBytes(r.value)
  {
    var n := DataLength(text);
    assert AreBytes(Bytes(Values(text[..n]))) by { BytesAreBytes(Values(text[..n])); }
    if AllPads(text[n..]) && n % 4 != 1 && |text| - n == (4 - n % 4) % 4 then Some(Bytes(Values(text[..n]))) else None
  }

  /** Symbols, and then that many pads. */
  predicate PaddedBy(text: string, pads: int) {
    && 0 <= pads <= |text| && AllPads(text[|text| - pads..])
    && forall i :: 0 <= i < |text| - pads ==> IsData(text[i])
  }

  lemma PadsAreTheRest(text: string, pads: int)
    requires PaddedBy(text, pads)
    ensures DataLength(text) == |text| - pads
  {
    assert !IsData('=');
    hide Sextet, IsData;
    var n, m := DataLength(text), |text| - pads;
    hide DataLength;
    assert pads > 0 ==> text[m] == text[m..][0] == '=';
    assert n >= m;
  }

  lemma WholeGroups(n: nat, length: nat)
    requires n <= length
    ensures n % 4 != 1 && length - n == (4 - n % 4) % 4 <==> length % 4 == 0 && length - n <= 2
  {
  }

  /** Exactly what decodes: whole groups of four, of which the last may end in one or two pads. */
  lemma DecodeIff(text: string)
    ensures Decode(text).Some? <==> |text| % 4 == 0 && exists pads :: 0 <= pads <= 2 && PaddedBy(text, pads)
  {
    var n := DataLength(text);
    WholeGroups(n, |text|);
    hide DataLength, AllPads, Bytes, Values, AreBytes, IsData;
    assert text[|text| - (|text| - n)..] == text[n..];
    assert PaddedBy(text, |text| - n) <==> AllPads(text[n..]);
    hide PaddedBy;
    if pads :| 0 <= pads <= 2 && PaddedBy(text, pads) {
      PadsAreTheRest(text, pads);
    }
  }

  function Spelled(v: seq<int>, url: bool): string
    requires AreSextets(v)
  {
    seq(|v|, i requires 0 <= i < |v| => Symbol(v[i], url))
  }

  function Pads(n: nat): string { seq(n, _ => '=') }

  /** A spelling of `b`, without its padding. */
  function Encode(b: seq<int>, url: bool): string
    requires AreBytes(b)
  {
    BytesOfSextets(b);
    Spelled(Sextets(b), url)
  }

  lemma SpelledData(v: seq<int>, url: bool, k: nat)
    requires AreSextets(v)
    ensures
      var text := Spelled(v, url) + Pads(k);
      DataLength(text) == |v| && Values(text[..|v|]) == v && AllPads(text[|v|..])
  {
    assert !IsData('=');
    hide DataLength, Sextet, Symbol;
    var text := Spelled(v, url) + Pads(k);
    forall i | 0 <= i < |v| ensures IsData(text[i]) && Sextet(text[i]) == v[i] {
      assert text[i] == Symbol(v[i], url);
    }
    assert text[..|v|] == Spelled(v, url);
    assert k > 0 ==> text[|v|] == '=';
  }

  lemma DecodeSpelled(v: seq<int>, url: bool, k: nat)
    requires AreSextets(v) && |v| % 4 != 1 && k == (4 - |v| % 4) % 4
    ensures Decode(Spelled(v, url) + Pads(k)) == Some(Bytes(v))
  {
    hide Bytes, Values, AllPads, DataLength, Symbol;
    SpelledData(v, url, k);
    var text := Spelled(v, url) + Pads(k);
    assert |text| == |v| + k;
    hide Spelled, Pads;
  }

  /** Filled up with as many pads as its length asks for, every encoding is decoded to what it
      encodes, in either alphabet. */
  lemma DecodeEncode(b: seq<int>, url: bool)
    requires AreBytes(b)
    ensures
      var text := Encode(b, url);
      Decode(text + Pads((4 - |text| % 4) % 4)) == Some(b)
  {
    hide Bytes, Sextets, Sextet, Symbol, Decode, Pads;
    BytesOfSextets(b);
    DecodeSpelled(Sextets(b), url, (4 - |Sextets(b)| % 4) % 4);
  }

  // ── Hexadecimal ───────────────────────────────────────────────────────────────────────────

  function Nibble(c: char): int {
    if '0' <= c <= '9' then c as int - '0' as int
    else if 'a' <= c <= 'f' then c as int - 'a' as int + 10
    else if 'A' <= c <= 'F' then c as int - 'A' as int + 10
    else -1
  }

  predicate IsHex(c: char) { Nibble(c) >= 0 }

  function HexDigit(v: int): (c: char)
    requires 0 <= v < 16
    ensures Nibble(c) == v && !('A' <= c <= 'Z')
  {
    if v < 10 then '0' + v as char else 'a' + (v - 10) as char
  }

  function HexOf(b: seq<int>): string
    requires AreBytes(b)
  {
    seq(2 * |b|, i requires 0 <= i < 2 * |b| => HexDigit(if i % 2 == 0 then b[i / 2] / 16 else b[i / 2] % 16))
  }

  predicate AllHex(text: string) { forall i :: 0 <= i < |text| ==> IsHex(text[i]) }

  function FromHex(text: string): (b: seq<int>)
    requires |text| % 2 == 0 && AllHex(text)
    ensures AreBytes(b)
  {
    seq(|text| / 2, i requires 0 <= i < |text| / 2 => Nibble(text[2 * i]) * 16 + Nibble(text[2 * i + 1]))
  }

  lemma HexRoundTrip(b: seq<int>)
    requires AreBytes(b)
    ensures AllHex(HexOf(b)) && FromHex(HexOf(b)) == b
  {
    var h := HexOf(b);
    forall i | 0 <= i < |h| ensures IsHex(h[i]) {
    }
    forall i | 0 <= i < |b| ensures FromHex(h)[i] == b[i] {
      assert (2 * i) / 2 == i && (2 * i + 1) / 2 == i;
    }
  }
}
