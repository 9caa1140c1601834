/** The identity of a chain transaction, and the claims that let it fund one payment
    (services/crypto_claims.py, models/crypto_claim.py). */
module CryptoClaims {
  import opened Options
  import opened Texts
  import opened Base64

  // ── Identity ──────────────────────────────────────────────────────────────────────────────

  function CurrencyKey(currency: string): string {
    var value := Upper(Strip(currency));
    if value in ["TRX", "TRON"] then "TRX"
    else if value in ["USDT TRC20", "USDT-TRC20", "USDT (TRC20)"] then "USDT TRC20"
    else value
  }

  /** TRON has two names, its dollar three, and every other currency its own. */
  lemma CurrencyKeyIff(c: string, d: string)
    ensures
      var u, v := Upper(Strip(c)), Upper(Strip(d));
      && (CurrencyKey(c) == CurrencyKey(d) <==>
            || u == v
            || (u in {"TRX", "TRON"} && v in {"TRX", "TRON"})
            || (u in {"USDT TRC20", "USDT-TRC20", "USDT (TRC20)"} && v in {"USDT TRC20", "USDT-TRC20", "USDT (TRC20)"}))
  {
  }

  const CASELESS_CHAINS: seq<string> := ["TRON", "ETHEREUM", "BITCOIN", "BSC", "LITECOIN", "DOGECOIN", "XRP"]

  function Chain(currency: string): string {
    var value := CurrencyKey(currency);
    if value in ["TRX", "USDT TRC20"] then "TRON"
    else if value in ["ETH", "ETHEREUM", "USDT ERC20", "USDT-ERC20", "USDT (ERC20)", "USDC ERC20"] then "ETHEREUM"
    else if value in ["BTC", "BITCOIN"] then "BITCOIN"
    else if value in ["BNB", "USDT BSC", "USDT BEP20", "USDT-BEP20"] then "BSC"
    else if value in ["LTC", "LITECOIN"] then "LITECOIN"
    else if value in ["DOGE", "DOGECOIN"] then "DOGECOIN"
    else if value in ["XRP", "RIPPLE"] then "XRP"
    else value
  }

  predicate IsHex64(v: string) { |v| == 64 && AllHex(v) }

  function Filled(v: string): string { v + Pads((4 - |v| % 4) % 4) }

  function TonHash(v: string): string {
    if IsHex64(v) then Lower(v)
    else
      var decoded := Decode(Filled(v));
      if decoded.Some? && |decoded.value| == 32 then HexOf(decoded.value) else v
  }

  datatype Key = Key(chain: string, hash: string)

  function TransactionKey(currency: string, txHash: string): Key {
    var chain, v := Chain(currency), Strip(txHash);
    Key(chain, if chain in CASELESS_CHAINS then Lower(v) else if chain == "TON" then TonHash(v) else v)
  }

  /** What a TON spelling denotes: 32 bytes, written in hexadecimal or in either base64 alphabet. */
  function TonIdentity(v: string): (id: Option<seq<int>>)
    ensures id.Some? ==> AreBytes(id.value) && |id.value| == 32
  {
    if IsHex64(v) then Some(FromHex(v))
    else
      var decoded := Decode(Filled(v));
      if decoded.Some? && |decoded.value| == 32 then decoded else None
  }

  lemma LowerOfNibble(c: char)
    requires IsHex(c)
    ensures LowerChar(c) == HexDigit(Nibble(c))
  {
  }

  lemma LowerIsHexOf(v: string)
    requires |v| % 2 == 0 && AllHex(v)
    ensures Lower(v) == HexOf(FromHex(v))
  {
    var b := FromHex(v);
    hide LowerChar, HexDigit;
    forall i | 0 <= i < |v| ensures Lower(v)[i] == HexOf(b)[i] {
      LowerOfNibble(v[i]);
      var high, low := Nibble(v[2 * (i / 2)]), Nibble(v[2 * (i / 2) + 1]);
      assert b[i / 2] == high * 16 + low && 0 <= low < 16;
      assert b[i / 2] / 16 == high && b[i / 2] % 16 == low by { hide Nibble; }
    }
  }

  lemma TonHashIs(v: string)
    ensures TonHash(v) == if TonIdentity(v).Some? then HexOf(TonIdentity(v).value) else v
  {
    if IsHex64(v) {
      LowerIsHexOf(v);
    }
  }

  lemma TonIdentityOfHex(b: seq<int>)
    requires AreBytes(b) && |b| == 32
    ensures TonIdentity(HexOf(b)) == Some(b)
  {
    HexRoundTrip(b);
  }

  predicate SameText(u: string, v: string) { Lower(Strip(u)) == Lower(Strip(v)) }

  predicate SameTon(u: string, v: string) {
    if TonIdentity(u).Some? then TonIdentity(u) == TonIdentity(v) else TonIdentity(v).None? && u == v
  }

  lemma TonHashIff(u: string, v: string)
    ensures TonHash(u) == TonHash(v) <==> SameTon(u, v)
  {
    hide TonHash, TonIdentity, HexOf;
    TonHashIs(u);
    TonHashIs(v);
    if TonIdentity(u).Some? {
      TonIdentityOfHex(TonIdentity(u).value);
    }
    if TonIdentity(v).Some? {
      TonIdentityOfHex(TonIdentity(v).value);
    }
  }

  /** Exactly when two references are one transaction: on the listed chains, up to case and outer
      space; on TON, when they spell the same 32 bytes; elsewhere, up to outer space only. */
  lemma KeyIff(c: string, u: string, d: string, v: string)
    ensures TransactionKey(c, u) == TransactionKey(d, v) <==>
      && Chain(c) == Chain(d)
      && if Chain(c) in CASELESS_CHAINS then SameText(u, v)
         else if Chain(c) == "TON" then SameTon(Strip(u), Strip(v))
         else Strip(u) == Strip(v)
  {
    hide Chain, TonHash, SameTon, Lower, Strip;
    TonHashIff(Strip(u), Strip(v));
  }

  /** Blanks around a text and the case of its letters never change what it denotes as a currency,
      nor as a transaction of a listed chain. */
  lemma VariantsAgree(c: string, d: string, u: string, v: string, a: string, b: string)
    requires Lower(c) == Lower(d) && Lower(u) == Lower(v) && Blank(a) && Blank(b)
    ensures CurrencyKey(a + c + b) == CurrencyKey(d)
    ensures Chain(d) in CASELESS_CHAINS ==> TransactionKey(a + c + b, a + u + b) == TransactionKey(d, v)
  {
    StripIgnoresBlanks(a, c, b);
    StripOfSameLower(c, d);
    SameLowerSameUpper(Strip(c), Strip(d));
    assert CurrencyKey(a + c + b) == CurrencyKey(d);
    assert Chain(a + c + b) == Chain(d);
    hide Chain, CurrencyKey, Lower, Strip;
    StripIgnoresBlanks(a, u, b);
    StripOfSameLower(u, v);
    KeyIff(a + c + b, a + u + b, d, v);
  }

  lemma Base64Identity(b: seq<int>, url: bool, padded: bool)
    requires AreBytes(b) && |b| == 32
    ensures
      var spelling := Encode(b, url) + if padded then "=" else "";
      Stripped(spelling) && TonIdentity(spelling) == Some(b)
  {
    hide HexOf, FromHex, Decode, Encode, IsSpace;
    var text := Encode(b, url);
    var spelling := text + if padded then "=" else "";
    EncodedIsPlain(b, url);
    DecodeEncode(b, url);
    assert Filled(spelling) == text + Pads((4 - |text| % 4) % 4) by { assert Pads(1) == "=" && Pads(0) == ""; }
  }

  /** A TON transaction has one key, however it is spelled: hexadecimal in any case, base64 or
      base64url, padded or not, with blanks around it. */
  lemma TonSpellingsAgree(b: seq<int>, hex: string, url: bool, padded: bool, left: string, right: string)
    requires AreBytes(b) && |b| == 32 && Lower(hex) == HexOf(b) && Blank(left) && Blank(right)
    ensures
      var spelling := Encode(b, url) + if padded then "=" else "";
      && TransactionKey("TON", left + spelling + right) == Key("TON", HexOf(b))
      && TransactionKey("TON", left + hex + right) == Key("TON", HexOf(b))
  {
    assert Chain("TON") == "TON" && "TON" !in CASELESS_CHAINS by { assert Upper("TON") == "TON"; }
    hide Chain, HexOf, Encode, TonIdentity, Strip, Stripped, IsSpace;
    var spelling := Encode(b, url) + if padded then "=" else "";
    StripIgnoresBlanks(left, spelling, right);
    StripIgnoresBlanks(left, hex, right);
    Base64Identity(b, url, padded);
    StripOfStripped(spelling);
    HexIsPlain(b, hex);
    StripOfStripped(hex);
    TonHashIs(spelling);
  }

  lemma EncodedIsPlain(b: seq<int>, url: bool)
    requires AreBytes(b) && |b| == 32
    ensures
      var text := Encode(b, url);
      |text| == 43 && Stripped(text) && Stripped(text + "=")
  {
    hide Sextets, Bytes, Symbol;
    BytesOfSextets(b);
    var v, text := Sextets(b), Encode(b, url);
    assert Sextet(text[0]) == v[0] && Sextet(text[42]) == v[42];
  }

  lemma HexIsPlain(b: seq<int>, hex: string)
    requires AreBytes(b) && |b| == 32 && Lower(hex) == HexOf(b)
    ensures IsHex64(hex) && Stripped(hex)
  {
    HexRoundTrip(b);
    forall i | 0 <= i < 64 ensures IsHex(hex[i]) && !IsSpace(hex[i]) {
      assert LowerChar(hex[i]) == HexOf(b)[i] && IsHex(HexOf(b)[i]);
    }
  }

  // ── A key is its own key ──────────────────────────────────────────────────────────────────

  lemma UpperKeepsStripped(s: string)
    requires Stripped(s)
    ensures Stripped(Upper(s)) && Upper(Upper(s)) == Upper(s) && Stripped(Lower(s)) && Lower(Lower(s)) == Lower(s)
  {
    assert forall c :: IsSpace(UpperChar(c)) == IsSpace(c) && IsSpace(LowerChar(c)) == IsSpace(c);
  }

  lemma CapitalsStay(s: string)
    requires forall i :: 0 <= i < |s| ==> 'A' <= s[i] <= 'Z' || s[i] == ' ' || '0' <= s[i] <= '9'
    requires Stripped(s)
    ensures Upper(Strip(s)) == s
  {
    StripOfStripped(s);
  }

  lemma ListedIsStripped(chain: string)
    requires chain in CASELESS_CHAINS
    ensures Stripped(chain)
  {
  }

  lemma ListedChainStays(chain: string)
    requires chain in CASELESS_CHAINS
    ensures Chain(chain) == chain
  {
    hide Upper, Strip, IsSpace;
    ListedIsStripped(chain);
    CapitalsStay(chain);
  }

  lemma ChainOfChain(c: string)
    ensures Chain(Chain(c)) == Chain(c)
  {
    hide Upper, Strip, IsSpace;
    if Chain(c) in CASELESS_CHAINS {
      ListedChainStays(Chain(c));
    } else {
      var a, b := StripSplits(c);
      UpperKeepsStripped(Strip(c));
      StripOfStripped(Upper(Strip(c)));
    }
  }

  lemma HexIsLower(b: seq<int>)
    requires AreBytes(b)
    ensures Lower(HexOf(b)) == HexOf(b)
  {
  }

  lemma TonHashTwice(v: string)
    requires Stripped(v)
    ensures Stripped(TonHash(v)) && TonHash(TonHash(v)) == TonHash(v)
  {
    hide HexOf, TonIdentity, TonHash;
    TonHashIs(v);
    if TonIdentity(v).Some? {
      var b := TonIdentity(v).value;
      TonIdentityOfHex(b);
      TonHashIs(HexOf(b));
      HexRoundTrip(b);
      HexIsLower(b);
      HexIsPlain(b, HexOf(b));
    }
  }

  lemma KeyOfKey(c: string, u: string)
    ensures
      var k := TransactionKey(c, u);
      TransactionKey(k.chain, k.hash) == k
  {
    hide Chain, TonHash, Strip, Stripped, IsSpace;
    ChainOfChain(c);
    var a, b := StripSplits(u);
    UpperKeepsStripped(Strip(u));
    TonHashTwice(Strip(u));
    StripOfStripped(TransactionKey(c, u).hash);
  }

  // ── Currencies that share a chain ─────────────────────────────────────────────────────────

  const TRON_NAMES := ["TRX", "TRON", "USDT TRC20", "USDT-TRC20", "USDT (TRC20)"]
  const ETHEREUM_NAMES := ["ETH", "ETHEREUM", "USDT ERC20", "USDT-ERC20", "USDT (ERC20)", "USDC ERC20"]
  const BSC_NAMES := ["BSC", "BNB", "USDT BSC", "USDT BEP20", "USDT-BEP20"]
  const BITCOIN_NAMES := ["BTC", "BITCOIN"]
  const LITECOIN_NAMES := ["LTC", "LITECOIN"]
  const DOGECOIN_NAMES := ["DOGE", "DOGECOIN"]
  const XRP_NAMES := ["XRP", "RIPPLE"]

  predicate Capitals(s: string) { Stripped(s) && forall i :: 0 <= i < |s| ==> !('a' <= s[i] <= 'z') }

  lemma TronNames(name: string)
    requires name in TRON_NAMES
    ensures Capitals(name)
  {
  }

  lemma EthereumNames(name: string)
    requires name in ETHEREUM_NAMES
    ensures Capitals(name)
  {
  }

  lemma BscNames(name: string)
    requires name in BSC_NAMES
    ensures Capitals(name)
  {
  }

  lemma CoinNames(name: string)
    requires name in BITCOIN_NAMES || name in LITECOIN_NAMES || name in DOGECOIN_NAMES || name in XRP_NAMES
    ensures Capitals(name)
  {
  }

  predicate IsListed(name: string) {
    || name in TRON_NAMES || name in ETHEREUM_NAMES || name in BSC_NAMES || name in BITCOIN_NAMES
    || name in LITECOIN_NAMES || name in DOGECOIN_NAMES || name in XRP_NAMES
  }

  lemma ListedNames(name: string)
    requires IsListed(name)
    ensures Upper(Strip(name)) == name
  {
    hide Capitals, Upper, Strip;
    if name in TRON_NAMES {
      TronNames(name);
    } else if name in ETHEREUM_NAMES {
      EthereumNames(name);
    } else if name in BSC_NAMES {
      BscNames(name);
    } else {
      CoinNames(name);
    }
    KeyOfCapitals(name);
  }

  lemma KeyOfCapitals(name: string)
    requires Capitals(name)
    ensures Upper(Strip(name)) == name
  {
    StripOfStripped(name);
  }

  /** The chain a listed name stands for. */
  function ListedChain(name: string): string
    requires IsListed(name)
  {
    if name in TRON_NAMES then "TRON" else if name in ETHEREUM_NAMES then "ETHEREUM"
    else if name in BSC_NAMES then "BSC" else if name in BITCOIN_NAMES then "BITCOIN"
    else if name in LITECOIN_NAMES then "LITECOIN" else if name in DOGECOIN_NAMES then "DOGECOIN" else "XRP"
  }

  lemma ChainOfListed(name: string)
    requires IsListed(name)
    ensures Chain(name) == ListedChain(name) && ListedChain(name) in CASELESS_CHAINS
  {
    hide Upper, Strip;
    ListedNames(name);
  }

  /** A transaction has one key under all the names of its chain. */
  lemma SharedChains(name: string, txHash: string)
    requires IsListed(name)
    ensures TransactionKey(name, txHash) == Key(ListedChain(name), Lower(Strip(txHash)))
  {
    ChainOfListed(name);
    hide Chain, ListedChain, IsListed, Lower, Strip, TonHash;
  }

  /** Off the list the case of a hash counts: one MATIC transaction has two keys. */
  lemma UnlistedKeepsCase()
    ensures Chain("MATIC") == "MATIC" && SameText("0xAB", "0xab")
    ensures TransactionKey("MATIC", "0xAB") != TransactionKey("MATIC", "0xab")
  {
    StripOfStripped("0xAB");
    StripOfStripped("0xab");
    StripOfStripped("MATIC");
    hide Strip;
    assert Upper("MATIC") == "MATIC" && Lower("0xAB") == "0xab" == Lower("0xab");
    assert "0xAB"[2] != "0xab"[2];
    hide Upper, Lower, TonHash;
  }

  lemma UnlistedName()
    ensures Chain("USDT (BEP20)") == "USDT (BEP20)"
  {
    StripOfStripped("USDT (BEP20)");
    hide Strip;
    assert Upper("USDT (BEP20)") == "USDT (BEP20)";
    hide Upper;
  }

  /** Nor is a name off the list joined to its chain: the list has "USDT (TRC20)" and "USDT (ERC20)" but
      not "USDT (BEP20)", so one BSC transaction has two keys under one spelling. */
  lemma UnlistedNameIsAnotherChain()
    ensures Chain("USDT (BEP20)") == "USDT (BEP20)" && Chain("USDT BEP20") == "BSC"
    ensures forall txHash: string :: TransactionKey("USDT BEP20", txHash) != TransactionKey("USDT (BEP20)", txHash)
  {
    UnlistedName();
    ChainOfListed("USDT BEP20");
    assert |"USDT (BEP20)"| != |"BSC"|;
    hide Chain, Lower, Strip, TonHash;
  }
}
