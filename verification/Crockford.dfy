/** Crockford base32 identifiers (`parse_crockford_id`, `LockId`, `BundleId` in `ids.rs`): bytes are
    regrouped into 5-bit symbols without padding, as in section 6 of RFC 4648, with Crockford's
    alphabet. Decoding folds case, reads I and L as 1 and O as 0, and drops the spare low bits. */
module Crockford {
  import opened Common

  // ---------------------------------------------------------------- bits

  /** Most significant bit first. */
  function ToBits(n: nat, w: nat): (r: seq<bool>)
    ensures |r| == w
  {
    if w == 0 then [] else ToBits(n / 2, w - 1) + [n % 2 == 1]
  }

  function FromBits(b: seq<bool>): (r: nat)
    ensures r < Pow2(|b|)
  {
    if b == [] then 0 else 2 * FromBits(b[..|b| - 1]) + if b[|b| - 1] then 1 else 0
  }

  lemma {:induction false} FromTo(n: nat, w: nat)
    requires n < Pow2(w)
    ensures FromBits(ToBits(n, w)) == n
  {
    if w > 0 {
      FromTo(n / 2, w - 1);
      assert ToBits(n, w)[..w - 1] == ToBits(n / 2, w - 1);
    }
  }

  lemma {:induction false} ToFrom(b: seq<bool>)
    ensures ToBits(FromBits(b), |b|) == b
  {
    if b != [] {
      ToFrom(b[..|b| - 1]);
      assert b == b[..|b| - 1] + [b[|b| - 1]];
    }
  }

  /** Read bits in groups of `w`; an incomplete last group is dropped. */
  function Chop(b: seq<bool>, w: nat): (r: seq<nat>)
    requires w > 0
    ensures forall i :: 0 <= i < |r| ==> r[i] < Pow2(w)
    decreases |b|
  {
    if |b| < w then [] else [FromBits(b[..w])] + Chop(b[w..], w)
  }

  /** Write numbers as groups of `w` bits. */
  function Spread(ns: seq<nat>, w: nat): seq<bool> {
    if ns == [] then [] else ToBits(ns[0], w) + Spread(ns[1..], w)
  }

  /** Chopping loses less than a group at the end and nothing before it. */
  lemma {:induction false} SpreadChop(b: seq<bool>, w: nat)
    requires w > 0
    ensures Spread(Chop(b, w), w) <= b && |b| - |Spread(Chop(b, w), w)| < w
    decreases |b|
  {
    if |b| >= w {
      SpreadChop(b[w..], w);
      ToFrom(b[..w]);
      var c := Chop(b, w);
      assert c[0] == FromBits(b[..w]) && c[1..] == Chop(b[w..], w);
      assert b == b[..w] + b[w..];
    }
  }

  lemma ChopHead(head: seq<bool>, rest: seq<bool>, w: nat)
    requires w > 0 && |head| == w
    ensures Chop(head + rest, w) == [FromBits(head)] + Chop(rest, w)
  {
    assert (head + rest)[..w] == head && (head + rest)[w..] == rest;
  }

  /** Numbers that fit survive, whatever incomplete group follows. */
  lemma SpreadHead(ns: seq<nat>, w: nat, extra: seq<bool>)
    requires ns != []
    ensures Spread(ns, w) + extra == ToBits(ns[0], w) + (Spread(ns[1..], w) + extra)
  {}

  lemma {:induction false} ChopSpread(ns: seq<nat>, w: nat, extra: seq<bool>)
    requires w > 0 && |extra| < w && forall i :: 0 <= i < |ns| ==> ns[i] < Pow2(w)
    ensures Chop(Spread(ns, w) + extra, w) == ns
  {
    if ns == [] {
      assert Spread(ns, w) + extra == extra;
    } else {
      var head, rest := ToBits(ns[0], w), Spread(ns[1..], w) + extra;
      ChopSpread(ns[1..], w, extra);
      FromTo(ns[0], w);
      ChopHead(head, rest, w);
      SpreadHead(ns, w, extra);
      assert ns == [ns[0]] + ns[1..];
    }
  }

  lemma {:induction false} SpreadLength(ns: seq<nat>)
    ensures |Spread(ns, 5)| == 5 * |ns| && |Spread(ns, 8)| == 8 * |ns|
  {
    if ns != [] { SpreadLength(ns[1..]); }
  }

  // ---------------------------------------------------------------- the alphabet

  const ALPHABET: string := "0123456789ABCDEFGHJKMNPQRSTVWXYZ"

  type Symbol = n: int | 0 <= n < 32
  type Byte = n: int | 0 <= n < 256

  function SymbolChar(n: Symbol): char { ALPHABET[n] }

  function Upper(c: char): char { if 'a' <= c <= 'z' then (c as int - 32) as char else c }

  /** Ambiguous letters fold to the digit they resemble; U is no symbol. */
  function CharSymbol(c: char): Option<Symbol> {
    var u := Upper(c);
    if '0' <= u <= '9' then Some(u as int - '0' as int)
    else if 'A' <= u <= 'H' then Some(u as int - 'A' as int + 10)
    else if u == 'I' || u == 'L' then Some(1)
    else if u == 'J' || u == 'K' then Some(u as int - 'J' as int + 18)
    else if u == 'M' || u == 'N' then Some(u as int - 'M' as int + 20)
    else if u == 'O' then Some(0)
    else if 'P' <= u <= 'T' then Some(u as int - 'P' as int + 22)
    else if 'V' <= u <= 'Z' then Some(u as int - 'V' as int + 27)
    else None
  }

  /** Every symbol's letter reads back as the symbol, and is no separator, slash or colon. */
  lemma SymbolRoundTrip(n: Symbol)
    ensures CharSymbol(SymbolChar(n)) == Some(n)
    ensures SymbolChar(n) < 128 as char && SymbolChar(n) !in {'-', '/', ':'}
  {
    assert ALPHABET[0] == '0';
  }

  /** The digits, then the letters in order without I, L, O and U. */
  function Letter(n: Symbol): char {
    if n < 10 then ('0' as int + n) as char
    else if n < 18 then ('A' as int + n - 10) as char
    else if n < 20 then ('J' as int + n - 18) as char
    else if n < 22 then ('M' as int + n - 20) as char
    else if n < 27 then ('P' as int + n - 22) as char
    else ('V' as int + n - 27) as char
  }

  lemma AlphabetIsInOrder(n: Symbol)
    ensures SymbolChar(n) == Letter(n)
  {
    assert ALPHABET[0] == '0';
  }

  /** How a letter is written in the canonical text. */
  function Canonical(c: char): char {
    var u := if 'a' <= c <= 'z' then (c as int - 'a' as int + 'A' as int) as char else c;
    if u == 'O' then '0' else if u == 'I' || u == 'L' then '1' else u
  }

  /** Reading folds case, O with 0, and I and L with 1, and nothing else. */
  lemma ReadsAsCanonical(c: char)
    ensures CharSymbol(c) == CharSymbol(Canonical(c))
    ensures CharSymbol(c).Some? ==> SymbolChar(CharSymbol(c).value) == Canonical(c)
  {
    FoldsToCanonical(c);
    if CharSymbol(c).Some? { AlphabetIsInOrder(CharSymbol(c).value); }
  }

  lemma FoldsToCanonical(c: char)
    ensures CharSymbol(c) == CharSymbol(Canonical(c))
    ensures CharSymbol(c).Some? ==> Letter(CharSymbol(c).value) == Canonical(c)
  {}

  predicate Symbols(t: string) { forall i :: 0 <= i < |t| ==> CharSymbol(t[i]).Some? }

  function Values(t: string): (r: seq<nat>)
    requires Symbols(t)
    ensures |r| == |t| && forall i :: 0 <= i < |r| ==> r[i] < 32 && CharSymbol(t[i]) == Some(r[i])
  {
    seq(|t|, i requires 0 <= i < |t| => CharSymbol(t[i]).value as nat)
  }

  // ---------------------------------------------------------------- encode and decode

  function Pad(n: nat): nat { (5 - n % 5) % 5 }

  function Zeros(n: nat): seq<bool> { seq(n, _ => false) }

  function Groups(bytes: seq<Byte>): (r: seq<nat>)
    ensures forall i :: 0 <= i < |r| ==> r[i] < 32
  {
    var bits := Spread(bytes, 8);
    assert Pow2(5) == 32;
    Chop(bits + Zeros(Pad(|bits|)), 5)
  }

  /** `base32::encode(Crockford, ..)`. */
  function Encode(bytes: seq<Byte>): string {
    var g := Groups(bytes);
    seq(|g|, i requires 0 <= i < |g| => SymbolChar(g[i]))
  }

  /** `base32::decode(Crockford, ..)`. */
  function Decode(t: string): Option<seq<nat>> {
    if !Symbols(t) then None
    else
      Some(Chop(Spread(Values(t), 5), 8))
  }

  lemma EncodeValues(bytes: seq<Byte>)
    ensures Symbols(Encode(bytes)) && Values(Encode(bytes)) == Groups(bytes)
    ensures forall i :: 0 <= i < |Encode(bytes)| ==>
        Encode(bytes)[i] < 128 as char && Encode(bytes)[i] !in {'-', '/', ':'}
  {
    var g, t := Groups(bytes), Encode(bytes);
    forall i | 0 <= i < |t|
      ensures CharSymbol(t[i]) == Some(g[i]) && t[i] < 128 as char && t[i] !in {'-', '/', ':'}
    {
      SymbolRoundTrip(g[i]);
    }
  }

  lemma PadFills(n: nat)
    ensures Pad(n) < 5 && (n + Pad(n)) % 5 == 0 && (n + Pad(n)) / 5 == (n + 4) / 5
  {}

  /** Bits that fill their last group are all kept. */
  lemma SpreadChopFull(b: seq<bool>)
    requires |b| % 5 == 0
    ensures Spread(Chop(b, 5), 5) == b && |Chop(b, 5)| == |b| / 5
  {
    SpreadChop(b, 5);
    SpreadLength(Chop(b, 5));
    assert |b| - 5 * |Chop(b, 5)| == 0;
  }

  /** The symbols of a byte string carry its bits, then zeros to fill the last one. */
  lemma GroupsCarryBits(bytes: seq<Byte>)
    ensures var bits := Spread(bytes, 8); Spread(Groups(bytes), 5) == bits + Zeros(Pad(|bits|))
    ensures |Groups(bytes)| == (8 * |bytes| + 4) / 5
  {
    var bits := Spread(bytes, 8);
    SpreadLength(bytes);
    PadFills(|bits|);
    SpreadChopFull(bits + Zeros(Pad(|bits|)));
  }

  /** Every byte string survives encoding, whatever its length. */
  lemma DecodeEncode(bytes: seq<Byte>)
    ensures Decode(Encode(bytes)) == Some(bytes)
    ensures |Encode(bytes)| == (8 * |bytes| + 4) / 5
  {
    EncodeValues(bytes);
    GroupsCarryBits(bytes);
    assert Pow2(8) == 256;
    ChopSpread(bytes, 8, Zeros(Pad(|Spread(bytes, 8)|)));
  }

  /** Decoding n symbols gives floor(5n / 8) bytes. */
  lemma DecodeLength(t: string)
    requires Symbols(t)
    ensures |Decode(t).value| == 5 * |t| / 8
    ensures forall i :: 0 <= i < |Decode(t).value| ==> Decode(t).value[i] < 256
  {
    SpreadLength(Values(t));
    SpreadChop(Spread(Values(t), 5), 8);
    SpreadLength(Decode(t).value);
    assert Pow2(8) == 256;
  }

  // ---------------------------------------------------------------- identifiers

  datatype IdError = InvalidCrockfordLength | ContainsSeparator | InvalidCrockford
  datatype Parsed = Ok(id: string) | Err(error: IdError)

  function Utf8Width(c: char): nat {
    if c < 0x80 as char then 1 else if c < 0x800 as char then 2 else if c < 0x10000 as char then 3 else 4
  }

  /** `str::len` counts UTF-8 bytes, not characters. */
  function Utf8Len(t: string): nat { if t == [] then 0 else Utf8Width(t[0]) + Utf8Len(t[1..]) }

  /** `parse_crockford_id`. */
  function ParseId(t: string, encodedLen: nat, decodedLen: nat): Parsed {
    if Utf8Len(t) != encodedLen then Err(InvalidCrockfordLength)
    else if '-' in t then Err(ContainsSeparator)
    else match Decode(t)
         case None => Err(InvalidCrockford)
         case Some(bytes) =>
           if |bytes| != decodedLen then Err(InvalidCrockford)
           else assert Pow2(8) == 256; Ok(Encode(bytes))
  }

  lemma {:induction false} AsciiLen(t: string)
    requires forall i :: 0 <= i < |t| ==> t[i] < 128 as char
    ensures Utf8Len(t) == |t|
  {
    if t != [] { AsciiLen(t[1..]); }
  }

  lemma SymbolsAreAscii(t: string)
    requires Symbols(t)
    ensures forall i :: 0 <= i < |t| ==> t[i] < 128 as char && t[i] != '-'
  {}

  /** The two shapes in use: 32 bytes in 52 symbols, 16 bytes in 26. For both, decoding a text of
      the right length always gives the right number of bytes. */
  predicate IdShape(encodedLen: nat, decodedLen: nat) {
    (encodedLen == 52 && decodedLen == 32) || (encodedLen == 26 && decodedLen == 16)
  }

  /** Exactly which texts are accepted and as what: those of the right length made of symbols
      only, and the result is the one canonical text of their decoded bytes. */
  lemma ParseIdExact(t: string, encodedLen: nat, decodedLen: nat)
    requires IdShape(encodedLen, decodedLen)
    ensures ParseId(t, encodedLen, decodedLen).Ok? <==> |t| == encodedLen && Symbols(t)
    ensures ParseId(t, encodedLen, decodedLen).Ok? ==>
      && Decode(t).Some? && |Decode(t).value| == decodedLen
      && Decode(ParseId(t, encodedLen, decodedLen).id) == Decode(t)
  {
    if Symbols(t) {
      SymbolsAreAscii(t);
      AsciiLen(t);
      DecodeLength(t);
      DecodeEncode(Decode(t).value);
    }
  }

  /** Texts that differ only in case and in ambiguous letters are the same identifier. */
  lemma SpellingIsFree(t: string, u: string, encodedLen: nat, decodedLen: nat)
    requires IdShape(encodedLen, decodedLen) && |t| == |u| && ParseId(t, encodedLen, decodedLen).Ok?
    requires forall i :: 0 <= i < |t| ==> Canonical(t[i]) == Canonical(u[i])
    ensures ParseId(u, encodedLen, decodedLen) == ParseId(t, encodedLen, decodedLen)
  {
    ParseIdExact(t, encodedLen, decodedLen);
    forall i | 0 <= i < |t| ensures CharSymbol(t[i]) == CharSymbol(u[i]) {
      ReadsAsCanonical(t[i]);
      ReadsAsCanonical(u[i]);
    }
    ParseIdExact(u, encodedLen, decodedLen);
    assert Values(t) == Values(u);
  }

  /** Every value of the right size survives encode then parse. */
  lemma EncodeParses(bytes: seq<Byte>, encodedLen: nat)
    requires IdShape(encodedLen, |bytes|)
    ensures ParseId(Encode(bytes), encodedLen, |bytes|) == Ok(Encode(bytes))
    ensures Decode(Encode(bytes)) == Some(bytes)
  {
    EncodeValues(bytes);
    DecodeEncode(bytes);
    ParseIdExact(Encode(bytes), encodedLen, |bytes|);
    AsciiLen(Encode(bytes));
  }

  /** Parsing is idempotent: an identifier parses to itself. */
  lemma ParseIdIdempotent(t: string, encodedLen: nat, decodedLen: nat)
    requires IdShape(encodedLen, decodedLen) && ParseId(t, encodedLen, decodedLen).Ok?
    ensures ParseId(ParseId(t, encodedLen, decodedLen).id, encodedLen, decodedLen) == ParseId(t, encodedLen, decodedLen)
  {
    ParseIdExact(t, encodedLen, decodedLen);
    DecodeLength(t);
    EncodeParses(Decode(t).value, encodedLen);
  }

  /** Two texts name the same identifier if and only if their symbols carry the same bits up to
      the spare ones at the end (4 of 260, or 2 of 130). */
  lemma SameIdIffSameBits(t: string, u: string, encodedLen: nat, decodedLen: nat)
    requires IdShape(encodedLen, decodedLen) && Symbols(t) && Symbols(u) && |t| == |u| == encodedLen
    ensures |Spread(Values(t), 5)| == |Spread(Values(u), 5)| == 5 * encodedLen >= 8 * decodedLen
    ensures ParseId(t, encodedLen, decodedLen) == ParseId(u, encodedLen, decodedLen)
       <==> Spread(Values(t), 5)[..8 * decodedLen] == Spread(Values(u), 5)[..8 * decodedLen]
  {
    SpreadLength(Values(t));
    SpreadLength(Values(u));
    SameDecodingIffSameBits(t, u, decodedLen);
    SameIdIffSameDecoding(t, u, encodedLen, decodedLen);
  }

  lemma SameIdIffSameDecoding(t: string, u: string, encodedLen: nat, decodedLen: nat)
    requires IdShape(encodedLen, decodedLen) && Symbols(t) && Symbols(u) && |t| == |u| == encodedLen
    ensures ParseId(t, encodedLen, decodedLen) == ParseId(u, encodedLen, decodedLen) <==> Decode(t) == Decode(u)
  {
    ParseIdExact(t, encodedLen, decodedLen);
    ParseIdExact(u, encodedLen, decodedLen);
  }

  lemma SameDecodingIffSameBits(t: string, u: string, decodedLen: nat)
    requires Symbols(t) && Symbols(u) && 5 * |t| / 8 == 5 * |u| / 8 == decodedLen
    ensures |Spread(Values(t), 5)| >= 8 * decodedLen && |Spread(Values(u), 5)| >= 8 * decodedLen
    ensures Decode(t) == Decode(u) <==> Spread(Values(t), 5)[..8 * decodedLen] == Spread(Values(u), 5)[..8 * decodedLen]
  {
    DecodeBits(t, decodedLen);
    DecodeBits(u, decodedLen);
  }

  /** The decoded bytes hold exactly the leading bits. */
  lemma DecodeBits(t: string, decodedLen: nat)
    requires Symbols(t) && 5 * |t| / 8 == decodedLen
    ensures |Spread(Values(t), 5)| >= 8 * decodedLen
    ensures Spread(Decode(t).value, 8) == Spread(Values(t), 5)[..8 * decodedLen]
    ensures Chop(Spread(Values(t), 5)[..8 * decodedLen], 8) == Decode(t).value
    ensures forall i :: 0 <= i < |Decode(t).value| ==> Decode(t).value[i] < 256
  {
    DecodeLength(t);
    SpreadLength(Values(t));
    SpreadLength(Decode(t).value);
    SpreadChop(Spread(Values(t), 5), 8);
    assert Pow2(8) == 256;
    ChopSpread(Decode(t).value, 8, []);
    assert Spread(Decode(t).value, 8) + [] == Spread(Decode(t).value, 8);
  }
}
