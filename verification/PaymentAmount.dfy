/** Decimal payment amounts (`payment-amount.js`): user text to atomic units and back, in exact
    integers. A thrown error is `Rejected`. */
module PaymentAmount {
  import opened Common

  datatype Amount = Accepted(text: string) | Rejected

  // ---------------------------------------------------------------- decimal numerals

  predicate Digit(c: char) { '0' <= c <= '9' }
  predicate Digits(s: string) { forall i :: 0 <= i < |s| ==> Digit(s[i]) }

  function DigitValue(c: char): nat
    requires Digit(c)
  {
    c as int - '0' as int
  }

  function DigitChar(n: nat): (c: char)
    requires n < 10
    ensures Digit(c) && DigitValue(c) == n
  {
    (n + '0' as int) as char
  }

  function Pow10(n: nat): (r: nat)
    ensures r > 0
  {
    if n == 0 then 1 else 10 * Pow10(n - 1)
  }

  /** `BigInt(text)`. */
  function ToNat(s: string): nat
    requires Digits(s)
  {
    if s == [] then 0 else 10 * ToNat(s[..|s| - 1]) + DigitValue(s[|s| - 1])
  }

  /** `BigInt.toString()`: no leading zeros. */
  function ToText(n: nat): (s: string)
    ensures Digits(s) && s != [] && (n > 0 ==> s[0] != '0')
  {
    if n < 10 then [DigitChar(n)] else ToText(n / 10) + [DigitChar(n % 10)]
  }

  lemma {:induction false} NatOfText(n: nat)
    ensures ToNat(ToText(n)) == n
  {
    var s := ToText(n);
    if n >= 10 {
      NatOfText(n / 10);
      assert s[..|s| - 1] == ToText(n / 10);
    } else {
      assert s[..0] == [];
    }
  }

  /** A numeral of `k` digits is below 10^k, and a number below 10^k has at most `k` digits. */
  lemma {:induction false} TextLength(n: nat, k: nat)
    requires k >= 1 && n < Pow10(k)
    ensures |ToText(n)| <= k
  {
    if n >= 10 {
      TextLength(n / 10, k - 1);
    }
  }

  lemma {:induction false} NatOfConcat(a: string, b: string)
    requires Digits(a) && Digits(b)
    ensures Digits(a + b) && ToNat(a + b) == ToNat(a) * Pow10(|b|) + ToNat(b)
  {
    if b == [] {
      assert a + b == a;
    } else {
      var b' := b[..|b| - 1];
      NatOfConcat(a, b');
      assert (a + b)[..|a + b| - 1] == a + b';
      assert ToNat(a) * Pow10(|b|) == 10 * (ToNat(a) * Pow10(|b'|));
    }
  }

  function Zeros(n: nat): (s: string)
    ensures |s| == n && Digits(s)
  {
    seq(n, _ => '0')
  }

  lemma {:induction false} NatOfZeros(n: nat)
    ensures ToNat(Zeros(n)) == 0
  {
    if n > 0 {
      NatOfZeros(n - 1);
      assert Zeros(n)[..n - 1] == Zeros(n - 1);
    }
  }

  // ---------------------------------------------------------------- the module

  /** `fractionDigits`. */
  function FractionDigits(asset: string): Option<nat> {
    if asset == "BTC" then Some(0) else if asset == "USD" then Some(2) else None
  }

  function FirstDot(s: string): (k: nat)
    ensures k <= |s| && '.' !in s[..k] && (k < |s| ==> s[k] == '.')
  {
    if s == [] || s[0] == '.' then 0
    else
      var r := FirstDot(s[1..]);
      assert s[..1 + r] == [s[0]] + s[1..][..r];
      1 + r
  }

  /** The text matches `^\d+(\.\d+)?$`. */
  predicate Decimal(s: string) {
    var k := FirstDot(s);
    k > 0 && Digits(s[..k]) && (k < |s| ==> k + 1 < |s| && Digits(s[k + 1..]))
  }

  function Whole(s: string): string { s[..FirstDot(s)] }

  function Fraction(s: string): string {
    var k := FirstDot(s);
    if k < |s| then s[k + 1..] else ""
  }

  function InRange(n: nat): Amount {
    if n == 0 || n > U64_MAX then Rejected else Accepted(ToText(n))
  }

  /** `paymentAmountToAtomic`. */
  function ToAtomic(amount: string, asset: string): Amount {
    match FractionDigits(asset)
    case None => Rejected
    case Some(digits) =>
      if !Decimal(amount) || |amount| > 27 then Rejected
      else if |Fraction(amount)| > digits then Rejected
      else
        var padded := Fraction(amount) + Zeros(digits - |Fraction(amount)|);
        InRange(ToNat(Whole(amount) + padded))
  }

  function PadStart(s: string, n: nat): (r: string)
    requires Digits(s)
    ensures Digits(r) && |r| == if |s| >= n then |s| else n
  {
    if |s| >= n then s else Zeros(n - |s|) + s
  }

  /** `formatPaymentAmount`. */
  function Format(amount: string, asset: string): Amount {
    match FractionDigits(asset)
    case None => Rejected
    case Some(digits) =>
      if amount == [] || !Digits(amount) || |amount| > 20 then Rejected
      else
        var atomic := ToNat(amount);
        if atomic == 0 || atomic > U64_MAX then Rejected
        else
          var padded := PadStart(ToText(atomic), digits + 1);
          var cut := |padded| - digits;
          var value := if digits > 0 then padded[..cut] + "." + padded[cut..] else padded;
          Accepted(if asset == "BTC" then ['₿'] + value else value + " " + asset)
  }

  // ---------------------------------------------------------------- exactness

  /** The exact value of a decimal text in units of 10^-digits. */
  function Scaled(s: string, digits: nat): nat
    requires Decimal(s) && |Fraction(s)| <= digits
  {
    ToNat(Whole(s)) * Pow10(digits) + ToNat(Fraction(s)) * Pow10(digits - |Fraction(s)|)
  }

  /** Exactly which texts are accepted, and as what: a decimal of at most 27 characters whose
      fraction fits the asset is worth its value scaled by 10^digits, with no rounding, and is
      refused only when that is zero or does not fit 64 bits. */
  lemma ToAtomicIsExact(s: string, asset: string)
    ensures var d := FractionDigits(asset);
      ToAtomic(s, asset)
      == if d.Some? && Decimal(s) && |s| <= 27 && |Fraction(s)| <= d.value && 1 <= Scaled(s, d.value) <= U64_MAX
         then Accepted(ToText(Scaled(s, d.value))) else Rejected
  {
    var d := FractionDigits(asset);
    if d.Some? && Decimal(s) && |Fraction(s)| <= d.value { PaddingScales(s, d.value); }
  }

  /** Filling the fraction up with zeros and dropping the point multiplies by 10^digits. */
  lemma PaddingScales(s: string, digits: nat)
    requires Decimal(s) && |Fraction(s)| <= digits
    ensures Digits(Whole(s) + (Fraction(s) + Zeros(digits - |Fraction(s)|)))
    ensures ToNat(Whole(s) + (Fraction(s) + Zeros(digits - |Fraction(s)|))) == Scaled(s, digits)
  {
    var zeros := Zeros(digits - |Fraction(s)|);
    NatOfZeros(|zeros|);
    NatOfConcat(Fraction(s), zeros);
    NatOfConcat(Whole(s), Fraction(s) + zeros);
  }

  // ---------------------------------------------------------------- round trip

  lemma {:induction false} NoDotInDigits(s: string)
    requires Digits(s)
    ensures FirstDot(s) == |s|
  {
    if s != [] { NoDotInDigits(s[1..]); }
  }

  lemma {:induction false} DotAt(a: string, b: string)
    requires Digits(a)
    ensures FirstDot(a + "." + b) == |a|
  {
    if a != [] {
      DotAt(a[1..], b);
      assert (a + "." + b)[1..] == a[1..] + "." + b;
    }
  }

  lemma {:induction false} FitsTwentyDigits(n: nat)
    requires n <= U64_MAX
    ensures |ToText(n)| <= 20
  {
    assert Pow10(5) == 100_000;
    Pow10Adds(5, 5);
    Pow10Adds(10, 10);
    TextLength(n, 20);
  }

  lemma {:induction false} Pow10Adds(a: nat, b: nat)
    ensures Pow10(a + b) == Pow10(a) * Pow10(b)
  {
    if a > 0 { Pow10Adds(a - 1, b); }
  }

  lemma PaddedKeepsValue(s: string, n: nat)
    requires Digits(s)
    ensures ToNat(PadStart(s, n)) == ToNat(s)
  {
    if |s| < n {
      NatOfZeros(n - |s|);
      NatOfConcat(Zeros(n - |s|), s);
      assert 0 * Pow10(|s|) == 0;
    }
  }

  lemma BtcRoundTrip(n: nat)
    requires 1 <= n <= U64_MAX
    ensures Format(ToText(n), "BTC") == Accepted(['₿'] + ToText(n))
    ensures ToAtomic(ToText(n), "BTC") == Accepted(ToText(n))
  {
    var s := ToText(n);
    NatOfText(n);
    FitsTwentyDigits(n);
    NoDotInDigits(s);
    assert Whole(s) == s && Fraction(s) == "";
    assert Scaled(s, 0) == n by {
      assert ToNat("") == 0 && Pow10(0) == 1;
    }
    ToAtomicIsExact(s, "BTC");
  }

  /** The dollars and cents a number of cents is shown as. */
  function Dollars(n: nat): string {
    var padded := PadStart(ToText(n), 3);
    padded[..|padded| - 2] + "." + padded[|padded| - 2..]
  }

  lemma UsdFormat(n: nat)
    requires 1 <= n <= U64_MAX
    ensures Format(ToText(n), "USD") == Accepted(Dollars(n) + " " + "USD")
  {
    NatOfText(n);
    FitsTwentyDigits(n);
  }

  /** Two decimals after the point: the text is worth its digits read without it. */
  lemma PointSplits(w: string, f: string)
    requires Digits(w) && Digits(f) && w != [] && |f| == 2
    ensures var s := w + "." + f; Decimal(s) && Fraction(s) == f && Digits(w + f) && Scaled(s, 2) == ToNat(w + f)
  {
    var s := w + "." + f;
    DotAt(w, f);
    assert s[..|w|] == w && s[|w| + 1..] == f;
    NatOfConcat(w, f);
    assert Pow10(0) == 1;
  }

  lemma DollarsAreExact(n: nat)
    ensures Decimal(Dollars(n)) && |Fraction(Dollars(n))| == 2 && Scaled(Dollars(n), 2) == n
    ensures |Dollars(n)| <= 4 + |ToText(n)|
  {
    NatOfText(n);
    var padded := PadStart(ToText(n), 3);
    var w, f := padded[..|padded| - 2], padded[|padded| - 2..];
    PaddedKeepsValue(ToText(n), 3);
    PointSplits(w, f);
    assert padded == w + f;
  }

  /** What a reader is shown without the currency mark. */
  function Shown(n: nat, asset: string): string {
    if asset == "BTC" then ToText(n) else Dollars(n)
  }

  function Marked(shown: string, asset: string): string {
    if asset == "BTC" then ['₿'] + shown else shown + " " + asset
  }

  /** Formatting and parsing back is the identity on every amount: n satoshis or n cents, shown
      with their mark, read back as n once the mark is stripped. */
  lemma AmountRoundTrip(n: nat, asset: string)
    requires 1 <= n <= U64_MAX && (asset == "BTC" || asset == "USD")
    ensures Format(ToText(n), asset) == Accepted(Marked(Shown(n, asset), asset))
    ensures ToAtomic(Shown(n, asset), asset) == Accepted(ToText(n))
  {
    if asset == "BTC" {
      BtcRoundTrip(n);
    } else {
      UsdFormat(n);
      DollarsAreExact(n);
      FitsTwentyDigits(n);
      ToAtomicIsExact(Dollars(n), "USD");
    }
  }

  /** The same for any text the formatter accepts, leading zeros included: what is shown reads
      back as the canonical numeral of the same number. */
  lemma FormattedReadsBack(amount: string, asset: string)
    requires Format(amount, asset).Accepted?
    ensures Digits(amount) && Format(amount, asset) == Accepted(Marked(Shown(ToNat(amount), asset), asset))
    ensures ToAtomic(Shown(ToNat(amount), asset), asset) == Accepted(ToText(ToNat(amount)))
  {
    var n := ToNat(amount);
    AmountRoundTrip(n, asset);
    NatOfText(n);
    assert Format(amount, asset) == Format(ToText(n), asset);
  }

  /** Different amounts are never shown alike. */
  lemma ShownIsInjective(n: nat, m: nat, asset: string)
    requires 1 <= n <= U64_MAX && 1 <= m <= U64_MAX && (asset == "BTC" || asset == "USD")
    requires Shown(n, asset) == Shown(m, asset)
    ensures n == m
  {
    AmountRoundTrip(n, asset);
    AmountRoundTrip(m, asset);
    NatOfText(n);
    NatOfText(m);
  }
}
