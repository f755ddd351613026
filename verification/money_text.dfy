/**
 * Decimal amounts as text: what a text denotes, the parser, the printer, and the
 * round trip between them. Text is a sequence of characters; every text with a
 * character outside ASCII digits, '.', and surrounding white space is refused either
 * way, so bytes and characters need not be told apart.
 */
module MoneyText {
  import opened Wrappers
  import opened Text

  newtype int64 = x: int | -0x8000_0000_0000_0000 <= x < 0x8000_0000_0000_0000

  const MAX_INT64: int := 0x7FFF_FFFF_FFFF_FFFF
  const MIN_INT64: int := -0x8000_0000_0000_0000
  const MINOR_UNITS_PER_MAJOR: int64 := 100

  datatype MoneyError = InvalidAmount | AmountNotPositive | InvalidSplit | SplitMismatch

  // ---------------------------------------------------------------- characters

  predicate IsDigit(c: char) { '0' <= c <= '9' }

  predicate IsDigits(s: string) { forall i :: 0 <= i < |s| ==> IsDigit(s[i]) }

  /** The number a digit string writes in base ten, leading zeros allowed. */
  function Value(s: string): nat
    requires IsDigits(s)
  {
    if s == "" then 0 else 10 * Value(s[..|s| - 1]) + (s[|s| - 1] as int - '0' as int)
  }

  /** strconv.ParseInt(s, 10, 64) on a non-empty digit string: fails iff out of range. */
  function ParseInt(s: string): Option<int64>
    requires s != "" && IsDigits(s)
  {
    if Value(s) <= MAX_INT64 then Some(Value(s) as int64) else None
  }

  // ---------------------------------------------------------------- denotation

  /** `text` is `major`, or `major` "." `minor` with one or two minor digits. */
  predicate Reads(text: string, major: string, minor: string) {
    && major != "" && IsDigits(major) && IsDigits(minor) && |minor| <= 2
    && text == major + (if minor == "" then "" else "." + minor)
  }

  function Hundredths(major: string, minor: string): nat
    requires IsDigits(major) && IsDigits(minor)
  {
    100 * Value(major) + (if |minor| == 1 then 10 * Value(minor) else Value(minor))
  }

  /** `text`, surrounding white space aside, is an amount of n minor units. */
  ghost predicate Denotes(text: string, n: int) {
    exists major, minor :: Reads(TrimSpace(text), major, minor) && Hundredths(major, minor) == n
  }

  function DigitValue(c: char): nat
    requires IsDigit(c)
  {
    c as int - '0' as int
  }

  /** n whole units. */
  predicate Whole(s: string, n: int) { s != "" && IsDigits(s) && n == 100 * Value(s) }

  /** Whole units, a point and tenths. */
  predicate Tenths(s: string, n: int) {
    var k := |s| - 2;
    && k >= 1 && IsDigits(s[..k]) && s[k] == '.' && IsDigit(s[k + 1])
    && n == 100 * Value(s[..k]) + 10 * DigitValue(s[k + 1])
  }

  /** Whole units, a point and two digits. */
  predicate Cents(s: string, n: int) {
    var k := |s| - 3;
    && k >= 1 && IsDigits(s[..k]) && s[k] == '.' && IsDigit(s[k + 1]) && IsDigit(s[k + 2])
    && n == 100 * Value(s[..k]) + 10 * DigitValue(s[k + 1]) + DigitValue(s[k + 2])
  }

  lemma ShortValues(minor: string)
    requires IsDigits(minor) && |minor| <= 2
    ensures minor == "" ==> Value(minor) == 0
    ensures |minor| == 1 ==> Value(minor) == DigitValue(minor[0])
    ensures |minor| == 2 ==> Value(minor) == 10 * DigitValue(minor[0]) + DigitValue(minor[1])
  {
    if minor != "" {
      assert minor[..1][..0] == "" && minor[..1][0] == minor[0];
    }
  }

  predicate Shaped(s: string, n: int) { Whole(s, n) || Tenths(s, n) || Cents(s, n) }

  lemma ReadsShaped(s: string, major: string, minor: string)
    requires Reads(s, major, minor)
    ensures Shaped(s, Hundredths(major, minor))
  {
    ShortValues(minor);
    var k := |major|;
    if minor == "" {
      assert s == major;
    } else {
      assert s[..k] == major && s[k] == '.' && s[k + 1..] == minor;
      assert forall i :: 0 <= i < |minor| ==> s[k + 1 + i] == minor[i] && IsDigit(minor[i]);
      if |minor| == 1 {
        assert Tenths(s, Hundredths(major, minor));
      } else {
        assert Cents(s, Hundredths(major, minor));
      }
    }
  }

  lemma ShapedReads(s: string, n: int)
    requires Shaped(s, n)
    ensures exists major, minor :: Reads(s, major, minor) && Hundredths(major, minor) == n
  {
    if Whole(s, n) {
      assert Reads(s, s, "") && Hundredths(s, "") == n;
    } else {
      var k := if Tenths(s, n) then |s| - 2 else |s| - 3;
      var major, minor := s[..k], s[k + 1..];
      ShortValues(minor);
      assert s == major + ("." + minor);
      assert Reads(s, major, minor) && Hundredths(major, minor) == n;
    }
  }

  /** The texts of an amount, surrounding white space aside, have one of three shapes. */
  lemma DenotesIff(text: string, n: int)
    ensures Denotes(text, n) <==>
            Whole(TrimSpace(text), n) || Tenths(TrimSpace(text), n) || Cents(TrimSpace(text), n)
  {
    var s := TrimSpace(text);
    forall major, minor | Reads(s, major, minor) ensures Shaped(s, Hundredths(major, minor)) {
      ReadsShaped(s, major, minor);
    }
    if Shaped(s, n) {
      ShapedReads(s, n);
    }
  }

  // ---------------------------------------------------------------- parsing

  /** The text before the first '.', the text after it, and whether there is one. */
  function Cut(s: string): (r: (string, string, bool))
    ensures r.2 ==> s == r.0 + "." + r.1
    ensures !r.2 ==> s == r.0 && r.1 == ""
    ensures forall i :: 0 <= i < |r.0| ==> r.0[i] != '.'
  {
    if s == "" then ("", "", false)
    else if s[0] == '.' then ("", s[1..], true)
    else var (a, b, ok) := Cut(s[1..]); ([s[0]] + a, b, ok)
  }

  lemma {:induction false} CutAtDot(a: string, b: string)
    requires '.' !in a
    ensures Cut(a + "." + b) == (a, b, true)
    ensures Cut(a) == (a, "", false)
  {
    var s := a + "." + b;
    if a == "" {
      assert s[0] == '.' && s[1..] == b;
    } else {
      assert s[0] == a[0] && s[1..] == a[1..] + "." + b;
      assert [a[0]] + a[1..] == a;
      CutAtDot(a[1..], b);
    }
  }

  lemma CutReads(text: string, major: string, minor: string)
    requires Reads(text, major, minor)
    ensures Cut(text) == (major, minor, minor != "")
  {
    assert '.' !in major by {
      forall i | 0 <= i < |major| ensures major[i] != '.' {
        assert IsDigit(major[i]);
      }
    }
    CutAtDot(major, minor);
    if minor == "" {
      assert text == major;
    } else {
      assert text == major + "." + minor;
    }
  }

  /** A text denotes at most one amount. */
  lemma DenotesUnique(text: string, n: int, m: int)
    requires Denotes(text, n) && Denotes(text, m)
    ensures n == m
  {
    var a, x :| Reads(TrimSpace(text), a, x) && Hundredths(a, x) == n;
    var b, y :| Reads(TrimSpace(text), b, y) && Hundredths(b, y) == m;
    CutReads(TrimSpace(text), a, x);
    CutReads(TrimSpace(text), b, y);
  }

  /**
   * Accepts exactly the texts that denote an amount of at most MaxInt64 and returns it.
   * All arithmetic is on int64, so the body is free of overflow.
   */
  method ParseMinor(text: string) returns (r: Result<int64, MoneyError>)
    ensures r.Success? ==> Denotes(text, r.value as int)
    ensures r.Failure? ==> r.error == InvalidAmount && forall n :: Denotes(text, n) ==> n > MAX_INT64
  {
    var value := TrimSpace(text);
    if value == "" {
      return Failure(InvalidAmount);
    }
    if value[0] == '-' || value[0] == '+' {
      return Failure(InvalidAmount);
    }
    var (majorText, minorText, ok) := Cut(value);
    forall a, x | Reads(value, a, x) ensures a == majorText && x == minorText && ok == (x != "") {
      CutReads(value, a, x);
    }
    if !ok {
      minorText := "00";
    } else if minorText == "" || '.' in minorText || |minorText| > 2 {
      return Failure(InvalidAmount);
    }
    if majorText == "" || !IsDigits(majorText) {
      return Failure(InvalidAmount);
    }
    if !IsDigits(minorText) {
      return Failure(InvalidAmount);
    }
    ghost var written := if ok then minorText else "";
    assert Reads(value, majorText, written);
    while |minorText| < 2
      invariant |minorText| <= 2 && IsDigits(minorText)
      invariant Value(minorText) == if |written| == 1 && |minorText| == 2 then 10 * Value(written) else Value(written)
    {
      minorText := minorText + "0";
      assert minorText[..|minorText| - 1] == written;
    }
    assert forall n :: Denotes(text, n) ==> n == Hundredths(majorText, written);
    assert Hundredths(majorText, written) == 100 * Value(majorText) + Value(minorText);
    r := Assemble(majorText, minorText);
  }

  /** The arithmetic of the parser, on int64 throughout. */
  method Assemble(majorText: string, minorText: string) returns (r: Result<int64, MoneyError>)
    requires majorText != "" && IsDigits(majorText)
    requires |minorText| == 2 && IsDigits(minorText)
    ensures var n := 100 * Value(majorText) + Value(minorText);
            r == if n <= MAX_INT64 then Success(n as int64) else Failure(InvalidAmount)
  {
    TwoDigitsValue(minorText);
    var major := ParseInt(majorText);
    if major.None? {
      return Failure(InvalidAmount);
    }
    var minor := ParseInt(minorText);
    if minor.None? {
      return Failure(InvalidAmount);
    }
    if major.value > (MAX_INT64 as int64 - minor.value) / MINOR_UNITS_PER_MAJOR {
      return Failure(InvalidAmount);
    }
    return Success(major.value * MINOR_UNITS_PER_MAJOR + minor.value);
  }

  // ---------------------------------------------------------------- printing

  function Digit(d: nat): (c: char)
    requires d < 10
    ensures IsDigit(c) && c as int == '0' as int + d
  {
    ('0' as int + d) as char
  }

  /** Base ten without leading zeros. */
  function DecimalText(n: nat): (s: string)
    ensures IsDigits(s) && s != "" && Value(s) == n
    ensures |s| == 1 || s[0] != '0'
  {
    if n < 10 then
      var s := [Digit(n)];
      assert s[..0] == "";
      s
    else
      var s := DecimalText(n / 10) + [Digit(n % 10)];
      assert s[..|s| - 1] == DecimalText(n / 10);
      s
  }

  lemma DecimalTextStep(m: nat, d: nat)
    requires d < 10
    ensures DecimalText(10 * m + d) == if m == 0 then [Digit(d)] else DecimalText(m) + [Digit(d)]
  {
    assert (10 * m + d) / 10 == m && (10 * m + d) % 10 == d;
  }

  /** A digit string without a superfluous leading zero is the one that is printed. */
  lemma {:induction false} DecimalTextUnique(s: string)
    requires IsDigits(s) && s != "" && (|s| == 1 || s[0] != '0')
    ensures DecimalText(Value(s)) == s
    ensures s[0] != '0' ==> Value(s) > 0
  {
    var init, last := s[..|s| - 1], s[|s| - 1];
    assert IsDigit(last);
    var d := last as int - '0' as int;
    assert Digit(d) == last && s == init + [last];
    assert Value(s) == 10 * Value(init) + d;
    DecimalTextStep(Value(init), d);
    if init == "" {
      assert Value(init) == 0 && s == [last];
    } else {
      assert init[0] == s[0];
      DecimalTextUnique(init);
    }
  }

  /** "%d" on a signed integer. */
  function FormatInt(n: int): string {
    if n < 0 then "-" + DecimalText(-n) else DecimalText(n)
  }

  /** "%02d" on a signed integer: at least two characters, the sign included. */
  function FormatIntPadded(n: int): string {
    if 0 <= n < 10 then "0" + DecimalText(n) else FormatInt(n)
  }

  function MinorText(n: nat): (s: string)
    ensures |s| == 2 && IsDigits(s)
  {
    [Digit(n / 10 % 10), Digit(n % 10)]
  }

  /** Major units, a point, and exactly two minor digits. */
  function Printed(n: nat): string {
    DecimalText(n / 100) + "." + MinorText(n)
  }

  /**
   * What is printed for each int64. The negation of the least one wraps to itself, so its
   * two parts are printed as negative numbers again: "--92233720368547758.-8".
   */
  function FormatText(n: int64): string {
    if n >= 0 then Printed(n as int)
    else if n as int == MIN_INT64 then Sprintf("-", Quo100(n as int), Rem100(n as int))
    else "-" + Printed(-(n as int))
  }

  /** Two's complement negation. */
  function Negate(n: int64): int64 {
    if n as int == MIN_INT64 then n else -n
  }

  /** Division and remainder by 100, truncating toward zero as Go does. */
  function Quo100(n: int): int {
    if n >= 0 then n / 100 else -(-n / 100)
  }

  function Rem100(n: int): int {
    n - 100 * Quo100(n)
  }

  function Sprintf(sign: string, major: int, minor: int): string {
    sign + FormatInt(major) + "." + FormatIntPadded(minor)
  }

  method FormatMinor(amount: int64) returns (text: string)
    ensures text == FormatText(amount)
  {
    var sign, amountMinor := "", amount;
    if amountMinor < 0 {
      sign, amountMinor := "-", Negate(amountMinor);
    }
    if amountMinor >= 0 {
      SprintfNonNegative(sign, amountMinor as int);
    }
    text := Sprintf(sign, Quo100(amountMinor as int), Rem100(amountMinor as int));
  }

  lemma SprintfNonNegative(sign: string, n: nat)
    ensures Sprintf(sign, Quo100(n), Rem100(n)) == sign + Printed(n)
  {
    MinorDigits(n);
    PaddedDigits(n % 100);
    assert FormatIntPadded(n % 100) == MinorText(n);
    assert sign + DecimalText(n / 100) + "." + MinorText(n) == sign + (DecimalText(n / 100) + "." + MinorText(n));
  }

  lemma MinorDigits(n: nat)
    ensures n == 100 * (n / 100) + n % 100
    ensures n / 10 % 10 == n % 100 / 10 && n % 10 == n % 100 % 10
  {
    var major, k := n / 100, n % 100;
    DigitsOf(major, k / 10, k % 10);
  }

  lemma PaddedDigits(k: nat)
    requires k < 100
    ensures FormatIntPadded(k) == [Digit(k / 10), Digit(k % 10)]
  {
    if k >= 10 {
      assert DecimalText(k / 10) == [Digit(k / 10)];
    }
  }

  // ---------------------------------------------------------------- round trip

  lemma TwoDigitsValue(s: string)
    requires IsDigits(s) && |s| == 2
    ensures Value(s) == 10 * (s[0] as int - '0' as int) + (s[1] as int - '0' as int)
    ensures Value(s) < 100
  {
    assert s[..1][..0] == "" && s[..1][0] == s[0];
    assert Value(s[..1]) == s[0] as int - '0' as int;
    assert IsDigit(s[0]) && IsDigit(s[1]);
  }

  lemma LastPadded(n: int)
    ensures FormatIntPadded(n) != "" && !IsSpace(FormatIntPadded(n)[|FormatIntPadded(n)| - 1])
  {
    var s := DecimalText(if n < 0 then -n else n);
    assert IsDigit(s[|s| - 1]);
    assert FormatIntPadded(n)[|FormatIntPadded(n)| - 1] == s[|s| - 1];
  }

  lemma PrintedValue(n: nat)
    ensures Hundredths(DecimalText(n / 100), MinorText(n)) == n
  {
    TwoDigitsValue(MinorText(n));
    MinorDigits(n);
    assert n % 100 == 10 * (n / 10 % 10) + n % 10;
  }

  lemma PrintedTrimmed(n: nat)
    ensures TrimSpace(Printed(n)) == Printed(n)
  {
    var s := Printed(n);
    assert s[0] == DecimalText(n / 100)[0] && IsDigit(s[0]);
    assert s[|s| - 1] == MinorText(n)[1] && IsDigit(s[|s| - 1]);
  }

  lemma PrintedReads(n: nat)
    ensures TrimSpace(Printed(n)) == Printed(n)
    ensures Reads(Printed(n), DecimalText(n / 100), MinorText(n)) && Hundredths(DecimalText(n / 100), MinorText(n)) == n
  {
    PrintedTrimmed(n);
    PrintedValue(n);
    assert DecimalText(n / 100) + "." + MinorText(n) == DecimalText(n / 100) + ("." + MinorText(n));
  }

  lemma ReadsStartsWithDigit(text: string, major: string, minor: string)
    requires Reads(text, major, minor)
    ensures text != "" && IsDigit(text[0])
  {
    assert text[0] == major[0];
  }

  lemma LastOfNegative(n: int64)
    requires n < 0
    ensures FormatText(n) != "" && !IsSpace(FormatText(n)[|FormatText(n)| - 1])
  {
    var text := FormatText(n);
    if n as int != MIN_INT64 {
      assert text[|text| - 1] == Digit(-(n as int) % 10);
    } else {
      LastPadded(Rem100(n as int));
    }
  }

  /** A text that starts with a minus sign denotes nothing. */
  lemma NegativeDenotesNothing(text: string, m: int)
    requires text != "" && text[0] == '-' && !IsSpace(text[|text| - 1])
    ensures !Denotes(text, m)
  {
    assert TrimSpace(text) == text;
    forall major, minor ensures Reads(text, major, minor) ==> IsDigit(text[0]) {
      if Reads(text, major, minor) {
        ReadsStartsWithDigit(text, major, minor);
      }
    }
  }

  /** Printing then parsing returns the amount for 0 <= n, and no amount at all for n < 0. */
  lemma RoundTrip(n: int64)
    ensures forall m :: Denotes(FormatText(n), m) <==> n >= 0 && m == n as int
  {
    if n >= 0 {
      PrintedReads(n as int);
      assert Denotes(FormatText(n), n as int);
      forall m | Denotes(FormatText(n), m) ensures m == n as int {
        DenotesUnique(FormatText(n), n as int, m);
      }
    } else {
      LastOfNegative(n);
      forall m ensures !Denotes(FormatText(n), m) {
        NegativeDenotesNothing(FormatText(n), m);
      }
    }
  }

  /** A negative amount is printed as its opposite after a minus sign, except the one int64 without an opposite. */
  lemma NegativeForm(n: int64)
    requires MIN_INT64 < n as int < 0
    ensures FormatText(n) == "-" + FormatText(-n)
  {
  }

  /** The least int64, -(100 * q + 8), comes out with three minus signs. */
  lemma LeastForm(n: int64, q: nat)
    requires n as int == MIN_INT64 && -(n as int) == 100 * q + 8
    ensures FormatText(n) == "--" + DecimalText(q) + ".-8"
  {
    NegativeParts(n as int, q, 8);
  }

  lemma NegativeParts(n: int, q: nat, r: nat)
    requires n == 0 - (100 * q + r) && q > 0 && 0 < r < 10
    ensures Sprintf("-", Quo100(n), Rem100(n)) == "--" + DecimalText(q) + ".-" + [Digit(r)]
  {
    assert -n / 100 == q;
  }

  /** No white space, no superfluous leading zero, exactly two minor digits. */
  ghost predicate IsCanonical(text: string) {
    exists major, minor ::
      Reads(text, major, minor) && |minor| == 2 && (|major| == 1 || major[0] != '0')
  }

  /**
   * The canonical texts are exactly the printed ones: printing what a text denotes
   * yields a canonical text for the same amount, and yields the text itself iff
   * that text was canonical.
   */
  lemma CanonicalForm(text: string, n: nat)
    requires Denotes(text, n)
    ensures IsCanonical(Printed(n)) && Denotes(Printed(n), n)
    ensures IsCanonical(text) <==> text == Printed(n)
  {
    PrintedReads(n);
    assert Reads(Printed(n), DecimalText(n / 100), MinorText(n));
    if IsCanonical(text) {
      CanonicalText(text, n);
    }
  }

  lemma TwoMinorDigitsTrimmed(text: string, major: string, minor: string)
    requires Reads(text, major, minor) && |minor| == 2
    ensures TrimSpace(text) == text
  {
    assert text[0] == major[0] && IsDigit(major[0]);
    assert text[|text| - 1] == minor[1] && IsDigit(minor[1]);
  }

  lemma CanonicalText(text: string, n: nat)
    requires Denotes(text, n) && IsCanonical(text)
    ensures text == Printed(n)
  {
    var major, minor :| Reads(text, major, minor) && |minor| == 2 && (|major| == 1 || major[0] != '0');
    TwoMinorDigitsTrimmed(text, major, minor);
    DenotesUnique(text, n, Hundredths(major, minor));
    CanonicalIsPrinted(major, minor);
  }

  lemma CanonicalIsPrinted(major: string, minor: string)
    requires IsDigits(major) && major != "" && (|major| == 1 || major[0] != '0')
    requires IsDigits(minor) && |minor| == 2
    ensures Printed(Hundredths(major, minor)) == major + "." + minor
  {
    var n := Hundredths(major, minor);
    DecimalTextUnique(major);
    TwoDigitsValue(minor);
    assert IsDigit(minor[0]) && IsDigit(minor[1]);
    var hi, lo := minor[0] as int - '0' as int, minor[1] as int - '0' as int;
    DigitsOf(Value(major), hi, lo);
    assert minor == [Digit(hi), Digit(lo)];
  }

  lemma DigitsOf(major: nat, hi: nat, lo: nat)
    requires hi < 10 && lo < 10
    ensures var n := 100 * major + (10 * hi + lo);
            n / 100 == major && n / 10 % 10 == hi && n % 10 == lo
  {
    var n := 100 * major + (10 * hi + lo);
    assert n / 10 == 10 * major + hi;
  }

  /** Two accepted texts are the same amount iff they have the same canonical form. */
  lemma SameAmountSameForm(s: string, n: nat, t: string, m: nat)
    requires Denotes(s, n) && Denotes(t, m)
    ensures n == m <==> Printed(n) == Printed(m)
  {
    CanonicalForm(s, n);
    CanonicalForm(t, m);
    if Printed(n) == Printed(m) {
      DenotesUnique(Printed(n), n, m);
    }
  }
}
