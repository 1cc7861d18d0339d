/** Money as text: DECIMAL(12,2) strings, the exact rationals they denote, and back. */
module Money {
  import opened Wrappers
  import opened Text

  const MAX_CENTS: int := 999_999_999_999

  predicate IsDigit(c: char) {
    '0' <= c <= '9'
  }

  predicate AllDigits(s: string) {
    forall i | 0 <= i < |s| :: IsDigit(s[i])
  }

  function Digit(n: nat): (c: char)
    requires n < 10
    ensures IsDigit(c) && DigitValue(c) == n
  {
    n as char + '0'
  }

  function DigitValue(c: char): nat
    requires IsDigit(c)
  {
    c as int - '0' as int
  }

  /** The number a string of decimal digits denotes. */
  function Number(s: string): nat
    requires AllDigits(s)
  {
    if s == "" then 0 else 10 * Number(s[..|s| - 1]) + DigitValue(s[|s| - 1])
  }

  /** The canonical decimal digits of a number. */
  function Decimal(n: nat): (s: string)
    ensures AllDigits(s) && s != ""
  {
    if n < 10 then [Digit(n)] else Decimal(n / 10) + [Digit(n % 10)]
  }

  predicate MoneyPattern(value: string) {
    var parts := Split(value, ".");
    && |parts| == 2 && |parts[1]| == 2 && 1 <= |parts[0]| <= 10
    && forall i | 0 <= i < |value| :: value[i] == '.' || IsDigit(value[i])
  }

  /** One to ten digits, a point, two digits. */
  predicate Shaped(v: string) {
    4 <= |v| <= 13 && v[|v| - 3] == '.' && AllDigits(v[..|v| - 3]) && AllDigits(v[|v| - 2..])
  }

  predicate OnePoint(v: string, i: nat) {
    i < |v| && v[i] == '.' && forall j | 0 <= j < |v| && j != i :: v[j] != '.'
  }

  lemma SplitOnePoint(v: string, i: nat)
    requires OnePoint(v, i)
    ensures Split(v, ".") == [v[..i], v[i + 1..]]
  {
    SingleAt(v, '.');
    SingleAt(v[i + 1..], '.');
    assert Find(v, ".") == Some(i);
    assert Find(v[i + 1..], ".") == None;
  }

  lemma SplitInTwo(v: string) returns (i: nat)
    requires |Split(v, ".")| == 2
    ensures OnePoint(v, i) && Split(v, ".") == [v[..i], v[i + 1..]]
  {
    SingleAt(v, '.');
    i := Find(v, ".").value;
    var rest := v[i + 1..];
    SingleAt(rest, '.');
    assert Split(v, ".")[1..] == Split(rest, ".");
    assert Find(rest, ".") == None;
    forall j | 0 <= j < |v| && j != i ensures v[j] != '.' {
      assert j > i ==> v[j] == rest[j - i - 1];
    }
  }

  lemma ShapedHasOnePoint(v: string)
    requires Shaped(v)
    ensures OnePoint(v, |v| - 3)
  {
    forall j | 0 <= j < |v| && j != |v| - 3 ensures IsDigit(v[j]) {
      assert j < |v| - 3 ==> v[j] == v[..|v| - 3][j];
      assert j > |v| - 3 ==> v[j] == v[|v| - 2..][j - |v| + 2];
    }
  }

  lemma OnePointIsShaped(v: string, i: nat)
    requires OnePoint(v, i) && 1 <= i <= 10 && |v| == i + 3
    requires forall j | 0 <= j < |v| :: v[j] == '.' || IsDigit(v[j])
    ensures Shaped(v)
  {
  }

  lemma PatternIsShaped(v: string)
    requires MoneyPattern(v)
    ensures Shaped(v) && Split(v, ".") == [v[..|v| - 3], v[|v| - 2..]]
  {
    var i := SplitInTwo(v);
    var parts := Split(v, ".");
    assert |parts[0]| == i && |parts[1]| == |v| - i - 1;
    OnePointIsShaped(v, i);
  }

  lemma ShapedIsPattern(v: string)
    requires Shaped(v)
    ensures MoneyPattern(v)
  {
    ShapedHasOnePoint(v);
    SplitOnePoint(v, |v| - 3);
    forall j | 0 <= j < |v| ensures v[j] == '.' || IsDigit(v[j]) {
      assert j < |v| - 3 ==> v[j] == v[..|v| - 3][j];
      assert j > |v| - 3 ==> v[j] == v[|v| - 2..][j - |v| + 2];
    }
  }

  /** The pattern accepts exactly the well-shaped amounts. */
  lemma PatternIsShape(v: string)
    ensures MoneyPattern(v) <==> Shaped(v)
  {
    if MoneyPattern(v) {
      PatternIsShaped(v);
    }
    if Shaped(v) {
      ShapedIsPattern(v);
    }
  }

  /** The rational an accepted amount denotes. */
  function DecimalValue(v: string): real
    requires Shaped(v)
  {
    Number(v[..|v| - 3]) as real + Number(v[|v| - 2..]) as real / 100.0
  }

  function Format(cents: nat): string {
    Decimal(cents / 100) + "." + [Digit(cents % 100 / 10), Digit(cents % 10)]
  }

  /** The two-decimal text of a rational, for whole numbers of cents that fit DECIMAL(12,2). */
  function MoneyString(value: real): Option<string> {
    var scaled := value * 100.0;
    if value < 0.0 || scaled.Floor as real != scaled || scaled.Floor > MAX_CENTS then None
    else Some(Format(scaled.Floor))
  }

  function ParseMoney(value: string): (r: Option<real>) {
    if Trim(value) != value || !MoneyPattern(value) then None
    else
      PatternIsShape(value);
      var r := DecimalValue(value);
      if MoneyString(r).None? then None else Some(r)
  }

  function Amount(cents: nat): real {
    cents as real / 100.0
  }

  /** Formatting accepts exactly the amounts of 0 to MAX_CENTS whole cents. */
  lemma FormatsWholeCents(value: real)
    ensures MoneyString(value).Some? <==> exists cents: nat :: cents <= MAX_CENTS && value == Amount(cents)
  {
    if cents: nat :| cents <= MAX_CENTS && value == Amount(cents) {
      AmountFormats(cents);
    }
    if MoneyString(value).Some? {
      var cents: nat := (value * 100.0).Floor;
      assert value == Amount(cents);
    }
  }

  lemma AmountFormats(cents: nat)
    ensures MoneyString(Amount(cents)) == if cents <= MAX_CENTS then Some(Format(cents)) else None
  {
    assert Amount(cents) * 100.0 == cents as real;
  }

  function Power10(n: nat): nat {
    if n == 0 then 1 else 10 * Power10(n - 1)
  }

  lemma {:induction false} NumberBelow(s: string)
    requires AllDigits(s)
    ensures Number(s) < Power10(|s|)
    decreases |s|
  {
    if s != "" {
      NumberBelow(s[..|s| - 1]);
    }
  }

  lemma {:induction false} Power10Grows(m: nat, n: nat)
    requires m <= n
    ensures Power10(m) <= Power10(n)
    decreases n
  {
    if m < n {
      Power10Grows(m, n - 1);
    }
  }

  /** The whole cents of an accepted amount. */
  function Cents(v: string): nat
    requires Shaped(v)
  {
    100 * Number(v[..|v| - 3]) + Number(v[|v| - 2..])
  }

  lemma ShapedIsInRange(v: string)
    requires Shaped(v)
    ensures Cents(v) <= MAX_CENTS && DecimalValue(v) == Amount(Cents(v))
  {
    NumberBelow(v[..|v| - 3]);
    NumberBelow(v[|v| - 2..]);
    Power10Grows(|v| - 3, 10);
    assert Power10(10) == 10_000_000_000 && Power10(2) == 100;
  }

  /** Parsing never rejects what the pattern accepts: neither its trim nor its range check can fail. */
  lemma ParsesWhatThePatternAccepts(v: string)
    ensures ParseMoney(v).Some? <==> MoneyPattern(v)
    ensures MoneyPattern(v) ==> Shaped(v) && ParseMoney(v) == Some(Amount(Cents(v))) && Cents(v) <= MAX_CENTS
  {
    PatternIsShape(v);
    if Shaped(v) {
      TrimKeeps(v);
      assert v[0] == v[..|v| - 3][0] && v[|v| - 1] == v[|v| - 2..][1];
      ShapedIsInRange(v);
      AmountFormats(Cents(v));
    }
  }

  lemma {:induction false} DecimalNumber(n: nat)
    ensures Number(Decimal(n)) == n
  {
    if n >= 10 {
      DecimalNumber(n / 10);
      assert Decimal(n)[..|Decimal(n)| - 1] == Decimal(n / 10);
    }
  }

  lemma {:induction false} DecimalLength(n: nat, k: nat)
    requires k > 0
    ensures n < Power10(k) ==> |Decimal(n)| <= k
    decreases k
  {
    assert k == 1 ==> Power10(k) == 10 * Power10(0);
    if n >= 10 && k > 1 {
      DecimalLength(n / 10, k - 1);
    }
  }

  lemma TwoDigits(s: string)
    requires |s| == 2 && AllDigits(s)
    ensures Number(s) == 10 * DigitValue(s[0]) + DigitValue(s[1]) < 100
    ensures s == [Digit(Number(s) / 10), Digit(Number(s) % 10)]
  {
    assert s[..1] == [s[0]] && s[..1][..0] == "";
    assert Number(s[..1]) == DigitValue(s[0]);
  }

  lemma FormatIsShaped(cents: nat)
    requires cents <= MAX_CENTS
    ensures var v := Format(cents);
      && Shaped(v)
      && v[..|v| - 3] == Decimal(cents / 100)
      && v[|v| - 2..] == [Digit(cents % 100 / 10), Digit(cents % 10)]
  {
    var v := Format(cents);
    assert Power10(10) == 10_000_000_000;
    DecimalLength(cents / 100, 10);
    assert v[..|v| - 3] == Decimal(cents / 100);
    assert v[|v| - 2..] == [Digit(cents % 100 / 10), Digit(cents % 10)];
  }

  lemma CentsUndoFormat(cents: nat)
    requires cents <= MAX_CENTS
    ensures Shaped(Format(cents)) && Cents(Format(cents)) == cents
  {
    FormatIsShaped(cents);
    DecimalNumber(cents / 100);
    var fraction := [Digit(cents % 100 / 10), Digit(cents % 10)];
    TwoDigits(fraction);
    assert cents == 100 * (cents / 100) + (10 * (cents % 100 / 10) + cents % 10);
  }

  /** Formatting then parsing is the identity on every representable amount. */
  lemma ParseUndoesFormat(cents: nat)
    requires cents <= MAX_CENTS
    ensures MoneyString(Amount(cents)) == Some(Format(cents))
    ensures ParseMoney(Format(cents)) == Some(Amount(cents))
  {
    AmountFormats(cents);
    CentsUndoFormat(cents);
    PatternIsShape(Format(cents));
    ParsesWhatThePatternAccepts(Format(cents));
  }

  /** The whole cents an amount denotes, if it is one. */
  function CentsOf(v: string): Option<nat> {
    if Shaped(v) then Some(Cents(v)) else None
  }

  function Parsed(cents: Option<nat>): Option<real> {
    if cents.Some? then Some(Amount(cents.value)) else None
  }

  /** Parsing yields exactly the cents an amount denotes. */
  lemma ParseIsExact(v: string)
    ensures ParseMoney(v) == Parsed(CentsOf(v))
    ensures CentsOf(v).Some? ==> CentsOf(v).value <= MAX_CENTS
  {
    ParsesWhatThePatternAccepts(v);
    PatternIsShape(v);
  }

  lemma FormatIsExact(cents: nat)
    requires cents <= MAX_CENTS
    ensures CentsOf(Format(cents)) == Some(cents)
  {
    ParseUndoesFormat(cents);
    ParseIsExact(Format(cents));
  }

  lemma {:induction false} AmountTimes(cents: nat, quantity: nat)
    ensures Amount(cents) * quantity as real == Amount(cents * quantity)
    decreases quantity
  {
    if quantity > 0 {
      AmountTimes(cents, quantity - 1);
      assert cents * quantity == cents * (quantity - 1) + cents;
      assert quantity as real == (quantity - 1) as real + 1.0;
      assert Amount(cents) * quantity as real == Amount(cents) * (quantity - 1) as real + Amount(cents);
    }
  }

  function StripZeros(s: string): string {
    if |s| > 1 && s[0] == '0' then StripZeros(s[1..]) else s
  }

  lemma {:induction false} LeadingZeroCountsNothing(s: string)
    requires AllDigits(s)
    ensures Number(['0'] + s) == Number(s)
    decreases |s|
  {
    var t := ['0'] + s;
    if s != "" {
      LeadingZeroCountsNothing(s[..|s| - 1]);
      assert t[..|t| - 1] == ['0'] + s[..|s| - 1];
    } else {
      assert t[..0] == "";
    }
  }

  lemma {:induction false} StripZerosKeepsNumber(s: string)
    requires AllDigits(s) && s != ""
    ensures var t := StripZeros(s); AllDigits(t) && t != "" && Number(t) == Number(s) && (|t| > 1 ==> t[0] != '0')
    decreases |s|
  {
    if |s| > 1 && s[0] == '0' {
      StripZerosKeepsNumber(s[1..]);
      LeadingZeroCountsNothing(s[1..]);
      assert s == ['0'] + s[1..];
    }
  }

  /** Digits without a leading zero are the canonical digits of their number. */
  lemma {:induction false} CanonicalDigits(s: string)
    requires AllDigits(s) && s != "" && (|s| > 1 ==> s[0] != '0')
    ensures Decimal(Number(s)) == s
    ensures s[0] != '0' ==> Number(s) > 0
    decreases |s|
  {
    var p := s[..|s| - 1];
    assert s == p + [s[|s| - 1]];
    assert Digit(DigitValue(s[|s| - 1])) == s[|s| - 1];
    if p == "" {
      assert Number(s) == DigitValue(s[0]);
    } else {
      CanonicalDigits(p);
      assert Number(s) / 10 == Number(p) && Number(s) % 10 == DigitValue(s[|s| - 1]);
    }
  }

  lemma FormatCents(v: string)
    requires Shaped(v)
    ensures Format(Cents(v)) == Decimal(Number(v[..|v| - 3])) + v[|v| - 3..]
  {
    var fraction := v[|v| - 2..];
    TwoDigits(fraction);
    DollarsAndCents(Number(v[..|v| - 3]), Number(fraction));
    assert v[|v| - 3..] == "." + fraction;
  }

  lemma DollarsAndCents(dollars: nat, cents: nat)
    requires cents < 100
    ensures var all := 100 * dollars + cents; all / 100 == dollars && all % 100 == cents && all % 10 == cents % 10
  {
    var all := 100 * dollars + cents;
    var q, tens := all / 100, all / 10;
    assert all == 100 * q + all % 100;
    assert -100 < 100 * (dollars - q) < 100;
    assert dollars == q;
    assert all == 10 * tens + all % 10 && cents == 10 * (cents / 10) + cents % 10;
    assert -10 < 10 * (10 * dollars + cents / 10 - tens) < 10;
    assert tens == 10 * dollars + cents / 10;
  }

  /** Parsing then formatting is the identity up to leading zeros. */
  lemma FormatUndoesParse(v: string)
    requires ParseMoney(v).Some?
    ensures |v| >= 4
    ensures MoneyString(ParseMoney(v).value) == Some(StripZeros(v[..|v| - 3]) + v[|v| - 3..])
  {
    ParsesWhatThePatternAccepts(v);
    AmountFormats(Cents(v));
    StripZerosKeepsNumber(v[..|v| - 3]);
    CanonicalDigits(StripZeros(v[..|v| - 3]));
    FormatCents(v);
  }
}
