/** The currency cells of the report: `f"Ksh {x:,.0f}"`, that is the amount
    rounded to a whole number (ties to even), written in decimal with a comma
    between every group of three digits from the right, after the prefix "Ksh ". */
module Currency {
  import opened Records

  const Prefix := "Ksh "

  predicate IsDigit(c: char) {
    '0' <= c <= '9'
  }

  predicate AllDigits(s: string) {
    forall k :: 0 <= k < |s| ==> IsDigit(s[k])
  }

  function DigitChar(d: nat): (c: char)
    requires d < 10
    ensures IsDigit(c)
    ensures c == '0' <==> d == 0
  {
    ('0' as int + d) as char
  }

  function DigitValue(c: char): (d: nat)
    requires IsDigit(c)
    ensures d < 10
  {
    c as int - '0' as int
  }

  /** The decimal digits of n, most significant first, without leading zeros. */
  function Digits(n: nat): (s: string)
    ensures s != [] && AllDigits(s)
    ensures s[0] == '0' ==> n == 0
  {
    if n < 10 then [DigitChar(n)] else Digits(n / 10) + [DigitChar(n % 10)]
  }

  /** The number a string of decimal digits denotes. */
  function ValueOf(s: string): nat
    requires AllDigits(s)
  {
    if s == [] then 0 else ValueOf(s[..|s| - 1]) * 10 + DigitValue(s[|s| - 1])
  }

  /** Reading back the digits of n gives n. */
  lemma {:induction false} DigitsRoundTrip(n: nat)
    ensures ValueOf(Digits(n)) == n
  {
    if n >= 10 {
      DigitsRoundTrip(n / 10);
      var s := Digits(n);
      assert s[..|s| - 1] == Digits(n / 10);
    }
  }

  /** Inserts a comma before every group of three digits counted from the right. */
  function InsertCommas(d: string): (s: string)
    ensures |d| > 0 ==> |s| == |d| + (|d| - 1) / 3
  {
    if |d| <= 3 then d else InsertCommas(d[..|d| - 3]) + "," + d[|d| - 3..]
  }

  /** The characters of s other than commas. */
  function StripCommas(s: string): string {
    if s == [] then [] else StripCommas(s[..|s| - 1]) + (if s[|s| - 1] == ',' then [] else [s[|s| - 1]])
  }

  lemma {:induction false} StripCommasAppend(a: string, b: string)
    ensures StripCommas(a + b) == StripCommas(a) + StripCommas(b)
  {
    if b == [] {
      assert a + b == a;
    } else {
      StripCommasAppend(a, b[..|b| - 1]);
      assert (a + b)[..|a + b| - 1] == a + b[..|b| - 1];
    }
  }

  lemma {:induction false} StripCommasOfDigits(d: string)
    requires AllDigits(d)
    ensures StripCommas(d) == d
  {
    if d != [] {
      StripCommasOfDigits(d[..|d| - 1]);
      assert d == d[..|d| - 1] + [d[|d| - 1]];
    }
  }

  lemma StripCommasComma(a: string)
    ensures StripCommas(a + ",") == StripCommas(a)
  {
    assert (a + ",")[..|a + ","| - 1] == a;
  }

  /** Removing the separators gives back the digits. */
  lemma {:induction false} StripInsertCommas(d: string)
    requires AllDigits(d)
    ensures StripCommas(InsertCommas(d)) == d
  {
    if |d| <= 3 {
      StripCommasOfDigits(d);
    } else {
      var hi, lo := d[..|d| - 3], d[|d| - 3..];
      var t := InsertCommas(hi);
      assert InsertCommas(d) == t + "," + lo;
      StripInsertCommas(hi);
      StripCommasAppend(t + ",", lo);
      StripCommasComma(t);
      StripCommasOfDigits(lo);
      assert d == hi + lo;
    }
  }

  /** A digit string with a comma exactly at every fourth place counted from the
      right: groups of three digits, the leftmost group of one to three. */
  predicate WellGrouped(s: string) {
    && |s| % 4 != 0
    && (forall k :: 0 <= k < |s| ==> (s[k] == ',' <==> (|s| - k) % 4 == 0))
    && (forall k :: 0 <= k < |s| && s[k] != ',' ==> IsDigit(s[k]))
  }

  /** Appending a comma and a group of three digits keeps a string well grouped. */
  lemma WellGroupedExtend(t: string, lo: string)
    requires WellGrouped(t) && |lo| == 3 && AllDigits(lo)
    ensures WellGrouped(t + "," + lo)
  {
    var s := t + "," + lo;
    assert |s| == |t| + 4;
    forall k | 0 <= k < |s|
      ensures (s[k] == ',' <==> (|s| - k) % 4 == 0) && (s[k] != ',' ==> IsDigit(s[k]))
    {
      if k < |t| {
        assert s[k] == t[k];
        assert (|s| - k) % 4 == (|t| - k) % 4;
      } else if k > |t| {
        assert s[k] == lo[k - |t| - 1];
        assert 0 < |s| - k < 4;
      }
    }
  }

  lemma {:induction false} InsertCommasWellGrouped(d: string)
    requires d != [] && AllDigits(d)
    ensures WellGrouped(InsertCommas(d))
  {
    if |d| > 3 {
      InsertCommasWellGrouped(d[..|d| - 3]);
      WellGroupedExtend(InsertCommas(d[..|d| - 3]), d[|d| - 3..]);
    }
  }

  /** Python's `format(n, ",")` for a whole number n >= 0. */
  function Grouped(n: nat): string {
    InsertCommas(Digits(n))
  }

  /** The grouped form of n is well grouped, and with its commas removed it is
      the decimal form of n, which reads back as n. */
  lemma GroupedSpec(n: nat)
    ensures WellGrouped(Grouped(n))
    ensures StripCommas(Grouped(n)) == Digits(n)
    ensures ValueOf(StripCommas(Grouped(n))) == n
  {
    InsertCommasWellGrouped(Digits(n));
    StripInsertCommas(Digits(n));
    DigitsRoundTrip(n);
  }

  /** The grouped form of n starts with a digit, never with a comma. */
  lemma GroupedStartsWithDigit(n: nat)
    ensures Grouped(n) != [] && IsDigit(Grouped(n)[0])
  {
    GroupedSpec(n);
  }

  function Abs(x: real): (r: real)
    ensures r >= 0.0 && (r == x || r == -x)
  {
    if x < 0.0 then -x else x
  }

  /** Rounding to the nearest whole number, ties to the even one, as the `.0f`
      presentation does for the exact value of its argument. */
  function RoundHalfEven(x: real): (r: int)
    ensures -0.5 <= r as real - x <= 0.5
    ensures (r as real - x == 0.5 || x - r as real == 0.5) ==> r % 2 == 0
    ensures x >= 0.0 ==> r >= 0
  {
    var f := x.Floor;
    var frac := x - f as real;
    if frac < 0.5 then f
    else if frac > 0.5 then f + 1
    else if f % 2 == 0 then f
    else f + 1
  }

  /** The two properties of RoundHalfEven determine it: no other whole number has them. */
  lemma RoundHalfEvenUnique(x: real, n: int)
    requires -0.5 <= n as real - x <= 0.5
    requires (n as real - x == 0.5 || x - n as real == 0.5) ==> n % 2 == 0
    ensures n == RoundHalfEven(x)
  {
  }

  /** A whole number is its own rounding. */
  lemma RoundWhole(n: int)
    ensures RoundHalfEven(n as real) == n
  {
    RoundHalfEvenUnique(n as real, n);
  }

  /** The sign written before an amount. */
  function SignOf(x: real): string {
    if x < 0.0 then "-" else ""
  }

  /** One currency cell: `f"Ksh {x:,.0f}"`. A negative amount keeps its sign
      even when it rounds to 0. */
  function FormatKsh(x: real): string {
    Prefix + SignOf(x) + Grouped(RoundHalfEven(Abs(x)))
  }

  /** Reads back a well grouped number. */
  function ParseGrouped(g: string): Option<nat> {
    if WellGrouped(g) && AllDigits(StripCommas(g)) then Some(ValueOf(StripCommas(g))) else None
  }

  /** Reads back a currency cell: the prefix, an optional minus sign, and a well
      grouped number. */
  function ParseKsh(s: string): Option<int> {
    if |s| < |Prefix| || s[..|Prefix|] != Prefix then None
    else
      var body := s[|Prefix|..];
      var negative := body != [] && body[0] == '-';
      match ParseGrouped(if negative then body[1..] else body)
      case None => None
      case Some(v) => Some(if negative then -(v as int) else v as int)
  }

  lemma ParseGroupedInverse(n: nat)
    ensures ParseGrouped(Grouped(n)) == Some(n)
  {
    GroupedSpec(n);
  }

  lemma ParseSigned(negative: bool, g: string, v: nat)
    requires ParseGrouped(g) == Some(v)
    requires !negative ==> g != [] && IsDigit(g[0])
    ensures ParseKsh(Prefix + (if negative then "-" else "") + g) == Some(if negative then -(v as int) else v as int)
  {
    var sign := if negative then "-" else "";
    var s := Prefix + sign + g;
    assert s[..|Prefix|] == Prefix;
    assert s[|Prefix|..] == sign + g;
    if negative {
      assert (sign + g)[1..] == g;
    } else {
      assert sign + g == g;
    }
  }

  /** A cell reads back as its rounded magnitude, negated when the amount is negative. */
  lemma FormatReadsMagnitude(x: real)
    ensures ParseKsh(FormatKsh(x)) == Some(if x < 0.0 then -RoundHalfEven(Abs(x)) else RoundHalfEven(Abs(x)))
  {
    var m: nat := RoundHalfEven(Abs(x));
    ParseGroupedInverse(m);
    GroupedStartsWithDigit(m);
    ParseSigned(x < 0.0, Grouped(m), m);
  }

  /** Every cell reads back as the amount rounded half to even, with the sign of the amount. */
  lemma FormatReadsBack(x: real)
    ensures ParseKsh(FormatKsh(x)) == Some(if x < 0.0 then -RoundHalfEven(-x) else RoundHalfEven(x))
  {
    FormatReadsMagnitude(x);
    assert Abs(x) == if x < 0.0 then -x else x;
  }

  /** Every whole amount reads back from its cell. */
  lemma FormatParseRoundTrip(n: int)
    ensures ParseKsh(FormatKsh(n as real)) == Some(n)
  {
    FormatReadsBack(n as real);
    RoundWhole(n);
    RoundWhole(-n);
  }

  lemma DigitsExample()
    ensures Digits(1_234_567) == "1234567"
  {
    assert Digits(1) == "1";
    assert Digits(12) == "12";
    assert Digits(123) == "123";
    assert Digits(1_234) == "1234";
    assert Digits(12_345) == "12345";
    assert Digits(123_456) == "123456";
  }

  lemma InsertCommasExample()
    ensures InsertCommas("1234567") == "1,234,567"
  {
  }

  /** The example amount: 1234567 is written "Ksh 1,234,567". */
  lemma FormatExample()
    ensures FormatKsh(1_234_567.0) == "Ksh 1,234,567"
  {
    RoundWhole(1_234_567);
    DigitsExample();
    InsertCommasExample();
  }
}
