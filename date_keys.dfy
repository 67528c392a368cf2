/** The date keys of the lock engine: toDateStrUTC formats a date as
    year, two-digit month and two-digit day joined by '-', the extended
    calendar-date form of ISO 8601:2004 section 4.1.2.2 for four-digit
    years. The holiday set and the attendance map are keyed by these
    strings, so distinct dates must give distinct keys. */
module DateKeys {
  import opened Calendar

  predicate IsDigit(c: char) {
    '0' <= c <= '9'
  }

  function DigitChar(n: int): (c: char)
    requires 0 <= n < 10
    ensures IsDigit(c)
  {
    ('0' as int + n) as char
  }

  /** Number.prototype.toString on a non-negative integer: base-10 digits,
      no leading zeros. */
  function NatToDecimal(n: nat): (s: string)
    ensures 1 <= |s|
    ensures forall i :: 0 <= i < |s| ==> IsDigit(s[i])
    ensures (|s| == 1) == (n < 10)
    ensures n >= 10 ==> s[0] != '0'
    decreases n
  {
    if n < 10 then [DigitChar(n)] else NatToDecimal(n / 10) + [DigitChar(n % 10)]
  }

  /** The decimal text of an integer, with a leading '-' when negative. */
  function IntToDecimal(i: int): (s: string)
    ensures 1 <= |s|
    ensures (s[0] == '-') == (i < 0)
  {
    if i < 0 then "-" + NatToDecimal(-i) else NatToDecimal(i)
  }

  /** String.prototype.padStart(width, fill) with a one-character fill. */
  function PadStart(s: string, width: nat, fill: char): (r: string)
    ensures |r| == if |s| >= width then |s| else width
    ensures r[|r| - |s|..] == s
    ensures forall i :: 0 <= i < |r| - |s| ==> r[i] == fill
  {
    if |s| >= width then s else seq(width - |s|, _ => fill) + s
  }

  function TwoDigits(n: int): string {
    PadStart(IntToDecimal(n), 2, '0')
  }

  /** toDateStrUTC: `${getUTCFullYear()}-${pad2(month)}-${pad2(day)}`.
      The year is not padded. */
  function ToDateStr(d: CivilDate): string {
    IntToDecimal(d.year) + "-" + TwoDigits(d.month) + "-" + TwoDigits(d.day)
  }

  // ---------------------------------------------------------------------------

  lemma {:induction false} NatToDecimalInjective(a: nat, b: nat)
    requires NatToDecimal(a) == NatToDecimal(b)
    ensures a == b
    decreases a
  {
    var s := NatToDecimal(a);
    if a >= 10 && b >= 10 {
      assert s[..|s| - 1] == NatToDecimal(a / 10) == NatToDecimal(b / 10);
      NatToDecimalInjective(a / 10, b / 10);
      assert s[|s| - 1] == DigitChar(a % 10) == DigitChar(b % 10);
    }
  }

  lemma IntToDecimalInjective(a: int, b: int)
    requires IntToDecimal(a) == IntToDecimal(b)
    ensures a == b
  {
    if a < 0 {
      assert NatToDecimal(-a) == IntToDecimal(a)[1..] == NatToDecimal(-b);
      NatToDecimalInjective(-a, -b);
    } else {
      NatToDecimalInjective(a, b);
    }
  }

  /** A month or day number (1 to 99) becomes exactly two digits, the tens
      digit first — zero-padded below 10. */
  lemma TwoDigitsForm(n: int)
    requires 1 <= n <= 99
    ensures TwoDigits(n) == [DigitChar(n / 10), DigitChar(n % 10)]
  {
    if n >= 10 {
      assert NatToDecimal(n) == NatToDecimal(n / 10) + [DigitChar(n % 10)];
    }
  }

  lemma TwoDigitsInjective(a: int, b: int)
    requires 1 <= a <= 99 && 1 <= b <= 99
    requires TwoDigits(a) == TwoDigits(b)
    ensures a == b
  {
    TwoDigitsForm(a);
    TwoDigitsForm(b);
    assert DigitChar(a / 10) == DigitChar(b / 10);
    assert DigitChar(a % 10) == DigitChar(b % 10);
  }

  /** The key of a date is its year text followed by six characters
      "-MM-DD". */
  lemma DateStrShape(d: CivilDate)
    requires ValidDate(d)
    ensures ToDateStr(d) == IntToDecimal(d.year) + (['-'] + TwoDigits(d.month) + ['-'] + TwoDigits(d.day))
    ensures |['-'] + TwoDigits(d.month) + ['-'] + TwoDigits(d.day)| == 6
  {
    TwoDigitsForm(d.month);
    TwoDigitsForm(d.day);
    KeyConcat(IntToDecimal(d.year), TwoDigits(d.month), TwoDigits(d.day));
  }

  lemma KeyConcat(y: string, m: string, dd: string)
    ensures y + "-" + m + "-" + dd == y + (['-'] + m + ['-'] + dd)
  {
  }

  lemma SplitSuffix(a: string, b: string, c: string, d: string)
    requires a + b == c + d && |b| == |d|
    ensures a == c && b == d
  {
    assert a == (a + b)[..|a|];
    assert c == (c + d)[..|c|];
    assert b == (a + b)[|a|..];
    assert d == (c + d)[|c|..];
  }

  lemma SplitTail(m: string, dd: string, m': string, dd': string)
    requires |m| == 2 && |dd| == 2 && |m'| == 2 && |dd'| == 2
    requires ['-'] + m + ['-'] + dd == ['-'] + m' + ['-'] + dd'
    ensures m == m' && dd == dd'
  {
    var t := ['-'] + m + ['-'] + dd;
    assert m == t[1..3];
    assert dd == t[4..6];
    var t' := ['-'] + m' + ['-'] + dd';
    assert m' == t'[1..3];
    assert dd' == t'[4..6];
  }

  /** Distinct valid dates have distinct keys. */
  lemma DateStrInjective(a: CivilDate, b: CivilDate)
    requires ValidDate(a) && ValidDate(b)
    requires ToDateStr(a) == ToDateStr(b)
    ensures a == b
  {
    DateStrShape(a);
    DateStrShape(b);
    SplitSuffix(IntToDecimal(a.year), ['-'] + TwoDigits(a.month) + ['-'] + TwoDigits(a.day),
                IntToDecimal(b.year), ['-'] + TwoDigits(b.month) + ['-'] + TwoDigits(b.day));
    IntToDecimalInjective(a.year, b.year);
    TwoDigitsForm(a.month);
    TwoDigitsForm(b.month);
    TwoDigitsForm(a.day);
    TwoDigitsForm(b.day);
    SplitTail(TwoDigits(a.month), TwoDigits(a.day), TwoDigits(b.month), TwoDigits(b.day));
    TwoDigitsInjective(a.month, b.month);
    TwoDigitsInjective(a.day, b.day);
  }

  lemma FourDigits(n: int)
    requires 1000 <= n <= 9999
    ensures NatToDecimal(n) == [DigitChar(n / 1000), DigitChar(n / 100 % 10), DigitChar(n / 10 % 10), DigitChar(n % 10)]
  {
    var a, b, c := n / 1000, n / 100, n / 10;
    assert c / 10 == b && b / 10 == a && 1 <= a < 10 && 10 <= b && 100 <= c;
    DecimalStep(b, a, b % 10);
    DecimalStep(c, b, c % 10);
    DecimalStep(n, c, n % 10);
  }

  /** One more digit: the text of m is the text of m / 10, then its last digit. */
  lemma DecimalStep(m: nat, q: nat, r: nat)
    requires m >= 10 && q == m / 10 && r == m % 10
    ensures NatToDecimal(m) == NatToDecimal(q) + [DigitChar(r)]
  {
  }

  /** For years 1000 to 9999 the key is the ten-character ISO 8601
      extended calendar date YYYY-MM-DD, each field zero-padded. */
  lemma DateStrIsIso8601(d: CivilDate)
    requires ValidDate(d) && 1000 <= d.year <= 9999
    ensures ToDateStr(d) ==
      [DigitChar(d.year / 1000), DigitChar(d.year / 100 % 10), DigitChar(d.year / 10 % 10), DigitChar(d.year % 10),
       '-', DigitChar(d.month / 10), DigitChar(d.month % 10),
       '-', DigitChar(d.day / 10), DigitChar(d.day % 10)]
  {
    var y := [DigitChar(d.year / 1000), DigitChar(d.year / 100 % 10), DigitChar(d.year / 10 % 10), DigitChar(d.year % 10)];
    var m := [DigitChar(d.month / 10), DigitChar(d.month % 10)];
    var dd := [DigitChar(d.day / 10), DigitChar(d.day % 10)];
    assert IntToDecimal(d.year) == y by {
      FourDigits(d.year);
    }
    assert TwoDigits(d.month) == m by {
      TwoDigitsForm(d.month);
    }
    assert TwoDigits(d.day) == dd by {
      TwoDigitsForm(d.day);
    }
    KeyDisplay(y, m, dd);
  }

  lemma KeyDisplay(y: string, m: string, dd: string)
    requires |y| == 4 && |m| == 2 && |dd| == 2
    ensures y + "-" + m + "-" + dd == [y[0], y[1], y[2], y[3], '-', m[0], m[1], '-', dd[0], dd[1]]
  {
  }
}
