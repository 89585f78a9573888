/** bank.Convert: integer dates (YYYYMMDD) and cent balances to and from
    text, and a person's initials. Java `long` arithmetic is spelled out:
    `*` and `+` wrap around at 64 bits, `/` and `%` truncate toward zero,
    String.split drops trailing empty strings, Long.parseLong refuses text
    that is not an optionally signed run of ASCII digits '0' to '9' or whose
    value does not fit in a long, and String.format's `%0Nd` pads with zeros
    after the sign and prints ASCII digits. Characters are whole Dafny
    chars, not UTF-16 code units. Every operation that can throw returns an
    Option: None is the exception. */
module Convert {
  import opened Options

  const LongMin: int := -0x8000_0000_0000_0000
  const LongMax: int := 0x7FFF_FFFF_FFFF_FFFF

  predicate IsLong(x: int)
  {
    LongMin <= x <= LongMax
  }

  /** The value a Java long operation produces for the exact result x. */
  function Wrap(x: int): (r: int)
    ensures IsLong(r)
    ensures IsLong(x) ==> r == x
  {
    if IsLong(x) then x else (x - LongMin) % 0x1_0000_0000_0000_0000 + LongMin
  }

  /** Java's `/` on a positive divisor: rounds toward zero. */
  function Quot(a: int, b: int): int
    requires b > 0
  {
    if a >= 0 then a / b else -((-a) / b)
  }

  /** Java's `%` on a positive divisor: takes the sign of the dividend. */
  function Rem(a: int, b: int): int
    requires b > 0
  {
    if a >= 0 then a % b else -((-a) % b)
  }

  /** Truncating division and remainder recompose the dividend, and neither
      part lies farther from zero than the dividend. */
  lemma QuotRem(a: int, b: int)
    requires b > 0
    ensures a == b * Quot(a, b) + Rem(a, b)
    ensures -b < Rem(a, b) < b
    ensures a >= 0 ==> 0 <= Rem(a, b) && 0 <= b * Quot(a, b) <= a
    ensures a < 0 ==> Rem(a, b) <= 0 && a <= b * Quot(a, b) <= 0
  {
    if a < 0 {
      var n := -a;
      assert n == b * (n / b) + n % b;
    }
  }

  // ----- String.split with a one-character pattern -----

  /** No character of s is c. */
  predicate Free(s: string, c: char)
  {
    forall i :: 0 <= i < |s| ==> s[i] != c
  }

  /** The position of the first c in s, or |s| when there is none. */
  function Find(s: string, c: char): (k: nat)
    ensures k <= |s|
    ensures k < |s| ==> s[k] == c
    ensures Free(s[..k], c)
  {
    if s == [] || s[0] == c then 0
    else
      var k := 1 + Find(s[1..], c);
      assert s[..k] == [s[0]] + s[1..][..k - 1];
      k
  }

  /** The pieces of s between the occurrences of sep, in order. */
  function Fields(s: string, sep: char): (r: seq<string>)
    ensures |r| >= 1
  {
    var k := Find(s, sep);
    if k == |s| then [s] else [s[..k]] + Fields(s[k + 1..], sep)
  }

  function DropTrailingEmpty(p: seq<string>): (r: seq<string>)
    ensures r <= p
    ensures r == [] || r[|r| - 1] != ""
    ensures forall i :: |r| <= i < |p| ==> p[i] == ""
  {
    if p == [] || p[|p| - 1] != "" then p else DropTrailingEmpty(p[..|p| - 1])
  }

  /** s.split(sep): the input itself when sep does not occur, otherwise its
      pieces without the trailing empty ones. */
  function Split(s: string, sep: char): (r: seq<string>)
    ensures Find(s, sep) == |s| ==> r == [s]
  {
    if Find(s, sep) == |s| then [s] else DropTrailingEmpty(Fields(s, sep))
  }

  /** The first separator in a, sep, b is the one after a. */
  lemma FindAfter(a: string, sep: char, b: string)
    requires Free(a, sep)
    ensures Find(a + [sep] + b, sep) == |a|
  {
    var s := a + [sep] + b;
    var k := Find(s, sep);
    assert s[|a|] == sep;
    assert s[..k][..] == s[..k];
  }

  /** Splitting text a, sep, b where a holds no separator yields a followed
      by the pieces of b. */
  lemma FieldsCons(a: string, sep: char, b: string)
    requires Free(a, sep)
    ensures Fields(a + [sep] + b, sep) == [a] + Fields(b, sep)
  {
    var s := a + [sep] + b;
    FindAfter(a, sep, b);
    assert s[..|a|] == a;
    assert s[|a| + 1..] == b;
  }

  /** A piece free of the separator is a single field. */
  lemma FieldsOfFree(s: string, sep: char)
    requires Free(s, sep)
    ensures Find(s, sep) == |s| && Fields(s, sep) == [s]
  {
  }

  // ----- Long.parseLong -----

  predicate IsDigit(c: char)
  {
    '0' <= c <= '9'
  }

  predicate AllDigits(s: string)
  {
    forall i :: 0 <= i < |s| ==> IsDigit(s[i])
  }

  /** The number a run of decimal digits denotes (each character counts
      as its distance from '0'; only runs of digits are ever evaluated). */
  function ValueOf(s: string): int
  {
    if s == [] then 0 else ValueOf(s[..|s| - 1]) * 10 + (s[|s| - 1] as int - '0' as int)
  }

  /** Long.parseLong(s): an optional sign followed by at least one digit,
      whose value lies in the long range. */
  function ParseLong(s: string): (r: Option<int>)
    ensures r.Some? ==> IsLong(r.value)
    ensures r.Some? ==> |s| > 0 && (s[0] == '-' || s[0] == '+' || IsDigit(s[0]))
  {
    if s == [] then None
    else
      var digits := if s[0] == '-' || s[0] == '+' then s[1..] else s;
      if digits == [] || !AllDigits(digits) then None
      else
        var v := if s[0] == '-' then -ValueOf(digits) else ValueOf(digits);
        if IsLong(v) then Some(v) else None
  }

  // ----- String.format("%d") and ("%0Nd") -----

  function DigitChar(d: nat): (c: char)
    requires d < 10
    ensures IsDigit(c) && c as int - '0' as int == d
  {
    ('0' as int + d) as char
  }

  /** The decimal digits of n, without leading zeros. */
  function Digits(n: nat): (s: string)
    ensures 1 <= |s| && AllDigits(s)
    ensures ValueOf(s) == n
  {
    if n < 10 then [DigitChar(n)]
    else
      var s := Digits(n / 10) + [DigitChar(n % 10)];
      assert s[..|s| - 1] == Digits(n / 10);
      s
  }

  function Zeros(k: nat): (s: string)
    ensures |s| == k && AllDigits(s)
    ensures forall i :: 0 <= i < k ==> s[i] == '0'
  {
    if k == 0 then [] else Zeros(k - 1) + ['0']
  }

  function Magnitude(v: int): nat
  {
    if v < 0 then -v else v
  }

  /** The number of zeros `%0<width>d` puts between the sign and the digits. */
  function Fill(v: int, width: nat): nat
  {
    var used := (if v < 0 then 1 else 0) + |Digits(Magnitude(v))|;
    if used < width then width - used else 0
  }

  /** `%0<width>d` (and `%d` for width 0): the sign if negative, then the
      digits, left-filled with zeros so that sign and digits together take at
      least width characters. */
  function Format(v: int, width: nat): (s: string)
    ensures v < 0 ==> |s| >= 2 && s[0] == '-' && s[1..] == Zeros(Fill(v, width)) + Digits(Magnitude(v))
    ensures v >= 0 ==> s == Zeros(Fill(v, width)) + Digits(v)
    ensures |s| >= width
  {
    (if v < 0 then "-" else "") + Zeros(Fill(v, width)) + Digits(Magnitude(v))
  }

  /** Leading zeros do not change the value of a run of digits. */
  lemma {:induction false} ValueOfZeros(k: nat, s: string)
    requires AllDigits(s)
    ensures AllDigits(Zeros(k) + s) && ValueOf(Zeros(k) + s) == ValueOf(s)
  {
    if k > 0 {
      ValueOfZeros(k - 1, s);
      ValueOfLeadingZero(Zeros(k - 1) + s);
      calc {
        Zeros(k) + s;
        (Zeros(k - 1) + ['0']) + s;
        { ZerosShift(k - 1); }
        (['0'] + Zeros(k - 1)) + s;
        ['0'] + (Zeros(k - 1) + s);
      }
    } else {
      assert Zeros(k) + s == s;
    }
  }

  lemma {:induction false} ValueOfLeadingZero(s: string)
    requires AllDigits(s)
    ensures AllDigits(['0'] + s) && ValueOf(['0'] + s) == ValueOf(s)
  {
    if s != [] {
      var t := ['0'] + s;
      assert t[..|t| - 1] == ['0'] + s[..|s| - 1];
      ValueOfLeadingZero(s[..|s| - 1]);
    }
  }

  /** Zeros(k) commutes with a trailing zero. */
  lemma {:induction false} ZerosShift(k: nat)
    ensures Zeros(k) + ['0'] == ['0'] + Zeros(k)
  {
    if k > 0 {
      ZerosShift(k - 1);
      assert Zeros(k) + ['0'] == Zeros(k - 1) + ['0'] + ['0'];
    }
  }

  /** A run of digits denotes a natural number. */
  lemma {:induction false} ValueOfNatural(s: string)
    requires AllDigits(s)
    ensures ValueOf(s) >= 0
  {
    if s != [] {
      ValueOfNatural(s[..|s| - 1]);
    }
  }

  /** An unsigned run of digits parses to its value. */
  lemma ParseDigits(s: string)
    requires 1 <= |s| && AllDigits(s) && 0 <= ValueOf(s) <= LongMax
    ensures ParseLong(s) == Some(ValueOf(s))
  {
    assert IsDigit(s[0]);
  }

  /** A minus sign before a run of digits negates its value. */
  lemma ParseNegative(s: string)
    requires 1 <= |s| && AllDigits(s) && 0 <= ValueOf(s) <= -LongMin
    ensures ParseLong("-" + s) == Some(-ValueOf(s))
  {
    assert ("-" + s)[1..] == s;
  }

  /** Whatever Format prints, parseLong reads back. */
  lemma FormatParses(v: int, width: nat)
    requires IsLong(v)
    ensures ParseLong(Format(v, width)) == Some(v)
  {
    var body := Zeros(Fill(v, width)) + Digits(Magnitude(v));
    ValueOfZeros(Fill(v, width), Digits(Magnitude(v)));
    if v < 0 {
      assert Format(v, width) == "-" + body;
      ParseNegative(body);
    } else {
      ParseDigits(body);
    }
  }

  // ----- Convert.date -----

  /** Convert.date(String): the first three '-'-separated pieces read as
      year, month and day, combined as y * 10000 + m * 100 + d in long
      arithmetic. None where split leaves fewer than three pieces or a piece
      is not a long. */
  function DateOfText(s: string): (r: Option<int>)
    ensures r.Some? ==> |Split(s, '-')| >= 3 && IsLong(r.value)
  {
    var parts := Split(s, '-');
    if |parts| < 3 then None
    else
      var y, m, d := ParseLong(parts[0]), ParseLong(parts[1]), ParseLong(parts[2]);
      if y.None? || m.None? || d.None? then None else Some(DateSum(y.value, m.value, d.value))
  }

  /** y * 10000 + m * 100 + d, every step in long arithmetic. */
  function DateSum(y: int, m: int, d: int): (r: int)
    ensures IsLong(r)
  {
    Wrap(Wrap(Wrap(y * 10000) + Wrap(m * 100)) + d)
  }

  /** Convert.date(long): n / 10000, (n / 100) % 100 and n % 100 as
      "%04d-%02d-%02d". */
  function DateText(n: int): string
  {
    Format(Quot(n, 10000), 4) + "-" + Format(Rem(Quot(n, 100), 100), 2) + "-" + Format(Rem(n, 100), 2)
  }

  /** Text a, sep, b, sep, c with no separator inside the three pieces
      falls apart into exactly those pieces. */
  lemma FieldsThree(a: string, b: string, c: string, sep: char)
    requires Free(a, sep) && Free(b, sep) && Free(c, sep)
    ensures Fields(a + [sep] + b + [sep] + c, sep) == [a, b, c]
  {
    var tail := b + [sep] + c;
    assert a + [sep] + b + [sep] + c == a + [sep] + tail;
    FieldsCons(a, sep, tail);
    FieldsCons(b, sep, c);
    FieldsOfFree(c, sep);
  }

  /** The three pieces of "Y-M-D", each free of '-', come back from split. */
  lemma SplitThree(a: string, b: string, c: string, sep: char)
    requires Free(a, sep) && Free(b, sep) && Free(c, sep) && c != ""
    ensures Split(a + [sep] + b + [sep] + c, sep) == [a, b, c]
  {
    FieldsThree(a, b, c, sep);
    var s := a + [sep] + b + [sep] + c;
    FindAfter(a, sep, b + [sep] + c);
    assert s == a + [sep] + (b + [sep] + c);
    var f := Fields(s, sep);
    assert DropTrailingEmpty(f) == f;
  }

  lemma DigitPartsOfDecimal(n: nat)
    ensures n / 10000 * 10000 + n / 100 % 100 * 100 + n % 100 == n
  {
    var q := n / 100;
    assert n == 100 * q + n % 100;
    assert q == 100 * (q / 100) + q % 100;
    assert n / 10000 == q / 100 by {
      var t := 100 * (q % 100) + n % 100;
      assert 0 <= t < 10000;
      assert n == 10000 * (q / 100) + t;
    }
  }

  /** Digits carry neither a minus sign nor a decimal point. */
  lemma DigitsAreNotSeparators(s: string)
    requires AllDigits(s)
    ensures Free(s, '-') && Free(s, '.')
  {
  }

  /** Reading "Y-M-D" whose pieces parse to y, m and d. */
  lemma DateOfPieces(s: string, a: string, b: string, c: string, y: int, m: int, d: int, v: int)
    requires Split(s, '-') == [a, b, c]
    requires ParseLong(a) == Some(y) && ParseLong(b) == Some(m) && ParseLong(c) == Some(d)
    requires DateSum(y, m, d) == v
    ensures DateOfText(s) == Some(v)
  {
  }

  /** Three digit runs joined by '-' split back into the three runs. */
  lemma SplitDigitRuns(ys: string, ms: string, ds: string)
    requires 1 <= |ds| && AllDigits(ys) && AllDigits(ms) && AllDigits(ds)
    ensures Split(ys + "-" + ms + "-" + ds, '-') == [ys, ms, ds]
  {
    DigitsAreNotSeparators(ys);
    DigitsAreNotSeparators(ms);
    DigitsAreNotSeparators(ds);
    SplitThree(ys, ms, ds, '-');
  }

  /** y * 10000 + m * 100 + d does not wrap when the exact sum is a long. */
  lemma DateSumFits(y: int, m: int, d: int)
    requires 0 <= y && 0 <= m && 0 <= d && y * 10000 + m * 100 + d <= LongMax
    ensures DateSum(y, m, d) == y * 10000 + m * 100 + d
    ensures y <= LongMax && m <= LongMax && d <= LongMax
  {
    assert 0 <= y * 10000 && 0 <= m * 100;
  }

  /** Reading "Y-M-D" whose pieces parse to non-negative y, m and d whose
      combination fits in a long: no step wraps. */
  lemma DateOfValues(s: string, a: string, b: string, c: string, y: int, m: int, d: int, v: int)
    requires Split(s, '-') == [a, b, c]
    requires ParseLong(a) == Some(y) && ParseLong(b) == Some(m) && ParseLong(c) == Some(d)
    requires 0 <= y && 0 <= m && 0 <= d && y * 10000 + m * 100 + d == v <= LongMax
    ensures DateOfText(s) == Some(v)
  {
    DateSumFits(y, m, d);
    DateOfPieces(s, a, b, c, y, m, d, v);
  }

  /** For a non-negative n, DateText's truncating arithmetic is plain
      Euclidean arithmetic. */
  lemma DateTextPieces(n: int)
    requires 0 <= n
    ensures DateText(n) == Format(n / 10000, 4) + "-" + Format(n / 100 % 100, 2) + "-" + Format(n % 100, 2)
  {
    assert Quot(n, 10000) == n / 10000 && Rem(Quot(n, 100), 100) == n / 100 % 100 && Rem(n, 100) == n % 100;
  }

  /** Rendering a non-negative date and reading it back gives the date. */
  lemma DateRoundTrip(n: int)
    requires 0 <= n <= LongMax
    ensures DateOfText(DateText(n)) == Some(n)
  {
    var y, m, d := n / 10000, n / 100 % 100, n % 100;
    DigitPartsOfDecimal(n);
    var ys, ms, ds := Format(y, 4), Format(m, 2), Format(d, 2);
    DateTextPieces(n);
    SplitDigitRuns(ys, ms, ds);
    FormatParses(y, 4);
    FormatParses(m, 2);
    FormatParses(d, 2);
    DateOfValues(DateText(n), ys, ms, ds, y, m, d, n);
  }

  /** date("Y-M-D") for digit strings Y, M, D is the number
      Y * 10000 + M * 100 + D, whenever that fits in a long. */
  lemma DateOfDigits(ys: string, ms: string, ds: string, v: int)
    requires 1 <= |ys| && 1 <= |ms| && 1 <= |ds|
    requires AllDigits(ys) && AllDigits(ms) && AllDigits(ds)
    requires v == ValueOf(ys) * 10000 + ValueOf(ms) * 100 + ValueOf(ds) <= LongMax
    ensures DateOfText(ys + "-" + ms + "-" + ds) == Some(v)
  {
    var y, m, d := ValueOf(ys), ValueOf(ms), ValueOf(ds);
    ValueOfNatural(ys);
    ValueOfNatural(ms);
    ValueOfNatural(ds);
    DateSumFits(y, m, d);
    SplitDigitRuns(ys, ms, ds);
    ParseDigits(ys);
    ParseDigits(ms);
    ParseDigits(ds);
    DateOfValues(ys + "-" + ms + "-" + ds, ys, ms, ds, y, m, d, v);
  }

  // ----- Convert.balance -----

  /** Convert.balance(String): the first two '.'-separated pieces read as
      whole units d and cents c, combined as 100 * d + c in long arithmetic;
      the cents piece is read as a plain integer. */
  function BalanceOfText(s: string): (r: Option<int>)
    ensures r.Some? ==> |Split(s, '.')| >= 2 && IsLong(r.value)
  {
    var parts := Split(s, '.');
    if |parts| < 2 then None
    else
      var d, c := ParseLong(parts[0]), ParseLong(parts[1]);
      if d.None? || c.None? then None else Some(BalanceSum(d.value, c.value))
  }

  /** 100 * d + c, every step in long arithmetic. */
  function BalanceSum(d: int, c: int): (r: int)
    ensures IsLong(r)
  {
    Wrap(Wrap(100 * d) + c)
  }

  /** Convert.balance(long): n / 100 and n % 100 as "%d.%02d". */
  function BalanceText(n: int): string
  {
    Format(Quot(n, 100), 0) + "." + Format(Rem(n, 100), 2)
  }

  /** Text a, sep, b with no separator inside either piece splits into
      exactly those pieces. */
  lemma SplitTwo(a: string, b: string, sep: char)
    requires Free(a, sep) && Free(b, sep) && b != ""
    ensures Split(a + [sep] + b, sep) == [a, b]
  {
    var s := a + [sep] + b;
    FindAfter(a, sep, b);
    FieldsCons(a, sep, b);
    FieldsOfFree(b, sep);
    var f := Fields(s, sep);
    assert DropTrailingEmpty(f) == f;
  }

  /** Reading "D.C" whose pieces parse to d and c gives their long
      combination v. */
  lemma BalanceOfPieces(s: string, a: string, b: string, d: int, c: int, v: int)
    requires Split(s, '.') == [a, b]
    requires ParseLong(a) == Some(d) && ParseLong(b) == Some(c)
    requires BalanceSum(d, c) == v
    ensures BalanceOfText(s) == Some(v)
  {
  }

  /** 100 * d + c does not wrap when neither it nor 100 * d leaves the long
      range. */
  lemma BalanceSumFits(d: int, c: int)
    requires IsLong(100 * d) && IsLong(100 * d + c)
    ensures BalanceSum(d, c) == 100 * d + c
  {
  }

  /** Format never prints a decimal point. */
  lemma FormatHasNoDot(v: int, width: nat)
    ensures Free(Format(v, width), '.')
  {
    var s := Format(v, width);
    var body := Zeros(Fill(v, width)) + Digits(Magnitude(v));
    assert AllDigits(body);
    if v < 0 {
      assert s == [s[0]] + body;
    }
  }

  /** Whole units and cents recombine to the balance without wrapping. */
  lemma BalancePartsFit(n: int)
    requires IsLong(n)
    ensures IsLong(Quot(n, 100)) && IsLong(Rem(n, 100)) && IsLong(100 * Quot(n, 100))
    ensures 100 * Quot(n, 100) + Rem(n, 100) == n
  {
    QuotRem(n, 100);
  }

  /** The rendered balance splits at its one decimal point. */
  lemma BalanceTextSplits(n: int)
    ensures Split(BalanceText(n), '.') == [Format(Quot(n, 100), 0), Format(Rem(n, 100), 2)]
  {
    var whole, cents := Format(Quot(n, 100), 0), Format(Rem(n, 100), 2);
    FormatHasNoDot(Quot(n, 100), 0);
    FormatHasNoDot(Rem(n, 100), 2);
    SplitTwo(whole, cents, '.');
  }

  /** Every long balance survives rendering and reading back, negative ones
      included. */
  lemma BalanceRoundTrip(n: int)
    requires IsLong(n)
    ensures BalanceOfText(BalanceText(n)) == Some(n)
  {
    var d, c := Quot(n, 100), Rem(n, 100);
    BalancePartsFit(n);
    BalanceTextSplits(n);
    FormatParses(d, 0);
    FormatParses(c, 2);
    BalanceSumFits(d, c);
    BalanceOfPieces(BalanceText(n), Format(d, 0), Format(c, 2), d, c, n);
  }

  /** `%02d` of a value below 100 is exactly two digits denoting it. */
  lemma TwoDigits(c: int)
    requires 0 <= c < 100
    ensures |Format(c, 2)| == 2 && AllDigits(Format(c, 2)) && ValueOf(Format(c, 2)) == c
  {
    var ds := Digits(c);
    assert |ds| <= 2 by {
      if c >= 10 { assert ds == Digits(c / 10) + [DigitChar(c % 10)]; }
    }
    ValueOfZeros(Fill(c, 2), ds);
  }

  /** For a non-negative balance the cents piece is exactly two digits and
      denotes n % 100, and the whole piece is n / 100 without leading zeros. */
  lemma BalanceTextCents(n: int)
    requires 0 <= n <= LongMax
    ensures var s := BalanceText(n);
      |s| >= 4 && s[|s| - 3] == '.' && AllDigits(s[|s| - 2..]) && ValueOf(s[|s| - 2..]) == n % 100
      && s[..|s| - 3] == Digits(n / 100)
  {
    var whole, cents := Digits(n / 100), Format(n % 100, 2);
    TwoDigits(n % 100);
    BalanceTextOfNatural(n);
    var s := whole + "." + cents;
    assert s[|s| - 2..] == cents;
    assert s[..|s| - 3] == whole;
  }

  lemma BalanceTextOfNatural(n: int)
    requires 0 <= n
    ensures BalanceText(n) == Digits(n / 100) + "." + Format(n % 100, 2)
  {
    assert Format(n / 100, 0) == Digits(n / 100) by {
      assert Fill(n / 100, 0) == 0;
      assert Zeros(0) + Digits(n / 100) == Digits(n / 100);
    }
  }

  /** balance("D.C") for digit strings D and C is 100 * D + C whenever that
      fits in a long: the cents piece is read as an integer, so "1.5" is 105,
      not 150. */
  lemma BalanceOfDigits(ds: string, cs: string, v: int)
    requires 1 <= |ds| && 1 <= |cs| && AllDigits(ds) && AllDigits(cs)
    requires v == 100 * ValueOf(ds) + ValueOf(cs) <= LongMax
    ensures BalanceOfText(ds + "." + cs) == Some(v)
  {
    var d, c := ValueOf(ds), ValueOf(cs);
    ValueOfNatural(ds);
    ValueOfNatural(cs);
    BalanceSumFits(d, c);
    DigitsAreNotSeparators(ds);
    DigitsAreNotSeparators(cs);
    SplitTwo(ds, cs, '.');
    ParseDigits(ds);
    ParseDigits(cs);
    BalanceOfPieces(ds + "." + cs, ds, cs, d, c, v);
  }

  lemma BalanceOneFive()
    ensures BalanceOfText("1.5") == Some(105)
  {
    assert ValueOf("1") == 1 && ValueOf("5") == 5;
    assert "1" + "." + "5" == "1.5";
    BalanceOfDigits("1", "5", 105);
  }

  // ----- Convert.initials -----

  /** String.lastIndexOf(c): the last position holding c, or -1. */
  function LastIndexOf(s: string, c: char): (k: int)
    ensures -1 <= k < |s|
    ensures k >= 0 ==> s[k] == c
    ensures forall i :: k < i < |s| ==> s[i] != c
  {
    if s == [] then -1
    else if s[|s| - 1] == c then |s| - 1
    else LastIndexOf(s[..|s| - 1], c)
  }

  /** Convert.initials: the first character, then the character after the
      last space. None where charAt would throw: an empty name, or a name
      ending in a space. */
  function Initials(name: string): (r: Option<string>)
    ensures r.Some? <==> |name| > 0 && name[|name| - 1] != ' '
    ensures r.Some? ==> |r.value| == 2 && r.value[0] == name[0]
  {
    if |name| == 0 then None
    else
      var k := LastIndexOf(name, ' ');
      if k + 1 >= |name| then None
      else Some([name[0], name[k + 1]])
  }

  /** A name without a space gives its first character twice. */
  lemma InitialsWithoutSpace(name: string)
    requires |name| > 0 && ' ' !in name
    ensures Initials(name) == Some([name[0], name[0]])
  {
    assert LastIndexOf(name, ' ') == -1;
  }

  /** The second initial is the first letter of the last word; the first is
      the name's first character, a space when `first` is empty. */
  lemma InitialsOfLastWord(first: string, last: string)
    requires last != "" && ' ' !in last
    ensures Initials(first + " " + last) == Some([if first == "" then ' ' else first[0], last[0]])
  {
    var name := first + " " + last;
    var k := LastIndexOf(name, ' ');
    assert name[|first|] == ' ';
    assert k == |first|;
    assert name[k + 1] == last[0];
    assert name[0] == if first == "" then ' ' else first[0];
  }
}
