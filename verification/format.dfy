/**
 * Pure display helpers of the banking page: decimal rendering of integers,
 * two-digit zero padding, the `YYYY.MM.DD` / `HH:MM` stamps written into every
 * transaction, the money rendering with a thousands separator, and the
 * truncation of a recipient name on the confirmation page.
 *
 * Money is an integer number of minor units (1/100 of the currency unit).
 */
module Format {

  import opened Wrappers

  type Month = m: int | 1 <= m <= 12 witness 1
  type Day = d: int | 1 <= d <= 31 witness 1
  type Hour = h: int | 0 <= h <= 23
  type Minute = m: int | 0 <= m <= 59

  /** The calendar fields of a clock reading, as the browser's `Date` reports them
      (the month already shifted to 1..12). */
  datatype Moment = Moment(year: int, month: Month, day: Day, hour: Hour, minute: Minute)

  // ---------------------------------------------------------------------------
  // Digits and their values

  predicate IsDigit(c: char) {
    '0' <= c <= '9'
  }

  predicate AllDigits(s: string) {
    forall i :: 0 <= i < |s| ==> IsDigit(s[i])
  }

  function DigitChar(d: int): (c: char)
    requires 0 <= d < 10
    ensures IsDigit(c) && c as int - '0' as int == d
  {
    (d + '0' as int) as char
  }

  /** The number a string of decimal digits denotes, most significant digit first. */
  function Value(s: string): nat
    requires AllDigits(s)
  {
    if s == [] then 0 else 10 * Value(s[..|s| - 1]) + (s[|s| - 1] as int - '0' as int)
  }

  /** `String(n)` for a non-negative integer: its shortest decimal rendering. */
  function Digits(n: nat): (r: string)
    ensures |r| >= 1 && AllDigits(r)
    ensures Value(r) == n
    ensures r[0] == '0' ==> n == 0
    ensures n < 10 <==> |r| == 1
  {
    if n < 10 then [DigitChar(n)]
    else
      var r := Digits(n / 10) + [DigitChar(n % 10)];
      assert r[..|r| - 1] == Digits(n / 10);
      r
  }

  /** `String(i)` for any integer: a minus sign before the digits of a negative one. */
  function IntString(i: int): (r: string)
    ensures |r| >= 1
    ensures i >= 0 ==> AllDigits(r) && Value(r) == i
    ensures i < 0 ==> r[0] == '-' && AllDigits(r[1..]) && Value(r[1..]) == -i
    ensures i >= 0 ==> (r[0] == '0' ==> i == 0)
    ensures i < 0 ==> |r| >= 2 && r[1] != '0'
  {
    if i >= 0 then Digits(i) else "-" + Digits(-i)
  }

  /** `s.padStart(width, fill)`: fill characters before `s` until it is `width` long. */
  function PadStart(s: string, width: nat, fill: char): (r: string)
    ensures |r| == if |s| >= width then |s| else width
    ensures r[|r| - |s|..] == s
    ensures forall i :: 0 <= i < |r| - |s| ==> r[i] == fill
  {
    if |s| >= width then s else seq(width - |s|, _ => fill) + s
  }

  /** `String(n).padStart(2, '0')`. */
  function ZeroPad2(n: nat): (r: string)
    ensures n < 100 ==> |r| == 2 && AllDigits(r) && Value(r) == n
    ensures n >= 10 ==> r == Digits(n)
  {
    var r := PadStart(Digits(n), 2, '0');
    assert n < 10 ==> r == ['0'] + Digits(n) && r[..1] == ['0'];
    r
  }

  // ---------------------------------------------------------------------------
  // Date and time stamps

  /** The `YYYY.MM.DD` stamp: the year as `String` renders it, then a two-digit
      month and a two-digit day, separated by dots. */
  function FormatDate(m: Moment): (r: string)
    ensures |r| == |IntString(m.year)| + 6
  {
    IntString(m.year) + "." + ZeroPad2(m.month) + "." + ZeroPad2(m.day)
  }

  /** The date stamp reads back field by field: the year, a dot, exactly two digits
      denoting the month, a dot, exactly two digits denoting the day; a year of
      four digits gives the ten-character `YYYY.MM.DD`. */
  lemma DateStampFields(m: Moment)
    ensures var r, k := FormatDate(m), |IntString(m.year)|;
      && r[..k] == IntString(m.year)
      && r[k] == '.' && r[k + 3] == '.'
      && AllDigits(r[k + 1..k + 3]) && Value(r[k + 1..k + 3]) == m.month
      && AllDigits(r[k + 4..]) && Value(r[k + 4..]) == m.day
      && (1000 <= m.year <= 9999 ==> k == 4 && AllDigits(r[..4]) && Value(r[..4]) == m.year)
  {
    var y, mm, dd := IntString(m.year), ZeroPad2(m.month), ZeroPad2(m.day);
    assert FormatDate(m) == y + "." + mm + "." + dd;
    StampLayout(y, mm, dd);
    if 1000 <= m.year <= 9999 {
      FourDigitYear(m.year);
      assert FormatDate(m)[..4] == y;
    }
  }

  /** Where the parts of `y.mm.dd` sit, for two-character `mm` and `dd`. */
  lemma StampLayout(y: string, mm: string, dd: string)
    requires |mm| == 2 && |dd| == 2
    ensures var r, k := y + "." + mm + "." + dd, |y|;
      && r[..k] == y && r[k] == '.' && r[k + 1..k + 3] == mm && r[k + 3] == '.' && r[k + 4..] == dd
  {
    var p := y + "." + mm;
    Around(y, '.', mm);
    Around(p, '.', dd);
    var r := p + "." + dd;
    assert r[..|y|] == y by { assert r[..|y|] == p[..|y|]; }
    assert r[|y| + 1..|y| + 3] == mm by { assert r[|y| + 1..|y| + 3] == p[|y| + 1..]; }
  }

  lemma FourDigitYear(year: int)
    requires 1000 <= year <= 9999
    ensures |IntString(year)| == 4
  {
    assert Pow10(3) == 1000 && Pow10(4) == 10000;
    DigitsLength(year, 3);
  }

  /** The `HH:MM` stamp: two-digit hour and minute around a colon. */
  function FormatTime(m: Moment): (r: string)
    ensures |r| == 5
  {
    ZeroPad2(m.hour) + ":" + ZeroPad2(m.minute)
  }

  /** The time stamp reads back: exactly two digits denoting the hour, a colon,
      exactly two digits denoting the minute. */
  lemma TimeStampFields(m: Moment)
    ensures var r := FormatTime(m);
      && r[2] == ':'
      && AllDigits(r[..2]) && Value(r[..2]) == m.hour
      && AllDigits(r[3..]) && Value(r[3..]) == m.minute
  {
    Around(ZeroPad2(m.hour), ':', ZeroPad2(m.minute));
  }

  /** Where the pieces of `a + [c] + b` sit. */
  lemma Around(a: string, c: char, b: string)
    ensures var r := a + [c] + b;
      |r| == |a| + 1 + |b| && r[..|a|] == a && r[|a|] == c && r[|a| + 1..] == b
  {
  }

  /** The rendering of `n` has `k + 1` digits exactly when 10^k <= n < 10^(k+1). */
  lemma {:induction false} DigitsLength(n: nat, k: nat)
    requires Pow10(k) <= n < Pow10(k + 1)
    ensures |Digits(n)| == k + 1
  {
    if k > 0 {
      assert Pow10(k) == 10 * Pow10(k - 1);
      assert Pow10(k + 1) == 10 * Pow10(k);
      assert Pow10(k - 1) <= n / 10 < Pow10(k);
      DigitsLength(n / 10, k - 1);
    }
  }

  function Pow10(k: nat): (r: nat)
    ensures r >= 1
  {
    if k == 0 then 1 else 10 * Pow10(k - 1)
  }

  // ---------------------------------------------------------------------------
  // Money: `amount.toFixed(2)` and the thousands separator

  function Abs(x: int): nat {
    if x < 0 then -x else x
  }

  /** `amount.toFixed(2)` for an amount held exactly as `cents` minor units:
      a minus sign for a negative amount, then the rendering of its magnitude. */
  function FixedTwo(cents: int): (r: string)
    ensures |r| >= 4 && r[|r| - 3] == '.' && ',' !in r
  {
    Sign(cents) + UnsignedFixed(Abs(cents))
  }

  function Sign(x: int): (r: string)
    ensures ',' !in r && '.' !in r
  {
    if x < 0 then "-" else ""
  }

  /** Whole units, a dot, and two digits of cents. */
  function UnsignedFixed(n: nat): (r: string)
    ensures |r| >= 4 && IsDigit(r[0]) && r[|r| - 3] == '.' && ',' !in r
    ensures ParseUnsignedFixed(r) == Some(n)
  {
    var d, f := Digits(n / 100), ZeroPad2(n % 100);
    NoPunctuationInDigits(d);
    NoPunctuationInDigits(f);
    UnitsAndCentsRoundTrip(n);
    d + ("." + f)
  }

  lemma UnitsAndCentsRoundTrip(n: nat)
    ensures ParseUnsignedFixed(Digits(n / 100) + ("." + ZeroPad2(n % 100))) == Some(n)
  {
    ParseParts(Digits(n / 100), ZeroPad2(n % 100));
  }

  lemma ParseParts(d: string, f: string)
    requires |d| >= 1 && AllDigits(d) && |f| == 2 && AllDigits(f)
    ensures ParseUnsignedFixed(d + ("." + f)) == Some(100 * Value(d) + Value(f))
  {
    DotLayout(d, f);
  }

  lemma DotLayout(d: string, f: string)
    requires |f| == 2
    ensures var r := d + ("." + f);
      |r| == |d| + 3 && r[|r| - 3] == '.' && r[..|r| - 3] == d && r[|r| - 2..] == f
  {
  }

  lemma NoPunctuationInDigits(s: string)
    requires AllDigits(s)
    ensures ',' !in s && '.' !in s && '-' !in s
  {
  }

  /** Reads back a two-decimal rendering: an optional minus sign, digits, a dot and
      exactly two digits; anything else is not a number. */
  function ParseFixed(s: string): Option<int> {
    if |s| >= 1 && s[0] == '-' then
      match ParseUnsignedFixed(s[1..])
      case None => None
      case Some(v) => Some(-v)
    else
      ParseUnsignedFixed(s)
  }

  function ParseUnsignedFixed(s: string): Option<int> {
    if |s| >= 4 && s[|s| - 3] == '.' && AllDigits(s[..|s| - 3]) && AllDigits(s[|s| - 2..]) then
      Some(100 * Value(s[..|s| - 3]) + Value(s[|s| - 2..]))
    else
      None
  }

  /** `toFixed(2)` loses nothing on an exact amount of minor units: reading the
      rendering back gives the amount. */
  lemma FixedTwoRoundTrip(cents: int)
    ensures ParseFixed(FixedTwo(cents)) == Some(cents)
  {
    var u := UnsignedFixed(Abs(cents));
    if cents < 0 {
      assert FixedTwo(cents) == "-" + u;
      assert ("-" + u)[1..] == u;
    } else {
      assert FixedTwo(cents) == u;
    }
  }

  /** The number of consecutive digits at the start of `s`. */
  function DigitRun(s: string): (n: nat)
    ensures n <= |s|
  {
    if s != [] && IsDigit(s[0]) then 1 + DigitRun(s[1..]) else 0
  }

  /** The lookahead `(?=(\d{3})+\.)`: a positive multiple of three digits, then a dot.
      A dot is not a digit, so the run of digits must end exactly at the dot. */
  predicate ThousandsAhead(s: string) {
    var n := DigitRun(s);
    0 < n < |s| && n % 3 == 0 && s[n] == '.'
  }

  /** `s.replace(/\d(?=(\d{3})+\.)/g, '$&,')`: a comma after every digit that the
      lookahead accepts, scanning left to right. */
  function InsertSeparators(s: string): (r: string)
    ensures RemoveCommas(r) == RemoveCommas(s)
  {
    if s == [] then []
    else
      var sep := if IsDigit(s[0]) && ThousandsAhead(s[1..]) then "," else "";
      var rest := InsertSeparators(s[1..]);
      RemoveCommasAppend([s[0]] + sep, rest);
      RemoveCommasAppend([s[0]], sep);
      assert RemoveCommas(sep) == "";
      assert s == [s[0]] + s[1..];
      RemoveCommasAppend([s[0]], s[1..]);
      [s[0]] + sep + rest
  }

  /** `formatAmount`: the two-decimal rendering with a comma between thousands. */
  function FormatAmount(cents: int): (r: string)
    ensures RemoveCommas(r) == FixedTwo(cents)
    ensures r == Sign(cents) + (GroupThousands(Digits(Abs(cents) / 100)) + ("." + ZeroPad2(Abs(cents) % 100)))
    ensures WellGrouped(GroupThousands(Digits(Abs(cents) / 100)))
  {
    SeparatorsGroupThousands(cents);
    InsertSeparators(FixedTwo(cents))
  }

  /** The regular expression groups the whole units of the amount and leaves the
      sign and the cents alone; removing the commas again gives the plain rendering. */
  lemma SeparatorsGroupThousands(cents: int)
    ensures var d, tail := Digits(Abs(cents) / 100), "." + ZeroPad2(Abs(cents) % 100);
      && InsertSeparators(FixedTwo(cents)) == Sign(cents) + (GroupThousands(d) + tail)
      && RemoveCommas(Sign(cents) + (GroupThousands(d) + tail)) == FixedTwo(cents)
      && WellGrouped(GroupThousands(d))
  {
    var d, f := Digits(Abs(cents) / 100), ZeroPad2(Abs(cents) % 100);
    var tail := "." + f;
    NoPunctuationInDigits(f);
    assert '.' !in f && ',' !in tail;
    SeparatorsAfterSign(cents, d + tail);
    SeparatorsInMagnitude(d, f);
    GroupingIsWellFormed(d);
    GroupCommasRemoved(Sign(cents), GroupThousands(d), tail);
  }

  lemma SeparatorsInMagnitude(d: string, f: string)
    requires |d| >= 1 && AllDigits(d) && '.' !in f
    ensures InsertSeparators(d + ("." + f)) == GroupThousands(d) + ("." + f)
  {
    var tail := "." + f;
    SeparatorsAfterDigits(d, tail);
    NoSeparatorsWithoutDot(f);
    SeparateLeftIsGrouping(d);
    Substitute(d, tail, SeparateLeft(d), GroupThousands(d));
  }

  lemma Substitute(d: string, tail: string, x: string, g: string)
    requires InsertSeparators(d + tail) == x + InsertSeparators(tail)
    requires InsertSeparators(tail) == tail && x == g
    ensures InsertSeparators(d + tail) == g + tail
  {
  }

  lemma SeparatorsAfterSign(cents: int, u: string)
    ensures InsertSeparators(Sign(cents) + u) == Sign(cents) + InsertSeparators(u)
  {
    if cents < 0 {
      var s := "-" + u;
      assert s[0] == '-' && s[1..] == u;
    } else {
      assert Sign(cents) + u == u;
    }
  }

  lemma GroupCommasRemoved(sign: string, g: string, tail: string)
    requires ',' !in sign && ',' !in tail
    ensures RemoveCommas(sign + (g + tail)) == sign + (RemoveCommas(g) + tail)
  {
    RemoveCommasAppend(sign, g + tail);
    RemoveCommasAppend(g, tail);
    NoCommas(sign);
    NoCommas(tail);
  }

  /** The reading of a rendered amount that the transfer form performs (commas
      stripped, then parsed) gives back the amount. */
  lemma AmountTextRoundTrip(cents: int)
    ensures ParseFixed(RemoveCommas(FormatAmount(cents))) == Some(cents)
  {
    FixedTwoRoundTrip(cents);
  }

  function RemoveCommas(s: string): (r: string)
    ensures ',' !in r
  {
    if s == [] then [] else (if s[0] == ',' then "" else [s[0]]) + RemoveCommas(s[1..])
  }

  /** Reference grouping of a digit string, from the right: the last three digits,
      preceded by a comma and the grouping of the rest, while more than three remain. */
  function GroupThousands(d: string): string
    decreases |d|
  {
    if |d| <= 3 then d else GroupThousands(d[..|d| - 3]) + "," + d[|d| - 3..]
  }

  /** Separator-grouped digits: a leading group of one to three digits, then any
      number of groups of exactly three digits, each after a comma. */
  predicate WellGrouped(s: string)
    decreases |s|
  {
    || (1 <= |s| <= 3 && AllDigits(s))
    || (|s| >= 5 && s[|s| - 4] == ',' && AllDigits(s[|s| - 3..]) && WellGrouped(s[..|s| - 4]))
  }

  lemma {:induction false} GroupingIsWellFormed(d: string)
    requires 1 <= |d| && AllDigits(d)
    ensures WellGrouped(GroupThousands(d))
    ensures RemoveCommas(GroupThousands(d)) == d
    decreases |d|
  {
    if |d| > 3 {
      var a, b := d[..|d| - 3], d[|d| - 3..];
      DigitsSplit(d, |d| - 3);
      GroupingIsWellFormed(a);
      GroupedStep(GroupThousands(a), a, b);
    } else {
      NoPunctuationInDigits(d);
      NoCommas(d);
    }
  }

  lemma DigitsSplit(d: string, n: nat)
    requires AllDigits(d) && n <= |d|
    ensures AllDigits(d[..n]) && AllDigits(d[n..]) && d[..n] + d[n..] == d
  {
  }

  /** A grouping of `a` followed by a comma and three more digits is a grouping of
      `a + b`. */
  lemma GroupedStep(g: string, a: string, b: string)
    requires WellGrouped(g) && RemoveCommas(g) == a && |b| == 3 && AllDigits(b)
    ensures WellGrouped(g + "," + b) && RemoveCommas(g + "," + b) == a + b
  {
    GroupStep(g, b);
    NoPunctuationInDigits(b);
    GroupCommas(g, b);
  }

  lemma GroupStep(x: string, b: string)
    requires WellGrouped(x) && |b| == 3 && AllDigits(b)
    ensures WellGrouped(x + "," + b)
  {
    var g := x + "," + b;
    Around(x, ',', b);
    assert |x| >= 1;
    assert g[|g| - 4] == ',' && g[..|g| - 4] == x && g[|g| - 3..] == b;
  }

  lemma GroupCommas(g: string, b: string)
    requires ',' !in b
    ensures RemoveCommas(g + "," + b) == RemoveCommas(g) + b
  {
    RemoveCommasAppend(g + ",", b);
    RemoveCommasAppend(g, ",");
    assert RemoveCommas(",") == "";
    NoCommas(b);
    assert RemoveCommas(g) + "" == RemoveCommas(g);
  }

  lemma {:induction false} RemoveCommasAppend(a: string, b: string)
    ensures RemoveCommas(a + b) == RemoveCommas(a) + RemoveCommas(b)
  {
    if a != [] {
      assert (a + b)[1..] == a[1..] + b;
      RemoveCommasAppend(a[1..], b);
    } else {
      assert a + b == b;
    }
  }

  lemma {:induction false} NoCommas(s: string)
    requires ',' !in s
    ensures RemoveCommas(s) == s
  {
    if s != [] {
      NoCommas(s[1..]);
    }
  }

  /** The separators the regular expression puts into a run of digits followed by
      a dot, stated position by position: after a digit exactly when a positive
      multiple of three digits of the run follows it. */
  function SeparateLeft(t: string): string {
    if t == [] then []
    else [t[0]] + (if |t| > 1 && (|t| - 1) % 3 == 0 then "," else "") + SeparateLeft(t[1..])
  }

  lemma {:induction false} DigitRunOfDigits(a: string, b: string)
    requires AllDigits(a)
    ensures DigitRun(a + b) == |a| + DigitRun(b)
  {
    if a != [] {
      assert (a + b)[1..] == a[1..] + b;
      DigitRunOfDigits(a[1..], b);
    } else {
      assert a + b == b;
    }
  }

  lemma {:induction false} SeparatorsAfterDigits(d: string, rest: string)
    requires AllDigits(d) && |rest| >= 1 && rest[0] == '.'
    ensures InsertSeparators(d + rest) == SeparateLeft(d) + InsertSeparators(rest)
  {
    if d != [] {
      var sep := if |d| > 1 && (|d| - 1) % 3 == 0 then "," else "";
      SeparatorsAfterDigit(d, rest);
      SeparatorsAfterDigits(d[1..], rest);
      Associative([d[0]] + sep, SeparateLeft(d[1..]), InsertSeparators(rest));
    } else {
      assert d + rest == rest;
    }
  }

  lemma Associative(x: string, y: string, z: string)
    ensures x + (y + z) == (x + y) + z
  {
  }

  /** One step of the scan over the integer part: the first digit is followed by a
      comma exactly where the reference grouping puts one. */
  lemma SeparatorsAfterDigit(d: string, rest: string)
    requires AllDigits(d) && d != [] && |rest| >= 1 && rest[0] == '.'
    ensures var sep := if |d| > 1 && (|d| - 1) % 3 == 0 then "," else "";
      && InsertSeparators(d + rest) == [d[0]] + sep + InsertSeparators(d[1..] + rest)
      && SeparateLeft(d) == [d[0]] + sep + SeparateLeft(d[1..])
  {
    var s := d + rest;
    assert s[1..] == d[1..] + rest;
    DigitRunOfDigits(d[1..], rest);
    assert ThousandsAhead(s[1..]) <==> |d| > 1 && (|d| - 1) % 3 == 0;
  }

  lemma {:induction false} NoSeparatorsWithoutDot(s: string)
    requires '.' !in s
    ensures InsertSeparators("." + s) == "." + s
    ensures InsertSeparators(s) == s
  {
    assert ("." + s)[1..] == s;
    if s != [] {
      var n := DigitRun(s[1..]);
      assert n < |s[1..]| ==> s[1..][n] != '.';
      NoSeparatorsWithoutDot(s[1..]);
    }
  }

  lemma {:induction false} SeparateLeftSplit(a: string, b: string)
    requires |a| > 0 && |b| > 0 && |b| % 3 == 0
    ensures SeparateLeft(a + b) == SeparateLeft(a) + "," + SeparateLeft(b)
  {
    var s := a + b;
    assert s[0] == a[0] && s[1..] == a[1..] + b;
    if |a| == 1 {
      assert a[1..] == [] && s[1..] == b;
      assert SeparateLeft(a) == [a[0]];
    } else {
      var x := [a[0]] + (if (|a| - 1) % 3 == 0 then "," else "");
      assert (|s| - 1) % 3 == (|a| - 1) % 3;
      assert SeparateLeft(s) == x + SeparateLeft(a[1..] + b);
      assert SeparateLeft(a) == x + SeparateLeft(a[1..]);
      SeparateLeftSplit(a[1..], b);
      Regroup(x, SeparateLeft(a[1..]), SeparateLeft(b));
    }
  }

  lemma Regroup(x: string, l: string, r: string)
    ensures x + (l + "," + r) == x + l + "," + r
  {
  }

  lemma {:induction false} SeparateLeftShort(t: string)
    requires |t| <= 3
    ensures SeparateLeft(t) == t
  {
    if t != [] {
      SeparateLeftShort(t[1..]);
    }
  }

  /** The left-to-right separators agree with the grouping from the right. */
  lemma {:induction false} SeparateLeftIsGrouping(d: string)
    ensures SeparateLeft(d) == GroupThousands(d)
    decreases |d|
  {
    if |d| <= 3 {
      SeparateLeftShort(d);
    } else {
      var a, b := d[..|d| - 3], d[|d| - 3..];
      assert a + b == d;
      SeparateLeftSplit(a, b);
      SeparateLeftShort(b);
      SeparateLeftIsGrouping(a);
    }
  }

  // ---------------------------------------------------------------------------
  // Confirmation page

  /** The recipient name as the confirmation page shows it: names longer than ten
      characters are cut to their first ten and followed by an ellipsis. */
  function TruncateName(name: string): (r: string)
    ensures |r| <= 13
    ensures |name| <= 10 ==> r == name
    ensures |name| > 10 ==> |r| == 13 && r[..10] == name[..10] && r[10..] == "..."
  {
    if |name| > 10 then name[..10] + "..." else name
  }
}
