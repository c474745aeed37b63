/**
 * Proleptic Gregorian calendar dates and their 8-digit `YYYYMMDD` text form
 * (the basic complete calendar-date representation of ISO 8601, which is what
 * `strftime('%Y%m%d')` writes). `strptime(..., '%Y%m%d')` reads this form and
 * also shorter ones with an unpadded month or day (`'2023011'`); only the
 * 8-digit form is read here.
 *
 * The engine compares date strings with plain string comparison; `FormatOrder`
 * proves that this agrees with calendar order for 4-digit years.
 */
module Calendar {
  import opened Common

  datatype Ymd = Ymd(year: int, month: int, day: int)

  predicate IsLeap(y: int) {
    y % 4 == 0 && (y % 100 != 0 || y % 400 == 0)
  }

  function DaysInMonth(y: int, m: int): (n: int)
    requires 1 <= m <= 12
    ensures 28 <= n <= 31
    ensures n == 28 <==> m == 2 && !IsLeap(y)
  {
    if m == 2 then (if IsLeap(y) then 29 else 28)
    else if m == 4 || m == 6 || m == 9 || m == 11 then 30
    else 31
  }

  /** A real calendar day (any year; Python's own range is checked by `InRange`). */
  predicate Valid(d: Ymd) {
    1 <= d.month <= 12 && 1 <= d.day <= DaysInMonth(d.year, d.month)
  }

  /** The years Python's `datetime` represents and `%Y` writes with four digits. */
  predicate InRange(d: Ymd) {
    Valid(d) && 1 <= d.year <= 9999
  }

  /** Strict calendar order. */
  predicate Before(a: Ymd, b: Ymd) {
    a.year < b.year
    || (a.year == b.year && a.month < b.month)
    || (a.year == b.year && a.month == b.month && a.day < b.day)
  }

  predicate NotAfter(a: Ymd, b: Ymd) {
    a == b || Before(a, b)
  }

  lemma BeforeTrans(a: Ymd, b: Ymd, c: Ymd)
    requires Before(a, b) && Before(b, c)
    ensures Before(a, c)
  {
  }

  /** The following calendar day (`+ timedelta(days=1)`). */
  function Next(d: Ymd): (r: Ymd)
    requires Valid(d)
    ensures Valid(r) && Before(d, r)
  {
    if d.day < DaysInMonth(d.year, d.month) then Ymd(d.year, d.month, d.day + 1)
    else if d.month < 12 then Ymd(d.year, d.month + 1, 1)
    else Ymd(d.year + 1, 1, 1)
  }

  /** The preceding calendar day (`- timedelta(days=1)`). */
  function Prev(d: Ymd): (r: Ymd)
    requires Valid(d)
    ensures Valid(r) && Before(r, d)
  {
    if d.day > 1 then Ymd(d.year, d.month, d.day - 1)
    else if d.month > 1 then Ymd(d.year, d.month - 1, DaysInMonth(d.year, d.month - 1))
    else Ymd(d.year - 1, 12, 31)
  }

  /** `Next` skips no day: nothing valid lies strictly between `d` and `Next(d)`. */
  lemma NextIsSuccessor(d: Ymd, e: Ymd)
    requires Valid(d) && Valid(e) && Before(d, e)
    ensures NotAfter(Next(d), e)
  {
  }

  lemma PrevNext(d: Ymd)
    requires Valid(d)
    ensures Prev(Next(d)) == d && Next(Prev(d)) == d
  {
  }

  /** `d + timedelta(days=k)`. */
  function AddDays(d: Ymd, k: int): (r: Ymd)
    requires Valid(d)
    ensures Valid(r)
    ensures k > 0 ==> Before(d, r)
    ensures k < 0 ==> Before(r, d)
    ensures k == 0 ==> r == d
    decreases if k < 0 then -k else k
  {
    if k == 0 then d
    else if k > 0 then
      var r := AddDays(Next(d), k - 1);
      assert k - 1 > 0 ==> Before(Next(d), r);
      r
    else
      var r := AddDays(Prev(d), k + 1);
      assert k + 1 < 0 ==> Before(r, Prev(d));
      r
  }

  // ---------------------------------------------------------------------------
  // Day of the week
  // ---------------------------------------------------------------------------

  /** Month offsets of the day-of-week formula, counting March as the start of the year. */
  function MonthShift(m: int): int
    requires 1 <= m <= 12
  {
    [0, 3, 2, 5, 0, 3, 5, 1, 4, 6, 2, 4][m - 1]
  }

  /** Days the weekday advances from year 0 through year `y`, modulo 7 (leap days count twice). */
  function YearShift(y: int): int {
    y + y / 4 - y / 100 + y / 400
  }

  /** A day number that agrees with the weekday modulo 7. */
  function WeekCount(d: Ymd): int
    requires 1 <= d.month <= 12
  {
    var y := if d.month < 3 then d.year - 1 else d.year;
    YearShift(y) + MonthShift(d.month) + d.day
  }

  /**
   * The day of the week, numbered as SQL `dayofweek` numbers it: 0 is Sunday,
   * 5 is Friday, 6 is Saturday.
   */
  function Weekday(d: Ymd): (w: int)
    requires Valid(d)
    ensures 0 <= w < 7
  {
    WeekCount(d) % 7
  }

  /** A year advances the weekday by one day, a leap year by two. */
  lemma YearShiftStep(y: int)
    ensures YearShift(y) - YearShift(y - 1) == if IsLeap(y) then 2 else 1
  {
    Div4Step(y);
    Div100Step(y);
    Div400Step(y);
    ModChain(y);
  }

  /** Every multiple of 400 is a multiple of 100, and every multiple of 100 one of 4. */
  lemma ModChain(y: int)
    ensures y % 400 == 0 ==> y % 100 == 0
    ensures y % 100 == 0 ==> y % 4 == 0
  {
    if y % 400 == 0 {
      Mod400Is100(y);
    }
    if y % 100 == 0 {
      Mod100Is4(y);
    }
  }

  lemma Mod400Is100(y: int)
    requires y % 400 == 0
    ensures y % 100 == 0
  {
    assert y == 100 * (4 * (y / 400));
  }

  lemma Mod100Is4(y: int)
    requires y % 100 == 0
    ensures y % 4 == 0
  {
    assert y == 4 * (25 * (y / 100));
  }

  lemma Div4Step(y: int)
    ensures y / 4 - (y - 1) / 4 == if y % 4 == 0 then 1 else 0
  {
  }

  lemma Div100Step(y: int)
    ensures y / 100 - (y - 1) / 100 == if y % 100 == 0 then 1 else 0
  {
  }

  lemma Div400Step(y: int)
    ensures y / 400 - (y - 1) / 400 == if y % 400 == 0 then 1 else 0
  {
  }

  /** The last day of February is followed by 1 March, one weekday later. */
  lemma MarchFirst(y: int)
    ensures WeekCount(Ymd(y, 3, 1)) - WeekCount(Ymd(y, 2, DaysInMonth(y, 2))) == -27
  {
    YearShiftStep(y);
  }

  /** The months other than February end one weekday before the next month starts. */
  lemma MonthShiftStep(y: int, m: int)
    requires 1 <= m < 12 && m != 2
    ensures (MonthShift(m + 1) - MonthShift(m) - DaysInMonth(y, m)) % 7 == 0
  {
  }

  /** `WeekCount` advances by one day, modulo 7, from each day to the next. */
  lemma WeekCountNext(d: Ymd)
    requires Valid(d)
    ensures (WeekCount(Next(d)) - WeekCount(d) - 1) % 7 == 0
  {
    if d.day < DaysInMonth(d.year, d.month) {
    } else if d.month == 2 {
      MarchFirst(d.year);
    } else if d.month < 12 {
      MonthShiftStep(d.year, d.month);
    }
  }

  /** Each calendar day is the weekday after the one before it. */
  lemma NextWeekday(d: Ymd)
    requires Valid(d)
    ensures Weekday(Next(d)) == (Weekday(d) + 1) % 7
  {
    WeekCountNext(d);
    ModSucc(WeekCount(d), WeekCount(Next(d)));
  }

  lemma ModSucc(x: int, z: int)
    requires (z - x - 1) % 7 == 0
    ensures z % 7 == (x % 7 + 1) % 7
  {
  }

  /** 1 January 2001 was a Monday. */
  lemma WeekdayAnchor()
    ensures Weekday(Ymd(2001, 1, 1)) == 1
  {
  }

  // ---------------------------------------------------------------------------
  // Fixed-width decimal text
  // ---------------------------------------------------------------------------

  function Pow10(w: nat): (r: nat)
    ensures r >= 1
  {
    if w == 0 then 1 else 10 * Pow10(w - 1)
  }

  predicate IsDigit(c: char) {
    '0' <= c <= '9'
  }

  predicate AllDigits(s: string) {
    forall i :: 0 <= i < |s| ==> IsDigit(s[i])
  }

  function DigitChar(n: nat): (c: char)
    requires n < 10
    ensures IsDigit(c)
  {
    ('0' as int + n) as char
  }

  /** `n` written with exactly `w` decimal digits, zero-padded (`%0wd`). */
  function Digits(n: nat, w: nat): (s: string)
    requires n < Pow10(w)
    ensures |s| == w && AllDigits(s)
  {
    if w == 0 then "" else Digits(n / 10, w - 1) + [DigitChar(n % 10)]
  }

  /** `str(n)`: decimal digits without padding. */
  function NatStr(n: nat): (s: string)
    ensures s != [] && AllDigits(s)
  {
    if n < 10 then [DigitChar(n)]
    else NatStr(n / 10) + [DigitChar(n % 10)]
  }

  /** `int(str(n)) == n`, so distinct numbers have distinct texts. */
  lemma {:induction false} NatStrValue(n: nat)
    ensures DigitsValue(NatStr(n)) == n
  {
    if n >= 10 {
      NatStrValue(n / 10);
      var s := NatStr(n);
      assert s[..|s| - 1] == NatStr(n / 10);
    }
  }

  /** The number a string of decimal digits denotes. */
  function DigitsValue(s: string): (n: nat)
    requires AllDigits(s)
    ensures n < Pow10(|s|)
  {
    if s == [] then 0
    else DigitsValue(s[..|s| - 1]) * 10 + (s[|s| - 1] as int - '0' as int)
  }

  lemma {:induction false} DigitsRoundTrip(n: nat, w: nat)
    requires n < Pow10(w)
    ensures DigitsValue(Digits(n, w)) == n
  {
    if w > 0 {
      DigitsRoundTrip(n / 10, w - 1);
      var s := Digits(n, w);
      assert s[..|s| - 1] == Digits(n / 10, w - 1);
    }
  }

  lemma DivMod10(q: nat, c: nat)
    requires c < 10
    ensures (q * 10 + c) / 10 == q && (q * 10 + c) % 10 == c
  {
  }

  lemma {:induction false} ValueRoundTrip(s: string)
    requires AllDigits(s)
    ensures Digits(DigitsValue(s), |s|) == s
  {
    if s != [] {
      var p := s[..|s| - 1];
      ValueRoundTrip(p);
      var c := s[|s| - 1] as int - '0' as int;
      DivMod10(DigitsValue(p), c);
      assert s == p + [s[|s| - 1]];
    }
  }

  /** Zero-padded fixed-width numbers compare as strings exactly as they compare as numbers. */
  lemma {:induction false} DigitsOrder(n: nat, m: nat, w: nat)
    requires n < m < Pow10(w)
    ensures StrLt(Digits(n, w), Digits(m, w))
  {
    var pn, pm := Digits(n / 10, w - 1), Digits(m / 10, w - 1);
    var cn, cm := [DigitChar(n % 10)], [DigitChar(m % 10)];
    if n / 10 < m / 10 {
      DigitsOrder(n / 10, m / 10, w - 1);
      StrLtAppend(pn, pm, cn, cm);
    } else {
      assert pn == pm;
      StrLePrefix(pn, cn, cm);
      assert cn != cm;
      assert Digits(n, w)[w - 1] != Digits(m, w)[w - 1];
    }
  }

  // ---------------------------------------------------------------------------
  // YYYYMMDD
  // ---------------------------------------------------------------------------

  /** `strftime('%Y%m%d')`. */
  function Format(d: Ymd): (s: string)
    requires InRange(d)
    ensures |s| == 8 && AllDigits(s)
  {
    Digits(d.year, 4) + (Digits(d.month, 2) + Digits(d.day, 2))
  }

  /** `strftime('%Y%m')`. */
  function FormatMonth(d: Ymd): (s: string)
    requires InRange(d)
    ensures |s| == 6 && AllDigits(s) && s == Format(d)[..6]
  {
    var f := Format(d);
    assert f[..6] == Digits(d.year, 4) + Digits(d.month, 2);
    Digits(d.year, 4) + Digits(d.month, 2)
  }

  /**
   * `strptime(s, '%Y%m%d')` on the 8-digit form: None when it is not a real
   * date, and also for the 6- and 7-character unpadded forms `strptime` accepts.
   */
  function Parse(s: string): (r: Option<Ymd>)
    ensures r.Some? ==> InRange(r.value)
  {
    if |s| == 8 && AllDigits(s) then
      var d := Ymd(DigitsValue(s[..4]), DigitsValue(s[4..6]), DigitsValue(s[6..]));
      if InRange(d) then Some(d) else None
    else None
  }

  lemma ParseFormat(d: Ymd)
    requires InRange(d)
    ensures Parse(Format(d)) == Some(d)
  {
    var s := Format(d);
    assert s[..4] == Digits(d.year, 4);
    assert s[4..6] == Digits(d.month, 2);
    assert s[6..] == Digits(d.day, 2);
    DigitsRoundTrip(d.year, 4);
    DigitsRoundTrip(d.month, 2);
    DigitsRoundTrip(d.day, 2);
  }

  lemma FormatParse(s: string)
    requires Parse(s).Some?
    ensures Format(Parse(s).value) == s
  {
    var a, b, c := s[..4], s[4..6], s[6..];
    ValueRoundTrip(a);
    ValueRoundTrip(b);
    ValueRoundTrip(c);
    var d := Parse(s).value;
    assert d == Ymd(DigitsValue(a), DigitsValue(b), DigitsValue(c));
    assert s == a + (b + c);
  }

  /** Plain string comparison of formatted dates is calendar order. */
  lemma FormatOrder(a: Ymd, b: Ymd)
    requires InRange(a) && InRange(b)
    ensures Before(a, b) <==> StrLt(Format(a), Format(b))
  {
    if Before(a, b) {
      FormatOrderForward(a, b);
    } else if a == b {
    } else {
      assert Before(b, a);
      FormatOrderForward(b, a);
      if StrLt(Format(a), Format(b)) {
        StrLeAntisym(Format(a), Format(b));
      }
    }
  }

  lemma FormatOrderForward(a: Ymd, b: Ymd)
    requires InRange(a) && InRange(b) && Before(a, b)
    ensures StrLt(Format(a), Format(b))
  {
    var ya, yb := Digits(a.year, 4), Digits(b.year, 4);
    var ma, mb := Digits(a.month, 2), Digits(b.month, 2);
    var da, db := Digits(a.day, 2), Digits(b.day, 2);
    if a.year < b.year {
      DigitsOrder(a.year, b.year, 4);
      StrLtAppend(ya, yb, ma + da, mb + db);
    } else {
      StrLePrefix(ya, ma + da, mb + db);
      if a.month < b.month {
        DigitsOrder(a.month, b.month, 2);
        StrLtAppend(ma, mb, da, db);
      } else {
        StrLePrefix(ma, da, db);
        DigitsOrder(a.day, b.day, 2);
        assert da != db;
        assert (ma + da)[2..] == da && (mb + db)[2..] == db;
      }
      assert (ya + (ma + da))[4..] == ma + da;
      assert (yb + (mb + db))[4..] == mb + db;
    }
  }

  /** `datetime.strptime(s, '%Y%m%d')` then `strftime`: 8-digit date strings are canonical. */
  predicate IsDateString(s: string) {
    Parse(s).Some?
  }
}
