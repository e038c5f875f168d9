/** Dates: the Gregorian calendar, the date check of lib/validation.c, and why comparing date texts
    byte by byte compares days. */
module Calendar {
  import opened Decimal
  import opened JsonText
  import opened JsonEscape

  // ---------- the calendar ----------

  datatype Date = Date(year: nat, month: nat, day: nat)

  predicate Leap(year: nat) {
    year % 4 == 0 && (year % 100 != 0 || year % 400 == 0)
  }

  function DaysIn(year: nat, month: nat): nat {
    if month == 2 then (if Leap(year) then 29 else 28)
    else if month == 4 || month == 6 || month == 9 || month == 11 then 30
    else 31
  }

  predicate IsDate(d: Date) {
    1 <= d.month <= 12 && 1 <= d.day <= DaysIn(d.year, d.month)
  }

  /** The day after. */
  function NextDay(d: Date): (r: Date)
    requires IsDate(d)
    ensures IsDate(r)
  {
    if d.day < DaysIn(d.year, d.month) then Date(d.year, d.month, d.day + 1)
    else if d.month < 12 then Date(d.year, d.month + 1, 1)
    else Date(d.year + 1, 1, 1)
  }

  /** Days of the year before a month, from the rhythm of 153 days in five months that starts in March; the
      lengths of single months are not used. */
  function DaysBeforeMonth(year: nat, month: nat): nat {
    if month <= 1 then 0
    else if month == 2 then 31
    else (if Leap(year) then 60 else 59) + (153 * (month - 3) + 2) / 5
  }

  /** The Gregorian day count: years of 365 days, a leap day every fourth year, none in three out of four
      centuries. */
  function DaysBeforeYear(year: nat): int {
    var y := year - 1;
    365 * y + y / 4 - y / 100 + y / 400
  }

  function DayNumber(d: Date): int {
    DaysBeforeYear(d.year) + DaysBeforeMonth(d.year, d.month) + d.day
  }

  /** The lengths of the months are the steps of that rhythm. */
  lemma MonthStep(year: nat, month: nat)
    requires 1 <= month <= 12
    ensures DaysBeforeMonth(year, month + 1) == DaysBeforeMonth(year, month) + DaysIn(year, month)
  {
  }

  lemma YearLength(year: nat)
    ensures DaysBeforeMonth(year, 12) + DaysIn(year, 12) == if Leap(year) then 366 else 365
  {
    MonthStep(year, 12);
  }

  lemma Floors(y: int)
    ensures (y + 1) / 4 == y / 4 + if (y + 1) % 4 == 0 then 1 else 0
    ensures (y + 1) / 100 == y / 100 + if (y + 1) % 100 == 0 then 1 else 0
    ensures (y + 1) / 400 == y / 400 + if (y + 1) % 400 == 0 then 1 else 0
  {
  }

  lemma YearsCount(year: nat)
    ensures DaysBeforeYear(year + 1) == DaysBeforeYear(year) + if Leap(year) then 366 else 365
  {
    Floors(year - 1);
    Centuries(year);
  }

  lemma Centuries(year: nat)
    ensures (year % 100 == 0 ==> year % 4 == 0) && (year % 400 == 0 ==> year % 100 == 0)
  {
    if year % 100 == 0 {
      assert year == 4 * (25 * (year / 100));
    }
    if year % 400 == 0 {
      assert year == 100 * (4 * (year / 400));
    }
  }

  /** The month lengths and the leap rule fit the day count: the next day has the next number. */
  lemma NextDayCounts(d: Date)
    requires IsDate(d)
    ensures DayNumber(NextDay(d)) == DayNumber(d) + 1
  {
    YearsCount(d.year);
    YearLength(d.year);
    MonthStep(d.year, d.month);
  }

  predicate Earlier(d: Date, e: Date) {
    d.year < e.year || (d.year == e.year && (d.month < e.month || (d.month == e.month && d.day < e.day)))
  }

  lemma {:induction false} MonthsGrow(year: nat, m: nat, n: nat)
    requires 1 <= m < n <= 12
    ensures DaysBeforeMonth(year, m) + DaysIn(year, m) <= DaysBeforeMonth(year, n)
    decreases n
  {
    hide DaysBeforeMonth;
    MonthStep(year, n - 1);
    if m < n - 1 {
      MonthsGrow(year, m, n - 1);
    }
  }

  lemma {:induction false} YearsGrow(y: nat, z: nat)
    requires y < z
    ensures DaysBeforeYear(y) + (if Leap(y) then 366 else 365) <= DaysBeforeYear(z)
    decreases z
  {
    YearsCount(z - 1);
    if y < z - 1 {
      YearsGrow(y, z - 1);
    }
  }

  lemma EarlierCounts(d: Date, e: Date)
    requires IsDate(d) && IsDate(e) && Earlier(d, e)
    ensures DayNumber(d) < DayNumber(e)
  {
    hide DaysBeforeYear, DaysIn, DaysBeforeMonth;
    if d.year < e.year {
      YearLength(d.year);
      YearsGrow(d.year, e.year);
      if d.month < 12 {
        MonthsGrow(d.year, d.month, 12);
      }
    } else if d.month < e.month {
      MonthsGrow(d.year, d.month, e.month);
    }
  }

  /** Comparing year, then month, then day is comparing days. */
  lemma EarlierIffFewerDays(d: Date, e: Date)
    requires IsDate(d) && IsDate(e)
    ensures Earlier(d, e) <==> DayNumber(d) < DayNumber(e)
  {
    hide DayNumber, IsDate;
    if Earlier(d, e) {
      EarlierCounts(d, e);
    } else if d != e {
      EarlierCounts(e, d);
    }
  }

  // ---------- date texts ----------

  function Format(d: Date): (t: string)
    requires d.year < 10000 && d.month < 100 && d.day < 100
    ensures |t| == 10
  {
    Pad4(d.year) + "-" + Pad2(d.month) + "-" + Pad2(d.day)
  }

  predicate Dash(i: int) {
    i == 4 || i == 7
  }

  predicate FitsAt(t: string, i: int)
    requires 0 <= i < |t|
  {
    if Dash(i) then t[i] == '-' else IsDigit(t[i])
  }

  predicate Shaped(t: string) {
    |t| == 10 && forall i :: 0 <= i < 10 ==> FitsAt(t, i)
  }

  function Two(a: char, b: char): (v: nat)
    requires IsDigit(a) && IsDigit(b)
    ensures v < 100
  {
    DigitValue(a) * 10 + DigitValue(b)
  }

  function ReadDate(t: string): (d: Date)
    requires Shaped(t)
    ensures d.year < 10000 && d.month < 100 && d.day < 100
  {
    assert FitsAt(t, 0) && FitsAt(t, 1) && FitsAt(t, 2) && FitsAt(t, 3) && FitsAt(t, 5) && FitsAt(t, 6) && FitsAt(t, 8) && FitsAt(t, 9);
    Date(Two(t[0], t[1]) * 100 + Two(t[2], t[3]), Two(t[5], t[6]), Two(t[8], t[9]))
  }

  lemma DigitText(c: char)
    requires IsDigit(c)
    ensures DIGITS[DigitValue(c)] == c
  {
  }

  lemma DigitOf(n: nat)
    requires n < 10
    ensures IsDigit(DIGITS[n]) && DigitValue(DIGITS[n]) == n
  {
  }

  lemma TwoText(a: char, b: char)
    requires IsDigit(a) && IsDigit(b)
    ensures Pad2(Two(a, b)) == [a, b]
  {
    assert Two(a, b) / 10 == DigitValue(a) && Two(a, b) % 10 == DigitValue(b);
    DigitText(a);
    DigitText(b);
  }

  lemma TwoOf(n: nat)
    requires n < 100
    ensures IsDigit(Pad2(n)[0]) && IsDigit(Pad2(n)[1]) && Two(Pad2(n)[0], Pad2(n)[1]) == n
  {
    DigitOf(n / 10);
    DigitOf(n % 10);
  }

  /** Reading and formatting are inverse on texts of the right shape. */
  lemma FormatRead(t: string)
    requires Shaped(t)
    ensures Format(ReadDate(t)) == t
  {
    hide Pad2, Two;
    var d := ReadDate(t);
    assert FitsAt(t, 0) && FitsAt(t, 1) && FitsAt(t, 2) && FitsAt(t, 3) && FitsAt(t, 4);
    assert FitsAt(t, 5) && FitsAt(t, 6) && FitsAt(t, 7) && FitsAt(t, 8) && FitsAt(t, 9);
    TwoText(t[0], t[1]);
    TwoText(t[2], t[3]);
    TwoText(t[5], t[6]);
    TwoText(t[8], t[9]);
    assert d.year / 100 == Two(t[0], t[1]) && d.year % 100 == Two(t[2], t[3]);
    assert t == [t[0], t[1]] + [t[2], t[3]] + "-" + [t[5], t[6]] + "-" + [t[8], t[9]];
  }

  lemma FormatChars(d: Date)
    requires d.year < 10000 && d.month < 100 && d.day < 100
    ensures var t, y := Format(d), Pad4(d.year);
      && t[0] == y[0] && t[1] == y[1] && t[2] == y[2] && t[3] == y[3] && t[4] == '-' && t[7] == '-'
      && t[5] == Pad2(d.month)[0] && t[6] == Pad2(d.month)[1] && t[8] == Pad2(d.day)[0] && t[9] == Pad2(d.day)[1]
  {
    hide Pad4, Pad2;
  }

  lemma ReadFormat(d: Date)
    requires d.year < 10000 && d.month < 100 && d.day < 100
    ensures Shaped(Format(d)) && ReadDate(Format(d)) == d
  {
    hide Format, Two, Pad2;
    FormatChars(d);
    TwoOf(d.year / 100);
    TwoOf(d.year % 100);
    TwoOf(d.month);
    TwoOf(d.day);
  }

  /** What a formatted date looks like: year, month and day as plain numbers, zero-padded, with dashes. */
  lemma FormatReads(d: Date)
    requires d.year < 10000 && d.month < 100 && d.day < 100
    ensures var t := Format(d);
      && |t| == 10 && t[4] == '-' && t[7] == '-'
      && AllDigits(t[..4]) && NatOf(t[..4]) == d.year
      && AllDigits(t[5..7]) && NatOf(t[5..7]) == d.month
      && AllDigits(t[8..]) && NatOf(t[8..]) == d.day
  {
    hide NatOf, Two, Format;
    var t := Format(d);
    ReadFormat(d);
    assert FitsAt(t, 0) && FitsAt(t, 1) && FitsAt(t, 2) && FitsAt(t, 3) && FitsAt(t, 4);
    assert FitsAt(t, 5) && FitsAt(t, 6) && FitsAt(t, 7) && FitsAt(t, 8) && FitsAt(t, 9);
    FourDigits(t[..4]);
    TwoDigits(t[5..7]);
    TwoDigits(t[8..]);
  }

  lemma TwoDigits(t: string)
    requires |t| == 2 && AllDigits(t)
    ensures NatOf(t) == Two(t[0], t[1])
  {
    assert t[..1][..0] == "";
    assert NatOf(t[..1]) == DigitValue(t[0]);
  }

  /** The texts the check is meant to accept: real dates from 1900 to 2199. */
  ghost predicate IsDateText(t: string) {
    exists d :: IsDate(d) && 1900 <= d.year <= 2199 && t == Format(d)
  }

  lemma DateTextIff(t: string)
    ensures IsDateText(t) <==> Shaped(t) && IsDate(ReadDate(t)) && 1900 <= ReadDate(t).year <= 2199
  {
    hide Shaped, ReadDate, Format;
    if IsDateText(t) {
      var d :| IsDate(d) && 1900 <= d.year <= 2199 && t == Format(d);
      ReadFormat(d);
    }
    if Shaped(t) && IsDate(ReadDate(t)) && 1900 <= ReadDate(t).year <= 2199 {
      FormatRead(t);
    }
  }

  // ---------- the check ----------

  /** A byte of a NUL-terminated string; nothing behind the NUL may be read. */
  function At(s: string, i: nat): char
    requires i <= |s|
  {
    if i < |s| then s[i] else NUL
  }

  const MONTH_DAYS: seq<nat> := [0, 31, 28, 31, 30, 31, 30, 31, 31, 30, 31, 30, 31]

  /** `validate_date_string_fast`: accepts exactly the real dates from 1900 to 2199, never reads behind
      the terminator, and sees only what precedes an embedded NUL. */
  method ValidateDate(s: string) returns (ok: bool)
    ensures ok <==> IsDateText(CStr(s))
    ensures ok <==> exists d :: IsDate(d) && 1900 <= d.year <= 2199 && CStr(s) == Format(d)
  {
    hide CStr, ReadDate, Shaped;
    DateTextIff(CStr(s));
    ok := HasLengthTen(s);
    if !ok {
      NotShaped(CStr(s));
      return;
    }
    ok := HasDateShape(s);
    if ok {
      ok := NamesRealDay(CStr(s));
    }
  }

  lemma NotShaped(t: string)
    requires |t| != 10
    ensures !Shaped(t)
  {
  }

  method HasLengthTen(s: string) returns (ok: bool)
    ensures ok <==> |CStr(s)| == 10
  {
    hide CStr;
    for i := 0 to 10
      invariant i <= |CStr(s)|
    {
      if At(s, i) == NUL {
        return false;
      }
    }
    ok := At(s, 10) == NUL;
  }

  method HasDateShape(s: string) returns (ok: bool)
    requires |CStr(s)| == 10
    ensures ok <==> Shaped(CStr(s))
  {
    hide CStr;
    for i := 0 to 10
      invariant forall j :: 0 <= j < i ==> FitsAt(CStr(s), j)
    {
      assert s[i] == CStr(s)[i];
      if Dash(i) {
        if s[i] != '-' {
          assert !FitsAt(CStr(s), i);
          return false;
        }
      } else if s[i] < '0' || s[i] > '9' {
        assert !FitsAt(CStr(s), i);
        return false;
      }
    }
    ok := true;
  }

  method NamesRealDay(t: string) returns (ok: bool)
    requires Shaped(t)
    ensures ok <==> IsDate(ReadDate(t)) && 1900 <= ReadDate(t).year <= 2199
  {
    var d := ReadDate(t);
    var year, month, day := d.year, d.month, d.day;
    if month < 1 || month > 12 || day < 1 || year < 1900 || year > 2199 {
      return false;
    }
    var maxDays := MONTH_DAYS[month];
    if month == 2 {
      if year % 4 == 0 && (year % 100 != 0 || year % 400 == 0) {
        maxDays := 29;
      }
    }
    ok := day <= maxDays;
  }

  // ---------- comparing texts ----------

  /** `strcmp(s, t) < 0`. */
  predicate StrLess(s: string, t: string) {
    t != "" && (s == "" || s[0] < t[0] || (s[0] == t[0] && StrLess(s[1..], t[1..])))
  }

  /** The first difference decides. */
  lemma {:induction false} StrLessAppend(p: string, q: string, s: string, t: string)
    requires |p| == |q|
    ensures StrLess(p + s, q + t) <==> StrLess(p, q) || (p == q && StrLess(s, t))
    decreases |p|
  {
    if p == "" {
      assert p + s == s && q + t == t;
    } else {
      assert (p + s)[0] == p[0] && (q + t)[0] == q[0];
      assert (p + s)[1..] == p[1..] + s && (q + t)[1..] == q[1..] + t;
      StrLessAppend(p[1..], q[1..], s, t);
      assert p == q <==> p[0] == q[0] && p[1..] == q[1..];
    }
  }

  lemma DigitOrder(m: nat, n: nat)
    requires m < 10 && n < 10
    ensures DIGITS[m] < DIGITS[n] <==> m < n
    ensures DIGITS[m] == DIGITS[n] <==> m == n
  {
    DigitOf(m);
    DigitOf(n);
  }

  lemma PairOrder(m: nat, n: nat)
    requires m < 100 && n < 100
    ensures StrLess(Pad2(m), Pad2(n)) <==> m < n
    ensures Pad2(m) == Pad2(n) <==> m == n
  {
    DigitOrder(m / 10, n / 10);
    DigitOrder(m % 10, n % 10);
    var s, t := Pad2(m), Pad2(n);
    assert s[1..] == [s[1]] && t[1..] == [t[1]];
    assert StrLess(s[1..], t[1..]) <==> s[1] < t[1];
    if s == t {
      assert s[0] == t[0] && s[1] == t[1];
    }
  }

  lemma QuadOrder(m: nat, n: nat)
    requires m < 10000 && n < 10000
    ensures StrLess(Pad4(m), Pad4(n)) <==> m < n
    ensures Pad4(m) == Pad4(n) <==> m == n
  {
    hide Pad2, StrLess;
    PairOrder(m / 100, n / 100);
    PairOrder(m % 100, n % 100);
    StrLessAppend(Pad2(m / 100), Pad2(n / 100), Pad2(m % 100), Pad2(n % 100));
    if Pad4(m) == Pad4(n) {
      assert Pad4(m)[..2] == Pad2(m / 100) && Pad4(n)[..2] == Pad2(n / 100);
      assert Pad4(m)[2..] == Pad2(m % 100) && Pad4(n)[2..] == Pad2(n % 100);
    }
  }

  lemma DashOrder(s: string, t: string)
    ensures StrLess("-" + s, "-" + t) <==> StrLess(s, t)
  {
    assert ("-" + s)[1..] == s && ("-" + t)[1..] == t;
  }

  lemma FormatSplits(d: Date)
    requires d.year < 10000 && d.month < 100 && d.day < 100
    ensures Format(d) == Pad4(d.year) + ("-" + (Pad2(d.month) + ("-" + Pad2(d.day))))
  {
    hide Pad2, Pad4;
  }

  /** Byte order on formatted dates is year, month, day order. */
  lemma FormatOrder(d: Date, e: Date)
    requires d.year < 10000 && d.month < 100 && d.day < 100 && e.year < 10000 && e.month < 100 && e.day < 100
    ensures StrLess(Format(d), Format(e)) <==> Earlier(d, e)
  {
    hide Pad2, Pad4, Format, StrLess;
    FormatSplits(d);
    FormatSplits(e);
    QuadOrder(d.year, e.year);
    PairOrder(d.month, e.month);
    PairOrder(d.day, e.day);
    StrLessAppend(Pad4(d.year), Pad4(e.year), "-" + (Pad2(d.month) + ("-" + Pad2(d.day))), "-" + (Pad2(e.month) + ("-" + Pad2(e.day))));
    DashOrder(Pad2(d.month) + ("-" + Pad2(d.day)), Pad2(e.month) + ("-" + Pad2(e.day)));
    StrLessAppend(Pad2(d.month), Pad2(e.month), "-" + Pad2(d.day), "-" + Pad2(e.day));
    DashOrder(Pad2(d.day), Pad2(e.day));
  }

  /** On real dates, byte order is day order. */
  lemma ByteOrderIsDayOrder(d: Date, e: Date)
    requires IsDate(d) && IsDate(e) && d.year < 10000 && e.year < 10000
    ensures StrLess(Format(d), Format(e)) <==> DayNumber(d) < DayNumber(e)
  {
    hide Format, StrLess, Earlier, DayNumber;
    FormatOrder(d, e);
    EarlierIffFewerDays(d, e);
  }

  // ---------- the year, as strtol reads it ----------

  /** `strtol(s, nullptr, 10)`: white space, a sign, digits; saturation at the ends of `long` is left out. */
  function StrToLong(s: string): int {
    var t := SkipBlanks(s);
    if t != "" && t[0] == '-' then -(LeadingNumber(t[1..]) as int)
    else if t != "" && t[0] == '+' then LeadingNumber(t[1..])
    else LeadingNumber(t)
  }

  function SkipBlanks(s: string): string {
    if s != "" && (s[0] == ' ' || 9 <= s[0] as int <= 13) then SkipBlanks(s[1..]) else s
  }

  function LeadingNumber(s: string): nat {
    NatOf(s[..Span(c => IsDigit(c), s)])
  }

  lemma FourDigits(t: string)
    requires |t| == 4 && AllDigits(t)
    ensures NatOf(t) == Two(t[0], t[1]) * 100 + Two(t[2], t[3])
  {
    var a, b, c := t[..3], t[..2], t[..1];
    assert a[..2] == b && b[..1] == c && c[..0] == "";
    assert NatOf(c) == DigitValue(t[0]);
    assert NatOf(b) == NatOf(c) * 10 + DigitValue(t[1]);
    assert NatOf(a) == NatOf(b) * 10 + DigitValue(t[2]);
  }

  /** On a date text it reads the year. */
  lemma YearOfText(t: string)
    requires Shaped(t)
    ensures StrToLong(t) == ReadDate(t).year
  {
    hide Two, NatOf;
    assert FitsAt(t, 0) && FitsAt(t, 1) && FitsAt(t, 2) && FitsAt(t, 3) && FitsAt(t, 4);
    SpanIsUnique(c => IsDigit(c), t, 4);
    FourDigits(t[..4]);
  }
}
