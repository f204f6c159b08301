/** Days since the Unix epoch and the proleptic Gregorian calendar, as section
    5.7 and Appendix C of RFC 3339 have it. */
module Calendar {

  datatype Date = Date(year: int, month: int, day: int)

  // ---- the calendar ------------------------------------------------------------------

  predicate Leap(y: int) {
    y % 4 == 0 && (y % 100 != 0 || y % 400 == 0)
  }

  function DaysIn(y: int, m: int): int {
    if m == 2 then if Leap(y) then 29 else 28
    else if m == 4 || m == 6 || m == 9 || m == 11 then 30
    else 31
  }

  predicate OnCalendar(date: Date) {
    1 <= date.month <= 12 && 1 <= date.day <= DaysIn(date.year, date.month)
  }

  /** The day after. */
  function Next(date: Date): Date {
    if date.day < DaysIn(date.year, date.month) then date.(day := date.day + 1)
    else if date.month < 12 then Date(date.year, date.month + 1, 1)
    else Date(date.year + 1, 1, 1)
  }

  /** The days of a year before its month `m`. */
  function DaysBefore(y: int, m: int): int
    decreases m
  {
    if m <= 1 then 0 else DaysBefore(y, m - 1) + DaysIn(y, m - 1)
  }

  /** Days from 1970-01-01 to the first of January of `y`. */
  function YearStart(y: int): int {
    365 * (y - 1970) + ((y - 1) / 4 - 492) - ((y - 1) / 100 - 19) + ((y - 1) / 400 - 4)
  }

  /** Days from 1970-01-01 to `date`, counted year by year and month by month. */
  function DayNumber(date: Date): int {
    YearStart(date.year) + DaysBefore(date.year, date.month) + date.day - 1
  }

  // ---- the code ---------------------------------------------------------------------------

  /** Division as the machine does it: towards zero. */
  function TruncDiv(a: int, b: int): int
    requires b > 0
  {
    if a >= 0 then a / b else -(-a / b)
  }

  function EraOf(z: int): int {
    TruncDiv(if z >= 0 then z else z - 146096, 146097)
  }

  function YearOfEra(doe: int): int {
    (doe - doe / 1460 + doe / 36524 - doe / 146096) / 365
  }

  function DayOfYear(doe: int): int {
    var yoe := YearOfEra(doe);
    doe - (365 * yoe + yoe / 4 - yoe / 100)
  }

  /** Month and day from the day of a year that begins in March. */
  function MonthAndDay(doy: int): (int, int) {
    var mp := (5 * doy + 2) / 153;
    (if mp < 10 then mp + 3 else mp - 9, doy - (153 * mp + 2) / 5 + 1)
  }

  function CivilFromDays(day: int): Date {
    var z := day + 719468;
    var era := EraOf(z);
    var doe := z - era * 146097;
    var (m, d) := MonthAndDay(DayOfYear(doe));
    Date(YearOfEra(doe) + era * 400 + (if m <= 2 then 1 else 0), m, d)
  }

  // ---- an era of 400 years --------------------------------------------------------------------

  /** Truncating division, corrected for negative days, is the floor. */
  lemma EraBounds(z: int)
    ensures 0 <= z - EraOf(z) * 146097 < 146097
  {
  }

  /** A day of the era is a century, a four-year group, a year of the group and
      a day of that year; the last of each may hold one more day than the rest. */
  ghost predicate Split(doe: int, c: int, q: int, u: int, doy: int) {
    && doe == 36524 * c + 1461 * q + 365 * u + doy
    && 0 <= c <= 3 && 0 <= q <= 24 && 0 <= u <= 3 && 0 <= doy <= 365
    && (doy == 365 ==> u == 3 && (q == 24 ==> c == 3))
  }

  lemma SplitExists(doe: int) returns (c: int, q: int, u: int, doy: int)
    requires 0 <= doe < 146097
    ensures Split(doe, c, q, u, doy)
  {
    c := if doe == 146096 then 3 else doe / 36524;
    var r := doe - 36524 * c;
    q := r / 1461;
    var t := r - 1461 * q;
    u := if t == 1460 then 3 else t / 365;
    doy := t - 365 * u;
  }

  /** The three quotients correct the day of the era to 365 days a year. */
  lemma Corrected(doe: int, c: int, q: int, u: int, doy: int) returns (e: int)
    requires Split(doe, c, q, u, doy)
    ensures doe / 1460 == 25 * c + q + e && doe / 36524 - doe / 146096 == c
    ensures 0 <= e <= 1 && (e == 1 ==> 365 * u + doy >= 1364) && (365 * u + doy == 1460 ==> e == 1)
  {
    var w := 24 * c + q + 365 * u + doy;
    e := if w >= 1460 then 1 else 0;
    assert doe == 1460 * (25 * c + q + e) + (w - 1460 * e);
    assert doe == 146096 ==> c == 3;
  }

  lemma YearOfEraIs(doe: int, c: int, q: int, u: int, doy: int)
    requires Split(doe, c, q, u, doy)
    ensures YearOfEra(doe) == 100 * c + 4 * q + u
    ensures DayOfYear(doe) == doy
  {
    var e := Corrected(doe, c, q, u, doy);
    var yoe := 100 * c + 4 * q + u;
    assert doe - doe / 1460 + doe / 36524 - doe / 146096 == 365 * yoe + (doy - e);
    assert 0 <= doy - e < 365;
    assert YearOfEra(doe) == yoe;
    assert yoe == 4 * (25 * c + q) + u && yoe == 100 * c + (4 * q + u);
  }

  /** Days before a month, written out. */
  lemma MonthStarts(y: int)
    ensures DaysBefore(y, 1) == 0 && DaysBefore(y, 2) == 31
    ensures var f := if Leap(y) then 60 else 59;
      && DaysBefore(y, 3) == f && DaysBefore(y, 4) == f + 31 && DaysBefore(y, 5) == f + 61
      && DaysBefore(y, 6) == f + 92 && DaysBefore(y, 7) == f + 122 && DaysBefore(y, 8) == f + 153
      && DaysBefore(y, 9) == f + 184 && DaysBefore(y, 10) == f + 214 && DaysBefore(y, 11) == f + 245
      && DaysBefore(y, 12) == f + 275
  {
    hide Leap;
    assert DaysBefore(y, 3) == 31 + DaysIn(y, 2);
    assert DaysBefore(y, 6) == DaysBefore(y, 3) + 92;
    assert DaysBefore(y, 9) == DaysBefore(y, 6) + 92;
    assert DaysBefore(y, 12) == DaysBefore(y, 9) + 91;
  }

  /** Where the year that begins in March of `y` starts. */
  function MarchStart(y: int): int {
    365 * y + y / 4 - y / 100 + y / 400 - 719468
  }

  lemma MarchStartIs(y: int)
    ensures YearStart(y) + (if Leap(y) then 60 else 59) == MarchStart(y)
    ensures YearStart(y + 1) == MarchStart(y) + 306
  {
    FloorSteps(y);
    LeapDivides(y);
  }

  lemma FloorSteps(y: int)
    ensures (y - 1) / 4 == y / 4 - (if y % 4 == 0 then 1 else 0)
    ensures (y - 1) / 100 == y / 100 - (if y % 100 == 0 then 1 else 0)
    ensures (y - 1) / 400 == y / 400 - (if y % 400 == 0 then 1 else 0)
  {
  }

  lemma LeapDivides(y: int)
    ensures y % 400 == 0 ==> y % 100 == 0 && y % 4 == 0
    ensures y % 100 == 0 ==> y % 4 == 0
  {
  }

  /** The month arithmetic walks the months from March to February. */
  lemma MonthAndDayIs(y: int, doy: int)
    requires 0 <= doy <= 365
    requires doy == 365 ==> Leap(y + 1)
    ensures var (m, d) := MonthAndDay(doy);
      var date := Date(y + (if m <= 2 then 1 else 0), m, d);
      OnCalendar(date) && DayNumber(date) == MarchStart(y) + doy
  {
    hide Leap, YearStart, MarchStart;
    MonthStarts(y);
    MonthStarts(y + 1);
    MarchStartIs(y);
  }

  /** Day numbers name dates: every day has a date of the calendar, the one
      that many days from the first of January 1970. */
  lemma CivilIsOnCalendar(z: int)
    ensures OnCalendar(CivilFromDays(z))
    ensures DayNumber(CivilFromDays(z)) == z
  {
    hide EraOf, YearOfEra, DayOfYear, MonthAndDay, DayNumber, OnCalendar, Leap, MarchStart;
    var era := EraOf(z + 719468);
    EraBounds(z + 719468);
    var doe := z + 719468 - era * 146097;
    var c, q, u, doy := SplitExists(doe);
    YearOfEraIs(doe, c, q, u, doy);
    var y := YearOfEra(doe) + era * 400;
    if doy == 365 {
      LongYearIsLeap(era, c, q);
    }
    MonthAndDayIs(y, doy);
    EraStart(era, c, q, u);
  }

  lemma LongYearIsLeap(era: int, c: int, q: int)
    requires 0 <= c <= 3 && 0 <= q <= 24 && (q == 24 ==> c == 3)
    ensures Leap(400 * era + 100 * c + 4 * q + 3 + 1)
  {
    var y := 400 * era + 100 * c + 4 * q + 3 + 1;
    assert y == 4 * (100 * era + 25 * c + q + 1);
    if q == 24 {
      assert y == 400 * (era + 1);
    } else {
      assert y == 100 * (4 * era + c) + (4 * q + 4);
    }
  }

  lemma EraStart(era: int, c: int, q: int, u: int)
    requires 0 <= c <= 3 && 0 <= q <= 24 && 0 <= u <= 3
    ensures MarchStart(100 * c + 4 * q + u + era * 400)
         == era * 146097 + 36524 * c + 1461 * q + 365 * u - 719468
  {
    var y := 100 * c + 4 * q + u + era * 400;
    assert y / 4 == 25 * c + q + 100 * era;
    assert y / 100 == c + 4 * era;
    assert y / 400 == era;
  }

  /** The calendar's next day has the next number. */
  lemma NextIsNext(date: Date)
    requires OnCalendar(date)
    ensures OnCalendar(Next(date)) && DayNumber(Next(date)) == DayNumber(date) + 1
  {
    hide Leap, YearStart;
    MonthStarts(date.year);
    MarchStartIs(date.year);
    MarchStartIs(date.year - 1);
    YearLength(date.year);
  }

  lemma YearLength(y: int)
    ensures YearStart(y + 1) == YearStart(y) + if Leap(y) then 366 else 365
  {
    hide Leap, YearStart;
    MarchStartIs(y);
  }

  // ---- days and dates ------------------------------------------------------------------------

  lemma {:induction false} YearsGrow(a: int, b: int)
    requires a < b
    ensures YearStart(a + 1) <= YearStart(b)
    decreases b - a
  {
    if a + 1 < b {
      YearLength(b - 1);
      YearsGrow(a, b - 1);
    }
  }

  lemma DateInYear(date: Date)
    requires OnCalendar(date)
    ensures YearStart(date.year) <= DayNumber(date) < YearStart(date.year + 1)
  {
    hide Leap, YearStart;
    MonthStarts(date.year);
    YearLength(date.year);
  }

  /** No two dates have one number. */
  lemma OneNumberOneDate(a: Date, b: Date)
    requires OnCalendar(a) && OnCalendar(b) && DayNumber(a) == DayNumber(b)
    ensures a == b
  {
    hide Leap, YearStart;
    DateInYear(a);
    DateInYear(b);
    if a.year < b.year {
      YearsGrow(a.year, b.year);
    } else if b.year < a.year {
      YearsGrow(b.year, a.year);
    } else {
      MonthStarts(a.year);
    }
  }

  /** Day 0 is 1970-01-01, and each day's date is followed by the next day's,
      before the epoch and after it. */
  lemma CivilSteps(z: int)
    ensures CivilFromDays(0) == Date(1970, 1, 1)
    ensures CivilFromDays(z + 1) == Next(CivilFromDays(z))
  {
    hide CivilFromDays, OnCalendar, DayNumber;
    CivilIsOnCalendar(z);
    CivilIsOnCalendar(z + 1);
    NextIsNext(CivilFromDays(z));
    OneNumberOneDate(CivilFromDays(z + 1), Next(CivilFromDays(z)));
    CivilIsOnCalendar(0);
    EpochIsZero();
    OneNumberOneDate(CivilFromDays(0), Date(1970, 1, 1));
  }

  lemma EpochIsZero()
    ensures OnCalendar(Date(1970, 1, 1)) && DayNumber(Date(1970, 1, 1)) == 0
  {
    hide Leap, YearStart;
    YearStartEpoch();
  }

  /** Every date of the calendar is some day's, so the two countings invert each other. */
  lemma CivilOfNumber(date: Date)
    requires OnCalendar(date)
    ensures CivilFromDays(DayNumber(date)) == date
  {
    hide CivilFromDays, OnCalendar, DayNumber;
    CivilIsOnCalendar(DayNumber(date));
    OneNumberOneDate(CivilFromDays(DayNumber(date)), date);
  }

  // ---- the two forms a request needs -------------------------------------------------------------

  function Digit(d: int): char
    requires 0 <= d < 10
  {
    '0' + d as char
  }

  /** `{n:0width}` */
  function Decimal(n: nat, width: nat): string
    decreases n, width
  {
    if n < 10 && width <= 1 then [Digit(n)]
    else Decimal(n / 10, if width == 0 then 0 else width - 1) + [Digit(n % 10)]
  }

  /** Seconds since the epoch, as `20260902T101112Z` and `20260902`. */
  function AmzTime(secs: nat): (string, string) {
    var date, tod := CivilFromDays(secs / 86400), secs % 86400;
    CivilIsOnCalendar(secs / 86400);
    AfterEpoch(secs / 86400);
    var day := Decimal(date.year, 4) + Decimal(date.month, 2) + Decimal(date.day, 2);
    (day + "T" + Decimal(tod / 3600, 2) + Decimal(tod / 60 % 60, 2) + Decimal(tod % 60, 2) + "Z", day)
  }

  lemma AfterEpoch(z: nat)
    ensures CivilFromDays(z).year >= 1970
  {
    hide CivilFromDays, YearStart;
    CivilIsOnCalendar(z);
    var date := CivilFromDays(z);
    DateInYear(date);
    if date.year < 1970 {
      YearsGrow(date.year, 1970);
      YearStartEpoch();
    }
  }

  lemma YearStartEpoch()
    ensures YearStart(1970) == 0
  {
  }

  /** What a run of digits says. */
  function Number(s: string): int {
    if s == "" then 0 else Number(s[..|s| - 1]) * 10 + (s[|s| - 1] as int - '0' as int)
  }

  predicate Fits(n: nat, width: nat) {
    n < Power10(width)
  }

  function Power10(k: nat): nat {
    if k == 0 then 1 else 10 * Power10(k - 1)
  }

  lemma {:induction false} DecimalReadsBack(n: nat, width: nat)
    requires width > 0
    ensures Number(Decimal(n, width)) == n
    ensures |Decimal(n, width)| >= width
    ensures |Decimal(n, width)| == width <==> Fits(n, width)
    decreases n, width
  {
    if n < 10 && width <= 1 {
      assert Number([Digit(n)]) == Number([]) * 10 + n;
    } else {
      var front := Decimal(n / 10, width - 1);
      assert (front + [Digit(n % 10)])[..|front|] == front;
      if width > 1 {
        DecimalReadsBack(n / 10, width - 1);
      } else {
        UnpaddedIsPadded(n / 10);
        DecimalReadsBack(n / 10, 1);
      }
    }
  }

  lemma UnpaddedIsPadded(n: nat)
    ensures Decimal(n, 0) == Decimal(n, 1)
  {
  }

  /** Reads the first form back, its fields taken from the right. */
  function ReadAmz(s: string): int
    requires |s| >= 12
  {
    var n := |s|;
    var date := Date(Number(s[..n - 12]), Number(s[n - 12..n - 10]), Number(s[n - 10..n - 8]));
    DayNumber(date) * 86400
      + Number(s[n - 7..n - 5]) * 3600 + Number(s[n - 5..n - 3]) * 60 + Number(s[n - 3..n - 1])
  }

  lemma FieldsApart(y: string, m: string, d: string, hh: string, mm: string, ss: string)
    requires |m| == 2 && |d| == 2 && |hh| == 2 && |mm| == 2 && |ss| == 2
    ensures var s := y + m + d + "T" + hh + mm + ss + "Z";
      var n := |s|;
      && n == |y| + 12
      && s[..n - 12] == y && s[n - 12..n - 10] == m && s[n - 10..n - 8] == d && s[n - 8] == 'T'
      && s[n - 7..n - 5] == hh && s[n - 5..n - 3] == mm && s[n - 3..n - 1] == ss && s[n - 1] == 'Z'
      && s[..n - 8] == y + m + d
  {
  }

  lemma TwoDigits(n: nat)
    requires n < 100
    ensures |Decimal(n, 2)| == 2 && Number(Decimal(n, 2)) == n
  {
    hide Decimal, Number;
    DecimalReadsBack(n, 2);
    assert Power10(2) == 100;
  }

  lemma TimeOfDay(secs: nat)
    ensures var tod := secs % 86400;
      && tod / 3600 < 24 && tod / 60 % 60 < 60
      && secs / 86400 * 86400 + tod / 3600 * 3600 + tod / 60 % 60 * 60 + tod % 60 == secs
  {
  }

  /** The first form says every second since the epoch exactly, and the second
      is its date. It has its fixed sixteen characters until the year 10000. */
  lemma AmzReadsBack(secs: nat)
    ensures var (full, day) := AmzTime(secs);
      && |full| >= 16 && ReadAmz(full) == secs
      && day == full[..|full| - 8]
      && (|full| == 16 <==> CivilFromDays(secs / 86400).year <= 9999)
  {
    hide CivilFromDays, Decimal, Number, OnCalendar, DayNumber, Power10;
    var date, tod := CivilFromDays(secs / 86400), secs % 86400;
    CivilIsOnCalendar(secs / 86400);
    AfterEpoch(secs / 86400);
    InTwoDigits(date);
    TimeOfDay(secs);
    TwoDigits(date.month);
    TwoDigits(date.day);
    TwoDigits(tod / 3600);
    TwoDigits(tod / 60 % 60);
    TwoDigits(tod % 60);
    DecimalReadsBack(date.year, 4);
    FourDigits(date.year);
    FieldsApart(Decimal(date.year, 4), Decimal(date.month, 2), Decimal(date.day, 2),
                Decimal(tod / 3600, 2), Decimal(tod / 60 % 60, 2), Decimal(tod % 60, 2));
  }

  lemma InTwoDigits(date: Date)
    requires OnCalendar(date)
    ensures 0 <= date.month < 100 && 0 <= date.day < 100
  {
  }

  lemma FourDigits(n: nat)
    ensures Fits(n, 4) <==> n <= 9999
  {
    assert Power10(2) == 100;
  }
}
