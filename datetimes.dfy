/**
  Python `datetime` values as the pipeline uses them: the proleptic Gregorian
  calendar, adding a whole number of hours (`datetime + timedelta(hours=h)`),
  comparison, and the fixed text format `%Y-%m-%d %H:%M:%S.%f`.
*/
module DateTimes {
  import opened Wrappers

  datatype Date = Date(year: int, month: int, day: int)

  datatype DateTime = DateTime(year: int, month: int, day: int,
                               hour: int, minute: int, second: int, micro: int)

  /** Python's `datetime.MAXYEAR`; `MINYEAR` is 1. */
  const MaxYear := 9999

  const MicrosPerHour := 3600000000

  predicate IsLeap(y: int) {
    y % 4 == 0 && (y % 100 != 0 || y % 400 == 0)
  }

  function DaysInMonth(y: int, m: int): (n: int)
    ensures 1 <= m <= 12 ==> 28 <= n <= 31
    ensures !(1 <= m <= 12) ==> n == 0
  {
    if m == 2 then (if IsLeap(y) then 29 else 28)
    else if m == 4 || m == 6 || m == 9 || m == 11 then 30
    else if 1 <= m <= 12 then 31
    else 0
  }

  function YearDays(y: int): int {
    if IsLeap(y) then 366 else 365
  }

  /** A calendar date from year 1 on; the upper year bound is checked separately. */
  predicate ValidDate(d: Date) {
    1 <= d.year && 1 <= d.month <= 12 && 1 <= d.day <= DaysInMonth(d.year, d.month)
  }

  function DateOf(dt: DateTime): Date {
    Date(dt.year, dt.month, dt.day)
  }

  /** A date-time whose fields are in range, year unbounded above. */
  predicate WellFormed(dt: DateTime) {
    && ValidDate(DateOf(dt))
    && 0 <= dt.hour < 24 && 0 <= dt.minute < 60 && 0 <= dt.second < 60
    && 0 <= dt.micro < 1000000
  }

  /** A value Python's `datetime` type can hold. */
  predicate InRange(dt: DateTime) {
    WellFormed(dt) && dt.year <= MaxYear
  }

  type PyDateTime = dt: DateTime | InRange(dt) witness DateTime(1, 1, 1, 0, 0, 0, 0)

  // ---------------------------------------------------------------------------
  // Calendar arithmetic

  /** The day after `d`, carrying into the next month and year. */
  function NextDay(d: Date): (r: Date)
    requires ValidDate(d)
    ensures ValidDate(r)
  {
    if d.day < DaysInMonth(d.year, d.month) then Date(d.year, d.month, d.day + 1)
    else if d.month < 12 then Date(d.year, d.month + 1, 1)
    else Date(d.year + 1, 1, 1)
  }

  function AddDays(d: Date, n: nat): (r: Date)
    requires ValidDate(d)
    ensures ValidDate(r)
    decreases n
  {
    if n == 0 then d else AddDays(NextDay(d), n - 1)
  }

  /** `dt + timedelta(hours=h)`, before Python's check of the year bound. */
  function AddHours(dt: DateTime, h: nat): (r: DateTime)
    requires WellFormed(dt)
    ensures WellFormed(r)
    ensures r.minute == dt.minute && r.second == dt.second && r.micro == dt.micro
  {
    var total := dt.hour + h;
    var d := AddDays(DateOf(dt), total / 24);
    DateTime(d.year, d.month, d.day, total % 24, dt.minute, dt.second, dt.micro)
  }

  /** Twenty-four hours later is the same time on the next day. */
  lemma AddOneDay(dt: DateTime)
    requires WellFormed(dt)
    ensures var d := NextDay(DateOf(dt));
      AddHours(dt, 24) == DateTime(d.year, d.month, d.day, dt.hour, dt.minute, dt.second, dt.micro)
  {
    assert AddDays(DateOf(dt), 1) == AddDays(NextDay(DateOf(dt)), 0);
  }

  // ---------------------------------------------------------------------------
  // Reference definition: proleptic Gregorian ordinal (0001-01-01 is day 1, as
  // `date.toordinal`) and the absolute count of microseconds.

  function DaysBeforeYear(y: int): nat
    decreases y
  {
    if y <= 1 then 0 else DaysBeforeYear(y - 1) + YearDays(y - 1)
  }

  function DaysBeforeMonth(y: int, m: int): nat
    decreases m
  {
    if m <= 1 then 0 else DaysBeforeMonth(y, m - 1) + DaysInMonth(y, m - 1)
  }

  function Ordinal(d: Date): int {
    DaysBeforeYear(d.year) + DaysBeforeMonth(d.year, d.month) + d.day
  }

  function Micros(dt: DateTime): int {
    (((Ordinal(DateOf(dt)) * 24 + dt.hour) * 60 + dt.minute) * 60 + dt.second) * 1000000 + dt.micro
  }

  lemma DaysBeforeDecember(y: int)
    ensures DaysBeforeMonth(y, 12) + 31 == YearDays(y)
  {
    assert DaysBeforeMonth(y, 2) == 31;
    assert DaysBeforeMonth(y, 3) == 31 + DaysInMonth(y, 2);
    assert DaysBeforeMonth(y, 6) == DaysBeforeMonth(y, 3) + 92;
    assert DaysBeforeMonth(y, 9) == DaysBeforeMonth(y, 6) + 92;
    assert DaysBeforeMonth(y, 12) == DaysBeforeMonth(y, 9) + 91;
  }

  /** Each calendar step is exactly one day on the ordinal scale. */
  lemma NextDayOrdinal(d: Date)
    requires ValidDate(d)
    ensures Ordinal(NextDay(d)) == Ordinal(d) + 1
  {
    if d.day < DaysInMonth(d.year, d.month) {
    } else if d.month < 12 {
      assert DaysBeforeMonth(d.year, d.month + 1) == DaysBeforeMonth(d.year, d.month) + d.day;
    } else {
      DaysBeforeDecember(d.year);
    }
  }

  lemma {:induction false} AddDaysOrdinal(d: Date, n: nat)
    requires ValidDate(d)
    ensures Ordinal(AddDays(d, n)) == Ordinal(d) + n
    decreases n
  {
    if n > 0 {
      NextDayOrdinal(d);
      AddDaysOrdinal(NextDay(d), n - 1);
    }
  }

  /** `AddHours` moves a date-time forward by exactly `h` hours of elapsed time. */
  lemma AddHoursElapsed(dt: DateTime, h: nat)
    requires WellFormed(dt)
    ensures Micros(AddHours(dt, h)) == Micros(dt) + h * MicrosPerHour
  {
    var total := dt.hour + h;
    AddDaysOrdinal(DateOf(dt), total / 24);
    var o := Ordinal(DateOf(dt));
    var r := AddHours(dt, h);
    assert Ordinal(DateOf(r)) * 24 + r.hour == o * 24 + dt.hour + h;
    MicrosByHour(dt);
    MicrosByHour(r);
    assert (o * 24 + dt.hour + h) * MicrosPerHour == (o * 24 + dt.hour) * MicrosPerHour + h * MicrosPerHour;
  }

  /** The microsecond count splits into whole hours and the rest of the hour. */
  lemma MicrosByHour(dt: DateTime)
    ensures Micros(dt) == (Ordinal(DateOf(dt)) * 24 + dt.hour) * MicrosPerHour
                          + (dt.minute * 60 + dt.second) * 1000000 + dt.micro
  {
  }

  // ---------------------------------------------------------------------------
  // Python's datetime order: lexicographic on (year, month, day, hour, minute,
  // second, microsecond).

  predicate DateBefore(a: Date, b: Date) {
    a.year < b.year
    || (a.year == b.year && (a.month < b.month || (a.month == b.month && a.day < b.day)))
  }

  predicate Before(a: DateTime, b: DateTime) {
    DateBefore(DateOf(a), DateOf(b))
    || (DateOf(a) == DateOf(b)
        && (a.hour < b.hour
            || (a.hour == b.hour
                && (a.minute < b.minute
                    || (a.minute == b.minute
                        && (a.second < b.second
                            || (a.second == b.second && a.micro < b.micro)))))))
  }

  predicate AtMost(a: DateTime, b: DateTime) {
    Before(a, b) || a == b
  }

  lemma AtMostTransitive(a: DateTime, b: DateTime, c: DateTime)
    requires AtMost(a, b) && AtMost(b, c)
    ensures AtMost(a, c)
  {
  }

  lemma AtMostTotal(a: DateTime, b: DateTime)
    ensures AtMost(a, b) || AtMost(b, a)
  {
  }

  lemma {:induction false} AddDaysLater(d: Date, n: nat)
    requires ValidDate(d) && n > 0
    ensures DateBefore(d, AddDays(d, n))
    decreases n
  {
    if n > 1 {
      AddDaysLater(NextDay(d), n - 1);
    }
  }

  /** A positive shift yields a strictly later date-time under Python's order. */
  lemma AddHoursLater(dt: DateTime, h: nat)
    requires WellFormed(dt) && h > 0
    ensures Before(dt, AddHours(dt, h))
  {
    var total := dt.hour + h;
    if total / 24 > 0 {
      AddDaysLater(DateOf(dt), total / 24);
    }
  }

  // ---------------------------------------------------------------------------
  // Text form `%Y-%m-%d %H:%M:%S.%f` and its strict, fixed-width parse.

  predicate IsDigit(c: char) {
    '0' <= c <= '9'
  }

  function Digit(n: int): char
    requires 0 <= n < 10
  {
    ('0' as int + n) as char
  }

  function DigitValue(c: char): int {
    c as int - '0' as int
  }

  /** The number written by the two digits at `s[k]`, `s[k+1]`. */
  function Num2(s: string, k: nat): int
    requires k + 2 <= |s|
  {
    10 * DigitValue(s[k]) + DigitValue(s[k + 1])
  }

  function Num4(s: string, k: nat): int
    requires k + 4 <= |s|
  {
    100 * Num2(s, k) + Num2(s, k + 2)
  }

  function Num6(s: string, k: nat): int
    requires k + 6 <= |s|
  {
    10000 * Num2(s, k) + 100 * Num2(s, k + 2) + Num2(s, k + 4)
  }

  /** Fields small enough for the fixed widths of the text form. */
  predicate Printable(dt: DateTime) {
    && 0 <= dt.year < 10000 && 0 <= dt.month < 100 && 0 <= dt.day < 100
    && 0 <= dt.hour < 100 && 0 <= dt.minute < 100 && 0 <= dt.second < 100
    && 0 <= dt.micro < 1000000
  }

  /** The tens digit of a two-digit number. */
  function Tens(n: int): char
    requires 0 <= n < 100
  {
    Digit(n / 10)
  }

  /** The units digit of a two-digit number. */
  function Units(n: int): char
    requires 0 <= n < 100
  {
    Digit(n % 10)
  }

  /** `strftime(dt, '%Y-%m-%d %H:%M:%S')`, the form of the daily summary. */
  function FmtSeconds(dt: DateTime): (s: string)
    requires Printable(dt)
    ensures |s| == 19
  {
    [Tens(dt.year / 100), Units(dt.year / 100), Tens(dt.year % 100), Units(dt.year % 100),
     '-', Tens(dt.month), Units(dt.month), '-', Tens(dt.day), Units(dt.day),
     ' ', Tens(dt.hour), Units(dt.hour), ':', Tens(dt.minute), Units(dt.minute),
     ':', Tens(dt.second), Units(dt.second)]
  }

  /** `strftime(dt, '%Y-%m-%d %H:%M:%S.%f')`: every field zero-padded, 26 characters. */
  function Fmt(dt: DateTime): (s: string)
    requires Printable(dt)
    ensures |s| == 26
  {
    [Tens(dt.year / 100), Units(dt.year / 100), Tens(dt.year % 100), Units(dt.year % 100),
     '-', Tens(dt.month), Units(dt.month), '-', Tens(dt.day), Units(dt.day),
     ' ', Tens(dt.hour), Units(dt.hour), ':', Tens(dt.minute), Units(dt.minute),
     ':', Tens(dt.second), Units(dt.second),
     '.', Tens(dt.micro / 10000), Units(dt.micro / 10000), Tens(dt.micro / 100 % 100),
     Units(dt.micro / 100 % 100), Tens(dt.micro % 100), Units(dt.micro % 100)]
  }

  /** The summary form is the full form cut before the fraction of a second. */
  lemma FmtSecondsPrefix(dt: DateTime)
    requires Printable(dt)
    ensures FmtSeconds(dt) == Fmt(dt)[..19]
  {
  }

  /** Separators where the format puts them, a decimal digit everywhere else. */
  predicate Shaped(s: string) {
    && |s| == 26
    && s[4] == '-' && s[7] == '-' && s[10] == ' ' && s[13] == ':' && s[16] == ':' && s[19] == '.'
    && IsDigit(s[0]) && IsDigit(s[1]) && IsDigit(s[2]) && IsDigit(s[3])
    && IsDigit(s[5]) && IsDigit(s[6]) && IsDigit(s[8]) && IsDigit(s[9])
    && IsDigit(s[11]) && IsDigit(s[12]) && IsDigit(s[14]) && IsDigit(s[15])
    && IsDigit(s[17]) && IsDigit(s[18])
    && IsDigit(s[20]) && IsDigit(s[21]) && IsDigit(s[22]) && IsDigit(s[23])
    && IsDigit(s[24]) && IsDigit(s[25])
  }

  function Fields(s: string): DateTime
    requires Shaped(s)
  {
    DateTime(Num4(s, 0), Num2(s, 5), Num2(s, 8), Num2(s, 11), Num2(s, 14), Num2(s, 17), Num6(s, 20))
  }

  /**
    `strptime(s, '%Y-%m-%d %H:%M:%S.%f')`, restricted to the fixed-width form;
    `None` where Python raises `ValueError`.
  */
  function Parse(s: string): (r: Option<DateTime>)
    ensures r.Some? ==> InRange(r.value)
  {
    if Shaped(s) && InRange(Fields(s)) then Some(Fields(s)) else None
  }

  lemma TwoDigits(n: int)
    requires 0 <= n < 100
    ensures IsDigit(Tens(n)) && IsDigit(Units(n))
    ensures 10 * DigitValue(Tens(n)) + DigitValue(Units(n)) == n
  {
  }

  lemma FmtYearChars(dt: DateTime)
    requires Printable(dt)
    ensures var s := Fmt(dt);
      && s[0] == Tens(dt.year / 100) && s[1] == Units(dt.year / 100)
      && s[2] == Tens(dt.year % 100) && s[3] == Units(dt.year % 100)
  {
  }

  lemma FmtDateChars(dt: DateTime)
    requires Printable(dt)
    ensures var s := Fmt(dt);
      && s[4] == '-' && s[5] == Tens(dt.month) && s[6] == Units(dt.month)
      && s[7] == '-' && s[8] == Tens(dt.day) && s[9] == Units(dt.day)
  {
  }

  lemma FmtTimeChars(dt: DateTime)
    requires Printable(dt)
    ensures var s := Fmt(dt);
      && s[10] == ' ' && s[11] == Tens(dt.hour) && s[12] == Units(dt.hour)
      && s[13] == ':' && s[14] == Tens(dt.minute) && s[15] == Units(dt.minute)
      && s[16] == ':' && s[17] == Tens(dt.second) && s[18] == Units(dt.second)
  {
  }

  lemma FmtMicroChars(dt: DateTime)
    requires Printable(dt)
    ensures var s := Fmt(dt);
      && s[19] == '.'
      && s[20] == Tens(dt.micro / 10000) && s[21] == Units(dt.micro / 10000)
      && s[22] == Tens(dt.micro / 100 % 100) && s[23] == Units(dt.micro / 100 % 100)
      && s[24] == Tens(dt.micro % 100) && s[25] == Units(dt.micro % 100)
  {
  }

  /** The text `Fmt` writes has the fixed shape, and its fields read back as written. */
  lemma FmtReadsBack(dt: DateTime)
    requires Printable(dt)
    ensures Shaped(Fmt(dt)) && Fields(Fmt(dt)) == dt
  {
    var s := Fmt(dt);
    FmtYearChars(dt);
    FmtDateChars(dt);
    FmtTimeChars(dt);
    FmtMicroChars(dt);
    TwoDigits(dt.year / 100);
    TwoDigits(dt.year % 100);
    TwoDigits(dt.month);
    TwoDigits(dt.day);
    TwoDigits(dt.hour);
    TwoDigits(dt.minute);
    TwoDigits(dt.second);
    TwoDigits(dt.micro / 10000);
    TwoDigits(dt.micro / 100 % 100);
    TwoDigits(dt.micro % 100);
    assert Num2(s, 0) == dt.year / 100 && Num2(s, 2) == dt.year % 100;
    assert Num2(s, 20) == dt.micro / 10000 && Num2(s, 22) == dt.micro / 100 % 100;
    assert Num2(s, 24) == dt.micro % 100;
    SixDigitSplit(dt.micro);
  }

  /** A number below a million is its three two-digit groups. */
  lemma SixDigitSplit(m: int)
    requires 0 <= m < 1000000
    ensures 10000 * (m / 10000) + 100 * (m / 100 % 100) + m % 100 == m
  {
    assert m == 100 * (m / 100) + m % 100;
    assert m / 100 == 100 * (m / 100 / 100) + m / 100 % 100;
    assert m / 100 / 100 == m / 10000;
  }

  /** What `Fmt` writes, `Parse` reads back unchanged. */
  lemma ParseFmt(dt: DateTime)
    requires InRange(dt)
    ensures Parse(Fmt(dt)) == Some(dt)
  {
    FmtReadsBack(dt);
  }

  lemma PairOfDigits(a: char, b: char)
    requires IsDigit(a) && IsDigit(b)
    ensures var n := 10 * DigitValue(a) + DigitValue(b);
      0 <= n < 100 && Tens(n) == a && Units(n) == b
  {
  }

  lemma FourOfDigits(s: string, k: nat)
    requires k + 4 <= |s| && IsDigit(s[k]) && IsDigit(s[k + 1]) && IsDigit(s[k + 2]) && IsDigit(s[k + 3])
    ensures var n := Num4(s, k);
      && 0 <= n < 10000 && n / 100 == Num2(s, k) && n % 100 == Num2(s, k + 2)
  {
  }

  lemma SixOfDigits(s: string, k: nat)
    requires k + 6 <= |s| && IsDigit(s[k]) && IsDigit(s[k + 1]) && IsDigit(s[k + 2])
    requires IsDigit(s[k + 3]) && IsDigit(s[k + 4]) && IsDigit(s[k + 5])
    ensures var n := Num6(s, k);
      && 0 <= n < 1000000 && n / 10000 == Num2(s, k) && n / 100 % 100 == Num2(s, k + 2)
      && n % 100 == Num2(s, k + 4)
  {
    var a, b, c := Num2(s, k), Num2(s, k + 2), Num2(s, k + 4);
    PairOfDigits(s[k], s[k + 1]);
    PairOfDigits(s[k + 2], s[k + 3]);
    PairOfDigits(s[k + 4], s[k + 5]);
    var n := Num6(s, k);
    assert n == (100 * a + b) * 100 + c;
    DivideBy100(n, 100 * a + b, c);
    DivideBy100(100 * a + b, a, b);
    assert n == a * 10000 + (100 * b + c);
    DivideBy10000(n, a, 100 * b + c);
  }

  /** Division by 100 undoes a split into hundreds and a remainder. */
  lemma DivideBy100(x: int, q: int, r: int)
    requires 0 <= r < 100 && x == q * 100 + r
    ensures x / 100 == q && x % 100 == r
  {
  }

  /** Division by 10000 undoes a split into ten-thousands and a remainder. */
  lemma DivideBy10000(x: int, q: int, r: int)
    requires 0 <= r < 10000 && x == q * 10000 + r
    ensures x / 10000 == q
  {
  }

  lemma SeqOf26(s: string)
    requires |s| == 26
    ensures s == [s[0], s[1], s[2], s[3], s[4], s[5], s[6], s[7], s[8], s[9], s[10], s[11], s[12],
                  s[13], s[14], s[15], s[16], s[17], s[18], s[19], s[20], s[21], s[22], s[23],
                  s[24], s[25]]
  {
  }

  /** Every string `Parse` accepts is exactly the text `Fmt` writes for its value. */
  lemma FmtParse(s: string)
    requires Parse(s).Some?
    ensures Fmt(Parse(s).value) == s
  {
    FmtFields(s);
  }

  lemma FmtFields(s: string)
    requires Shaped(s)
    ensures Printable(Fields(s)) && Fmt(Fields(s)) == s
  {
    FieldChars(s);
    TextOf(s, Fields(s));
  }

  /** Each digit of `s` is the matching digit of the field value read from it. */
  lemma FieldChars(s: string)
    requires Shaped(s)
    ensures var dt := Fields(s);
      && Printable(dt)
      && s[0] == Tens(dt.year / 100) && s[1] == Units(dt.year / 100)
      && s[2] == Tens(dt.year % 100) && s[3] == Units(dt.year % 100)
      && s[5] == Tens(dt.month) && s[6] == Units(dt.month)
      && s[8] == Tens(dt.day) && s[9] == Units(dt.day)
      && s[11] == Tens(dt.hour) && s[12] == Units(dt.hour)
      && s[14] == Tens(dt.minute) && s[15] == Units(dt.minute)
      && s[17] == Tens(dt.second) && s[18] == Units(dt.second)
      && s[20] == Tens(dt.micro / 10000) && s[21] == Units(dt.micro / 10000)
      && s[22] == Tens(dt.micro / 100 % 100) && s[23] == Units(dt.micro / 100 % 100)
      && s[24] == Tens(dt.micro % 100) && s[25] == Units(dt.micro % 100)
  {
    FieldDateChars(s);
    FieldClockChars(s);
  }

  lemma FieldDateChars(s: string)
    requires Shaped(s)
    ensures var dt := Fields(s);
      && 0 <= dt.year < 10000 && 0 <= dt.month < 100 && 0 <= dt.day < 100
      && s[0] == Tens(dt.year / 100) && s[1] == Units(dt.year / 100)
      && s[2] == Tens(dt.year % 100) && s[3] == Units(dt.year % 100)
      && s[5] == Tens(dt.month) && s[6] == Units(dt.month)
      && s[8] == Tens(dt.day) && s[9] == Units(dt.day)
  {
    FourOfDigits(s, 0);
    DigitsAt(s, 0);
    DigitsAt(s, 2);
    DigitsAt(s, 5);
    DigitsAt(s, 8);
  }

  lemma FieldClockChars(s: string)
    requires Shaped(s)
    ensures var dt := Fields(s);
      && 0 <= dt.hour < 100 && 0 <= dt.minute < 100 && 0 <= dt.second < 100
      && 0 <= dt.micro < 1000000
      && s[11] == Tens(dt.hour) && s[12] == Units(dt.hour)
      && s[14] == Tens(dt.minute) && s[15] == Units(dt.minute)
      && s[17] == Tens(dt.second) && s[18] == Units(dt.second)
      && s[20] == Tens(dt.micro / 10000) && s[21] == Units(dt.micro / 10000)
      && s[22] == Tens(dt.micro / 100 % 100) && s[23] == Units(dt.micro / 100 % 100)
      && s[24] == Tens(dt.micro % 100) && s[25] == Units(dt.micro % 100)
  {
    SixOfDigits(s, 20);
    DigitsAt(s, 11);
    DigitsAt(s, 14);
    DigitsAt(s, 17);
    DigitsAt(s, 20);
    DigitsAt(s, 22);
    DigitsAt(s, 24);
  }

  /** The two digits at `k` are the tens and units of the number they spell. */
  lemma DigitsAt(s: string, k: nat)
    requires k + 2 <= |s| && IsDigit(s[k]) && IsDigit(s[k + 1])
    ensures var n := Num2(s, k);
      && 0 <= n < 100 && Tens(n) == s[k] && Units(n) == s[k + 1]
  {
    PairOfDigits(s[k], s[k + 1]);
  }

  /** A 26-character text holding the digits of `dt`'s fields, and the separators, is `Fmt(dt)`. */
  lemma TextOf(s: string, dt: DateTime)
    requires |s| == 26 && Printable(dt)
    requires s[0] == Tens(dt.year / 100) && s[1] == Units(dt.year / 100)
    requires s[2] == Tens(dt.year % 100) && s[3] == Units(dt.year % 100)
    requires s[5] == Tens(dt.month) && s[6] == Units(dt.month)
    requires s[8] == Tens(dt.day) && s[9] == Units(dt.day)
    requires s[11] == Tens(dt.hour) && s[12] == Units(dt.hour)
    requires s[14] == Tens(dt.minute) && s[15] == Units(dt.minute)
    requires s[17] == Tens(dt.second) && s[18] == Units(dt.second)
    requires s[20] == Tens(dt.micro / 10000) && s[21] == Units(dt.micro / 10000)
    requires s[22] == Tens(dt.micro / 100 % 100) && s[23] == Units(dt.micro / 100 % 100)
    requires s[24] == Tens(dt.micro % 100) && s[25] == Units(dt.micro % 100)
    requires s[4] == '-' && s[7] == '-' && s[10] == ' ' && s[13] == ':' && s[16] == ':' && s[19] == '.'
    ensures Fmt(dt) == s
  {
    SeqOf26(s);
  }
}
