/** The UTC calendar, and times written as digits: what Go's time.Format gives for "200601021504". */
module Calendar {
  import opened Numerals

  const MINUTES_PER_DAY := 1440

  datatype Date = Date(year: nat, month: nat, day: nat)
  {
    predicate Valid() {
      1970 <= year && 1 <= month <= 12 && 1 <= day <= DaysIn(year, month)
    }

    function Number(): nat {
      (year * 100 + month) * 100 + day
    }
  }

  predicate Leap(year: nat) {
    year % 4 == 0 && (year % 100 != 0 || year % 400 == 0)
  }

  function DaysIn(year: nat, month: nat): nat {
    if month == 2 then if Leap(year) then 29 else 28
    else if month in {4, 6, 9, 11} then 30
    else 31
  }

  function NextDay(d: Date): Date {
    if d.day < DaysIn(d.year, d.month) then d.(day := d.day + 1)
    else if d.month < 12 then Date(d.year, d.month + 1, 1)
    else Date(d.year + 1, 1, 1)
  }

  /** The date a number of days after 1 January 1970. */
  function DateAt(days: nat): (d: Date)
    ensures d.Valid()
  {
    if days == 0 then Date(1970, 1, 1) else NextDay(DateAt(days - 1))
  }

  function Two(n: nat): string
    requires n < 100
  {
    [Digit(n / 10), Digit(n % 10)]
  }

  /** Year, month, day, hour and minute of a number of minutes after the start of 1970. */
  function Stamp(minute: nat): string {
    var d, m := DateAt(minute / MINUTES_PER_DAY), minute % MINUTES_PER_DAY;
    Decimal(d.year) + Two(d.month) + Two(d.day) + Two(m / 60) + Two(m % 60)
  }

  // ---- Later times have larger stamps ----

  function StampNumber(minute: nat): nat {
    var m := minute % MINUTES_PER_DAY;
    (DateAt(minute / MINUTES_PER_DAY).Number() * 100 + m / 60) * 100 + m % 60
  }

  lemma AppendTwo(n: nat, two: nat)
    requires n > 0 && two < 100
    ensures Decimal(n * 100 + two) == Decimal(n) + Two(two)
  {
    DecimalAppend(n, two / 10);
    DecimalAppend(10 * n + two / 10, two % 10);
    assert 10 * (10 * n + two / 10) + two % 10 == n * 100 + two;
  }

  /** The digits of a stamp, read as one number. */
  lemma StampIsNumber(minute: nat)
    ensures Stamp(minute) == Decimal(StampNumber(minute))
  {
    hide Decimal, DateAt;
    var d, m := DateAt(minute / MINUTES_PER_DAY), minute % MINUTES_PER_DAY;
    AppendTwo(d.year, d.month);
    AppendTwo(d.year * 100 + d.month, d.day);
    AppendTwo(d.Number(), m / 60);
    AppendTwo(d.Number() * 100 + m / 60, m % 60);
  }

  lemma NextDayIsLater(d: Date)
    requires d.Valid()
    ensures d.Number() < NextDay(d).Number()
  {}

  lemma {:induction false} DatesIncrease(a: nat, b: nat)
    requires a < b
    ensures DateAt(a).Number() < DateAt(b).Number()
  {
    hide DateAt;
    assert DateAt(b) == NextDay(DateAt(b - 1)) by { DateStep(b); }
    NextDayIsLater(DateAt(b - 1));
    if a < b - 1 {
      DatesIncrease(a, b - 1);
    }
  }

  lemma DateStep(days: nat)
    requires days > 0
    ensures DateAt(days) == NextDay(DateAt(days - 1))
  {}

  lemma StampNumberIncreases(a: nat, b: nat)
    requires a < b
    ensures StampNumber(a) < StampNumber(b)
  {
    hide DateAt;
    var p, q := a / MINUTES_PER_DAY, b / MINUTES_PER_DAY;
    if p < q {
      DatesIncrease(p, q);
    } else {
      assert p == q && a % MINUTES_PER_DAY < b % MINUTES_PER_DAY;
      ClockIncreases(a % MINUTES_PER_DAY, b % MINUTES_PER_DAY);
    }
  }

  lemma ClockIncreases(a: nat, b: nat)
    requires a < b
    ensures a / 60 * 100 + a % 60 < b / 60 * 100 + b % 60
  {}

  /** Different minutes have different stamps. */
  lemma StampInjective(a: nat, b: nat)
    requires Stamp(a) == Stamp(b)
    ensures a == b
  {
    hide Stamp, StampNumber;
    StampIsNumber(a);
    StampIsNumber(b);
    assert StampNumber(a) == Value(Decimal(StampNumber(a))) == Value(Decimal(StampNumber(b))) == StampNumber(b);
    if a < b {
      StampNumberIncreases(a, b);
    } else if b < a {
      StampNumberIncreases(b, a);
    }
  }

  lemma StampIsDigits(minute: nat)
    ensures Digits(Stamp(minute))
  {
    hide Decimal, Stamp, StampNumber;
    StampIsNumber(minute);
  }

  // ---- Days counted, without going through them one by one ----

  /** The days from 1 January 1970 to a date: years from March to February, of 365 days and their leap days. */
  function DayNumber(year: nat, month: nat, day: nat): int
    requires year > 0
  {
    var y := if month <= 2 then year - 1 else year;
    365 * y + y / 4 - y / 100 + y / 400 + BeforeMonth(month) + day - 1 - 719468
  }

  /** The days from 1 March to the first of a month: 31 or 30, five months with 153 of them. */
  function BeforeMonth(month: nat): nat {
    (153 * ((month + 9) % 12) + 2) / 5
  }

  lemma MonthLength(month: nat)
    requires 1 <= month < 12 && month != 2
    ensures BeforeMonth(month + 1) == BeforeMonth(month) + if month in {4, 6, 9, 11} then 30 else 31
  {}

  lemma DayInMonth(year: nat, month: nat, day: nat)
    requires year > 0
    ensures DayNumber(year, month, day + 1) == DayNumber(year, month, day) + 1
  {}

  lemma NextMonth(year: nat, month: nat)
    requires 1970 <= year && 1 <= month < 12
    ensures DayNumber(year, month + 1, 1) == DayNumber(year, month, DaysIn(year, month)) + 1
  {
    if month == 2 {
      LeapDay(year);
    } else {
      MonthLength(month);
      hide BeforeMonth;
    }
  }

  lemma Quotients(n: nat)
    requires n > 0
    ensures n / 4 == (n - 1) / 4 + if n % 4 == 0 then 1 else 0
    ensures n / 100 == (n - 1) / 100 + if n % 100 == 0 then 1 else 0
    ensures n / 400 == (n - 1) / 400 + if n % 400 == 0 then 1 else 0
  {}

  lemma HundredIsFours(n: nat)
    requires n % 100 == 0
    ensures n % 4 == 0
  {
    Quarter(n, 25 * (n / 100));
  }

  lemma Quarter(n: nat, q: nat)
    requires n == 4 * q
    ensures n % 4 == 0
  {}

  lemma FourHundredIsHundreds(n: nat)
    requires n % 400 == 0
    ensures n % 100 == 0
  {
    assert n == 100 * (4 * (n / 400));
  }

  /** The count of leap days grows in leap years. */
  lemma LeapDay(year: nat)
    requires year > 0
    ensures year / 4 - year / 100 + year / 400
            == (year - 1) / 4 - (year - 1) / 100 + (year - 1) / 400 + if Leap(year) then 1 else 0
  {
    Quotients(year);
    if year % 400 == 0 {
      FourHundredIsHundreds(year);
    }
    if year % 100 == 0 {
      HundredIsFours(year);
    }
  }

  lemma NextYear(year: nat)
    requires 1970 <= year
    ensures DayNumber(year + 1, 1, 1) == DayNumber(year, 12, 31) + 1
  {}

  lemma NextDayCounts(d: Date)
    requires d.Valid()
    ensures var e := NextDay(d);
            DayNumber(e.year, e.month, e.day) == DayNumber(d.year, d.month, d.day) + 1
  {
    hide DayNumber;
    if d.day < DaysIn(d.year, d.month) {
      DayInMonth(d.year, d.month, d.day);
    } else if d.month < 12 {
      NextMonth(d.year, d.month);
    } else {
      NextYear(d.year);
    }
  }

  lemma {:induction false} DateAtCounts(days: nat)
    ensures var d := DateAt(days);
            DayNumber(d.year, d.month, d.day) == days
  {
    hide DayNumber, NextDay;
    if days == 0 {
      assert DayNumber(1970, 1, 1) == 0 by { FirstDay(); }
    } else {
      DateAtCounts(days - 1);
      NextDayCounts(DateAt(days - 1));
    }
  }

  lemma FirstDay()
    ensures DayNumber(1970, 1, 1) == 0
  {}

  /** A stamp is year, month, day, hour and minute of its time, written one after the other. */
  lemma StampIsTime(time: nat) returns (year: nat, month: nat, day: nat, hour: nat, minute: nat)
    ensures 1970 <= year && 1 <= month <= 12 && 1 <= day <= DaysIn(year, month) && hour < 24 && minute < 60
    ensures time == (DayNumber(year, month, day) * 24 + hour) * 60 + minute
    ensures Stamp(time) == Decimal((((year * 100 + month) * 100 + day) * 100 + hour) * 100 + minute)
  {
    hide DateAt, DaysIn, Decimal, DayNumber;
    var d, m := DateAt(time / MINUTES_PER_DAY), time % MINUTES_PER_DAY;
    year, month, day, hour, minute := d.year, d.month, d.day, m / 60, m % 60;
    DateAtCounts(time / MINUTES_PER_DAY);
    StampIsNumber(time);
  }
}
