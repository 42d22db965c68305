/** What period keys say: the written date, read back digit by digit, is the day on which
    the quota's period began. */
module Dates {
  import opened Text
  import opened Calendar
  import opened Quotas

  /** Days before the first of March of a year. */
  function Years(since: int): int {
    365 * since + since / 4 - since / 100 + since / 400 - 719469
  }

  /** Days from the first of March to the first of month m, from 1 to 12. */
  function Since(m: int): int {
    (153 * ((m + 9) % 12) + 2) / 5
  }

  /** Day number of year y, month m from 1 to 12, day of month d, by the usual closed
      formula: years begin in March, so that a leap day comes last. */
  function Civil(y: int, m: int, d: int): int {
    Years(if m <= 2 then y - 1 else y) + Since(m) + d
  }

  /** The first day of the month after. */
  function NextMonth(y: int, m: int): int {
    if m == 12 then Civil(y + 1, 1, 1) else Civil(y, m + 1, 1)
  }

  lemma LeapYears(y: int)
    ensures Years(y) == Years(y - 1) + if Leap(y) then 366 else 365
  {
    FourthStep(y);
    HundredthStep(y);
    FourHundredthStep(y);
  }

  lemma WinterMonths(y: int)
    ensures MonthStart(12 * y) == Years(y - 1) + 307 && MonthStart(12 * y + 1) == Years(y - 1) + 338
    ensures MonthStart(12 * y + 2) == Years(y) + 1
  {
    YearFormula(y);
    LeapYears(y);
    MonthInYear(y, 0);
    MonthInYear(y, 1);
  }

  lemma ThirtyDays(m: int)
    requires 3 <= m <= 11
    ensures Since(m + 1) - Since(m) == if m in {4, 6, 9, 11} then 30 else 31
  {
  }

  lemma MonthStep(y: int, m: int)
    requires 3 <= m <= 11
    ensures MonthLength(12 * y + m - 1) == Since(m + 1) - Since(m)
  {
    ThirtyDays(m);
    MonthInYear(y, m - 1);
  }

  lemma {:induction false} FromMarch(y: int, m: int)
    requires 3 <= m <= 12
    ensures MonthStart(12 * y + m - 1) == Years(y) + Since(m) + 1
  {
    if m == 3 {
      WinterMonths(y);
    } else {
      FromMarch(y, m - 1);
      MonthStep(y, m - 1);
      MonthsAbut(12 * y + m - 2);
    }
  }

  /** Adding up month lengths from 1970 gives the closed formula for every month. */
  lemma MonthsAreCivil(y: int, m: int)
    requires 1 <= m <= 12
    ensures MonthStart(12 * y + m - 1) == Civil(y, m, 1)
  {
    if m <= 2 {
      WinterMonths(y);
    } else {
      FromMarch(y, m);
    }
  }

  lemma NextIsCivil(y: int, m: int)
    requires 1 <= m <= 12
    ensures MonthStart(12 * y + m) == NextMonth(y, m)
  {
    if m == 12 {
      MonthsAreCivil(y + 1, 1);
    } else {
      MonthsAreCivil(y, m + 1);
    }
  }

  // --- Reading a date ----------------------------------------------------------------------

  /** Decimal reading of a text. */
  function Value(s: string): int {
    if s == "" then 0 else 10 * Value(s[..|s| - 1]) + (s[|s| - 1] as int - '0' as int)
  }

  lemma {:induction false} PadReads(n: nat, width: nat)
    requires n < Power(width)
    ensures Value(Pad(n, width)) == n
  {
    if width > 0 {
      PadReads(n / 10, width - 1);
      assert Pad(n, width)[..width - 1] == Pad(n / 10, width - 1);
    }
  }

  lemma DayTextParts(month: nat, day: nat)
    ensures var t := DayText(month, day);
            && t[..4] == Pad(month / 12, 4) && t[4] == '-' && t[5..7] == Pad(month % 12 + 1, 2) && t[7] == '-'
            && t[8..10] == Pad(day, 2)
  {
    var year, m, d := Pad(month / 12, 4), Pad(month % 12 + 1, 2), Pad(day, 2);
    var t := DayText(month, day);
    assert t == year + "-" + m + "-" + d;
    assert t[..4] == year && t[5..7] == m && t[8..10] == d;
  }

  lemma DayInMonth(day: int, y: int, m: int)
    requires MonthOf(day) == 12 * y + m - 1 && 1 <= m <= 12
    ensures var d := day - MonthStart(MonthOf(day)) + 1;
            Civil(y, m, d) == day && Civil(y, m, 1) <= day < NextMonth(y, m) && 1 <= d <= 31
  {
    MonthsAbut(MonthOf(day));
    MonthsAreCivil(y, m);
    NextIsCivil(y, m);
  }

  lemma DateParts(day: int)
    requires Written(day)
    ensures var t, n := DateText(day), MonthOf(day);
            && t[4] == '-' && t[7] == '-' && Value(t[..4]) == n / 12 && Value(t[5..7]) == n % 12 + 1
            && Value(t[8..10]) == day - MonthStart(n) + 1
  {
    var n := MonthOf(day);
    MonthsAbut(n);
    DayTextParts(n, day - MonthStart(n) + 1);
    Powers();
    PadReads(n / 12, 4);
    PadReads(n % 12 + 1, 2);
    PadReads(day - MonthStart(n) + 1, 2);
  }

  /** A written date reads as a year, a month and a day of that month, which together are
      the day that was written. */
  lemma DateReadsBack(day: int)
    requires Written(day)
    ensures var t := DateText(day);
            var y, m, d := Value(t[..4]), Value(t[5..7]), Value(t[8..10]);
            && t[4] == '-' && t[7] == '-' && 1 <= m <= 12
            && Civil(y, m, d) == day && Civil(y, m, 1) <= day < NextMonth(y, m)
  {
    DateParts(day);
    var n := MonthOf(day);
    assert n == 12 * (n / 12) + n % 12;
    DayInMonth(day, n / 12, n % 12 + 1);
  }

  // --- Reading a period key ------------------------------------------------------------------

  /** The day a key starts with. */
  function DayRead(key: string): int
    requires |key| > 10
  {
    Civil(Value(key[..4]), Value(key[5..7]), Value(key[8..10]))
  }

  /** The first day after the month a key starts with. */
  function MonthAfter(key: string): int
    requires |key| > 10
  {
    NextMonth(Value(key[..4]), Value(key[5..7]))
  }

  lemma KeySlices(t: string, kind: string, key: string)
    requires |t| == 10 && key == t + ("#" + kind)
    ensures |key| > 10 && key[..10] == t && key[10..] == "#" + kind && key[4] == t[4] && key[7] == t[7]
    ensures key[..4] == t[..4] && key[5..7] == t[5..7] && key[8..10] == t[8..10]
  {
  }

  lemma KeyReads(q: Quota, now: int, d: int)
    requires Written(d) && d == PeriodStart(q, now)
    ensures var key := PeriodKey(q, now);
            && |key| > 10 && key[10..] == "#" + q.period && key[4] == '-' && key[7] == '-'
            && DayRead(key) == d && 1 <= Value(key[5..7]) <= 12
  {
    DateReadsBack(d);
    KeySlices(DateText(d), q.period, PeriodKey(q, now));
  }

  lemma InDay(q: Quota, now: int, day: int)
    requires day == LocalDay(q, now)
    ensures day * 86_400_000_000_000 <= now + q.tzOffset * 60_000_000_000 < (day + 1) * 86_400_000_000_000
  {
    DayBounds(now + q.tzOffset * MINUTE, day);
    DayBounds(now + q.tzOffset * MINUTE, day + 1);
  }

  /** The day before which the allowance of a key's period lasts. */
  function LastsUntil(key: string, period: string): int
    requires |key| > 10
  {
    if period == "weekly" then DayRead(key) + 7
    else if period == "monthly" then MonthAfter(key)
    else DayRead(key) + 1
  }

  lemma ReadsNextMonth(key: string, n: int)
    requires |key| > 10 && Value(key[..4]) == n / 12 && Value(key[5..7]) == n % 12 + 1
    ensures MonthAfter(key) == MonthStart(n + 1)
  {
    NextIsCivil(n / 12, n % 12 + 1);
    assert n == 12 * (n / 12) + n % 12;
  }

  lemma FirstInMonth(n: int)
    ensures MonthOf(MonthStart(n)) == n
  {
    MonthsAbut(n);
    MonthUnique(MonthStart(n), n);
  }

  lemma KeyMonth(q: Quota, now: int, n: int)
    requires Written(PeriodStart(q, now)) && n == MonthOf(PeriodStart(q, now))
    ensures var key := PeriodKey(q, now);
            && |key| > 10 && Value(key[..4]) == n / 12 && Value(key[5..7]) == n % 12 + 1
            && Value(key[8..10]) == PeriodStart(q, now) - MonthStart(n) + 1
  {
    DateParts(PeriodStart(q, now));
    KeySlices(DateText(PeriodStart(q, now)), q.period, PeriodKey(q, now));
  }

  lemma MonthFromFirst(q: Quota, now: int)
    requires q.period == "monthly" && Written(PeriodStart(q, now))
    ensures var key := PeriodKey(q, now);
            |key| > 10 && MonthAfter(key) == PeriodEnd(q, now) && Value(key[8..10]) == 1
  {
    var n := MonthOf(LocalDay(q, now));
    FirstInMonth(n);
    KeyMonth(q, now, n);
    ReadsNextMonth(PeriodKey(q, now), n);
  }

  lemma WeekFromMonday(q: Quota, now: int)
    requires q.period == "weekly"
    ensures (PeriodStart(q, now) - 4) % 7 == 0
  {
    var d := LocalDay(q, now);
    WeekStart(d);
    assert PeriodStart(q, now) - 4 == 7 * ((d + 3) / 7 - 1);
  }

  lemma LastsToEnd(q: Quota, now: int)
    requires Written(PeriodStart(q, now))
    ensures |PeriodKey(q, now)| > 10 && LastsUntil(PeriodKey(q, now), q.period) == PeriodEnd(q, now)
  {
    KeyReads(q, now, PeriodStart(q, now));
    if q.period == "monthly" {
      MonthFromFirst(q, now);
    }
  }

  lemma InPeriod(q: Quota, now: int)
    ensures PeriodStart(q, now) * 86_400_000_000_000 <= now + q.tzOffset * 60_000_000_000 <
      PeriodEnd(q, now) * 86_400_000_000_000
  {
    InDay(q, now, LocalDay(q, now));
    assert PeriodStart(q, now) <= LocalDay(q, now) < PeriodEnd(q, now);
  }

  /** A period key is a date and the kind of quota. The date is the first day of the period
      that holds the moment, by the quota's local clock: a Monday (day 4 was one) and the
      six days after it, a calendar month from its first, or a single day; and the reset is
      the midnight after the last of them. */
  lemma KeyNamesPeriod(q: Quota, now: int)
    requires Written(PeriodStart(q, now))
    ensures var key, local := PeriodKey(q, now), now + q.tzOffset * 60_000_000_000;
            && |key| > 10 && key[4] == '-' && key[7] == '-' && key[10..] == "#" + q.period
            && DayRead(key) * 86_400_000_000_000 <= local < LastsUntil(key, q.period) * 86_400_000_000_000
            && 1 <= Value(key[5..7]) <= 12
            && (q.period == "weekly" ==> (DayRead(key) - 4) % 7 == 0)
            && (q.period == "monthly" ==> Value(key[8..10]) == 1)
            && ResetAt(q, now) == if q.period == "rolling" then None
               else Some(LastsUntil(key, q.period) * 86_400_000_000_000 - q.tzOffset * 60_000_000_000)
  {
    KeyReads(q, now, PeriodStart(q, now));
    LastsToEnd(q, now);
    InPeriod(q, now);
    if q.period == "monthly" {
      MonthFromFirst(q, now);
    } else if q.period == "weekly" {
      WeekFromMonday(q, now);
    }
    if q.period != ROLLING {
      ResetIsPeriodEnd(q, now);
    }
  }
}
