/** Calendar quotas: the period key and the reset moment of a request, the usage counters
    behind them, and the retention cleanup that must not touch an open counter. Moments are
    nanoseconds since 1970-01-01 UTC, offsets are minutes. */
module Quotas {
  import opened Text
  import opened Calendar

  const DAY := 86_400_000_000_000
  const MINUTE := 60_000_000_000

  const WEEKLY := "weekly"
  const MONTHLY := "monthly"
  const ROLLING := "rolling"

  datatype Quota = Quota(period: string, tzOffset: int)

  function DayOf(t: int): int {
    t / DAY
  }

  /** The calendar day of a moment at the quota's offset. */
  function LocalDay(q: Quota, now: int): int {
    DayOf(now + q.tzOffset * MINUTE)
  }

  /** Sunday is 0; day 0 was a Thursday. */
  function Weekday(d: int): int {
    (d + 4) % 7
  }

  function PeriodStart(q: Quota, now: int): int {
    var d := LocalDay(q, now);
    if q.period == WEEKLY then d - (Weekday(d) + 6) % 7
    else if q.period == MONTHLY then MonthStart(MonthOf(d))
    else d
  }

  function PeriodKey(q: Quota, now: int): string
    requires Written(PeriodStart(q, now))
  {
    DateText(PeriodStart(q, now)) + "#" + q.period
  }

  /** When the allowance is next restored, if the kind of quota names such a moment. */
  function ResetAt(q: Quota, now: int): Option<int> {
    var d := LocalDay(q, now);
    if q.period == WEEKLY then
      var forward := (7 - (Weekday(d) + 6) % 7) % 7;
      Some((d + if forward == 0 then 7 else forward) * DAY - q.tzOffset * MINUTE)
    else if q.period == MONTHLY then Some(MonthStart(MonthOf(d) + 1) * DAY - q.tzOffset * MINUTE)
    else if q.period == ROLLING then None
    else Some((d + 1) * DAY - q.tzOffset * MINUTE)
  }

  // --- Key and reset moment agree ----------------------------------------------------------

  /** The day after the period of a local day. */
  function PeriodEnd(q: Quota, now: int): int {
    var d := LocalDay(q, now);
    if q.period == WEEKLY then d - (Weekday(d) + 6) % 7 + 7
    else if q.period == MONTHLY then MonthStart(MonthOf(d) + 1)
    else d + 1
  }

  lemma ResetIsPeriodEnd(q: Quota, now: int)
    requires q.period != ROLLING
    ensures ResetAt(q, now) == Some(PeriodEnd(q, now) * DAY - q.tzOffset * MINUTE)
    ensures PeriodStart(q, now) <= LocalDay(q, now) < PeriodEnd(q, now)
  {
  }

  lemma DayBounds(t: int, d: int)
    ensures DayOf(t) < d <==> t < d * DAY
  {
    assert t == DAY * (t / DAY) + t % DAY;
  }

  /** Days of one period see the same period. */
  lemma SamePeriod(q: Quota, now: int, t: int)
    ensures PeriodStart(q, now) <= LocalDay(q, t) < PeriodEnd(q, now) <==> PeriodStart(q, t) == PeriodStart(q, now)
    ensures PeriodStart(q, t) == PeriodStart(q, now) ==> PeriodEnd(q, t) == PeriodEnd(q, now)
  {
    var d, e := LocalDay(q, now), LocalDay(q, t);
    if q.period == MONTHLY {
      if MonthStart(MonthOf(d)) <= e < MonthStart(MonthOf(d) + 1) {
        MonthUnique(e, MonthOf(d));
      }
      if MonthStart(MonthOf(e)) == MonthStart(MonthOf(d)) {
        MonthStartsDiffer(MonthOf(d), MonthOf(e));
      }
    } else if q.period == WEEKLY {
      SameWeek(d, e);
    }
  }

  lemma MonthStartsDiffer(m: int, n: int)
    requires MonthStart(m) == MonthStart(n)
    ensures m == n
  {
    if m < n {
      MonthStartsGrow(m, n);
    } else {
      MonthStartsGrow(n, m);
    }
  }

  /** The Monday of a week. */
  lemma WeekStart(d: int)
    ensures d - (Weekday(d) + 6) % 7 == 7 * ((d + 3) / 7) - 3
  {
    assert (Weekday(d) + 6) % 7 == (d + 3) % 7;
  }

  lemma SevenDays(x: int, k: int)
    ensures 7 * k <= x < 7 * k + 7 <==> x / 7 == k
  {
  }

  lemma SameWeek(d: int, e: int)
    ensures var start := d - (Weekday(d) + 6) % 7;
            start <= e < start + 7 <==> e - (Weekday(e) + 6) % 7 == start
  {
    WeekStart(d);
    WeekStart(e);
    SevenDays(e + 3, (d + 3) / 7);
  }

  /** The moment a period began. */
  function PeriodBegan(q: Quota, now: int): int {
    PeriodStart(q, now) * DAY - q.tzOffset * MINUTE
  }

  /** A moment lies between the start of the period and the reset exactly when it belongs
      to the same period, and then it has the same reset moment. */
  lemma PeriodIsInterval(q: Quota, now: int, t: int)
    requires q.period != ROLLING
    ensures ResetAt(q, now).Some? && PeriodBegan(q, now) <= now < ResetAt(q, now).value
    ensures PeriodBegan(q, now) <= t < ResetAt(q, now).value <==> PeriodStart(q, t) == PeriodStart(q, now)
    ensures PeriodStart(q, t) == PeriodStart(q, now) ==> ResetAt(q, t) == ResetAt(q, now)
  {
    ResetIsPeriodEnd(q, now);
    ResetIsPeriodEnd(q, t);
    SamePeriod(q, now, t);
    var shift := q.tzOffset * MINUTE;
    DayBounds(now + shift, PeriodStart(q, now));
    DayBounds(now + shift, PeriodEnd(q, now));
    DayBounds(t + shift, PeriodStart(q, now));
    DayBounds(t + shift, PeriodEnd(q, now));
  }

  lemma KeyNamesStart(q: Quota, t: int, q': Quota, u: int)
    requires Written(PeriodStart(q, t)) && Written(PeriodStart(q', u))
    ensures PeriodKey(q, t) == PeriodKey(q', u) <==> q.period == q'.period && PeriodStart(q, t) == PeriodStart(q', u)
    ensures PeriodKey(q, t)[..10] == DateText(PeriodStart(q, t)) && |PeriodKey(q, t)| > 10
  {
    var a, b := DateText(PeriodStart(q, t)), DateText(PeriodStart(q', u));
    DateOrder(PeriodStart(q, t), PeriodStart(q', u));
    assert PeriodKey(q, t) == a + ("#" + q.period) && PeriodKey(q', u) == b + ("#" + q'.period);
    BeforeParts(a, b, "#" + q.period, "#" + q'.period);
    BeforeParts("#", "#", q.period, q'.period);
  }

  /** Period key and reset moment agree, at every offset: the reset lies ahead, up to it
      neither the key nor the reset moment changes, and at it the key does. */
  lemma KeyChangesAtReset(q: Quota, now: int, t: int)
    requires q.period != ROLLING && Written(PeriodStart(q, now)) && Written(PeriodEnd(q, now))
    ensures ResetAt(q, now).Some? && now < ResetAt(q, now).value
    ensures now <= t < ResetAt(q, now).value ==>
      Written(PeriodStart(q, t)) && PeriodKey(q, t) == PeriodKey(q, now) && ResetAt(q, t) == ResetAt(q, now)
    ensures var reset := ResetAt(q, now).value;
            PeriodStart(q, reset) == PeriodEnd(q, now) && PeriodKey(q, reset) != PeriodKey(q, now)
  {
    PeriodIsInterval(q, now, t);
    var reset := ResetAt(q, now).value;
    PeriodIsInterval(q, now, reset);
    ResetIsPeriodEnd(q, now);
    ResetStartsPeriod(q, now, reset);
    KeyNamesStart(q, reset, q, now);
  }

  lemma ResetDay(q: Quota, now: int, reset: int)
    requires q.period != ROLLING && ResetAt(q, now) == Some(reset)
    ensures LocalDay(q, reset) == PeriodEnd(q, now)
  {
    ResetIsPeriodEnd(q, now);
    DayBounds(reset + q.tzOffset * MINUTE, PeriodEnd(q, now));
    DayBounds(reset + q.tzOffset * MINUTE, PeriodEnd(q, now) + 1);
  }

  /** The reset moment is the first of the next period. */
  lemma ResetStartsPeriod(q: Quota, now: int, reset: int)
    requires q.period != ROLLING && ResetAt(q, now) == Some(reset)
    ensures PeriodStart(q, reset) == PeriodEnd(q, now)
  {
    var d, e := LocalDay(q, now), PeriodEnd(q, now);
    ResetDay(q, now, reset);
    if q.period == MONTHLY {
      MonthsAbut(MonthOf(d) + 1);
      MonthUnique(e, MonthOf(d) + 1);
    } else if q.period == WEEKLY {
      SameWeek(e, e);
      assert (d + 3) - (d + 3) % 7 == 7 * ((d + 3) / 7);
    }
  }

  // --- The counters -----------------------------------------------------------------------------

  type Counters = map<(string, string), int>

  function Usage(c: Counters, subject: string, day: string): int {
    if (subject, day) in c then c[(subject, day)] else 0
  }

  function Prefix(day: string): string {
    if |day| > 10 then day[..10] else day
  }

  function WithoutOld(c: Counters, beforeDay: string): Counters {
    map k | k in c && !Before(Prefix(k.1), beforeDay) :: c[k]
  }

  class UsageStore {
    var counters: Counters

    constructor ()
      ensures counters == map[]
    {
      counters := map[];
    }

    method IncrementUsage(subject: string, day: string) returns (count: int)
      modifies this
      ensures count == Usage(old(counters), subject, day) + 1
      ensures counters == old(counters)[(subject, day) := count]
    {
      var key := (subject, day);
      if key in counters {
        counters := counters[key := counters[key] + 1];
      } else {
        counters := counters[key := 1];
      }
      count := counters[key];
    }

    method GetUsage(subject: string, day: string) returns (count: int)
      ensures count == Usage(counters, subject, day)
    {
      if (subject, day) in counters {
        return counters[(subject, day)];
      }
      return 0;
    }

    method DeleteOldUsage(beforeDay: string) returns (deleted: nat)
      modifies this
      ensures counters == WithoutOld(old(counters), beforeDay)
      ensures deleted == |old(counters)| - |counters|
    {
      ghost var was := counters;
      var todo := counters.Keys;
      deleted := 0;
      while todo != {}
        invariant todo <= counters.Keys <= was.Keys && forall k :: k in counters ==> counters[k] == was[k]
        invariant forall k :: k in was && k !in todo ==> (k in counters <==> !Before(Prefix(k.1), beforeDay))
        invariant deleted + |counters| == |was|
      {
        var k :| k in todo;
        todo := todo - {k};
        if Before(Prefix(k.1), beforeDay) {
          assert |counters - {k}| == |counters| - 1 by {
            assert (counters - {k}).Keys == counters.Keys - {k};
            assert |counters.Keys| == |counters| && |(counters - {k}).Keys| == |counters - {k}|;
          }
          counters := counters - {k};
          deleted := deleted + 1;
        }
      }
    }

    method RecordHit(q: Quota, subject: string, now: int)
      requires q.period != ROLLING && Written(PeriodStart(q, now))
      modifies this
      ensures counters == Counted(old(counters), q, subject, now)
    {
      var count := IncrementUsage(subject, PeriodKey(q, now));
    }

    /** The usage-retention part of the cleanup job. */
    method Cleanup(now: int, usageDays: int)
      requires usageDays > 0 ==> Written(DayOf(now) - usageDays)
      modifies this
      ensures counters == Cleaned(old(counters), now, usageDays)
    {
      if usageDays > 0 {
        var deleted := DeleteOldUsage(DateText(DayOf(now) - usageDays));
      }
    }
  }

  function Counted(c: Counters, q: Quota, subject: string, now: int): Counters
    requires Written(PeriodStart(q, now))
  {
    c[(subject, PeriodKey(q, now)) := Usage(c, subject, PeriodKey(q, now)) + 1]
  }

  function Cleaned(c: Counters, now: int, usageDays: int): Counters
    requires usageDays > 0 ==> Written(DayOf(now) - usageDays)
  {
    if usageDays > 0 then WithoutOld(c, DateText(DayOf(now) - usageDays)) else c
  }

  // --- Retention ----------------------------------------------------------------------------------

  predicate ValidOffset(q: Quota) {
    -720 <= q.tzOffset <= 840
  }

  /** The retention, in days, that keeps every open counter of a period kind. */
  function LongestPeriod(period: string): int {
    if period == MONTHLY then 31 else if period == WEEKLY then 7 else 1
  }

  lemma LocalDayNear(q: Quota, now: int)
    requires ValidOffset(q)
    ensures DayOf(now) - 1 <= LocalDay(q, now) <= DayOf(now) + 1
  {
    DayBounds(now + q.tzOffset * MINUTE, DayOf(now) - 1);
    DayBounds(now + q.tzOffset * MINUTE, DayOf(now) + 2);
    DayBounds(now, DayOf(now));
    DayBounds(now, DayOf(now) + 1);
  }

  lemma StartNear(q: Quota, now: int)
    requires ValidOffset(q)
    ensures PeriodStart(q, now) >= DayOf(now) - LongestPeriod(q.period)
  {
    LocalDayNear(q, now);
    MonthsAbut(MonthOf(LocalDay(q, now)));
  }

  /** With the period's longest length or more, cleanup keeps every open counter. */
  lemma RetentionKeepsOpen(q: Quota, now: int, at: int, usageDays: int)
    requires ValidOffset(q) && at <= now && usageDays >= LongestPeriod(q.period)
    requires Written(PeriodStart(q, now)) && Written(DayOf(at) - usageDays)
    ensures !Before(Prefix(PeriodKey(q, now)), DateText(DayOf(at) - usageDays))
  {
    StartNear(q, now);
    DayBounds(at, DayOf(now) + 1);
    DayBounds(now, DayOf(now) + 1);
    KeyNamesStart(q, now, q, now);
    DateOrder(PeriodStart(q, now), DayOf(at) - usageDays);
  }

  lemma LeapsTo2024(y: int)
    requires y == 2024
    ensures LeapsBefore(y) == LeapsBefore(1970) + 13 && MonthLength(12 * y) == 31
  {
  }

  /** January of 2024 took the days from 19723 to 19753. */
  lemma StartOf2024(y: int)
    requires y == 2024
    ensures MonthStart(12 * y) == 19723 && MonthStart(12 * y + 1) == 19754
  {
    LeapsTo2024(y);
    YearFormula(y);
    MonthsAbut(12 * y);
  }

  /** Day 19723 was a Monday and the first of January 2024. */
  lemma January2024(d: int, y: int)
    requires 19723 <= d < 19754 && y == 2024
    ensures MonthOf(d) == 12 * y && MonthStart(MonthOf(d)) == 19723 && Written(d)
  {
    StartOf2024(y);
    MonthUnique(d, 12 * y);
  }

  /** Half past midnight UTC, one hour west, is still the day before. */
  lemma HourWest(period: string, d: int)
    ensures var now := d * DAY + 30 * MINUTE; LocalDay(Quota(period, -60), now) == d - 1 && DayOf(now) == d
  {
    var now := d * DAY + 30 * MINUTE;
    DayBounds(now, d);
    DayBounds(now, d + 1);
    DayBounds(now - 60 * MINUTE, d - 1);
    DayBounds(now - 60 * MINUTE, d);
  }

  /** The day after a period that began on the first of January 2024. */
  function DayAfter(period: string): int {
    if period == MONTHLY then 19754 else 19730
  }

  /** The last day of the period that began on day first of January 2024, first being its
      first and a Monday. */
  lemma JanuaryStart(q: Quota, first: int, last: int)
    requires first == 19723 && last == DayAfter(q.period) - 1
    ensures if q.period == MONTHLY then MonthStart(MonthOf(last)) == first
            else q.period == WEEKLY ==> last - (Weekday(last) + 6) % 7 == first
  {
    if q.period == MONTHLY {
      January2024(last, 2024);
    } else {
      WeekStart(last);
    }
  }

  /** A counter whose period began before the cutoff day goes. */
  lemma EarlierGoes(q: Quota, now: int, cutoff: int)
    requires Written(PeriodStart(q, now)) && Written(cutoff) && PeriodStart(q, now) < cutoff
    ensures Before(Prefix(PeriodKey(q, now)), DateText(cutoff))
  {
    KeyNamesStart(q, now, q, now);
    DateOrder(PeriodStart(q, now), cutoff);
  }

  lemma StartGiven(q: Quota, now: int, d: int)
    requires d == LocalDay(q, now)
    ensures q.period == WEEKLY ==> PeriodStart(q, now) == d - (Weekday(d) + 6) % 7
    ensures q.period == MONTHLY ==> PeriodStart(q, now) == MonthStart(MonthOf(d))
    ensures q.period != WEEKLY && q.period != MONTHLY ==> PeriodStart(q, now) == d
  {
  }

  lemma BeganInJanuary(period: string, now: int)
    requires now == DayAfter(period) * DAY + 30 * MINUTE
    ensures DayOf(now) == DayAfter(period)
    ensures PeriodStart(Quota(period, -60), now) == DayAfter(period) - LongestPeriod(period)
    ensures Written(DayAfter(period) - LongestPeriod(period))
  {
    var q, d := Quota(period, -60), DayAfter(period);
    HourWest(period, d);
    StartGiven(q, now, d - 1);
    JanuaryStart(q, 19723, d - 1);
    January2024(d - LongestPeriod(period), 2024);
  }

  /** A moment at which a shorter retention would delete the open counter: half past
      midnight UTC after the last local day of a period. */
  lemma ShorterDeletesOpen(period: string, usageDays: int) returns (now: int)
    requires 0 < usageDays < LongestPeriod(period)
    ensures var q := Quota(period, -60);
            && Written(PeriodStart(q, now)) && Written(DayOf(now) - usageDays)
            && Before(Prefix(PeriodKey(q, now)), DateText(DayOf(now) - usageDays))
  {
    var d := DayAfter(period);
    now := d * DAY + 30 * MINUTE;
    BeganInJanuary(period, now);
    January2024(d - usageDays, 2024);
    EarlierGoes(Quota(period, -60), now, d - usageDays);
  }

  ghost predicate Sufficient(period: string, usageDays: int) {
    forall tz, now, subject, c: Counters ::
      ValidOffset(Quota(period, tz)) && Written(PeriodStart(Quota(period, tz), now)) &&
      Written(DayOf(now) - usageDays) && (subject, PeriodKey(Quota(period, tz), now)) in c ==>
      (subject, PeriodKey(Quota(period, tz), now)) in Cleaned(c, now, usageDays)
  }

  /** A retention never deletes an open counter of a period kind, at any offset, exactly
      when it covers the kind's longest period: 31 days for monthly quotas, 7 for weekly,
      1 for daily. */
  lemma RetentionExact(period: string, usageDays: int)
    requires usageDays > 0
    ensures Sufficient(period, usageDays) <==>
      usageDays >= if period == "monthly" then 31 else if period == "weekly" then 7 else 1
  {
    if usageDays >= LongestPeriod(period) {
      forall tz, now, subject, c: Counters |
        ValidOffset(Quota(period, tz)) && Written(PeriodStart(Quota(period, tz), now)) &&
        Written(DayOf(now) - usageDays) && (subject, PeriodKey(Quota(period, tz), now)) in c
        ensures (subject, PeriodKey(Quota(period, tz), now)) in Cleaned(c, now, usageDays)
      {
        RetentionKeepsOpen(Quota(period, tz), now, now, usageDays);
      }
    } else {
      var now := ShorterDeletesOpen(period, usageDays);
      var q := Quota(period, -60);
      var c: Counters := map[("", PeriodKey(q, now)) := 1];
      assert ValidOffset(q) && ("", PeriodKey(q, now)) in c;
      assert ("", PeriodKey(q, now)) !in Cleaned(c, now, usageDays);
    }
  }

  // --- Whole runs -----------------------------------------------------------------------------------

  /** A hit recorded against a quota, or a cleanup run, and when. */
  datatype Event = Hit(q: Quota, subject: string, at: int) | CleanUp(at: int, usageDays: int)

  ghost predicate Proper(e: Event) {
    match e
    case Hit(q, _, at) => q.period != ROLLING && Written(PeriodStart(q, at))
    case CleanUp(at, usageDays) => usageDays > 0 ==> Written(DayOf(at) - usageDays)
  }

  function After(c: Counters, e: Event): Counters
    requires Proper(e)
  {
    match e
    case Hit(q, subject, at) => Counted(c, q, subject, at)
    case CleanUp(at, usageDays) => Cleaned(c, at, usageDays)
  }

  function Run(events: seq<Event>): Counters
    requires forall e :: e in events ==> Proper(e)
  {
    if events == [] then map[] else After(Run(events[..|events| - 1]), events[|events| - 1])
  }

  predicate CountsFor(e: Event, q: Quota, subject: string, now: int) {
    e.Hit? && e.subject == subject && e.q.period == q.period && PeriodStart(e.q, e.at) == PeriodStart(q, now)
  }

  /** Hits of the subject whose period key is the one in force at the moment. */
  function Hits(events: seq<Event>, q: Quota, subject: string, now: int): nat {
    if events == [] then 0
    else Hits(events[..|events| - 1], q, subject, now) + if CountsFor(events[|events| - 1], q, subject, now) then 1
       else 0
  }

  lemma HitUsage(c: Counters, q': Quota, subject': string, at: int, q: Quota, subject: string, now: int)
    requires Written(PeriodStart(q', at)) && Written(PeriodStart(q, now))
    ensures Usage(Counted(c, q', subject', at), subject, PeriodKey(q, now)) ==
            Usage(c, subject, PeriodKey(q, now)) +
            if subject' == subject && q'.period == q.period && PeriodStart(q', at) == PeriodStart(q, now) then 1 else 0
  {
    KeyNamesStart(q', at, q, now);
  }

  lemma CleanUsage(c: Counters, at: int, usageDays: int, q: Quota, subject: string, now: int)
    requires Written(PeriodStart(q, now)) && ValidOffset(q) && (usageDays > 0 ==> Written(DayOf(at) - usageDays))
    requires usageDays > 0 ==> at <= now && usageDays >= LongestPeriod(q.period)
    ensures Usage(Cleaned(c, at, usageDays), subject, PeriodKey(q, now)) == Usage(c, subject, PeriodKey(q, now))
  {
    if usageDays > 0 {
      RetentionKeepsOpen(q, now, at, usageDays);
    }
  }

  lemma AfterUsage(c: Counters, e: Event, q: Quota, subject: string, now: int)
    requires Proper(e) && Written(PeriodStart(q, now)) && ValidOffset(q)
    requires e.CleanUp? && e.usageDays > 0 ==> e.at <= now && e.usageDays >= LongestPeriod(q.period)
    ensures Usage(After(c, e), subject, PeriodKey(q, now)) ==
            Usage(c, subject, PeriodKey(q, now)) + if CountsFor(e, q, subject, now) then 1 else 0
  {
    match e {
      case Hit(q', subject', at) => HitUsage(c, q', subject', at, q, subject, now);
      case CleanUp(at, usageDays) => CleanUsage(c, at, usageDays, q, subject, now);
    }
  }

  /** Under any run of hits and sufficient cleanups that came before a moment, the counter
      read at that moment is the number of hits recorded in its period. */
  lemma {:induction false} UsageIsHits(events: seq<Event>, q: Quota, subject: string, now: int)
    requires (forall e :: e in events ==> Proper(e)) && Written(PeriodStart(q, now)) && ValidOffset(q)
    requires forall e :: e in events && e.CleanUp? && e.usageDays > 0 ==>
      e.at <= now && e.usageDays >= LongestPeriod(q.period)
    ensures Usage(Run(events), subject, PeriodKey(q, now)) == Hits(events, q, subject, now)
  {
    if events != [] {
      var front, last := events[..|events| - 1], events[|events| - 1];
      UsageIsHits(front, q, subject, now);
      AfterUsage(Run(front), last, q, subject, now);
    }
  }

  function HitsBetween(events: seq<Event>, subject: string, from: int, to: int): nat {
    if events == [] then 0
    else
      var last := events[|events| - 1];
      HitsBetween(events[..|events| - 1], subject, from, to) + if last.Hit? && last.subject == subject &&
        from <= last.at < to then 1 else 0
  }

  lemma {:induction false} HitsAreBetween(events: seq<Event>, q: Quota, subject: string, now: int)
    requires q.period != ROLLING && forall e :: e in events && e.Hit? && e.subject == subject ==> e.q == q
    ensures ResetAt(q, now).Some?
    ensures Hits(events, q, subject, now) == HitsBetween(events, subject, PeriodBegan(q, now), ResetAt(q, now).value)
  {
    ResetIsPeriodEnd(q, now);
    if events != [] {
      var front, last := events[..|events| - 1], events[|events| - 1];
      assert last in events;
      HitsAreBetween(front, q, subject, now);
      if last.Hit? {
        PeriodIsInterval(q, now, last.at);
      }
    }
  }

  /** For a subject with one quota throughout: whatever was cleaned up on the way, the
      counter read at a moment is the number of its hits between the start of the period
      and the announced reset. */
  lemma UsageSincePeriodBegan(events: seq<Event>, q: Quota, subject: string, now: int)
    requires q.period != ROLLING && (forall e :: e in events ==> Proper(e)) && Written(PeriodStart(q, now))
    requires ValidOffset(q)
    requires forall e :: e in events && e.CleanUp? && e.usageDays > 0 ==>
      e.at <= now && e.usageDays >= LongestPeriod(q.period)
    requires forall e :: e in events && e.Hit? && e.subject == subject ==> e.q == q
    ensures ResetAt(q, now).Some?
    ensures Usage(Run(events), subject, PeriodKey(q, now)) ==
      HitsBetween(events, subject, PeriodBegan(q, now), ResetAt(q, now).value)
  {
    HitsAreBetween(events, q, subject, now);
    UsageIsHits(events, q, subject, now);
  }
}
