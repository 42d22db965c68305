/** The proleptic Gregorian calendar: days counted from 1970-01-01, months from year 0,
    and dates written year-month-day. */
module Calendar {

  predicate Leap(y: int) {
    y % 4 == 0 && (y % 100 != 0 || y % 400 == 0)
  }

  /** Days in month n, where n counts from January of year 0. */
  function MonthLength(n: int): (days: int)
    ensures 28 <= days <= 31
  {
    match n % 12
    case 1 => if Leap(n / 12) then 29 else 28
    case 3 => 30
    case 5 => 30
    case 8 => 30
    case 10 => 30
    case _ => 31
  }

  /** January 1970. */
  const ORIGIN := 23640

  /** Day number on which month n begins. */
  function MonthStart(n: int): int
    decreases if n >= ORIGIN then n - ORIGIN else ORIGIN - n
  {
    if n == ORIGIN then 0
    else if n > ORIGIN then MonthStart(n - 1) + MonthLength(n - 1)
    else MonthStart(n + 1) - MonthLength(n)
  }

  lemma MonthsAbut(n: int)
    ensures MonthStart(n + 1) == MonthStart(n) + MonthLength(n)
  {
  }

  /** Leap years before year y, counted from year 1. */
  function LeapsBefore(y: int): int {
    (y - 1) / 4 - (y - 1) / 100 + (y - 1) / 400
  }

  lemma FourthStep(y: int)
    ensures y / 4 == (y - 1) / 4 + if y % 4 == 0 then 1 else 0
  {
  }

  lemma HundredthStep(y: int)
    ensures y / 100 == (y - 1) / 100 + if y % 100 == 0 then 1 else 0
    ensures y % 100 == 0 ==> y % 4 == 0
  {
    assert y == 4 * (25 * (y / 100)) + y % 100;
  }

  lemma FourHundredthStep(y: int)
    ensures y / 400 == (y - 1) / 400 + if y % 400 == 0 then 1 else 0
    ensures y % 400 == 0 ==> y % 100 == 0
  {
    assert y == 100 * (4 * (y / 400)) + y % 400;
  }

  lemma LeapCount(y: int)
    ensures LeapsBefore(y + 1) == LeapsBefore(y) + if Leap(y) then 1 else 0
  {
    FourthStep(y);
    HundredthStep(y);
    FourHundredthStep(y);
  }

  lemma MonthInYear(y: int, m: int)
    requires 0 <= m < 12
    ensures (12 * y + m) / 12 == y && (12 * y + m) % 12 == m
    ensures MonthStart(12 * y + m + 1) == MonthStart(12 * y + m) + MonthLength(12 * y + m)
  {
    MonthsAbut(12 * y + m);
  }

  lemma FirstHalf(y: int)
    ensures MonthStart(12 * y + 6) == MonthStart(12 * y) + if Leap(y) then 182 else 181
  {
    MonthInYear(y, 0);
    MonthInYear(y, 1);
    MonthInYear(y, 2);
    MonthInYear(y, 3);
    MonthInYear(y, 4);
    MonthInYear(y, 5);
  }

  lemma SecondHalf(y: int)
    ensures MonthStart(12 * y + 12) == MonthStart(12 * y + 6) + 184
  {
    MonthInYear(y, 6);
    MonthInYear(y, 7);
    MonthInYear(y, 8);
    MonthInYear(y, 9);
    MonthInYear(y, 10);
    MonthInYear(y, 11);
  }

  lemma TwelveMonths(y: int)
    ensures MonthStart(12 * (y + 1)) == MonthStart(12 * y) + if Leap(y) then 366 else 365
  {
    FirstHalf(y);
    SecondHalf(y);
  }

  /** Adding up month lengths gives the closed Gregorian formula for the first of January. */
  lemma {:induction false} YearFormula(y: int)
    ensures MonthStart(12 * y) == 365 * (y - 1970) + LeapsBefore(y) - LeapsBefore(1970)
    decreases if y >= 1970 then y - 1970 else 1970 - y
  {
    if y > 1970 {
      YearFormula(y - 1);
      TwelveMonths(y - 1);
      LeapCount(y - 1);
    } else if y < 1970 {
      YearFormula(y + 1);
      TwelveMonths(y);
      LeapCount(y);
    }
  }

  /** The month a day falls in. */
  function MonthOf(d: int): (n: int)
    ensures MonthStart(n) <= d < MonthStart(n + 1)
  {
    if d >= MonthStart(ORIGIN) then Forward(ORIGIN, d) else Backward(ORIGIN, d)
  }

  function Forward(n: int, d: int): (r: int)
    requires MonthStart(n) <= d
    ensures MonthStart(r) <= d < MonthStart(r + 1)
    decreases d - MonthStart(n)
  {
    MonthsAbut(n);
    if d < MonthStart(n + 1) then n else Forward(n + 1, d)
  }

  function Backward(n: int, d: int): (r: int)
    requires d < MonthStart(n)
    ensures MonthStart(r) <= d < MonthStart(r + 1)
    decreases MonthStart(n) - d
  {
    MonthsAbut(n - 1);
    if MonthStart(n - 1) <= d then n - 1 else Backward(n - 1, d)
  }

  lemma {:induction false} MonthStartsGrow(a: int, b: int)
    requires a <= b
    ensures MonthStart(a) + 28 * (b - a) <= MonthStart(b)
    decreases b - a
  {
    if a < b {
      MonthStartsGrow(a, b - 1);
      MonthsAbut(b - 1);
    }
  }

  lemma MonthUnique(d: int, n: int)
    requires MonthStart(n) <= d < MonthStart(n + 1)
    ensures MonthOf(d) == n
  {
    var m := MonthOf(d);
    if m < n {
      MonthStartsGrow(m + 1, n);
    } else if n < m {
      MonthStartsGrow(n + 1, m);
    }
  }

  // --- Written dates ------------------------------------------------------------------------

  function Digit(n: int): char
    requires 0 <= n < 10
  {
    '0' + n as char
  }

  function Pad(n: nat, width: nat): (s: string)
    ensures |s| == width
  {
    if width == 0 then "" else Pad(n / 10, width - 1) + [Digit(n % 10)]
  }

  function DayText(month: nat, day: nat): (s: string)
    ensures |s| == 10
  {
    Pad(month / 12, 4) + ("-" + (Pad(month % 12 + 1, 2) + ("-" + Pad(day, 2))))
  }

  /** Year-month-day; the layout is meant for years 0 to 9999. */
  function DateText(d: int): (s: string)
    requires Written(d)
    ensures |s| == 10
  {
    var n := MonthOf(d);
    DayText(n, d - MonthStart(n) + 1)
  }

  predicate Written(d: int) {
    0 <= MonthOf(d) < 120000
  }

  function Power(k: nat): nat {
    if k == 0 then 1 else 10 * Power(k - 1)
  }

  /** Byte order of texts, as the store compares them. */
  predicate Before(a: string, b: string) {
    if a == "" || b == "" then a == "" && b != ""
    else a[0] < b[0] || (a[0] == b[0] && Before(a[1..], b[1..]))
  }

  lemma {:induction false} BeforeParts(a: string, b: string, x: string, y: string)
    requires |a| == |b|
    ensures Before(a + x, b + y) <==> Before(a, b) || (a == b && Before(x, y))
    ensures a + x == b + y <==> a == b && x == y
  {
    if a == "" {
      assert a + x == x && b + y == y;
    } else {
      BeforeParts(a[1..], b[1..], x, y);
      assert (a + x)[1..] == a[1..] + x && (b + y)[1..] == b[1..] + y;
      assert a == [a[0]] + a[1..] && b == [b[0]] + b[1..];
      assert a + x == [a[0]] + (a[1..] + x) && b + y == [b[0]] + (b[1..] + y);
    }
  }

  lemma {:induction false} PadOrder(m: nat, n: nat, width: nat)
    requires m < Power(width) && n < Power(width)
    ensures Before(Pad(m, width), Pad(n, width)) <==> m < n
    ensures Pad(m, width) == Pad(n, width) <==> m == n
  {
    if width > 0 {
      PadOrder(m / 10, n / 10, width - 1);
      var a, b := [Digit(m % 10)], [Digit(n % 10)];
      BeforeParts(Pad(m / 10, width - 1), Pad(n / 10, width - 1), a, b);
      assert a[1..] == "" && b[1..] == "";
    }
  }

  lemma Powers()
    ensures Power(2) == 100 && Power(4) == 10000
  {
    assert Power(1) == 10 && Power(3) == 1000;
  }

  lemma DashedOrder(a: string, b: string, x: string, y: string)
    requires |a| == |b|
    ensures Before(a + ("-" + x), b + ("-" + y)) <==> Before(a, b) || (a == b && Before(x, y))
    ensures a + ("-" + x) == b + ("-" + y) <==> a == b && x == y
  {
    var dash := "-";
    BeforeParts(a, b, dash + x, dash + y);
    BeforeParts(dash, dash, x, y);
    assert !Before(dash, dash) by {
      assert dash[1..] == "";
    }
  }

  lemma DayTextOrder(m: nat, da: nat, n: nat, db: nat)
    requires m < 120000 && n < 120000 && 1 <= da <= 31 && 1 <= db <= 31
    ensures Before(DayText(m, da), DayText(n, db)) <==> m < n || (m == n && da < db)
    ensures DayText(m, da) == DayText(n, db) <==> m == n && da == db
  {
    Powers();
    PadOrder(m / 12, n / 12, 4);
    PadOrder(m % 12 + 1, n % 12 + 1, 2);
    PadOrder(da, db, 2);
    DashedOrder(Pad(m % 12 + 1, 2), Pad(n % 12 + 1, 2), Pad(da, 2), Pad(db, 2));
    DashedOrder(Pad(m / 12, 4), Pad(n / 12, 4), Pad(m % 12 + 1, 2) + ("-" + Pad(da, 2)),
      Pad(n % 12 + 1, 2) + ("-" + Pad(db, 2)));
    MonthParts(m, n);
  }

  lemma MonthParts(m: nat, n: nat)
    ensures m < n <==> m / 12 < n / 12 || (m / 12 == n / 12 && m % 12 < n % 12)
    ensures m == n <==> m / 12 == n / 12 && m % 12 == n % 12
  {
  }

  lemma MonthDayOrder(a: int, b: int)
    ensures var m, n := MonthOf(a), MonthOf(b);
            && 1 <= a - MonthStart(m) + 1 <= 31
            && (a < b <==> m < n || (m == n && a - MonthStart(m) < b - MonthStart(n)))
  {
    MonthsAbut(MonthOf(a));
    if MonthOf(a) < MonthOf(b) {
      MonthStartsGrow(MonthOf(a) + 1, MonthOf(b));
    } else if MonthOf(b) < MonthOf(a) {
      MonthStartsGrow(MonthOf(b) + 1, MonthOf(a));
    }
  }

  /** Written dates compare as texts exactly as the days they name. */
  lemma DateOrder(a: int, b: int)
    requires Written(a) && Written(b)
    ensures Before(DateText(a), DateText(b)) <==> a < b
    ensures DateText(a) == DateText(b) <==> a == b
  {
    MonthDayOrder(a, b);
    MonthDayOrder(b, a);
    DayTextOrder(MonthOf(a), a - MonthStart(MonthOf(a)) + 1, MonthOf(b), b - MonthStart(MonthOf(b)) + 1);
  }
}
