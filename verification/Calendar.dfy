/** The proleptic Gregorian calendar of ECMA-262 (section 21.4.1): day numbers counted from 1970-01-01, months counted
    from January of year 0. */
module Calendar {

  predicate Leap(y: int) {
    y % 4 == 0 && (y % 100 != 0 || y % 400 == 0)
  }

  function DaysIn(m: int, leap: bool): (n: int)
    ensures 28 <= n <= 31
  {
    if m == 1 then (if leap then 29 else 28) else if m == 3 || m == 5 || m == 8 || m == 10 then 30 else 31
  }

  const START_OF_YEAR_0 := -719528

  /** The first day of month `k`: the lengths of the months between added up. */
  function MonthStart(k: int): int
    decreases if k < 0 then -k else k
  {
    if k == 0 then START_OF_YEAR_0
    else if k > 0 then MonthStart(k - 1) + DaysIn((k - 1) % 12, Leap((k - 1) / 12))
    else MonthStart(k + 1) - DaysIn(k % 12, Leap(k / 12))
  }

  /** MakeDay: months beyond a year and days beyond a month carry over. */
  function MakeDay(y: int, m: int, d: int): int {
    MonthStart(12 * y + m) + d - 1
  }

  /** Date.UTC takes a year from 0 to 99 for one of the 1900s. */
  function UtcDay(y: int, m: int, d: int): int {
    MakeDay(if 0 <= y <= 99 then 1900 + y else y, m, d)
  }

  lemma MonthNext(k: int)
    ensures MonthStart(k + 1) == MonthStart(k) + DaysIn(k % 12, Leap(k / 12))
  {
  }

  lemma MonthLength(k: int)
    ensures 28 <= MonthStart(k + 1) - MonthStart(k) <= 31
  {
    MonthNext(k);
  }

  function MonthUp(k: int, n: int): (r: int)
    requires MonthStart(k) <= n
    ensures MonthStart(r) <= n < MonthStart(r + 1)
    decreases n - MonthStart(k)
  {
    MonthLength(k);
    if n < MonthStart(k + 1) then k else MonthUp(k + 1, n)
  }

  function MonthDown(k: int, n: int): (r: int)
    requires n < MonthStart(k + 1)
    ensures MonthStart(r) <= n < MonthStart(r + 1)
    decreases MonthStart(k + 1) - n
  {
    MonthLength(k);
    if MonthStart(k) <= n then k else MonthDown(k - 1, n)
  }

  /** The month a day lies in. */
  function MonthOf(n: int): (r: int)
    ensures MonthStart(r) <= n < MonthStart(r + 1)
  {
    if n >= START_OF_YEAR_0 then MonthUp(0, n) else MonthDown(-1, n)
  }

  /** getUTCFullYear, getUTCMonth and getUTCDate of a day. */
  function YearOf(n: int): int { MonthOf(n) / 12 }

  function MonthInYear(n: int): (m: int)
    ensures 0 <= m < 12
  {
    MonthOf(n) % 12
  }

  function DateOf(n: int): (d: int)
    ensures 1 <= d <= 31
  {
    MonthLength(MonthOf(n));
    n - MonthStart(MonthOf(n)) + 1
  }

  /** Monday is 1, Sunday 7. */
  function WeekdayOf(n: int): (w: int)
    ensures 1 <= w <= 7
  {
    (n + 3) % 7 + 1
  }

  lemma {:induction false} MonthsIncrease(k: int, l: int)
    requires k <= l
    ensures l - k <= MonthStart(l) - MonthStart(k)
    decreases l - k
  {
    if k < l {
      MonthLength(k);
      MonthsIncrease(k + 1, l);
    }
  }

  lemma MonthUnique(n: int, k: int)
    requires MonthStart(k) <= n < MonthStart(k + 1)
    ensures MonthOf(n) == k
  {
    var r := MonthOf(n);
    if r < k { MonthsIncrease(r + 1, k); }
    if k < r { MonthsIncrease(k + 1, r); }
  }

  lemma MonthsOrdered(a: int, b: int)
    requires a <= b
    ensures MonthOf(a) <= MonthOf(b)
  {
    if MonthOf(b) < MonthOf(a) { MonthsIncrease(MonthOf(b) + 1, MonthOf(a)); }
  }

  /** A day is made from the date it reads as. */
  lemma DayOfItsDate(n: int)
    ensures MakeDay(YearOf(n), MonthInYear(n), DateOf(n)) == n
  {
  }

  /** Days are ordered as their dates. */
  lemma DateOrder(a: int, b: int)
    ensures a < b <==> || YearOf(a) < YearOf(b)
                       || (YearOf(a) == YearOf(b) && MonthInYear(a) < MonthInYear(b))
                       || (YearOf(a) == YearOf(b) && MonthInYear(a) == MonthInYear(b) && DateOf(a) < DateOf(b))
  {
    if a <= b { MonthsOrdered(a, b); }
    if b <= a { MonthsOrdered(b, a); }
  }

  // ------------------------------------------------------------- the closed formula

  /** DayFromYear of ECMA-262. */
  function DayFromYear(y: int): int {
    365 * (y - 1970) + (y - 1969) / 4 - (y - 1901) / 100 + (y - 1601) / 400
  }

  function DaysBefore(m: int, leap: bool): int {
    if m <= 0 then 0 else DaysBefore(m - 1, leap) + DaysIn(m - 1, leap)
  }

  lemma By4(y: int)
    ensures (y - 1968) / 4 - (y - 1969) / 4 == if y % 4 == 0 then 1 else 0
  {
  }

  lemma By100(y: int)
    ensures (y - 1900) / 100 - (y - 1901) / 100 == if y % 100 == 0 then 1 else 0
  {
  }

  lemma By400(y: int)
    ensures (y - 1600) / 400 - (y - 1601) / 400 == if y % 400 == 0 then 1 else 0
  {
  }

  lemma Nested100(y: int)
    requires y % 100 == 0
    ensures y % 4 == 0
  {
    assert y == 4 * (25 * (y / 100));
  }

  lemma Nested400(y: int)
    requires y % 400 == 0
    ensures y % 100 == 0
  {
    assert y == 100 * (4 * (y / 400));
  }

  lemma YearLength(y: int)
    ensures DayFromYear(y + 1) - DayFromYear(y) == if Leap(y) then 366 else 365
  {
    By4(y);
    By100(y);
    By400(y);
    if y % 100 == 0 { Nested100(y); }
    if y % 400 == 0 { Nested400(y); }
  }

  lemma FullYear(leap: bool)
    ensures DaysBefore(11, leap) + 31 == if leap then 366 else 365
  {
    assert DaysBefore(1, leap) == 31;
    assert DaysBefore(2, leap) == if leap then 60 else 59;
    assert DaysBefore(4, leap) == if leap then 121 else 120;
    assert DaysBefore(6, leap) == if leap then 182 else 181;
    assert DaysBefore(8, leap) == if leap then 244 else 243;
    assert DaysBefore(10, leap) == if leap then 305 else 304;
  }

  lemma MonthPlace(y: int, m: int)
    requires 0 <= m < 12
    ensures (12 * y + m) / 12 == y && (12 * y + m) % 12 == m
  {
  }

  lemma {:induction false} WithinYear(y: int, m: nat)
    requires m <= 12
    ensures MonthStart(12 * y + m) == MonthStart(12 * y) + DaysBefore(m, Leap(y))
    decreases m
  {
    if m > 0 {
      WithinYear(y, m - 1);
      MonthPlace(y, m - 1);
      MonthNext(12 * y + m - 1);
    }
  }

  lemma YearSpan(y: int)
    ensures MonthStart(12 * y + 12) - MonthStart(12 * y) == DayFromYear(y + 1) - DayFromYear(y)
  {
    var twelve := 12;
    WithinYear(y, twelve);
    FullYear(Leap(y));
    YearLength(y);
    assert DaysBefore(twelve, Leap(y)) == DaysBefore(11, Leap(y)) + 31;
  }

  lemma {:induction false} YearStart(y: int)
    ensures MonthStart(12 * y) == DayFromYear(y)
    decreases if y < 0 then -y else y
  {
    if y > 0 {
      YearStart(y - 1);
      YearSpan(y - 1);
    } else if y < 0 {
      YearStart(y + 1);
      YearSpan(y);
    }
  }

  /** Adding up month lengths gives the closed formula. */
  lemma MonthStartFormula(y: int, m: int)
    requires 0 <= m < 12
    ensures MonthStart(12 * y + m) == DayFromYear(y) + DaysBefore(m, Leap(y))
  {
    YearStart(y);
    WithinYear(y, m);
  }
}
