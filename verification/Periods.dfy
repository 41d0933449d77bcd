/** Reporting periods as pairs of ISO dates (collections/schedule-dates.ts): which days a run reports on. */
module Periods {
  import opened Common
  import opened Texts
  import opened Calendar
  import opened Schedule

  // --------------------------------------------------------------------- ISO text

  /** The language's `<` on strings. */
  predicate Less(s: string, t: string) {
    if s == "" || t == "" then s == "" && t != ""
    else s[0] < t[0] || (s[0] == t[0] && Less(s[1..], t[1..]))
  }

  /** They agree up to `k`, where the first ends or has the lesser character. */
  predicate LessAt(s: string, t: string, k: nat) {
    k <= |s| && k < |t| && s[..k] == t[..k] && (k == |s| || s[k] < t[k])
  }

  /** The order of the code units at the first difference, and a prefix is less (IsLessThan of ECMA-262). */
  lemma {:induction false} LessIff(s: string, t: string)
    ensures Less(s, t) <==> exists k: nat :: LessAt(s, t, k)
  {
    if s == "" || t == "" {
      assert s == "" && t != "" ==> LessAt(s, t, 0);
    } else {
      LessIff(s[1..], t[1..]);
      if s[0] < t[0] { assert LessAt(s, t, 0); }
      if k: nat :| s[0] == t[0] && LessAt(s[1..], t[1..], k) {
        assert s[..k + 1] == [s[0]] + s[1..][..k] && t[..k + 1] == [t[0]] + t[1..][..k];
        assert LessAt(s, t, k + 1);
      }
      if k: nat :| LessAt(s, t, k) && k > 0 {
        assert s[0] == s[..k][0] == t[..k][0] == t[0];
        assert s[..k][1..] == s[1..][..k - 1] && t[..k][1..] == t[1..][..k - 1];
        assert LessAt(s[1..], t[1..], k - 1);
      }
    }
  }

  /** The last `w` decimal digits. */
  function Pad(n: nat, w: nat): (s: string)
    ensures |s| == w && forall i | 0 <= i < w :: IsDigit(s[i])
  {
    if w == 0 then "" else Pad(n / 10, w - 1) + [Digit(n % 10)]
  }

  /** Four digits, or a sign and six. */
  function YearText(y: int): (s: string)
    ensures |s| >= 4
  {
    if 0 <= y <= 9999 then Pad(y, 4) else if y < 0 then "-" + Pad(-y, 6) else "+" + Pad(y, 6)
  }

  /** The first ten characters of toISOString. */
  function Iso(n: int): (s: string)
    ensures |s| == 10
  {
    (YearText(YearOf(n)) + "-" + Pad(MonthInYear(n) + 1, 2) + "-" + Pad(DateOf(n), 2))[..10]
  }

  /** Dates whose year has four digits. */
  predicate FourDigits(n: int) { 0 <= YearOf(n) <= 9999 }

  function Tens(w: nat): nat { if w == 0 then 1 else 10 * Tens(w - 1) }

  lemma {:induction false} LessIrreflexive(s: string)
    ensures !Less(s, s)
  {
    if s != "" { LessIrreflexive(s[1..]); }
  }

  /** Texts that share their length are compared part by part. */
  lemma {:induction false} LessParts(a: string, b: string, s: string, t: string)
    requires |a| == |b|
    ensures Less(a + s, b + t) <==> Less(a, b) || (a == b && Less(s, t))
  {
    if a == "" {
      assert a + s == s && b + t == t;
    } else {
      assert (a + s)[1..] == a[1..] + s && (b + t)[1..] == b[1..] + t;
      LessParts(a[1..], b[1..], s, t);
      assert a == [a[0]] + a[1..] && b == [b[0]] + b[1..];
    }
  }

  lemma {:induction false} PadOrder(x: nat, y: nat, w: nat)
    requires x < Tens(w) && y < Tens(w)
    ensures Less(Pad(x, w), Pad(y, w)) <==> x < y
    ensures Pad(x, w) == Pad(y, w) <==> x == y
    decreases w
  {
    if w > 0 {
      PadOrder(x / 10, y / 10, w - 1);
      LessParts(Pad(x / 10, w - 1), Pad(y / 10, w - 1), [Digit(x % 10)], [Digit(y % 10)]);
      PadLast(x, y, w);
    }
  }

  lemma PadLast(x: nat, y: nat, w: nat)
    requires w > 0
    ensures Pad(x, w) == Pad(y, w) <==> Pad(x / 10, w - 1) == Pad(y / 10, w - 1) && x % 10 == y % 10
    ensures Less([Digit(x % 10)], [Digit(y % 10)]) <==> x % 10 < y % 10
  {
    assert Pad(x, w)[..w - 1] == Pad(x / 10, w - 1) && Pad(y, w)[..w - 1] == Pad(y / 10, w - 1);
    assert Pad(x, w)[w - 1] == Digit(x % 10) && Pad(y, w)[w - 1] == Digit(y % 10);
  }

  lemma Widths()
    ensures Tens(2) == 100 && Tens(4) == 10000
  {
    assert Tens(2) == 100;
  }

  lemma IsoParts(n: int)
    requires FourDigits(n)
    ensures Iso(n) == Pad(YearOf(n), 4) + ("-" + (Pad(MonthInYear(n) + 1, 2) + ("-" + Pad(DateOf(n), 2))))
  {
    hide Pad;
    var y, m, d := Pad(YearOf(n), 4), Pad(MonthInYear(n) + 1, 2), Pad(DateOf(n), 2);
    assert y + "-" + m + "-" + d == y + ("-" + (m + ("-" + d)));
  }

  lemma Hyphen(s: string, t: string)
    ensures Less("-" + s, "-" + t) <==> Less(s, t)
  {
    assert ("-" + s)[1..] == s && ("-" + t)[1..] == t;
  }

  /** ISO dates with four-digit years are ordered as their days. */
  lemma IsoOrder(a: int, b: int)
    requires FourDigits(a) && FourDigits(b)
    ensures Less(Iso(a), Iso(b)) <==> a < b
  {
    var ya, ma, da := Pad(YearOf(a), 4), Pad(MonthInYear(a) + 1, 2), Pad(DateOf(a), 2);
    var yb, mb, db := Pad(YearOf(b), 4), Pad(MonthInYear(b) + 1, 2), Pad(DateOf(b), 2);
    Widths();
    IsoParts(a);
    IsoParts(b);
    LessParts(ya, yb, "-" + (ma + ("-" + da)), "-" + (mb + ("-" + db)));
    Hyphen(ma + ("-" + da), mb + ("-" + db));
    LessParts(ma, mb, "-" + da, "-" + db);
    Hyphen(da, db);
    PadOrder(YearOf(a), YearOf(b), 4);
    PadOrder(MonthInYear(a) + 1, MonthInYear(b) + 1, 2);
    PadOrder(DateOf(a), DateOf(b), 2);
    DateOrder(a, b);
  }

  // ------------------------------------------------------------------ the period

  datatype Period = Period(from: string, to: string)

  /** The first day and the first day not included. */
  function ElapsedDays(c: Cadence, t: int): (int, int) {
    var n := DayOf(t);
    var y, m, d := YearOf(n), MonthInYear(n), DateOf(n);
    if c == Weekly then (UtcDay(y, m, d) - 7, UtcDay(y, m, d))
    else if c == Monthly then (UtcDay(y, m - 1, 1), UtcDay(y, m, 1))
    else (UtcDay(y - 1, 0, 1), UtcDay(y, 0, 1))
  }

  function ElapsedPeriod(c: Cadence, t: int): Period {
    Period(Iso(ElapsedDays(c, t).0), Iso(ElapsedDays(c, t).1))
  }

  /** By the first ten characters of the value. */
  predicate InPeriod(value: Option<string>, p: Period) {
    if value == None || value == Some("") then false
    else
      var day := if |value.value| <= 10 then value.value else value.value[..10];
      !Less(day, p.from) && Less(day, p.to)
  }

  /** A missing value, and a text cut off before its period begins, are in no period. */
  lemma NotInPeriod(value: Option<string>, p: Period)
    requires value.Some? ==> value.value < p.from && |value.value| <= 10
    ensures !InPeriod(value, p)
  {
    if value.Some? && value.value != "" {
      LessIff(value.value, p.from);
      assert LessAt(value.value, p.from, |value.value|);
    }
  }

  function CadenceOf(s: Spec): Cadence {
    match s
    case WeeklyOn(_) => Weekly
    case MonthlyOn(_) => Monthly
    case YearlyOn(_, _) => Yearly
  }

  /** The first day the `j`-th run reports on. */
  function PeriodStart(s: Spec, j: int): int {
    match s
    case WeeklyOn(_) => Slot(s, j) - 7
    case MonthlyOn(_) => MonthStart(j - 1)
    case YearlyOn(_, _) => MonthStart(12 * (j - 1))
  }

  /** The run that reports on a day. */
  function Covering(s: Spec, n: int): int {
    match s
    case WeeklyOn(weekday) => (n - (weekday - 4)) / 7 + 1
    case MonthlyOn(_) => MonthOf(n) + 1
    case YearlyOn(_, _) => YearOf(n) + 1
  }

  lemma YearSpans(n: int, y: int)
    ensures MonthStart(12 * y) <= n < MonthStart(12 * y + 12) <==> YearOf(n) == y
  {
    hide MonthStart;
    var k := MonthOf(n);
    if k < 12 * y { MonthsIncrease(k + 1, 12 * y); }
    if k >= 12 * y { MonthsIncrease(12 * y, k); }
    if k < 12 * y + 12 { MonthsIncrease(k + 1, 12 * y + 12); }
    if k >= 12 * y + 12 { MonthsIncrease(12 * y + 12, k); }
  }

  /** The periods of consecutive runs tile the calendar: every day lies in exactly one. */
  lemma PeriodsTile(s: Spec, n: int, j: int)
    requires Valid(s)
    ensures PeriodStart(s, j) <= n < PeriodStart(s, j + 1) <==> j == Covering(s, n)
  {
    match s
    case WeeklyOn(weekday) =>
    case MonthlyOn(_) =>
      if MonthStart(j - 1) <= n < MonthStart(j) { MonthUnique(n, j - 1); }
    case YearlyOn(_, _) => YearSpans(n, j - 1);
  }

  lemma DayOfRun(n: int)
    ensures DayOf(At(n)) == n
  {
  }

  lemma SlotDate(s: Spec, j: int)
    requires Valid(s)
    ensures s.MonthlyOn? ==> MonthOf(Slot(s, j)) == j
    ensures s.YearlyOn? ==> YearOf(Slot(s, j)) == j
  {
    SlotIsRegular(s, j);
  }

  /** Date.UTC means the year it is given except for 0 to 99. */
  lemma UtcDayIff(y: int, m: int, d: int)
    ensures UtcDay(y, m, d) == MakeDay(y, m, d) <==> !(0 <= y <= 99)
  {
    MonthsIncrease(12 * y + m, 12 * (1900 + y) + m);
  }

  /** A year that Date.UTC takes for one of the 1900s is involved. */
  predicate OldRun(s: Spec, j: int) {
    var y := YearOf(Slot(s, j));
    0 <= y <= 99 || (s.YearlyOn? && y == 100)
  }

  lemma WeeklyElapsed(s: Spec, j: int)
    requires Valid(s) && s.WeeklyOn?
    ensures ElapsedDays(Weekly, At(Slot(s, j))) == (PeriodStart(s, j), PeriodStart(s, j + 1)) <==> !OldRun(s, j)
  {
    var n := Slot(s, j);
    DayOfRun(n);
    DayOfItsDate(n);
    UtcDayIff(YearOf(n), MonthInYear(n), DateOf(n));
  }

  lemma NewMonths(y: int, m: int)
    ensures UtcDay(y, m - 1, 1) == MonthStart(12 * y + m - 1) && UtcDay(y, m, 1) == MonthStart(12 * y + m)
       <==> !(0 <= y <= 99)
  {
    UtcDayIff(y, m - 1, 1);
    UtcDayIff(y, m, 1);
    assert MakeDay(y, m - 1, 1) == MonthStart(12 * y + m - 1);
    assert MakeDay(y, m, 1) == MonthStart(12 * y + m);
  }

  lemma MonthlyDays(n: int)
    ensures ElapsedDays(Monthly, At(n))
         == (UtcDay(YearOf(n), MonthInYear(n) - 1, 1), UtcDay(YearOf(n), MonthInYear(n), 1))
  {
    DayOfRun(n);
  }

  lemma YearlyDays(n: int)
    ensures ElapsedDays(Yearly, At(n)) == (UtcDay(YearOf(n) - 1, 0, 1), UtcDay(YearOf(n), 0, 1))
  {
    DayOfRun(n);
  }

  lemma YearAndMonth(n: int, j: int)
    requires MonthOf(n) == j
    ensures 12 * YearOf(n) + MonthInYear(n) == j
  {
  }

  lemma MonthlyElapsed(s: Spec, j: int)
    requires Valid(s) && s.MonthlyOn?
    ensures ElapsedDays(Monthly, At(Slot(s, j))) == (PeriodStart(s, j), PeriodStart(s, j + 1)) <==> !OldRun(s, j)
  {
    hide ElapsedDays, UtcDay, MonthStart, Slot, At;
    var n := Slot(s, j);
    SlotDate(s, j);
    MonthlyDays(n);
    YearAndMonth(n, j);
    NewMonths(YearOf(n), MonthInYear(n));
  }

  lemma NewYears(y: int)
    ensures UtcDay(y - 1, 0, 1) == MonthStart(12 * (y - 1)) && UtcDay(y, 0, 1) == MonthStart(12 * y)
       <==> !(0 <= y <= 100)
  {
    UtcDayIff(y - 1, 0, 1);
    UtcDayIff(y, 0, 1);
    assert MakeDay(y - 1, 0, 1) == MonthStart(12 * (y - 1));
    assert MakeDay(y, 0, 1) == MonthStart(12 * y);
  }

  lemma YearlyElapsed(s: Spec, j: int)
    requires Valid(s) && s.YearlyOn?
    ensures ElapsedDays(Yearly, At(Slot(s, j))) == (PeriodStart(s, j), PeriodStart(s, j + 1)) <==> !OldRun(s, j)
  {
    hide ElapsedDays, UtcDay, MonthStart, Slot, At;
    var n := Slot(s, j);
    YearlyDays(n);
    SlotDate(s, j);
    assert YearOf(n) == j;
    NewYears(j);
  }

  /** The code's period is the one of the run's slot exactly when no old year is involved. */
  lemma ElapsedIff(s: Spec, j: int)
    requires Valid(s)
    ensures ElapsedDays(CadenceOf(s), At(Slot(s, j))) == (PeriodStart(s, j), PeriodStart(s, j + 1)) <==> !OldRun(s, j)
  {
    match s
    case WeeklyOn(_) => WeeklyElapsed(s, j);
    case MonthlyOn(_) => MonthlyElapsed(s, j);
    case YearlyOn(_, _) => YearlyElapsed(s, j);
  }

  lemma YearRange(n: int, lo: int, hi: int)
    requires MonthStart(12 * lo) <= n < MonthStart(12 * hi)
    ensures lo <= YearOf(n) < hi
  {
    var k := MonthOf(n);
    if k < 12 * lo { MonthsIncrease(k + 1, 12 * lo); }
    if k >= 12 * hi { MonthsIncrease(12 * hi, k); }
  }

  lemma InYears(n: int, lo: int, hi: int)
    requires lo <= YearOf(n) < hi
    ensures MonthStart(12 * lo) <= n < MonthStart(12 * hi)
  {
    MonthsIncrease(12 * lo, MonthOf(n));
    MonthsIncrease(MonthOf(n) + 1, 12 * hi);
  }

  lemma MonthSlotWithin(k: int, day: int)
    requires 1 <= day <= 28
    ensures MonthStart(k) <= MonthStart(k) + day - 1 < MonthStart(k + 1)
    ensures MonthStart(k - 1) + 28 <= MonthStart(k)
  {
    MonthLength(k);
    MonthLength(k - 1);
  }

  lemma WeeklyBefore(s: Spec, j: int, lo: int)
    requires Valid(s) && s.WeeklyOn? && MonthStart(lo) <= Slot(s, j)
    ensures MonthStart(lo - 1) <= PeriodStart(s, j) && PeriodStart(s, j + 1) <= Slot(s, j)
  {
    MonthSlotWithin(lo, 1);
  }

  lemma MonthlyBefore(s: Spec, j: int, lo: int)
    requires Valid(s) && s.MonthlyOn? && MonthStart(lo) <= Slot(s, j)
    ensures MonthStart(lo - 1) <= PeriodStart(s, j) && PeriodStart(s, j + 1) <= Slot(s, j)
  {
    MonthSlotWithin(j, s.day);
    if j < lo { MonthsIncrease(j + 1, lo); }
    MonthsIncrease(lo - 1, j - 1);
  }

  lemma YearlyBefore(s: Spec, j: int, lo: int)
    requires Valid(s) && s.YearlyOn? && MonthStart(lo) <= Slot(s, j)
    ensures MonthStart(lo - 12) <= PeriodStart(s, j + 1) && MonthStart(lo - 24) <= PeriodStart(s, j)
    ensures PeriodStart(s, j + 1) <= Slot(s, j)
  {
    var k := 12 * j + s.month - 1;
    MonthSlotWithin(k, s.day);
    if k < lo { MonthsIncrease(k + 1, lo); }
    MonthsIncrease(lo - 12, 12 * j);
    MonthsIncrease(lo - 24, 12 * (j - 1));
    MonthsIncrease(12 * j, k);
  }

  lemma PeriodBefore(s: Spec, j: int, lo: int)
    requires Valid(s) && MonthStart(lo) <= Slot(s, j)
    ensures MonthStart(lo - 24) <= PeriodStart(s, j) && PeriodStart(s, j + 1) <= Slot(s, j)
  {
    MonthsIncrease(lo - 24, lo - 1);
    match s
    case WeeklyOn(_) => WeeklyBefore(s, j, lo);
    case MonthlyOn(_) => MonthlyBefore(s, j, lo);
    case YearlyOn(_, _) => YearlyBefore(s, j, lo);
  }

  lemma PeriodNonEmpty(s: Spec, j: int)
    requires Valid(s)
    ensures PeriodStart(s, j) < PeriodStart(s, j + 1)
  {
    match s
    case WeeklyOn(_) =>
    case MonthlyOn(_) => MonthLength(j - 1);
    case YearlyOn(_, _) => MonthsIncrease(12 * (j - 1), 12 * j);
  }

  lemma PeriodYears(s: Spec, j: int, lo: int, hi: int)
    requires Valid(s) && 100 <= YearOf(Slot(s, j)) < hi && hi == 10000 && lo == 100
    ensures FourDigits(PeriodStart(s, j)) && FourDigits(PeriodStart(s, j + 1))
  {
    InYears(Slot(s, j), lo, hi);
    PeriodBefore(s, j, 12 * lo);
    PeriodNonEmpty(s, j);
    YearRange(PeriodStart(s, j), lo - 2, hi);
    YearRange(PeriodStart(s, j + 1), lo - 2, hi);
  }

  /** `inPeriod` says of the day, written as a date or a timestamp, what is true of the period of the `j`-th run. */
  predicate ReadsRight(s: Spec, j: int, n: int, rest: string)
    requires Valid(s)
  {
    InPeriod(Some(Iso(n) + rest), ElapsedPeriod(CadenceOf(s), At(Slot(s, j)))) <==> j == Covering(s, n)
  }

  lemma FourDigitDay(s: Spec, j: int, n: int, rest: string)
    requires Valid(s) && FourDigits(n) && FourDigits(Slot(s, j)) && !OldRun(s, j)
    ensures ReadsRight(s, j, n, rest)
  {
    var lo, hi := 100, 10000;
    ElapsedIff(s, j);
    PeriodYears(s, j, lo, hi);
    IsoOrder(n, PeriodStart(s, j));
    IsoOrder(n, PeriodStart(s, j + 1));
    PeriodsTile(s, n, j);
    FirstTen(Iso(n), rest);
  }

  /** A sign is before every digit. */
  lemma SignFirst(n: int, a: int)
    requires !FourDigits(n) && FourDigits(a)
    ensures Less(Iso(n), Iso(a)) && !Less(Iso(a), Iso(n))
  {
    ExpandedIso(n);
    IsoParts(a);
    assert Iso(a)[0] == Pad(YearOf(a), 4)[0] && IsDigit(Iso(a)[0]);
  }

  lemma ExpandedDay(s: Spec, j: int, n: int, rest: string)
    requires Valid(s) && !FourDigits(n) && FourDigits(Slot(s, j)) && !OldRun(s, j)
    ensures ReadsRight(s, j, n, rest)
  {
    var lo, hi := 100, 10000;
    ElapsedIff(s, j);
    PeriodYears(s, j, lo, hi);
    SignFirst(n, PeriodStart(s, j));
    FirstTen(Iso(n), rest);
    PeriodsTile(s, n, j);
    if PeriodStart(s, j) <= n < PeriodStart(s, j + 1) {
      YearsOrdered(PeriodStart(s, j), n);
      YearsOrdered(n, PeriodStart(s, j + 1));
    }
  }

  /** A day is in the period of one run only: the one that covers it. */
  lemma InPeriodRight(s: Spec, j: int, n: int, rest: string)
    requires Valid(s) && FourDigits(Slot(s, j)) && !OldRun(s, j)
    ensures ReadsRight(s, j, n, rest)
  {
    if FourDigits(n) { FourDigitDay(s, j, n, rest); } else { ExpandedDay(s, j, n, rest); }
  }

  // ----------------------------------------------- what an old run takes for its own

  lemma YearsAround(q: int, e: int, lo: int, hi: int)
    requires 12 * lo < q && q + 2 <= 12 * hi && -8 <= e <= 31
    ensures lo <= YearOf(MonthStart(q) + e) < hi
  {
    hide MonthStart, YearOf, MonthOf;
    MonthLength(q - 1);
    MonthLength(q);
    MonthLength(q + 1);
    MonthsIncrease(12 * lo, q - 1);
    MonthsIncrease(q + 2, 12 * hi);
    YearRange(MonthStart(q) + e, lo, hi);
  }

  /** A period that ends in the 1900s. */
  predicate EndsLate(from: int, to: int) {
    && from < to && 1899 <= YearOf(to - 1) <= 2000 && FourDigits(to)
    && (FourDigits(from) || YearOf(from) < 0)
  }

  lemma OldUtc(y: int, m: int, d: int, q: int)
    requires 0 <= y <= 99 && q == 12 * (1900 + y) + m
    ensures UtcDay(y, m, d) == MonthStart(q) + d - 1
  {
  }

  lemma WeeklyLate(n: int, q: int, lo: int, hi: int)
    requires 0 <= YearOf(n) <= 99 && q == 12 * (1900 + YearOf(n)) + MonthInYear(n) && lo == 1899 && hi == 2001
    ensures EndsLate(ElapsedDays(Weekly, At(n)).0, ElapsedDays(Weekly, At(n)).1)
  {
    hide MonthStart, MonthOf, DayOf, At;
    DayOfRun(n);
    OldUtc(YearOf(n), MonthInYear(n), DateOf(n), q);
    YearsAround(q, DateOf(n) - 1, lo, hi);
    YearsAround(q, DateOf(n) - 2, lo, hi);
    YearsAround(q, DateOf(n) - 8, lo, hi);
  }

  lemma MonthlyLate(n: int, q: int, lo: int, hi: int)
    requires 0 <= YearOf(n) <= 99 && q == 12 * (1900 + YearOf(n)) + MonthInYear(n) && lo == 1899 && hi == 2001
    ensures EndsLate(ElapsedDays(Monthly, At(n)).0, ElapsedDays(Monthly, At(n)).1)
  {
    hide MonthStart, MonthOf, DayOf, At, ElapsedDays, UtcDay;
    MonthlyDays(n);
    OldUtc(YearOf(n), MonthInYear(n) - 1, 1, q - 1);
    OldUtc(YearOf(n), MonthInYear(n), 1, q);
    MonthLength(q - 1);
    YearsAround(q, 0, lo, hi);
    YearsAround(q, -1, lo, hi);
    YearsAround(q - 1, 0, lo, hi);
  }

  /** The first day of the year -1. */
  lemma BeforeYearZero(k: int, q: int)
    requires k == -12 && k < q
    ensures UtcDay(-1, 0, 1) == MonthStart(k) < MonthStart(q) && YearOf(MonthStart(k)) == -1
  {
    MonthLength(k);
    MonthUnique(MonthStart(k), k);
    MonthsIncrease(k, q);
  }

  lemma YearlyLate(n: int, q: int, lo: int, hi: int)
    requires 0 <= YearOf(n) <= 99 && q == 12 * (1900 + YearOf(n)) && lo == 1899 && hi == 2001
    ensures EndsLate(ElapsedDays(Yearly, At(n)).0, ElapsedDays(Yearly, At(n)).1)
  {
    hide MonthStart, MonthOf, DayOf, At, ElapsedDays, UtcDay;
    YearlyDays(n);
    OldUtc(YearOf(n), 0, 1, q);
    YearsAround(q, 0, lo, hi);
    YearsAround(q, -1, lo, hi);
    if YearOf(n) > 0 {
      OldUtc(YearOf(n) - 1, 0, 1, q - 12);
      MonthsIncrease(q - 12, q);
      YearsAround(q - 12, 0, lo, hi);
    } else {
      BeforeYearZero(-12, q);
    }
  }

  lemma OldEndsLate(s: Spec, j: int)
    requires Valid(s) && 0 <= YearOf(Slot(s, j)) <= 99
    ensures var p := ElapsedDays(CadenceOf(s), At(Slot(s, j))); EndsLate(p.0, p.1)
  {
    var n := Slot(s, j);
    var q := 12 * (1900 + YearOf(n));
    match s
    case WeeklyOn(_) => WeeklyLate(n, q + MonthInYear(n), 1899, 2001);
    case MonthlyOn(_) => MonthlyLate(n, q + MonthInYear(n), 1899, 2001);
    case YearlyOn(_, _) => YearlyLate(n, q, 1899, 2001);
  }

  /** The last day before such an end passes, although no run of those years reports on it. */
  lemma LateDayPasses(s: Spec, j: int, rest: string) returns (n: int)
    requires Valid(s) && 0 <= YearOf(Slot(s, j)) <= 99
    ensures !ReadsRight(s, j, n, rest)
  {
    var (from, to) := ElapsedDays(CadenceOf(s), At(Slot(s, j)));
    OldEndsLate(s, j);
    n := to - 1;
    IsoOrder(n, to);
    if FourDigits(from) { IsoOrder(n, from); } else { SignFirst(from, n); }
    FirstTen(Iso(n), rest);
    NotCovered(s, j, n);
  }

  lemma NotCovered(s: Spec, j: int, n: int)
    requires Valid(s) && YearOf(Slot(s, j)) < YearOf(n)
    ensures j != Covering(s, n)
  {
    var m := Slot(s, j);
    PeriodBefore(s, j, MonthOf(m));
    PeriodsTile(s, n, j);
    if n <= m { YearsOrdered(n, m); }
  }

  /** The run of the year 100 looks for the year 99 in 1999. */
  lemma Year99Fails(s: Spec, j: int, rest: string) returns (n: int)
    requires Valid(s) && s.YearlyOn? && YearOf(Slot(s, j)) == 100
    ensures !ReadsRight(s, j, n, rest)
  {
    SlotDate(s, j);
    DayOfRun(Slot(s, j));
    n := MonthStart(12 * (j - 1));
    var from := UtcDay(j - 1, 0, 1);
    assert ElapsedDays(Yearly, At(Slot(s, j))).0 == from;
    PeriodNonEmpty(s, j);
    PeriodsTile(s, n, j);
    Year99Days(n, from, 99, 1999, 1998, 2001);
    IsoOrder(n, from);
    FirstTen(Iso(n), rest);
  }

  lemma Year99Days(n: int, from: int, y: int, z: int, lo: int, hi: int)
    requires n == MonthStart(12 * y) && from == MonthStart(12 * z) && y == 99 && z == 1999 && lo == 1998 && hi == 2001
    ensures FourDigits(n) && FourDigits(from) && n < from
  {
    YearsAround(12 * z, 0, lo, hi);
    YearsAround(12 * y, 0, y - 1, y + 1);
    MonthsIncrease(12 * y, 12 * z);
  }

  lemma OldRunMisreads(s: Spec, j: int, rest: string) returns (n: int)
    requires Valid(s) && OldRun(s, j)
    ensures !ReadsRight(s, j, n, rest)
  {
    if YearOf(Slot(s, j)) == 100 {
      n := Year99Fails(s, j, rest);
    } else {
      n := LateDayPasses(s, j, rest);
    }
  }

  /** A run of a year up to 9999 reads every day right, written as a date or a timestamp, if and only if no old year is
      involved. */
  lemma InPeriodIff(s: Spec, j: int, rest: string)
    requires Valid(s) && FourDigits(Slot(s, j))
    ensures (forall n: int :: ReadsRight(s, j, n, rest)) <==> !OldRun(s, j)
  {
    if OldRun(s, j) {
      var n := OldRunMisreads(s, j, rest);
    } else {
      forall n: int ensures ReadsRight(s, j, n, rest) { InPeriodRight(s, j, n, rest); }
    }
  }

  lemma FirstTen(s: string, rest: string)
    requires |s| == 10
    ensures (s + rest)[..10] == s && s + rest != "" && (|s + rest| <= 10 ==> s + rest == s)
  {
  }

  /** Beyond four digits the first ten characters hold no day: all days of a month read alike. */
  lemma ExpandedYearsBlur(n: int, k: int)
    requires !FourDigits(n) && MonthOf(n) == MonthOf(k)
    ensures Iso(n) == Iso(k)
  {
    hide Iso, Pad, MonthOf;
    ExpandedIso(n);
    ExpandedIso(k);
  }

  /** So no test by the first ten characters can be right for two days of such a month that different runs report on. */
  lemma BlurredPeriods(s: Spec, n: int, k: int, p: Period, rest: string)
    requires !FourDigits(n) && MonthOf(n) == MonthOf(k) && Covering(s, n) != Covering(s, k)
    ensures !(InPeriod(Some(Iso(n) + rest), p) && !InPeriod(Some(Iso(k) + rest), p))
  {
    ExpandedYearsBlur(n, k);
  }

  // ------------------------------------------------------------------ the last day

  predicate Digits(s: string) {
    forall i | 0 <= i < |s| :: IsDigit(s[i])
  }

  /** Year, month and day of a text split at its hyphens; nothing for fewer than three parts, which raises, or parts that
      are not plain numbers. An empty part counts as zero. */
  function Numbers(parts: seq<string>): Option<(nat, nat, nat)> {
    if |parts| >= 3 && Digits(parts[0]) && Digits(parts[1]) && Digits(parts[2])
    then Some((Value(parts[0]), Value(parts[1]), Value(parts[2])))
    else None
  }

  /** The day before `to`. */
  function LastDay(to: string): Option<string> {
    match Numbers(Split(to, '-'))
    case None => None
    case Some((y, m, d)) => Some(Iso(UtcDay(y, m - 1, d - 1)))
  }

  lemma {:induction false} PadValue(n: nat, w: nat)
    requires n < Tens(w)
    ensures Value(Pad(n, w)) == n
    decreases w
  {
    if w > 0 {
      PadValue(n / 10, w - 1);
      assert Pad(n, w)[..w - 1] == Pad(n / 10, w - 1);
    }
  }

  lemma IsoSplit(n: int)
    requires FourDigits(n)
    ensures Split(Iso(n), '-') == [Pad(YearOf(n), 4), Pad(MonthInYear(n) + 1, 2), Pad(DateOf(n), 2)]
  {
    var y, m, d := Pad(YearOf(n), 4), Pad(MonthInYear(n) + 1, 2), Pad(DateOf(n), 2);
    IsoParts(n);
    NoHyphen(y);
    NoHyphen(m);
    NoHyphen(d);
    SplitThree(y, m, d);
  }

  lemma NumbersOf(y: string, m: string, d: string)
    requires Digits(y) && Digits(m) && Digits(d)
    ensures Numbers([y, m, d]) == Some((Value(y), Value(m), Value(d)))
  {
  }

  /** An ISO date reads back. */
  lemma NumbersOfIso(b: int)
    requires FourDigits(b)
    ensures Numbers(Split(Iso(b), '-')) == Some((YearOf(b), MonthInYear(b) + 1, DateOf(b)))
  {
    Widths();
    IsoSplit(b);
    NumbersOf(Pad(YearOf(b), 4), Pad(MonthInYear(b) + 1, 2), Pad(DateOf(b), 2));
    PadValue(YearOf(b), 4);
    PadValue(MonthInYear(b) + 1, 2);
    PadValue(DateOf(b), 2);
  }

  lemma IsoInjective(a: int, b: int)
    requires FourDigits(a) && FourDigits(b) && Iso(a) == Iso(b)
    ensures a == b
  {
    IsoOrder(a, b);
    IsoOrder(b, a);
    LessIrreflexive(Iso(a));
  }

  lemma LastDayFrom(to: string, y: nat, m: nat, d: nat)
    requires Numbers(Split(to, '-')) == Some((y, m, d))
    ensures LastDay(to) == Some(Iso(UtcDay(y, m - 1, d - 1)))
  {
  }

  /** The day the numbers of `b` lead to. */
  lemma DayBefore(b: int, c: int)
    requires c == UtcDay(YearOf(b), MonthInYear(b), DateOf(b) - 1)
    ensures c == b - 1 <==> !(0 <= YearOf(b) <= 99)
  {
    DayOfItsDate(b);
    UtcDayIff(YearOf(b), MonthInYear(b), DateOf(b) - 1);
  }

  /** From an old year the text is another day's. */
  lemma OldTextDiffers(b: int, c: int)
    requires FourDigits(b) && YearOf(b) <= 99 && c == UtcDay(YearOf(b), MonthInYear(b), DateOf(b) - 1)
    ensures Iso(c) != Iso(b - 1)
  {
    OldLastDay(b, c, 100, 1800, 2010);
    YearsOrdered(b - 1, b);
    if YearOf(b - 1) < 0 {
      SignsDiffer(c, b - 1);
    } else if Iso(c) == Iso(b - 1) {
      IsoInjective(c, b - 1);
    }
  }

  /** Years of four digits: right exactly past the year 99. */
  lemma FourDigitLastDay(b: int)
    requires FourDigits(b)
    ensures LastDay(Iso(b)) == Some(Iso(b - 1)) <==> YearOf(b) > 99
  {
    var c := UtcDay(YearOf(b), MonthInYear(b), DateOf(b) - 1);
    NumbersOfIso(b);
    LastDayFrom(Iso(b), YearOf(b), MonthInYear(b) + 1, DateOf(b));
    assert LastDay(Iso(b)) == Some(Iso(c));
    DayBefore(b, c);
    if YearOf(b) <= 99 { OldTextDiffers(b, c); }
  }

  lemma YearsOrdered(a: int, b: int)
    requires a <= b
    ensures YearOf(a) <= YearOf(b)
  {
    MonthsOrdered(a, b);
  }

  lemma YearSign(n: int)
    ensures Iso(n)[0] == '-' <==> YearOf(n) < 0
  {
  }

  lemma NoHyphen(s: string)
    requires Digits(s)
    ensures '-' !in s
  {
  }

  lemma ExpandedIso(n: int)
    requires !FourDigits(n)
    ensures var y := YearOf(n);
            Iso(n) == (if y < 0 then "-" else "+") + (Pad(if y < 0 then -y else y, 6) + ("-" + Pad(MonthInYear(n) + 1, 2)))
  {
    var y := YearOf(n);
    var sign, digits, m, d := if y < 0 then "-" else "+", Pad(if y < 0 then -y else y, 6), Pad(MonthInYear(n) + 1, 2),
      Pad(DateOf(n), 2);
    assert YearText(y) == sign + digits;
    assert (sign + digits + "-" + m + "-" + d)[..10] == sign + digits + "-" + m;
    assert sign + digits + "-" + m == sign + (digits + ("-" + m));
  }

  lemma JoinTwo(a: string, b: string)
    ensures Join([a, b], '-') == a + ("-" + b)
  {
    assert [a, b][1..] == [b];
    assert a + ['-'] + b == a + ("-" + b);
  }

  lemma SplitTwo(a: string, b: string)
    requires '-' !in a && '-' !in b
    ensures Split(a + ("-" + b), '-') == [a, b]
  {
    JoinTwo(a, b);
    SplitJoin([a, b], '-');
  }

  lemma SplitThree(a: string, b: string, c: string)
    requires '-' !in a && '-' !in b && '-' !in c
    ensures Split(a + ("-" + (b + ("-" + c))), '-') == [a, b, c]
  {
    JoinTwo(b, c);
    assert [a, b, c][1..] == [b, c];
    assert a + ['-'] + (b + ("-" + c)) == a + ("-" + (b + ("-" + c)));
    SplitJoin([a, b, c], '-');
  }

  /** A minus in front gives an empty first part. */
  lemma NegativeSplit(n: int) returns (y: string, m: string)
    requires YearOf(n) < 0
    ensures Digits(y) && Digits(m) && Split(Iso(n), '-') == ["", y, m]
  {
    y, m := Pad(-YearOf(n), 6), Pad(MonthInYear(n) + 1, 2);
    ExpandedIso(n);
    NoHyphen(y);
    NoHyphen(m);
    SplitThree("", y, m);
    assert "" + ("-" + (y + ("-" + m))) == "-" + (y + ("-" + m));
  }

  /** A plus in front leaves no third part. */
  lemma FarSplit(n: int)
    requires YearOf(n) > 9999
    ensures |Split(Iso(n), '-')| == 2
  {
    var y, m := Pad(YearOf(n), 6), Pad(MonthInYear(n) + 1, 2);
    ExpandedIso(n);
    NoHyphen(y);
    NoHyphen(m);
    SplitTwo("+" + y, m);
    assert ("+" + y) + ("-" + m) == "+" + (y + ("-" + m));
  }

  lemma FarFromNegative(m: nat, d: nat, k: int)
    requires k == 12 * 1899
    ensures YearOf(UtcDay(0, m - 1, d - 1)) >= 0
  {
    MonthsIncrease(k, 12 * 1900 + m - 1);
    var c := MakeDay(1900, m - 1, d - 1);
    if MonthOf(c) < 0 { MonthsIncrease(MonthOf(c) + 1, 0); MonthsIncrease(0, k); }
  }

  lemma SignsDiffer(a: int, b: int)
    requires YearOf(a) >= 0 && YearOf(b) < 0
    ensures Iso(a) != Iso(b)
  {
    YearSign(a);
    YearSign(b);
  }

  lemma NegativeNever(b: int, m: nat, d: nat, k: int)
    requires YearOf(b) < 0 && k == 12 * 1899
    ensures Iso(UtcDay(0, m - 1, d - 1)) != Iso(b - 1)
  {
    FarFromNegative(m, d, k);
    YearsOrdered(b - 1, b);
    SignsDiffer(UtcDay(0, m - 1, d - 1), b - 1);
  }

  lemma NegativeReads(b: int) returns (m: nat, d: nat)
    requires YearOf(b) < 0
    ensures Numbers(Split(Iso(b), '-')) == Some((0, m, d))
  {
    var y, x := NegativeSplit(b);
    NumbersOf("", y, x);
    m, d := Value(y), Value(x);
    assert Value("") == 0;
  }

  lemma NegativeLastDay(b: int)
    requires YearOf(b) < 0
    ensures LastDay(Iso(b)) != Some(Iso(b - 1))
  {
    var m, d := NegativeReads(b);
    LastDayFrom(Iso(b), 0, m, d);
    NegativeNever(b, m, d, 12 * 1899);
  }

  lemma FarLastDay(b: int)
    requires YearOf(b) > 9999
    ensures LastDay(Iso(b)) == None
  {
    FarSplit(b);
  }

  /** Years with a sign: never right. */
  lemma ExpandedLastDay(b: int)
    requires !FourDigits(b)
    ensures LastDay(Iso(b)) != Some(Iso(b - 1))
  {
    if YearOf(b) < 0 { NegativeLastDay(b); } else { FarLastDay(b); }
  }

  /** The last day of a period is the day before its end exactly when the end's year has four digits and is past 99. */
  lemma LastDayIff(b: int)
    ensures LastDay(Iso(b)) == Some(Iso(b - 1)) <==> FourDigits(b) && YearOf(b) > 99
  {
    if FourDigits(b) {
      FourDigitLastDay(b);
    } else {
      ExpandedLastDay(b);
    }
  }

  lemma MonthsBetween(lo: int, k: int, hi: int, d: int)
    requires lo < k && k + 31 <= hi && 0 <= d <= 30
    ensures MonthStart(lo) <= MonthStart(k) + d - 1 < MonthStart(hi)
  {
    MonthsIncrease(lo, k);
    MonthsIncrease(k, hi);
  }

  lemma OldLastDay(b: int, c: int, mid: int, lo: int, hi: int)
    requires FourDigits(b) && YearOf(b) <= 99 && mid == 100 && lo == 1800 && hi == 2010
    requires c == UtcDay(YearOf(b), MonthInYear(b), DateOf(b) - 1)
    ensures FourDigits(c) && c != b - 1
  {
    MonthsBetween(12 * lo, 12 * (1900 + YearOf(b)) + MonthInYear(b), 12 * hi, DateOf(b) - 1);
    YearRange(c, lo, hi);
    InYears(b, 0, mid);
    MonthsIncrease(12 * mid, 12 * lo);
  }

  /** The run of the first day of year 0, and the day after it: neither period nor last day is right. */
  lemma YearZeroIsWrong()
    ensures ElapsedDays(Monthly, At(Slot(MonthlyOn(1), 0))) != (PeriodStart(MonthlyOn(1), 0), PeriodStart(MonthlyOn(1), 1))
    ensures var b := START_OF_YEAR_0 + 1; LastDay(Iso(b)) != Some(Iso(b - 1))
  {
    var s, b := MonthlyOn(1), START_OF_YEAR_0 + 1;
    MonthLength(0);
    MonthUnique(START_OF_YEAR_0, 0);
    MonthUnique(b, 0);
    assert Slot(s, 0) == START_OF_YEAR_0;
    MonthlyElapsed(s, 0);
    LastDayIff(b);
  }
}
