/** When a scheduled export runs and which period it covers (collections/schedule-dates.ts). Instants are milliseconds
    since 1970-01-01 UTC. */
module Schedule {
  import opened Common
  import opened Calendar

  // -------------------------------------------------------------------- the spec

  datatype Field = Absent | Fraction | Whole(value: int)
  datatype Cadence = Weekly | Monthly | Yearly | Other
  datatype RawSpec = RawSpec(cadence: Cadence, weekday: Field, day: Field, month: Field)

  /** A checked spec holds only the fields its cadence uses. */
  datatype Spec = WeeklyOn(weekday: int) | MonthlyOn(day: int) | YearlyOn(day: int, month: int)

  datatype SpecError = BadWeekday | BadDay | BadMonth | BadCadence
  datatype Checked = Good(spec: Spec) | Bad(error: SpecError)

  predicate Between(f: Field, lo: int, hi: int) {
    f.Whole? && lo <= f.value <= hi
  }

  function NormalizeSpec(raw: RawSpec): Checked {
    match raw.cadence
    case Weekly => if Between(raw.weekday, 1, 7) then Good(WeeklyOn(raw.weekday.value)) else Bad(BadWeekday)
    case Monthly => if Between(raw.day, 1, 28) then Good(MonthlyOn(raw.day.value)) else Bad(BadDay)
    case Yearly =>
      if !Between(raw.day, 1, 28) then Bad(BadDay)
      else if !Between(raw.month, 1, 12) then Bad(BadMonth)
      else Good(YearlyOn(raw.day.value, raw.month.value))
    case Other => Bad(BadCadence)
  }

  predicate Valid(s: Spec) {
    match s
    case WeeklyOn(w) => 1 <= w <= 7
    case MonthlyOn(d) => 1 <= d <= 28
    case YearlyOn(d, m) => 1 <= d <= 28 && 1 <= m <= 12
  }

  /** The spec as it would be given again. */
  function Raw(s: Spec): RawSpec {
    match s
    case WeeklyOn(w) => RawSpec(Weekly, Whole(w), Absent, Absent)
    case MonthlyOn(d) => RawSpec(Monthly, Absent, Whole(d), Absent)
    case YearlyOn(d, m) => RawSpec(Yearly, Absent, Whole(d), Whole(m))
  }

  /** The checked spec is valid, and checking it again changes nothing. */
  lemma NormalizedIsValid(raw: RawSpec)
    ensures NormalizeSpec(raw).Good? ==>
              Valid(NormalizeSpec(raw).spec) && NormalizeSpec(Raw(NormalizeSpec(raw).spec)) == NormalizeSpec(raw)
    ensures forall s | Valid(s) :: NormalizeSpec(Raw(s)) == Good(s)
  {
  }

  // -------------------------------------------------------------------- instants

  const DAY := 86_400_000
  const RUN_HOUR := 14_400_000

  function DayOf(t: int): int { t / DAY }

  /** 04:00 UTC of a day. */
  function At(n: int): int { n * DAY + RUN_HOUR }

  /** The first run after `after`. */
  function NextRunAt(s: Spec, after: int): int
    requires Valid(s)
  {
    var n := DayOf(after);
    var y, m := YearOf(n), MonthInYear(n);
    match s
    case WeeklyOn(weekday) =>
      var today := UtcDay(y, m, DateOf(n));
      var ahead := (weekday - WeekdayOf(today) + 7) % 7;
      if At(today + ahead) <= after then At(today + ahead + 7) else At(today + ahead)
    case MonthlyOn(day) =>
      var candidate := At(UtcDay(y, m, day));
      if candidate > after then candidate else At(UtcDay(y, m + 1, day))
    case YearlyOn(day, month) =>
      var candidate := At(UtcDay(y, month - 1, day));
      if candidate > after then candidate else At(UtcDay(y + 1, month - 1, day))
  }

  // ----------------------------------------------------------------- regular runs

  /** The days a schedule names. */
  predicate RegularDay(s: Spec, n: int) {
    match s
    case WeeklyOn(weekday) => WeekdayOf(n) == weekday
    case MonthlyOn(day) => DateOf(n) == day
    case YearlyOn(day, month) => DateOf(n) == day && MonthInYear(n) == month - 1
  }

  ghost predicate Regular(s: Spec, t: int) {
    exists n: int :: t == At(n) && RegularDay(s, n)
  }

  /** The `j`-th regular day: by week, by month, by year. */
  function Slot(s: Spec, j: int): int {
    match s
    case WeeklyOn(weekday) => 7 * j + weekday - 4
    case MonthlyOn(day) => MakeDay(0, j, day)
    case YearlyOn(day, month) => MakeDay(j, month - 1, day)
  }

  /** The slot a day belongs to: its own when it is regular. */
  function SlotIndex(s: Spec, n: int): int {
    match s
    case WeeklyOn(weekday) => (n - (weekday - 4)) / 7
    case MonthlyOn(_) => MonthOf(n)
    case YearlyOn(_, _) => YearOf(n)
  }

  lemma MonthSlot(k: int, day: int)
    requires 1 <= day <= 28
    ensures MonthOf(MonthStart(k) + day - 1) == k && DateOf(MonthStart(k) + day - 1) == day
  {
    MonthLength(k);
    MonthUnique(MonthStart(k) + day - 1, k);
  }

  lemma WeekSlot(j: int, weekday: int)
    requires 1 <= weekday <= 7
    ensures WeekdayOf(7 * j + weekday - 4) == weekday && (7 * j + weekday - 4 - (weekday - 4)) / 7 == j
  {
    assert 7 * j + weekday - 4 + 3 == 7 * j + (weekday - 1);
  }

  lemma YearSlot(y: int, m: int, day: int)
    requires 0 <= m < 12 && 1 <= day <= 28
    ensures var n := MakeDay(y, m, day); YearOf(n) == y && MonthInYear(n) == m && DateOf(n) == day
  {
    MonthSlot(12 * y + m, day);
    MonthPlace(y, m);
  }

  /** The slots are exactly the regular days. */
  lemma SlotIsRegular(s: Spec, j: int)
    requires Valid(s)
    ensures RegularDay(s, Slot(s, j)) && SlotIndex(s, Slot(s, j)) == j
  {
    match s
    case WeeklyOn(weekday) => WeekSlot(j, weekday);
    case MonthlyOn(day) => MonthSlot(j, day);
    case YearlyOn(day, month) => YearSlot(j, month - 1, day);
  }

  lemma RegularIsSlot(s: Spec, n: int)
    requires Valid(s) && RegularDay(s, n)
    ensures Slot(s, SlotIndex(s, n)) == n
  {
  }

  lemma SlotsIncrease(s: Spec, i: int, j: int)
    requires Valid(s) && i < j
    ensures Slot(s, i) < Slot(s, j)
  {
    match s
    case WeeklyOn(weekday) =>
    case MonthlyOn(day) => MonthsIncrease(i, j);
    case YearlyOn(day, month) => MonthsIncrease(12 * i + month - 1, 12 * j + month - 1);
  }

  // --------------------------------------------------------------- the next run

  /** `t` is the first regular run after `after`. */
  ghost predicate FirstAfter(s: Spec, after: int, t: int) {
    && Regular(s, t) && t > after
    && forall u: int | Regular(s, u) && u > after :: t <= u
  }

  /** The slot whose run is the first after `after`: the one before lies on an earlier day, the one at or after. */
  lemma FirstSlot(s: Spec, after: int, j: int)
    requires Valid(s) && At(Slot(s, j)) > after && At(Slot(s, j - 1)) <= after
    ensures FirstAfter(s, after, At(Slot(s, j)))
  {
    SlotIsRegular(s, j);
    forall u: int | Regular(s, u) && u > after ensures At(Slot(s, j)) <= u {
      NoEarlierSlot(s, after, j, u);
    }
  }

  lemma NoEarlierSlot(s: Spec, after: int, j: int, u: int)
    requires Valid(s) && At(Slot(s, j - 1)) <= after && Regular(s, u) && u > after
    ensures At(Slot(s, j)) <= u
  {
    var n: int :| u == At(n) && RegularDay(s, n);
    RegularIsSlot(s, n);
    SlotOrder(s, SlotIndex(s, n), j);
  }

  lemma SlotOrder(s: Spec, i: int, j: int)
    requires Valid(s)
    ensures i < j ==> Slot(s, i) <= Slot(s, j - 1)
    ensures i >= j ==> Slot(s, i) >= Slot(s, j)
  {
    if i < j - 1 { SlotsIncrease(s, i, j - 1); }
    if j < i { SlotsIncrease(s, j, i); }
  }

  lemma FirstUnique(s: Spec, after: int, t: int, u: int)
    requires FirstAfter(s, after, t) && FirstAfter(s, after, u)
    ensures t == u
  {
    assert t <= u && u <= t;
  }

  /** The slot in the week, month or year of the day of `after`. */
  function SlotAround(s: Spec, after: int): int {
    var n := DayOf(after);
    match s
    case WeeklyOn(weekday) => (n + ((weekday - WeekdayOf(n) + 7) % 7) - (weekday - 4)) / 7
    case MonthlyOn(_) => MonthOf(n)
    case YearlyOn(_, _) => YearOf(n)
  }

  lemma DayBounds(after: int)
    ensures DayOf(after) * DAY <= after < (DayOf(after) + 1) * DAY
  {
  }

  /** A run on an earlier day is over, one on a later day is to come. */
  lemma RunBefore(after: int, n: int)
    ensures n < DayOf(after) ==> At(n) <= after
    ensures n > DayOf(after) ==> At(n) > after
  {
    DayBounds(after);
  }

  lemma WeekAhead(n: int, weekday: int)
    requires 1 <= weekday <= 7
    ensures var ahead := (weekday - WeekdayOf(n) + 7) % 7;
            0 <= ahead < 7 && (n + ahead - (weekday - 4)) % 7 == 0
  {
    var r := n % 7;
    assert n == 7 * (n / 7) + r;
    assert WeekdayOf(n) == (r + 3) % 7 + 1;
  }

  lemma MonthAround(n: int, day: int)
    requires 1 <= day <= 28
    ensures MonthStart(MonthOf(n) - 1) + day - 1 < n < MonthStart(MonthOf(n) + 1) + day - 1
  {
    MonthLength(MonthOf(n) - 1);
  }

  lemma YearAround(n: int, m: int, day: int)
    requires 0 <= m < 12 && 1 <= day <= 28
    ensures MakeDay(YearOf(n) - 1, m, day) < n < MakeDay(YearOf(n) + 1, m, day)
  {
    var k, y := MonthOf(n), YearOf(n);
    MonthsIncrease(12 * (y - 1) + m + 1, k);
    MonthLength(12 * (y - 1) + m);
    MonthsIncrease(k + 1, 12 * (y + 1) + m);
  }

  /** The slot before the one around an instant is on an earlier day, the one after on a later day. */
  lemma AroundBounds(s: Spec, after: int)
    requires Valid(s)
    ensures var j := SlotAround(s, after);
            Slot(s, j - 1) < DayOf(after) && Slot(s, j + 1) > DayOf(after)
  {
    var n := DayOf(after);
    match s
    case WeeklyOn(weekday) => WeekAhead(n, weekday);
    case MonthlyOn(day) => MonthAround(n, day);
    case YearlyOn(day, month) => YearAround(n, month - 1, day);
  }

  /** The least regular run after an instant, by its slot. */
  function NextSlot(s: Spec, after: int): int {
    var j := SlotAround(s, after);
    if At(Slot(s, j)) > after then j else j + 1
  }

  lemma NextSlotIsFirst(s: Spec, after: int)
    requires Valid(s)
    ensures FirstAfter(s, after, At(Slot(s, NextSlot(s, after))))
  {
    hide Slot, At, SlotAround, FirstAfter;
    var j := SlotAround(s, after);
    AroundBounds(s, after);
    RunBefore(after, Slot(s, j - 1));
    RunBefore(after, Slot(s, j + 1));
    FirstSlot(s, after, NextSlot(s, after));
  }

  /** The year of the instant is one that Date.UTC takes for one of the 1900s; a yearly run may step into year 0. */
  predicate OldYear(s: Spec, after: int) {
    var y := YearOf(DayOf(after));
    0 <= y <= 99 || (s.YearlyOn? && y == -1 && At(MakeDay(-1, s.month - 1, s.day)) <= after)
  }

  lemma WeeklyNext(s: Spec, after: int)
    requires Valid(s) && s.WeeklyOn? && !OldYear(s, after)
    ensures NextRunAt(s, after) == At(Slot(s, NextSlot(s, after)))
  {
    DayOfItsDate(DayOf(after));
    WeekAhead(DayOf(after), s.weekday);
  }

  lemma MonthlyNext(s: Spec, after: int)
    requires Valid(s) && s.MonthlyOn? && !OldYear(s, after)
    ensures NextRunAt(s, after) == At(Slot(s, NextSlot(s, after)))
  {
    var n := DayOf(after);
    assert 12 * YearOf(n) + MonthInYear(n) == MonthOf(n);
  }

  /** Outside the old years the code's answer is the next slot. */
  lemma NextRunIsNextSlot(s: Spec, after: int)
    requires Valid(s) && !OldYear(s, after)
    ensures NextRunAt(s, after) == At(Slot(s, NextSlot(s, after)))
  {
    if s.WeeklyOn? {
      WeeklyNext(s, after);
    } else if s.MonthlyOn? {
      MonthlyNext(s, after);
    }
  }

  // ------------------------------------------------------------------- old years

  lemma MonthSlotBelow(k: int, l: int, day: int)
    requires k < l && day <= 28
    ensures MonthStart(k) + day - 1 < MonthStart(l)
  {
    MonthLength(k);
    MonthsIncrease(k + 1, l);
  }

  lemma WeekSlotSoon(s: Spec, after: int)
    requires Valid(s) && s.WeeklyOn?
    ensures Slot(s, NextSlot(s, after)) < MonthStart(MonthOf(DayOf(after)) + 2)
  {
    WeekAhead(DayOf(after), s.weekday);
    MonthLength(MonthOf(DayOf(after)) + 1);
  }

  lemma MonthSlotSoon(s: Spec, after: int)
    requires Valid(s) && s.MonthlyOn?
    ensures Slot(s, NextSlot(s, after)) < MonthStart(MonthOf(DayOf(after)) + 2)
  {
    MonthSlotBelow(NextSlot(s, after), MonthOf(DayOf(after)) + 2, s.day);
  }

  lemma YearSlotSoon(s: Spec, after: int)
    requires Valid(s) && s.YearlyOn?
    ensures Slot(s, NextSlot(s, after)) < MonthStart(12 * YearOf(DayOf(after)) + 36)
  {
    var j := NextSlot(s, after);
    MonthSlotBelow(12 * j + s.month - 1, 12 * YearOf(DayOf(after)) + 36, s.day);
  }

  lemma NextSlotSoon(s: Spec, after: int)
    requires Valid(s)
    ensures Slot(s, NextSlot(s, after)) < MonthStart(12 * YearOf(DayOf(after)) + 36)
  {
    var k := MonthOf(DayOf(after));
    MonthsIncrease(k + 2, 12 * (k / 12) + 36);
    match s
    case WeeklyOn(_) => WeekSlotSoon(s, after);
    case MonthlyOn(_) => MonthSlotSoon(s, after);
    case YearlyOn(_, _) => YearSlotSoon(s, after);
  }

  lemma MakeDayFrom(y: int, m: int, d: int, k: int)
    requires d >= 1 && k <= 12 * y + m
    ensures MakeDay(y, m, d) >= MonthStart(k)
  {
    MonthsIncrease(k, 12 * y + m);
  }

  lemma OldWeekly(s: Spec, after: int, k: int)
    requires Valid(s) && s.WeeklyOn? && OldYear(s, after) && k == 22800
    ensures NextRunAt(s, after) >= At(MonthStart(k))
  {
    var n := DayOf(after);
    MakeDayFrom(1900 + YearOf(n), MonthInYear(n), DateOf(n), k);
  }

  lemma OldMonthly(s: Spec, after: int, k: int)
    requires Valid(s) && s.MonthlyOn? && OldYear(s, after) && k == 22800
    ensures NextRunAt(s, after) >= At(MonthStart(k))
  {
    hide MonthStart;
    var n := DayOf(after);
    MakeDayFrom(1900 + YearOf(n), MonthInYear(n), s.day, k);
    MakeDayFrom(1900 + YearOf(n), MonthInYear(n) + 1, s.day, k);
  }

  /** A yearly run of the year before year 0 is over. */
  lemma StepIntoYear0(s: Spec, after: int, k: int)
    requires Valid(s) && s.YearlyOn? && YearOf(DayOf(after)) == -1 && OldYear(s, after) && k == 22800
    ensures NextRunAt(s, after) >= At(MonthStart(k))
  {
    var candidate := At(UtcDay(-1, s.month - 1, s.day));
    assert candidate <= after;
    assert NextRunAt(s, after) == At(UtcDay(0, s.month - 1, s.day));
    MakeDayFrom(1900, s.month - 1, s.day, k);
  }

  lemma LongAgo(after: int, c: int, k: int)
    requires YearOf(DayOf(after)) <= 99 && k == 22800 && c >= MonthStart(k)
    ensures At(c) > after
  {
    MonthsIncrease(MonthOf(DayOf(after)) + 1, k);
    RunBefore(after, c);
  }

  lemma OldYearly(s: Spec, after: int, k: int)
    requires Valid(s) && s.YearlyOn? && 0 <= YearOf(DayOf(after)) <= 99 && k == 22800
    ensures NextRunAt(s, after) >= At(MonthStart(k))
  {
    var y := YearOf(DayOf(after));
    var c := UtcDay(y, s.month - 1, s.day);
    MakeDayFrom(1900 + y, s.month - 1, s.day, k);
    LongAgo(after, c, k);
    assert NextRunAt(s, after) == At(c);
  }

  /** From an old year the code's answer lies in the 1900s or later. */
  lemma OldYearGoesFar(s: Spec, after: int, k: int)
    requires Valid(s) && OldYear(s, after) && k == 22800
    ensures NextRunAt(s, after) >= At(MonthStart(k))
  {
    if s.WeeklyOn? {
      OldWeekly(s, after, k);
    } else if s.MonthlyOn? {
      OldMonthly(s, after, k);
    } else if YearOf(DayOf(after)) == -1 {
      StepIntoYear0(s, after, k);
    } else {
      OldYearly(s, after, k);
    }
  }

  lemma OldYearIsLate(s: Spec, after: int)
    requires Valid(s) && OldYear(s, after)
    ensures !FirstAfter(s, after, NextRunAt(s, after))
  {
    var first := At(Slot(s, NextSlot(s, after)));
    var k := 22800;
    NextSlotIsFirst(s, after);
    NextSlotSoon(s, after);
    OldYearGoesFar(s, after, k);
    MonthsIncrease(12 * YearOf(DayOf(after)) + 36, k);
    if FirstAfter(s, after, NextRunAt(s, after)) {
      FirstUnique(s, after, first, NextRunAt(s, after));
    }
  }

  /** `nextRunAt` names the first regular run strictly after its argument, for every cadence and date, exactly when no
      old year is involved. */
  lemma NextRunIff(s: Spec, after: int)
    requires Valid(s)
    ensures FirstAfter(s, after, NextRunAt(s, after)) <==> !OldYear(s, after)
  {
    if OldYear(s, after) {
      OldYearIsLate(s, after);
    } else {
      NextSlotIsFirst(s, after);
      NextRunIsNextSlot(s, after);
    }
  }

  /** Run after run visits the slots one by one. */
  lemma RunsFollow(s: Spec, j: int)
    requires Valid(s) && !OldYear(s, At(Slot(s, j)))
    ensures NextRunAt(s, At(Slot(s, j))) == At(Slot(s, j + 1))
  {
    var after := At(Slot(s, j));
    SlotsIncrease(s, j, j + 1);
    FirstSlot(s, after, j + 1);
    NextRunIff(s, after);
    FirstUnique(s, after, NextRunAt(s, after), At(Slot(s, j + 1)));
  }

  /** On the first day of year 0, at the hour of the run, the next first of a month is not what comes back. */
  lemma YearZeroIsLate()
    ensures var s, after := MonthlyOn(1), At(START_OF_YEAR_0); !FirstAfter(s, after, NextRunAt(s, after))
  {
    var s, after := MonthlyOn(1), At(START_OF_YEAR_0);
    MonthLength(0);
    MonthUnique(START_OF_YEAR_0, 0);
    assert DayOf(after) == START_OF_YEAR_0;
    NextRunIff(s, after);
  }
}
