/** backend/apps/fbr/budget.py, lines 39-69: month boundaries and the edit deadline.

    Days are counted from 1 January of year 0 of the proleptic Gregorian calendar, and
    instants in microseconds from the start of that day in UTC. Pakistan Standard Time is
    UTC+5 all year. */
module Calendar {

  const MICROS: nat := 1_000_000
  const DAY_SECONDS: nat := 86_400
  const DAY: nat := 86_400_000_000
  const PKT_OFFSET: nat := 18_000_000_000
  const HOURS_72: nat := 259_200_000_000

  datatype Date = Date(year: nat, month: nat, day: nat)

  predicate Leap(year: nat) {
    year % 4 == 0 && (year % 100 != 0 || year % 400 == 0)
  }

  function DaysInMonth(year: nat, month: nat): (n: nat)
    ensures 28 <= n <= 31
  {
    if month == 2 then if Leap(year) then 29 else 28
    else if month in {4, 6, 9, 11} then 30 else 31
  }

  /** Months are numbered through: month m of year y is 12 * y + m - 1. */
  function MonthIndex(d: Date): nat
    requires 1 <= d.month
  {
    12 * d.year + d.month - 1
  }

  function MonthLength(k: nat): nat {
    DaysInMonth(k / 12, k % 12 + 1)
  }

  /** The day number of the first day of month k. */
  function MonthStart(k: nat): nat {
    if k == 0 then 0 else MonthStart(k - 1) + MonthLength(k - 1)
  }

  predicate ValidDate(d: Date) {
    1 <= d.month <= 12 && 1 <= d.day <= DaysInMonth(d.year, d.month)
  }

  function DayNumber(d: Date): nat
    requires ValidDate(d)
  {
    MonthStart(MonthIndex(d)) + d.day - 1
  }

  /** The month containing a day, found by walking forward from month k. */
  function MonthFrom(day: nat, k: nat): (m: nat)
    requires MonthStart(k) <= day
    ensures k <= m && MonthStart(m) <= day < MonthStart(m + 1)
    decreases day - MonthStart(k)
  {
    if day < MonthStart(k + 1) then k else MonthFrom(day, k + 1)
  }

  function MonthOf(day: nat): (m: nat)
    ensures MonthStart(m) <= day < MonthStart(m + 1)
  {
    MonthFrom(day, 0)
  }

  function ToDate(day: nat): (d: Date)
    ensures ValidDate(d)
  {
    var k := MonthOf(day);
    Date(k / 12, k % 12 + 1, day - MonthStart(k) + 1)
  }

  // ---- Calendar facts ------------------------------------------------------

  lemma {:induction false} MonthStartIncreases(j: nat, k: nat)
    requires j < k
    ensures MonthStart(j) + 28 <= MonthStart(k)
  {
    if j + 1 < k {
      MonthStartIncreases(j, k - 1);
    }
  }

  lemma MonthUnique(day: nat, k: nat)
    requires MonthStart(k) <= day < MonthStart(k + 1)
    ensures MonthOf(day) == k
  {
    var m := MonthOf(day);
    if m < k && m + 1 < k {
      MonthStartIncreases(m + 1, k);
    } else if k < m && k + 1 < m {
      MonthStartIncreases(k + 1, m);
    }
  }

  lemma MonthOfMonotone(a: nat, b: nat)
    requires a <= b
    ensures MonthOf(a) <= MonthOf(b)
  {
    var j, k := MonthOf(a), MonthOf(b);
    if k < j && k + 1 < j {
      MonthStartIncreases(k + 1, j);
    }
  }

  /** Day numbers and dates are two names for the same thing. */
  lemma DateRoundTrip(day: nat, d: Date)
    requires ValidDate(d)
    ensures DayNumber(ToDate(day)) == day
    ensures ToDate(DayNumber(d)) == d
  {
    var k := MonthOf(day);
    assert MonthIndex(ToDate(day)) == k;
    var j := MonthIndex(d);
    assert j / 12 == d.year && j % 12 + 1 == d.month;
    MonthUnique(DayNumber(d), j);
  }

  /** The month table agrees with the Gregorian rule for whole years. */
  lemma {:induction false} YearStart(year: nat)
    ensures MonthStart(12 * year) == 365 * year + (year + 3) / 4 - (year + 99) / 100 + (year + 399) / 400
  {
    if year != 0 {
      YearStart(year - 1);
      YearLength(year - 1);
      LeapCount(year - 1);
    }
  }

  lemma MonthStep(year: nat, m: nat)
    requires 1 <= m <= 12
    ensures MonthStart(12 * year + m) == MonthStart(12 * year + m - 1) + DaysInMonth(year, m)
  {
    var k := 12 * year + m - 1;
    assert k / 12 == year && k % 12 + 1 == m;
  }

  lemma Quarter(year: nat, m: nat)
    requires 1 <= m <= 10
    ensures MonthStart(12 * year + m + 2)
         == MonthStart(12 * year + m - 1) + DaysInMonth(year, m) + DaysInMonth(year, m + 1) + DaysInMonth(year, m + 2)
  {
    MonthStep(year, m);
    MonthStep(year, m + 1);
    MonthStep(year, m + 2);
  }

  lemma DaysExactly(year: nat, m: nat)
    requires 1 <= m <= 12
    ensures m == 2 ==>
      DaysInMonth(year, m) == if (year % 4 == 0 && year % 100 != 0) || year % 400 == 0 then 29 else 28
    ensures m in {4, 6, 9, 11} ==> DaysInMonth(year, m) == 30
    ensures m in {1, 3, 5, 7, 8, 10, 12} ==> DaysInMonth(year, m) == 31
  {
  }

  /** The lengths of the twelve months, k being month m of the year. */
  lemma MonthLengths(year: nat, m: nat, k: nat)
    requires 1 <= m <= 12 && k == 12 * year + m - 1
    ensures var length := MonthStart(k + 1) - MonthStart(k);
      && (m == 2 ==> length == if (year % 4 == 0 && year % 100 != 0) || year % 400 == 0 then 29 else 28)
      && (m in {4, 6, 9, 11} ==> length == 30)
      && (m in {1, 3, 5, 7, 8, 10, 12} ==> length == 31)
  {
    assert k / 12 == year && k % 12 + 1 == m;
    DaysExactly(year, m);
  }

  lemma YearLength(year: nat)
    ensures MonthStart(12 * year + 12) == MonthStart(12 * year) + 365 + (if Leap(year) then 1 else 0)
  {
    Quarter(year, 1);
    Quarter(year, 4);
    Quarter(year, 7);
    Quarter(year, 10);
  }

  lemma LeapCount(year: nat)
    ensures (year + 4) / 4 - (year + 100) / 100 + (year + 400) / 400
         == (year + 3) / 4 - (year + 99) / 100 + (year + 399) / 400 + (if Leap(year) then 1 else 0)
  {
    assert (year + 4) / 4 == (year + 3) / 4 + (if year % 4 == 0 then 1 else 0);
    assert (year + 100) / 100 == (year + 99) / 100 + (if year % 100 == 0 then 1 else 0);
    assert (year + 400) / 400 == (year + 399) / 400 + (if year % 400 == 0 then 1 else 0);
    assert year % 100 == 0 ==> year % 4 == 0;
    assert year % 400 == 0 ==> year % 100 == 0;
  }

  // ---- Month ranges --------------------------------------------------------

  /** today.replace(day=1) */
  function FirstOfMonth(today: Date): Date
    requires ValidDate(today)
  {
    today.(day := 1)
  }

  /** current_month_start_pkt */
  function CurrentMonthStart(now: nat): Date {
    FirstOfMonth(LocalDate(now))
  }

  /** previous_month_range_pkt: first and last day, both inclusive. */
  function PreviousMonthRange(today: Date): (range: (Date, Date))
    requires ValidDate(today) && 0 < MonthIndex(today)
    ensures ValidDate(range.0) && ValidDate(range.1)
  {
    var cur := FirstOfMonth(today);
    MonthStartIncreases(0, MonthIndex(today));
    var lastPrev := ToDate(DayNumber(cur) - 1);
    (FirstOfMonth(lastPrev), lastPrev)
  }

  lemma FirstDay(d: Date)
    requires ValidDate(d)
    ensures DayNumber(FirstOfMonth(d)) == MonthStart(MonthIndex(d))
  {
  }

  lemma DateOfDay(day: nat)
    ensures MonthIndex(ToDate(day)) == MonthOf(day)
    ensures DayNumber(ToDate(day)) == day
  {
  }

  lemma DayIn(day: nat, k: nat)
    requires MonthStart(k) <= day < MonthStart(k + 1)
    ensures DayNumber(ToDate(day)) == day && MonthIndex(ToDate(day)) == k
  {
    MonthUnique(day, k);
    DateOfDay(day);
  }

  lemma LastDayOf(j: nat, next: nat)
    requires next == MonthStart(j + 1)
    ensures 0 < next && DayNumber(ToDate(next - 1)) == next - 1 && MonthIndex(ToDate(next - 1)) == j
  {
    MonthStartIncreases(j, j + 1);
    DayIn(next - 1, j);
  }

  lemma LastOfPrevious(k: nat)
    requires 0 < k
    ensures 0 < MonthStart(k)
    ensures DayNumber(ToDate(MonthStart(k) - 1)) == MonthStart(k) - 1
    ensures MonthIndex(ToDate(MonthStart(k) - 1)) == k - 1
  {
    LastDayOf(k - 1, MonthStart(k));
  }

  lemma RangeEndsAt(today: Date) returns (last: Date)
    requires ValidDate(today) && 0 < MonthIndex(today)
    ensures ValidDate(last) && PreviousMonthRange(today) == (FirstOfMonth(last), last)
    ensures DayNumber(last) + 1 == MonthStart(MonthIndex(today)) && MonthIndex(last) == MonthIndex(today) - 1
  {
    FirstDay(today);
    last := DayBefore(DayNumber(FirstOfMonth(today)), MonthIndex(today));
  }

  lemma DayBefore(cur: nat, k: nat) returns (last: Date)
    requires 0 < k && cur == MonthStart(k)
    ensures 0 < cur && last == ToDate(cur - 1) && ValidDate(last)
    ensures DayNumber(last) + 1 == cur && MonthIndex(last) == k - 1
  {
    LastOfPrevious(k);
    last := ToDate(cur - 1);
  }

  /** The range is exactly the month before the current one. */
  lemma PreviousMonthIsWhole(today: Date)
    requires ValidDate(today) && 0 < MonthIndex(today)
    ensures DayNumber(PreviousMonthRange(today).0) == MonthStart(MonthIndex(today) - 1)
    ensures DayNumber(PreviousMonthRange(today).1) + 1 == MonthStart(MonthIndex(today))
  {
    var last := RangeEndsAt(today);
    FirstDay(last);
  }

  ghost predicate InPreviousMonth(day: nat, today: Date)
    requires ValidDate(today) && 0 < MonthIndex(today)
  {
    var (first, last) := PreviousMonthRange(today);
    DayNumber(first) <= day <= DayNumber(last)
  }

  /** The budget months tile the calendar: a sale date belongs to the range that `today`
      looks back on exactly when `today` lies in the following month, so every date is
      counted by exactly one month of budgets, leap years included. */
  lemma PreviousMonthsTile(day: nat, today: Date)
    requires ValidDate(today) && 0 < MonthIndex(today)
    ensures InPreviousMonth(day, today) <==> MonthIndex(today) == MonthOf(day) + 1
  {
    var k := MonthIndex(today);
    PreviousMonthIsWhole(today);
    assert InPreviousMonth(day, today) <==> MonthStart(k - 1) <= day < MonthStart(k);
    if InPreviousMonth(day, today) {
      MonthUnique(day, k - 1);
    }
  }

  // ---- Edit deadline -------------------------------------------------------

  function LocalDay(t: nat): nat {
    (t + PKT_OFFSET) / DAY
  }

  function LocalDate(t: nat): (d: Date)
    ensures ValidDate(d)
  {
    ToDate(LocalDay(t))
  }

  /** 23:59:59 PKT on the last day of the month of `d`, as an instant. */
  function EndOfMonth(d: Date): int
    requires ValidDate(d)
  {
    var lastDay := d.(day := DaysInMonth(d.year, d.month));
    DayNumber(lastDay) * DAY + (DAY_SECONDS - 1) * MICROS - PKT_OFFSET
  }

  /** compute_edit_deadline */
  function EditDeadline(submitted: nat): int {
    var plus72 := submitted + HOURS_72;
    var eom := EndOfMonth(LocalDate(submitted));
    if eom < plus72 then eom else plus72
  }

  lemma EndOfMonthIs(submitted: nat)
    ensures EndOfMonth(LocalDate(submitted))
         == MonthStart(MonthOf(LocalDay(submitted)) + 1) * DAY - MICROS - PKT_OFFSET
  {
    var k := MonthOf(LocalDay(submitted));
    var d := LocalDate(submitted);
    assert MonthIndex(d) == k && MonthLength(k) == DaysInMonth(d.year, d.month);
    assert MonthStart(k + 1) == MonthStart(k) + MonthLength(k);
  }

  /** The submission falls after 23:59:59.000000 PKT on the last day of its month. */
  predicate InLastFraction(submitted: nat) {
    var d := LocalDate(submitted);
    d.day == DaysInMonth(d.year, d.month)
    && (submitted + PKT_OFFSET) % DAY > (DAY_SECONDS - 1) * MICROS
  }

  /** The deadline is never more than 72 hours away and never leaves the PKT month of the
      submission. It precedes the submission, leaving no window at all, exactly when the
      submission falls in the month's final fraction of a second; whole-second
      timestamps never do. */
  lemma DeadlineWindow(submitted: nat)
    ensures EditDeadline(submitted) <= submitted + 72 * 3_600_000_000
    ensures 0 <= EditDeadline(submitted)
    ensures MonthOf(LocalDay(EditDeadline(submitted))) == MonthOf(LocalDay(submitted))
    ensures submitted <= EditDeadline(submitted) <==> !InLastFraction(submitted)
    ensures submitted % MICROS == 0 ==> !InLastFraction(submitted)
  {
    var k := MonthOf(LocalDay(submitted));
    EndOfMonthIs(submitted);
    var local := submitted + PKT_OFFSET;
    var e := EditDeadline(submitted);
    var next := MonthStart(k + 1);
    assert local / DAY == LocalDay(submitted) <= next - 1;
    assert local < next * DAY by { assert local == (local / DAY) * DAY + local % DAY; }
    LastFractionIs(submitted);
    MonthStartIncreases(0, k + 1);
    assert next * DAY - MICROS >= 28 * DAY - MICROS;
    assert e + PKT_OFFSET <= next * DAY - MICROS;
    assert (e + PKT_OFFSET) / DAY <= next - 1;
    DayMonotone(submitted, e);
    MonthUnique(LocalDay(e), k);
  }

  /** The deadline is the latest instant that is within 72 hours of the submission and no
      later than 23:59:59 on the last day of its month in Pakistan: t is not past it exactly
      when t meets both. */
  lemma DeadlineExactly(submitted: nat, t: int)
    ensures var month := MonthOf((submitted + 18_000_000_000) / 86_400_000_000);
      t <= EditDeadline(submitted) <==>
        && t <= submitted + 72 * 3_600_000_000
        && t + 18_000_000_000 <= MonthStart(month + 1) * 86_400_000_000 - 1_000_000
  {
    EndOfMonthIs(submitted);
  }

  lemma DayMonotone(submitted: nat, e: nat)
    requires e == EditDeadline(submitted)
    ensures MonthStart(MonthOf(LocalDay(submitted))) <= LocalDay(e)
  {
    var k := MonthOf(LocalDay(submitted));
    EndOfMonthIs(submitted);
    assert MonthStart(k + 1) == MonthStart(k) + MonthLength(k);
    if e == submitted + HOURS_72 {
      assert LocalDay(submitted) <= LocalDay(e);
    } else {
      assert MonthStart(k) * DAY <= e + PKT_OFFSET;
    }
  }

  lemma LastDayIs(day: nat)
    ensures var d := ToDate(day);
      d.day == DaysInMonth(d.year, d.month) <==> day + 1 == MonthStart(MonthOf(day) + 1)
  {
    var k := MonthOf(day);
    assert MonthLength(k) == DaysInMonth(ToDate(day).year, ToDate(day).month);
    assert MonthStart(k + 1) == MonthStart(k) + MonthLength(k);
  }

  lemma LastSecond(local: nat, next: nat)
    requires local / DAY < next
    ensures local / DAY + 1 == next && local % DAY > (DAY_SECONDS - 1) * MICROS <==> local > next * DAY - MICROS
  {
    assert local == (local / DAY) * DAY + local % DAY;
  }

  lemma LastFractionIs(submitted: nat)
    ensures InLastFraction(submitted)
       <==> submitted + PKT_OFFSET > MonthStart(MonthOf(LocalDay(submitted)) + 1) * DAY - MICROS
    ensures submitted % MICROS == 0 ==> !InLastFraction(submitted)
  {
    var k := MonthOf(LocalDay(submitted));
    LastDayIs(LocalDay(submitted));
    LastSecond(submitted + PKT_OFFSET, MonthStart(k + 1));
    if submitted % MICROS == 0 {
      WholeSecond(submitted);
    }
  }

  lemma WholeSecond(submitted: nat)
    requires submitted % MICROS == 0
    ensures ((submitted + PKT_OFFSET) % DAY) % MICROS == 0
  {
    var local := submitted + PKT_OFFSET;
    assert local % MICROS == 0;
    assert local % DAY == local - (local / DAY) * 86_400 * MICROS;
  }

  /** The month a charge is booked to: the first day of the calendar month in Pakistan. */
  lemma CurrentMonthMeans(now: nat)
    ensures var d := CurrentMonthStart(now);
      && ValidDate(d) && d.day == 1
      && DayNumber(d) == MonthStart(MonthOf((now + 18_000_000_000) / 86_400_000_000))
  {
    DateOfDay(LocalDay(now));
    FirstDay(LocalDate(now));
  }

  /** Submitting later never moves the deadline earlier. */
  lemma DeadlineMonotone(s: nat, t: nat)
    requires s <= t
    ensures EditDeadline(s) <= EditDeadline(t)
  {
    EndOfMonthIs(s);
    EndOfMonthIs(t);
    assert LocalDay(s) <= LocalDay(t);
    MonthOfMonotone(LocalDay(s), LocalDay(t));
    var j, k := MonthOf(LocalDay(s)), MonthOf(LocalDay(t));
    if j < k {
      MonthStartIncreases(j + 1, k + 1);
    }
  }

  /** Local midnight of a day. */
  lemma Midnight(day: nat, t: nat)
    requires t + PKT_OFFSET == day * DAY
    ensures LocalDay(t) == day && t % MICROS == 0
  {
    assert day * DAY == (day * DAY_SECONDS) * MICROS;
  }

  /** The failing instants exist in every month: one microsecond before it ends, say, the
      submission is later than its own deadline. */
  lemma LastMicrosecond(k: nat, t: nat)
    requires t + PKT_OFFSET + 1 == MonthStart(k + 1) * DAY
    ensures InLastFraction(t) && EditDeadline(t) < t
  {
    var local, last := t + PKT_OFFSET, MonthStart(k + 1) - 1;
    MonthStartIncreases(k, k + 1);
    assert local == last * DAY + (DAY - 1);
    MonthUnique(last, k);
    LastFractionIs(t);
    DeadlineWindow(t);
  }
}
