/** The calendar screen: the month grid, the DAY/WEEK/YEAR summary windows, month
    stepping, day selection and the per-day markers. The selected date is a mutable
    Date object that the WEEK computation moves in place, so it is a class here. */
module Calendar {
  import opened Text
  import opened Dates
  import opened Types
  import opened Dashboard

  /** The modes the screen offers; DAY is declared with the others but never used. */
  type ShownMode = m: CalendarViewMode | m != Day witness Month

  /** A Date object; `setDate` changes it in place. */
  class JsDate {
    var value: Moment

    constructor (v: Moment)
      ensures value == v
    {
      value := v;
    }

    /** `date.setDate(d)`: the day of month set to `d`, carried into the neighbouring months as needed. */
    method SetDate(d: int)
      modifies this
      ensures value == Dates.SetDate(old(value), d)
    {
      value := Dates.SetDate(value, d);
    }
  }

  // ---- summary windows ------------------------------------------------------------

  /** Which expenses a summary counts: those on one calendar day, or those whose time lies
      between two instants, both included. */
  datatype Window = SameDay(day: CivilDate) | Between(start: Moment, end: Moment)

  predicate InWindow(t: Moment, w: Window)
  {
    match w
    case SameDay(d) => SameCalendarDay(t.date, d)
    case Between(start, end) => Instant(start) <= Instant(t) <= Instant(end)
  }

  /** The Monday of the week holding `d` (a Sunday belongs to the week before), at `d`'s time of day. */
  function WeekStart(d: Moment): Moment
  {
    Dates.SetDate(d, MondayOffset(d))
  }

  /** The day of month handed to setDate for the week's Monday: `getDate() - day + (day == 0 ? -6 : 1)`. */
  function MondayOffset(d: Moment): int
  {
    var day := Weekday(d.date);
    d.date.day - day + (if day == 0 then -6 else 1)
  }

  /** Six days after WeekStart, at the same time of day. */
  function WeekEnd(d: Moment): Moment
  {
    SixDaysOn(WeekStart(d))
  }

  /** `setDate(getDate() + 6)`. */
  function SixDaysOn(start: Moment): Moment
  {
    Dates.SetDate(start, start.date.day + 6)
  }

  function WeekWindow(d: Moment): Window
  {
    Between(WeekStart(d), WeekEnd(d))
  }

  /** January 1 00:00:00 to December 31 00:00:00 of the year. */
  function YearWindow(y: int): Window
  {
    Between(Timestamp(MakeDate(y, 0, 1), 0), Timestamp(MakeDate(y, 11, 31), 0))
  }

  /** The window a mode selects around `now`. */
  function WindowFor(mode: ShownMode, now: Moment): Window
  {
    if mode == Week then WeekWindow(now)
    else if mode == Year then YearWindow(now.date.year)
    else SameDay(now.date)
  }

  /** The week runs from a Monday to the following Sunday, holds `d`, and keeps `d`'s time of day. */
  lemma WeekWindowSpec(d: Moment)
    ensures Weekday(WeekStart(d).date) == 1 && Weekday(WeekEnd(d).date) == 0
    ensures DayNumber(WeekEnd(d).date) == DayNumber(WeekStart(d).date) + 6
    ensures DayNumber(WeekStart(d).date) <= DayNumber(d.date) <= DayNumber(WeekEnd(d).date)
    ensures WeekStart(d).seconds == d.seconds && WeekEnd(d).seconds == d.seconds
    ensures DayNumber(WeekStart(d).date)
      == DayNumber(d.date) - (if Weekday(d.date) == 0 then 6 else Weekday(d.date) - 1)
  {
    WeekStartSpec(d);
    WeekEndSpec(d);
  }

  /** The end of the week is the Sunday six days after its start, at the same time of day. */
  lemma WeekEndSpec(d: Moment)
    ensures Weekday(WeekEnd(d).date) == 0 && WeekEnd(d).seconds == WeekStart(d).seconds
    ensures DayNumber(WeekEnd(d).date) == DayNumber(WeekStart(d).date) + 6
  {
    WeekStartSpec(d);
    SixDaysOnMonday(WeekStart(d));
  }

  /** Six days on from a Monday is the Sunday of the same week, at the same time of day. */
  lemma SixDaysOnMonday(s: Moment)
    requires Weekday(s.date) == 1
    ensures Weekday(SixDaysOn(s).date) == 0 && SixDaysOn(s).seconds == s.seconds
    ensures DayNumber(SixDaysOn(s).date) == DayNumber(s.date) + 6
  {
    SundayAfter(DayNumber(s.date), DayNumber(SixDaysOn(s).date));
  }

  /** The start of the week is the Monday on or before `d`, at `d`'s time of day. */
  lemma WeekStartSpec(d: Moment)
    ensures Weekday(WeekStart(d).date) == 1 && WeekStart(d).seconds == d.seconds
    ensures DayNumber(WeekStart(d).date)
      == DayNumber(d.date) - (if Weekday(d.date) == 0 then 6 else Weekday(d.date) - 1)
  {
    MondayBefore(DayNumber(d.date), Weekday(d.date), DayNumber(WeekStart(d).date));
  }

  /** Day-number arithmetic behind the week's start: stepping back from weekday `w` lands on a Monday. */
  lemma MondayBefore(n: int, w: int, s: int)
    requires w == (n + 1) % 7 && s == n - w + (if w == 0 then -6 else 1)
    ensures (s + 1) % 7 == 1 && s == n - (if w == 0 then 6 else w - 1)
  {
  }

  /** Six days after a Monday is a Sunday. */
  lemma SundayAfter(s: int, e: int)
    requires (s + 1) % 7 == 1 && e == s + 6
    ensures (e + 1) % 7 == 0
  {
  }

  /** Moments with equal day numbers and times of day are the same moment. */
  lemma SameMoment(a: Moment, b: Moment)
    requires DayNumber(a.date) == DayNumber(b.date) && a.seconds == b.seconds
    ensures a == b
  {
    DayNumberOrder(a.date, b.date);
  }

  /** Recomputing from the week's Sunday, where the computation leaves the selected date,
      gives the same week again. */
  lemma WeekWindowStable(d: Moment)
    ensures WeekWindow(WeekEnd(d)) == WeekWindow(d)
  {
    var e := WeekEnd(d);
    WeekWindowSpec(d);
    WeekWindowSpec(e);
    SameMoment(WeekStart(e), WeekStart(d));
    SameMoment(WeekEnd(e), WeekEnd(d));
  }

  /** A moment is in the week window when it falls strictly inside the week, or on the Monday
      no earlier than the selected time of day, or on the Sunday no later than it. */
  lemma WeekWindowMembership(d: Moment, t: Moment)
    ensures InWindow(t, WeekWindow(d)) <==>
      (DayNumber(WeekStart(d).date) < DayNumber(t.date) < DayNumber(WeekEnd(d).date))
      || (DayNumber(t.date) == DayNumber(WeekStart(d).date) && t.seconds >= d.seconds)
      || (DayNumber(t.date) == DayNumber(WeekEnd(d).date) && t.seconds <= d.seconds)
  {
    WeekWindowSpec(d);
    InstantOrder(WeekStart(d), t);
    InstantOrder(t, WeekEnd(d));
  }

  /** The year window holds every moment of the year except December 31 after midnight. */
  lemma YearWindowMembership(y: int, t: Moment)
    ensures InWindow(t, YearWindow(y)) <==>
      t.date.year == y && (t.date.month != 11 || t.date.day != 31 || t.seconds == 0)
  {
    var first, last := CivilDate(y, 0, 1), CivilDate(y, 11, 31);
    MakeDateInRange(y, 0, 1);
    MakeDateInRange(y, 11, 31);
    InstantOrder(Timestamp(first, 0), t);
    InstantOrder(t, Timestamp(last, 0));
    DayNumberOrder(first, t.date);
    DayNumberOrder(t.date, last);
  }

  // ---- stats --------------------------------------------------------------------

  datatype Stats = Stats(total: int, essential: int, nonEssential: int)

  /** The stats of the expenses inside the window. */
  function StatsOf(ts: seq<Transaction>, categories: seq<Category>, w: Window): Stats
  {
    if ts == [] then Stats(0, 0, 0)
    else
      var s := StatsOf(ts[..|ts| - 1], categories, w);
      var t := ts[|ts| - 1];
      if t.kind == Expense && InWindow(t.date, w) then
        if IsEssential(categories, t.categoryId)
        then Stats(s.total + t.amount, s.essential + t.amount, s.nonEssential)
        else Stats(s.total + t.amount, s.essential, s.nonEssential + t.amount)
      else s
  }

  /** The transactions inside the window, in order. */
  function Within(ts: seq<Transaction>, w: Window): seq<Transaction>
  {
    if ts == [] then []
    else
      var t := ts[|ts| - 1];
      Within(ts[..|ts| - 1], w) + (if InWindow(t.date, w) then [t] else [])
  }

  /** The transactions counted are exactly those inside the window. */
  lemma {:induction false} WithinMembers(ts: seq<Transaction>, w: Window)
    ensures forall t :: t in Within(ts, w) <==> t in ts && InWindow(t.date, w)
  {
    if ts != [] {
      var init, last := ts[..|ts| - 1], ts[|ts| - 1];
      WithinMembers(init, w);
      assert ts == init + [last];
      assert forall u :: u in ts <==> u in init || u == last;
    }
  }

  /** A window's stats are the dashboard's figures over the transactions inside it. */
  lemma StatsAreFigures(ts: seq<Transaction>, categories: seq<Category>, w: Window)
    ensures StatsOf(ts, categories, w) == Stats(
      TotalSpent(Within(ts, w)), EssentialSpent(Within(ts, w), categories), NonEssentialSpent(Within(ts, w), categories))
  {
    WindowTotal(ts, categories, w);
    WindowEssential(ts, categories, w);
    WindowNonEssential(ts, categories, w);
  }

  /** The last transaction is inside the window: the window's transactions gain it at the end. */
  lemma WithinStep(ts: seq<Transaction>, w: Window)
    requires ts != []
    ensures InWindow(ts[|ts| - 1].date, w) ==> Within(ts, w) == Within(ts[..|ts| - 1], w) + [ts[|ts| - 1]]
    ensures !InWindow(ts[|ts| - 1].date, w) ==> Within(ts, w) == Within(ts[..|ts| - 1], w)
  {
  }

  /** The stats' total is the total spent inside the window. */
  lemma {:induction false} WindowTotal(ts: seq<Transaction>, categories: seq<Category>, w: Window)
    ensures StatsOf(ts, categories, w).total == TotalSpent(Within(ts, w))
  {
    if ts != [] {
      var init := ts[..|ts| - 1];
      WindowTotal(init, categories, w);
      WithinStep(ts, w);
      FiguresAppendOne(Within(init, w), ts[|ts| - 1], categories);
    }
  }

  /** The stats' essential side is the essential spending inside the window. */
  lemma {:induction false} WindowEssential(ts: seq<Transaction>, categories: seq<Category>, w: Window)
    ensures StatsOf(ts, categories, w).essential == EssentialSpent(Within(ts, w), categories)
  {
    if ts != [] {
      var init := ts[..|ts| - 1];
      WindowEssential(init, categories, w);
      WithinStep(ts, w);
      FiguresAppendOne(Within(init, w), ts[|ts| - 1], categories);
    }
  }

  /** The stats' non-essential side is the remaining spending inside the window. */
  lemma {:induction false} WindowNonEssential(ts: seq<Transaction>, categories: seq<Category>, w: Window)
    ensures StatsOf(ts, categories, w).nonEssential == NonEssentialSpent(Within(ts, w), categories)
  {
    if ts != [] {
      var init := ts[..|ts| - 1];
      WindowNonEssential(init, categories, w);
      WithinStep(ts, w);
      FiguresAppendOne(Within(init, w), ts[|ts| - 1], categories);
    }
  }

  /** A window's stats are the dashboard's figures over the transactions inside it, so the
      total is the essential part plus the non-essential part. */
  lemma StatsAreWindowedFigures(ts: seq<Transaction>, categories: seq<Category>, w: Window)
    ensures StatsOf(ts, categories, w) == Stats(
      TotalSpent(Within(ts, w)), EssentialSpent(Within(ts, w), categories), NonEssentialSpent(Within(ts, w), categories))
    ensures StatsOf(ts, categories, w).total
      == StatsOf(ts, categories, w).essential + StatsOf(ts, categories, w).nonEssential
  {
    StatsAreFigures(ts, categories, w);
    SplitPartitionsTotal(Within(ts, w), categories);
  }

  /** One more transaction at the end moves each figure by its own contribution. */
  lemma FiguresAppendOne(r: seq<Transaction>, t: Transaction, categories: seq<Category>)
    ensures TotalSpent(r + [t]) == TotalSpent(r) + (if t.kind == Expense then t.amount else 0)
    ensures EssentialSpent(r + [t], categories) == EssentialSpent(r, categories)
      + (if t.kind == Expense && IsEssential(categories, t.categoryId) then t.amount else 0)
    ensures NonEssentialSpent(r + [t], categories) == NonEssentialSpent(r, categories)
      + (if t.kind == Expense && !IsEssential(categories, t.categoryId) then t.amount else 0)
  {
    assert (r + [t])[..|r|] == r;
  }

  /** The `forEach` that adds each matching expense to the total and to one side. */
  method WindowStats(ts: seq<Transaction>, categories: seq<Category>, w: Window) returns (s: Stats)
    ensures s == StatsOf(ts, categories, w)
    ensures s.total == s.essential + s.nonEssential
  {
    var total, essential, nonEssential := 0, 0, 0;
    var i := 0;
    while i < |ts|
      invariant 0 <= i <= |ts|
      invariant Stats(total, essential, nonEssential) == StatsOf(ts[..i], categories, w)
    {
      var t := ts[i];
      assert ts[..i + 1][..i] == ts[..i];
      if t.kind == Expense && InWindow(t.date, w) {
        total := total + t.amount;
        if IsEssential(categories, t.categoryId) {
          essential := essential + t.amount;
        } else {
          nonEssential := nonEssential + t.amount;
        }
      }
      i := i + 1;
    }
    assert ts[..|ts|] == ts;
    StatsAreWindowedFigures(ts, categories, w);
    s := Stats(total, essential, nonEssential);
  }

  /** The WEEK branch of stats: `setDate` moves `now` itself, first to the Monday, then six
      days on, where it stays; the window is copied from it at each step. */
  method WeekWindowInPlace(now: JsDate) returns (w: Window)
    modifies now
    ensures w == WeekWindow(old(now.value))
    ensures now.value == WeekEnd(old(now.value))
  {
    ghost var initial := now.value;
    var day := Weekday(now.value.date);
    var diff := now.value.date.day - day + (if day == 0 then -6 else 1);
    now.SetDate(diff);
    assert diff == MondayOffset(initial);
    var start := now.value;
    now.SetDate(start.date.day + 6);
    var end := now.value;
    assert end == SixDaysOn(start);
    w := Between(start, end);
  }

  /** The start/end computation of stats; only WEEK mode moves `now`. */
  method SummaryWindow(now: JsDate, mode: ShownMode) returns (w: Window)
    modifies now
    ensures w == WindowFor(mode, old(now.value))
    ensures mode == Week ==> now.value == WeekEnd(old(now.value))
    ensures mode != Week ==> now.value == old(now.value)
  {
    if mode == Week {
      w := WeekWindowInPlace(now);
    } else if mode == Year {
      var y := now.value.date.year;
      w := Between(Timestamp(MakeDate(y, 0, 1), 0), Timestamp(MakeDate(y, 11, 31), 0));
    } else {
      w := SameDay(now.value.date);
    }
  }

  /** The warning banner: more non-essential than essential spending, and something spent. */
  predicate ShowAlert(s: Stats)
  {
    s.nonEssential > s.essential && s.total > 0
  }

  lemma {:induction false} StatsNonNegative(ts: seq<Transaction>, categories: seq<Category>, w: Window)
    requires forall i :: 0 <= i < |ts| ==> ts[i].amount >= 0
    ensures StatsOf(ts, categories, w).essential >= 0 && StatsOf(ts, categories, w).nonEssential >= 0
  {
    if ts != [] {
      StatsNonNegative(ts[..|ts| - 1], categories, w);
    }
  }

  /** With non-negative amounts the `total > 0` test adds nothing: the banner shows exactly
      when non-essential spending exceeds essential spending. */
  lemma AlertCondition(ts: seq<Transaction>, categories: seq<Category>, w: Window)
    requires forall i :: 0 <= i < |ts| ==> ts[i].amount >= 0
    ensures ShowAlert(StatsOf(ts, categories, w)) <==>
      StatsOf(ts, categories, w).nonEssential > StatsOf(ts, categories, w).essential
  {
    StatsNonNegative(ts, categories, w);
    StatsAreWindowedFigures(ts, categories, w);
  }

  // ---- the month grid -----------------------------------------------------------

  /** `new Date(y, m + 1, 0).getDate()` is the length of month `m`. */
  lemma DayZeroOfNextMonth(y: int, m: int)
    requires 0 <= m < 12
    ensures MakeDate(y, m + 1, 0) == CivilDate(y, m, DaysInMonth(y, m))
  {
    NextMonthStart(y, m);
    assert NextMonth(y, m) == (y + (m + 1) / 12, (m + 1) % 12);
    DayNumberOrder(MakeDate(y, m + 1, 0), CivilDate(y, m, DaysInMonth(y, m)));
  }

  /** The first loop of calendarDays: `count` empty cells. */
  method EmptyCells(count: nat) returns (cells: seq<Option<Moment>>)
    ensures |cells| == count
    ensures forall j :: 0 <= j < count ==> cells[j].None?
  {
    cells := [];
    var i := 0;
    while i < count
      invariant 0 <= i <= count && |cells| == i
      invariant forall j :: 0 <= j < i ==> cells[j].None?
    {
      cells := cells + [None];
      i := i + 1;
    }
  }

  /** The second loop of calendarDays: `new Date(year, month, i)` for i from 1 to `daysInMonth`. */
  method DateCells(year: int, month: int, daysInMonth: nat) returns (cells: seq<Option<Moment>>)
    requires 0 <= month < 12 && daysInMonth <= DaysInMonth(year, month)
    ensures |cells| == daysInMonth
    ensures forall j :: 0 <= j < daysInMonth ==> cells[j].Some? && cells[j].value == Timestamp(CivilDate(year, month, j + 1), 0)
  {
    cells := [];
    var i := 1;
    while i <= daysInMonth
      invariant 1 <= i <= daysInMonth + 1 && |cells| == i - 1
      invariant forall j :: 0 <= j < i - 1 ==> cells[j].Some? && cells[j].value == Timestamp(CivilDate(year, month, j + 1), 0)
    {
      MakeDateInRange(year, month, i);
      cells := cells + [Some(Timestamp(MakeDate(year, month, i), 0))];
      i := i + 1;
    }
  }

  /** calendarDays: `firstDay` empty cells, then the month's dates at midnight. */
  method CalendarDays(current: Moment) returns (days: seq<Option<Moment>>)
    ensures var y, m := current.date.year, current.date.month;
      var firstDay := Weekday(CivilDate(y, m, 1));
      |days| == firstDay + DaysInMonth(y, m)
      && (forall i :: 0 <= i < firstDay ==> days[i].None?)
      && (forall i :: firstDay <= i < |days| ==> days[i].Some? && days[i].value == Timestamp(CivilDate(y, m, i - firstDay + 1), 0))
  {
    var year, month := current.date.year, current.date.month;
    MakeDateInRange(year, month, 1);
    var firstDay := Weekday(MakeDate(year, month, 1));
    DayZeroOfNextMonth(year, month);
    var daysInMonth := MakeDate(year, month + 1, 0).day;
    var padding := EmptyCells(firstDay);
    var dates := DateCells(year, month, daysInMonth);
    days := padding + dates;
    assert forall i :: firstDay <= i < |days| ==> days[i] == dates[i - firstDay];
  }

  /** Each date sits in the column of its weekday (Sunday first), because the padding is the
      weekday of the 1st. */
  lemma GridColumns(y: int, m: int, i: int)
    requires 0 <= m < 12
    requires Weekday(CivilDate(y, m, 1)) <= i < Weekday(CivilDate(y, m, 1)) + DaysInMonth(y, m)
    ensures i % 7 == Weekday(CivilDate(y, m, i - Weekday(CivilDate(y, m, 1)) + 1))
  {
    var first := DayNumber(CivilDate(y, m, 1));
    var k := i - Weekday(CivilDate(y, m, 1)) + 1;
    assert DayNumber(CivilDate(y, m, k)) == first + k - 1;
    ColumnArithmetic(first + 1, i);
  }

  lemma ColumnArithmetic(a: int, i: int)
    ensures (a - a % 7 + i) % 7 == i % 7
  {
  }

  // ---- stepping months and marking days ----------------------------------------

  /** `new Date(y, m + offset, 1)`: the first of the month `offset` months away. */
  function MonthAway(d: CivilDate, offset: int): CivilDate
  {
    MakeDate(d.year, d.month + offset, 1)
  }

  /** Stepping lands on the 1st of the month `offset` months on, counting months across years. */
  lemma MonthAwayIndex(d: CivilDate, offset: int)
    ensures MonthAway(d, offset).day == 1 && 0 <= MonthAway(d, offset).month < 12
    ensures MonthAway(d, offset).year * 12 + MonthAway(d, offset).month == d.year * 12 + d.month + offset
  {
    var m := d.month + offset;
    NormalizeInRange(d.year + m / 12, m % 12, 1);
  }

  /** Stepping counts months, carrying into the year, and lands on the 1st; steps compose. */
  lemma MonthAwaySpec(d: CivilDate, offset: int, next: int)
    ensures MonthAway(d, offset).day == 1 && 0 <= MonthAway(d, offset).month < 12
    ensures MonthAway(d, offset).year * 12 + MonthAway(d, offset).month == d.year * 12 + d.month + offset
    ensures MonthAway(MonthAway(d, offset), next) == MonthAway(d, offset + next)
  {
    var e := MonthAway(d, offset);
    MonthAwayIndex(d, offset);
    MonthAwayIndex(e, next);
    MonthAwayIndex(d, offset + next);
    var a, b := MonthAway(e, next), MonthAway(d, offset + next);
    MonthIndexInjective(a.year, a.month, b.year, b.month);
  }

  /** A month is determined by its count of months since year 0. */
  lemma MonthIndexInjective(y1: int, m1: int, y2: int, m2: int)
    requires 0 <= m1 < 12 && 0 <= m2 < 12 && y1 * 12 + m1 == y2 * 12 + m2
    ensures y1 == y2 && m1 == m2
  {
  }

  /** hasTransactions: false for an empty cell, otherwise whether any transaction, of either
      type, falls on that calendar day. */
  function HasTransactions(ts: seq<Transaction>, date: Option<Moment>): (r: bool)
    ensures r <==> date.Some? && exists i :: 0 <= i < |ts| && SameCalendarDay(ts[i].date.date, date.value.date)
  {
    if date.None? || ts == [] then false
    else
      var last := ts[|ts| - 1];
      SameCalendarDay(last.date.date, date.value.date) || HasTransactions(ts[..|ts| - 1], date)
  }

  /** The screen's state: the month shown, the selected date and the mode. */
  class CalendarView {
    var currentDate: Moment
    var selectedDate: JsDate?
    var viewMode: ShownMode

    /** Both dates start as the given moment; the mode starts as MONTH. */
    constructor (today: Moment)
      ensures currentDate == today && viewMode == Month
      ensures selectedDate != null && fresh(selectedDate) && selectedDate.value == today
    {
      currentDate := today;
      selectedDate := new JsDate(today);
      viewMode := Month;
    }

    /** The mode buttons. */
    method SetViewMode(m: ShownMode)
      modifies this
      ensures viewMode == m && currentDate == old(currentDate) && selectedDate == old(selectedDate)
    {
      viewMode := m;
    }

    /** stats: the window around the selected date (or `clock` when none is selected), then the
        sums over it. In WEEK mode the two `setDate` calls act on the selected Date itself and
        leave it on the week's Sunday. */
    method ComputeStats(ts: seq<Transaction>, categories: seq<Category>, clock: Moment) returns (s: Stats)
      modifies selectedDate
      ensures s == StatsOf(ts, categories,
        WindowFor(viewMode, if selectedDate != null then old(selectedDate.value) else clock))
      ensures selectedDate != null && viewMode == Week ==> selectedDate.value == WeekEnd(old(selectedDate.value))
      ensures selectedDate != null && viewMode != Week ==> selectedDate.value == old(selectedDate.value)
    {
      var now: JsDate;
      if selectedDate != null {
        now := selectedDate;
      } else {
        now := new JsDate(clock);
      }
      var w := SummaryWindow(now, viewMode);
      s := WindowStats(ts, categories, w);
    }

    /** The same sums computed on a copy of the selected date, which stays where the user put it. */
    method ComputeStatsOnCopy(ts: seq<Transaction>, categories: seq<Category>, clock: Moment) returns (s: Stats)
      ensures s == StatsOf(ts, categories,
        WindowFor(viewMode, if selectedDate != null then selectedDate.value else clock))
    {
      var now := new JsDate(if selectedDate != null then selectedDate.value else clock);
      var w := SummaryWindow(now, viewMode);
      s := WindowStats(ts, categories, w);
    }

    /** changeMonth: the first of the month `offset` months from the one shown, at midnight. */
    method ChangeMonth(offset: int)
      modifies this
      ensures currentDate == Timestamp(MonthAway(old(currentDate).date, offset), 0)
      ensures selectedDate == old(selectedDate) && viewMode == old(viewMode)
    {
      currentDate := Timestamp(MakeDate(currentDate.date.year, currentDate.date.month + offset, 1), 0);
    }

    /** handleDateClick: an empty cell does nothing; a date becomes the selection and the mode MONTH. */
    method HandleDateClick(date: Option<Moment>)
      modifies this
      ensures date.None? ==> selectedDate == old(selectedDate) && viewMode == old(viewMode)
      ensures date.Some? ==> (selectedDate != null && fresh(selectedDate)
        && selectedDate.value == date.value && viewMode == Month)
      ensures currentDate == old(currentDate)
    {
      if date.Some? {
        selectedDate := new JsDate(date.value);
        viewMode := Month;
      }
    }

    /** isSelected: false when either side is missing, otherwise the two fall on the same day. */
    function IsSelected(date: Option<Moment>): (r: bool)
      reads this, selectedDate
      ensures r <==> (date.Some? && selectedDate != null
        && DayNumber(date.value.date) == DayNumber(selectedDate.value.date))
    {
      if date.None? || selectedDate == null then false
      else
        DayNumberOrder(date.value.date, selectedDate.value.date);
        SameCalendarDay(date.value.date, selectedDate.value.date)
    }
  }

  /** In WEEK mode the selection leaves its day unless that day is already a Sunday. */
  lemma WeekModeMovesSelection(d: Moment)
    ensures WeekEnd(d) == d <==> Weekday(d.date) == 0
  {
    WeekWindowSpec(d);
    if Weekday(d.date) == 0 {
      SameMoment(WeekEnd(d), d);
    }
  }

  /** A selected Wednesday, 15 January 2025 at midnight, ends up on Sunday the 19th. */
  lemma WeekModeMovesWednesday(d: Moment, sunday: Moment)
    requires d == Timestamp(CivilDate(2025, 0, 15), 0) && sunday == Timestamp(CivilDate(2025, 0, 19), 0)
    ensures Weekday(d.date) == 3
    ensures WeekEnd(d) == sunday
  {
    assert DayNumber(d.date) == 739265;
    assert DayNumber(sunday.date) == DayNumber(d.date) + 4;
    WeekWindowSpec(d);
    SameMoment(WeekEnd(d), sunday);
  }
}
