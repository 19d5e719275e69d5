/**
 * The weekly report: the Monday-to-Sunday window selected by a week offset,
 * one record per day with its rounded totals, and the week's totals and
 * per-tracked-day averages.
 */
module WeeklyReport {
  import opened Nutrition
  import opened DailyLog

  /**
   * ISO weekday (1 = Monday ... 7 = Sunday) of a day ordinal, where ordinal 1
   * is Monday 1 January of year 1 in the proleptic Gregorian calendar.
   */
  function IsoWeekday(d: Day): (w: int)
    ensures 1 <= w <= 7
  {
    (d - 1) % 7 + 1
  }

  /** The first day of the window: back to this week's Monday, then `offset` whole weeks. */
  function WeekStartOf(today: Day, weekday: int, offset: int): (r: Day)
    ensures 1 <= weekday <= 7 ==> r <= today + 7 * offset <= r + 6
  {
    today - (weekday - 1) + 7 * offset
  }

  /** When `weekday` is today's ISO weekday, every window starts on a Monday. */
  lemma WeekStartIsMonday(today: Day, weekday: int, offset: int)
    requires weekday == IsoWeekday(today)
    ensures IsoWeekday(WeekStartOf(today, weekday, offset)) == 1
  {
    var q := (today - 1) / 7;
    assert today - 1 == 7 * q + (weekday - 1);
    var start := WeekStartOf(today, weekday, offset);
    assert start - 1 == 7 * (q + offset);
  }

  /**
   * The window start is the only Monday at most six days before
   * today + 7 * offset: the window is the ISO week containing that day.
   */
  lemma WeekStartUnique(today: Day, weekday: int, offset: int, monday: Day)
    requires weekday == IsoWeekday(today)
    requires IsoWeekday(monday) == 1 && monday <= today + 7 * offset <= monday + 6
    ensures monday == WeekStartOf(today, weekday, offset)
  {
    var start := WeekStartOf(today, weekday, offset);
    WeekStartIsMonday(today, weekday, offset);
    var a, b := (start - 1) / 7, (monday - 1) / 7;
    assert start - 1 == 7 * a && monday - 1 == 7 * b;
    assert -6 <= monday - start <= 6;
    assert monday - start == 7 * (b - a);
  }

  /** Stepping the offset back by one moves the whole window exactly seven days earlier. */
  lemma PreviousWeek(today: Day, weekday: int, offset: int)
    ensures WeekStartOf(today, weekday, offset - 1) == WeekStartOf(today, weekday, offset) - 7
  {
  }

  /** One row of the report: the date, its logged entries and its rounded totals. */
  datatype DayReport = DayReport(date: Day, meals: seq<Entry>, totals: Totals)

  /** The week's rounded totals, its averages per tracked day, and the number of tracked days. */
  datatype WeeklySummary = WeeklySummary(total: Totals, average: Totals, daysTracked: nat)

  /** The record for `d`: its bucket's entries and their rounded sums, or nothing and zeros. */
  function DayReportOf(log: map<Day, DayBucket>, d: Day): (r: DayReport)
    ensures r.date == d
    ensures AllCents(r.totals)
  {
    AllCentsZero();
    if d in log then DayReport(d, log[d].entries, RoundTotals(Sum(log[d].entries)))
    else DayReport(d, [], Zero)
  }

  /**
   * A day's record holds the date's entries (none for a missing key) and
   * their sums rounded to hundredths; its kcal is the kcal of the summed
   * macros, and a missing date has all-zero totals.
   */
  lemma DayReportMeaning(log: map<Day, DayBucket>, d: Day)
    ensures var r := DayReportOf(log, d);
      && r.date == d
      && r.meals == (if d in log then log[d].entries else [])
      && r.totals == RoundTotals(Sum(r.meals))
      && r.totals.kcal == Round2(Kcal(Sum(r.meals).protein, Sum(r.meals).carbs, Sum(r.meals).fat))
      && AllCents(r.totals)
      && (d !in log ==> r.totals == Zero)
  {
    AllCentsZero();
  }

  /** The records of the `n` days from `start`, in date order. */
  function Records(log: map<Day, DayBucket>, start: Day, n: nat): (r: seq<DayReport>)
    ensures |r| == n
  {
    if n == 0 then [] else Records(log, start, n - 1) + [DayReportOf(log, start + n - 1)]
  }

  /** Record k of the window is the record of date start + k. */
  lemma {:induction false} RecordsAt(log: map<Day, DayBucket>, start: Day, n: nat, k: nat)
    requires k < n
    ensures Records(log, start, n)[k] == DayReportOf(log, start + k)
  {
    if k < n - 1 {
      RecordsAt(log, start, n - 1, k);
    }
  }

  /** How many of the `n` days from `start` have a key in the log. */
  function Tracked(log: map<Day, DayBucket>, start: Day, n: nat): (r: nat)
    ensures r <= n
  {
    if n == 0 then 0
    else Tracked(log, start, n - 1) + (if start + n - 1 in log then 1 else 0)
  }

  /** The dates of the window `start .. start + n - 1` that have a key in the log. */
  function KeysInWindow(log: map<Day, DayBucket>, start: Day, n: nat): set<Day> {
    set d | d in log && start <= d < start + n
  }

  /** The tracked count is the number of dates in the window whose key is present, empty bucket or not. */
  lemma {:induction false} TrackedIsKeyCount(log: map<Day, DayBucket>, start: Day, n: nat)
    ensures Tracked(log, start, n) == |KeysInWindow(log, start, n)|
  {
    if n > 0 {
      TrackedIsKeyCount(log, start, n - 1);
      var before := KeysInWindow(log, start, n - 1);
      var now := KeysInWindow(log, start, n);
      if start + n - 1 in log {
        assert now == before + {start + n - 1};
        assert start + n - 1 !in before;
      } else {
        assert now == before;
      }
    }
  }

  /**
   * A date whose key is present counts as tracked even when its list is
   * empty (as after deleting its last entry), while contributing zero totals.
   */
  lemma EmptyBucketIsTracked(log: map<Day, DayBucket>, start: Day, i: nat)
    requires i < 7 && start + i in log && log[start + i].entries == []
    ensures Tracked(log, start, 7) >= 1
    ensures DayReportOf(log, start + i).totals == Zero
  {
    TrackedIsKeyCount(log, start, 7);
    assert start + i in KeysInWindow(log, start, 7);
    AllCentsZero();
  }

  /** The running weekly sums: the rounded day totals of the tracked days, added up. */
  function TrackedSums(log: map<Day, DayBucket>, start: Day, n: nat): (r: Totals)
    ensures AllCents(r)
  {
    if n == 0 then AllCentsZero(); Zero
    else
      var rest := TrackedSums(log, start, n - 1);
      var day := if start + n - 1 in log then DayReportOf(log, start + n - 1).totals else Zero;
      AllCentsZero();
      AllCentsPlus(rest, day);
      Plus(rest, day)
  }

  /** Extending the window by its next date adds that date's count and rounded totals, when its key is present. */
  lemma WindowStep(log: map<Day, DayBucket>, start: Day, i: nat)
    ensures start + i in log ==>
      && Tracked(log, start, i + 1) == Tracked(log, start, i) + 1
      && TrackedSums(log, start, i + 1) == Plus(TrackedSums(log, start, i), DayReportOf(log, start + i).totals)
    ensures start + i !in log ==>
      && Tracked(log, start, i + 1) == Tracked(log, start, i)
      && TrackedSums(log, start, i + 1) == TrackedSums(log, start, i)
  {
    assert start + (i + 1) - 1 == start + i;
    PlusZero(TrackedSums(log, start, i));
  }

  /** One pass of the seven-day loop keeps the records, the count and the sums in step with the window. */
  lemma CollectStep(log: map<Day, DayBucket>, start: Day, i: nat,
                    days: seq<DayReport>, sums: Totals, tracked: nat, day: DayReport)
    requires days == Records(log, start, i) && day == DayReportOf(log, start + i)
    requires tracked == Tracked(log, start, i) && sums == TrackedSums(log, start, i)
    ensures days + [day] == Records(log, start, i + 1)
    ensures start + i in log ==>
      tracked + 1 == Tracked(log, start, i + 1) && Plus(sums, day.totals) == TrackedSums(log, start, i + 1)
    ensures start + i !in log ==>
      tracked == Tracked(log, start, i + 1) && sums == TrackedSums(log, start, i + 1)
  {
    assert start + (i + 1) - 1 == start + i;
    WindowStep(log, start, i);
  }

  /** With no tracked day in the window, the weekly sums are zero. */
  lemma {:induction false} UntrackedWeekSumsToZero(log: map<Day, DayBucket>, start: Day, n: nat)
    requires Tracked(log, start, n) == 0
    ensures TrackedSums(log, start, n) == Zero
  {
    if n > 0 {
      UntrackedWeekSumsToZero(log, start, n - 1);
    }
  }

  /** One pass of the day loop: fetch the date's entries, sum them and round the sums. */
  method DayRecord(log: map<Day, DayBucket>, date: Day) returns (day: DayReport)
    ensures day == DayReportOf(log, date)
  {
    day := DayReport(date, [], Zero);
    if date in log {
      var meals := log[date].entries;
      var sums := SumEntries(meals);
      day := DayReport(date, meals, RoundTotals(sums));
    }
  }

  /**
   * The window computation: step back from today to this week's Monday
   * (not at all on a Monday), then by `offset` weeks, and end six days later.
   */
  method WeekWindow(today: Day, weekday: int, offset: int) returns (weekStart: Day, weekEnd: Day)
    requires 1 <= weekday <= 7
    ensures weekStart == WeekStartOf(today, weekday, offset) && weekEnd == weekStart + 6
    ensures weekStart <= today + 7 * offset <= weekEnd
    ensures weekday == IsoWeekday(today) ==> IsoWeekday(weekStart) == 1
  {
    weekStart := today;
    if weekday != 1 {
      weekStart := weekStart - (weekday - 1);
    }
    if offset != 0 {
      weekStart := weekStart + 7 * offset;
    }
    weekEnd := weekStart + 6;
    if weekday == IsoWeekday(today) {
      WeekStartIsMonday(today, weekday, offset);
    }
  }

  /**
   * The seven-day loop: one record per date from `weekStart`, adding each
   * present date's rounded totals to the weekly sums and counting it.
   */
  method CollectWeek(log: map<Day, DayBucket>, weekStart: Day)
    returns (days: seq<DayReport>, sums: Totals, tracked: nat)
    ensures days == Records(log, weekStart, 7)
    ensures tracked == Tracked(log, weekStart, 7)
    ensures sums == TrackedSums(log, weekStart, 7)
  {
    days := [];
    sums := Zero;
    tracked := 0;
    for i := 0 to 7
      invariant days == Records(log, weekStart, i)
      invariant tracked == Tracked(log, weekStart, i)
      invariant sums == TrackedSums(log, weekStart, i)
    {
      var date := weekStart + i;
      var day := DayRecord(log, date);
      CollectStep(log, weekStart, i, days, sums, tracked, day);
      if date in log {
        sums := Plus(sums, day.totals);
        tracked := tracked + 1;
      }
      days := days + [day];
    }
  }

  /**
   * The closing step: averages over tracked days only (left at zero when
   * there are none), then the weekly totals rounded, which changes nothing
   * when the sums are already whole hundredths.
   */
  method Summarize(sums: Totals, tracked: nat) returns (summary: WeeklySummary)
    ensures summary.daysTracked == tracked
    ensures summary.total == RoundTotals(sums)
    ensures AllCents(sums) ==> summary.total == sums
    ensures tracked == 0 ==> summary.average == Zero
    ensures tracked > 0 ==> summary.average == RoundTotals(DivideBy(sums, tracked))
  {
    var average := Zero;
    if tracked > 0 {
      average := RoundTotals(DivideBy(sums, tracked));
    }
    var total := RoundTotals(sums);
    summary := WeeklySummary(total, average, tracked);
  }

  /**
   * The report page's computation. `today` and `weekday` (its ISO weekday)
   * come from the clock; `offset` is the requested week. Averages are taken
   * over tracked days only and stay zero when there are none; the weekly
   * totals are rounded last, which leaves the sums of rounded days as they are.
   */
  method Report(log: map<Day, DayBucket>, today: Day, weekday: int, offset: int)
    returns (weekStart: Day, weekEnd: Day, days: seq<DayReport>, summary: WeeklySummary)
    requires 1 <= weekday <= 7
    ensures weekStart == WeekStartOf(today, weekday, offset) && weekEnd == weekStart + 6
    ensures weekStart <= today + 7 * offset <= weekEnd
    ensures weekday == IsoWeekday(today) ==> IsoWeekday(weekStart) == 1
    ensures |days| == 7
    ensures forall i :: 0 <= i < 7 ==> days[i] == DayReportOf(log, weekStart + i)
    ensures summary.daysTracked == Tracked(log, weekStart, 7)
    ensures summary.daysTracked == |KeysInWindow(log, weekStart, 7)|
    ensures summary.total == TrackedSums(log, weekStart, 7)
    ensures summary.daysTracked == 0 ==> summary.total == Zero && summary.average == Zero
    ensures summary.daysTracked > 0 ==>
      summary.average == RoundTotals(DivideBy(TrackedSums(log, weekStart, 7), summary.daysTracked))
  {
    weekStart, weekEnd := WeekWindow(today, weekday, offset);
    var sums, tracked;
    days, sums, tracked := CollectWeek(log, weekStart);
    forall i | 0 <= i < 7 ensures days[i] == DayReportOf(log, weekStart + i) {
      RecordsAt(log, weekStart, 7, i);
    }
    summary := Summarize(sums, tracked);
    TrackedIsKeyCount(log, weekStart, 7);
    if tracked == 0 {
      UntrackedWeekSumsToZero(log, weekStart, 7);
    }
  }
}
