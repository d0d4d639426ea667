/** The dashboard's time-range selector and the filter it drives. */
module TimeRange {
  import opened Seqs
  import opened Calendar
  import opened Types

  datatype Range = All | Month | Week | Today

  /** Local midnight seven days before `now`: `setDate(getDate() - 7)`
      followed by `setHours(0, 0, 0, 0)`. */
  function WeekCutoff(now: DateTime): int
    requires ValidDateTime(now)
  {
    (DayNumber(now.date) - 7) * SecondsPerDay
  }

  /** Whether range `r` keeps `t`. A stored date that does not read as a
      date is JavaScript's invalid `Date`: its key is not `now`'s, it compares
      false with the cutoff and its month is not a number, so only `All`
      keeps it. */
  predicate Keeps(r: Range, now: DateTime, t: Transaction)
    requires ValidDateTime(now)
  {
    match r
    case All => true
    case Today => ValidDateTime(t.date) && FormatYMD(t.date.date) == FormatYMD(now.date)
    case Week => ValidDateTime(t.date) && Instant(t.date) >= WeekCutoff(now)
    case Month => ValidDateTime(t.date) && t.date.date.month == now.date.month && t.date.date.year == now.date.year
  }

  /** The transactions shown for range `r` at time `now`. */
  function FilterByRange(ts: seq<Transaction>, r: Range, now: DateTime): (res: seq<Transaction>)
    requires ValidDateTime(now)
    ensures IsSubsequence(res, ts)
    ensures forall t :: t in res <==> t in ts && Keeps(r, now, t)
    ensures forall t :: multiset(res)[t] == if Keeps(r, now, t) then multiset(ts)[t] else 0
  {
    FilterCounts(ts, t => Keeps(r, now, t));
    Filter(ts, t => Keeps(r, now, t))
  }

  /** `All` shows the list unchanged. */
  lemma AllIsIdentity(ts: seq<Transaction>, now: DateTime)
    requires ValidDateTime(now)
    ensures FilterByRange(ts, All, now) == ts
  {
    FilterKeepsAll(ts, t => Keeps(All, now, t));
  }

  /** `Today` keeps exactly the transactions on `now`'s local calendar day. */
  lemma TodayMeansSameDay(now: DateTime, t: Transaction)
    requires ValidDateTime(now)
    ensures Keeps(Today, now, t) <==> ValidDateTime(t.date) && t.date.date == now.date
  {
    if ValidDateTime(t.date) {
      FormatInjective(t.date.date, now.date);
    }
  }

  /** `Week` keeps exactly the transactions whose day is at most seven days
      before `now`'s: the bound includes local midnight of that day, and there
      is no upper bound, so later days are kept too. */
  lemma WeekMeansLastSevenDays(now: DateTime, t: Transaction)
    requires ValidDateTime(now)
    ensures Keeps(Week, now, t) <==> ValidDateTime(t.date) && DayNumber(t.date.date) >= DayNumber(now.date) - 7
  {
  }

  /** A transaction kept for today is kept for this week and this month. */
  lemma TodayWithinWeekAndMonth(now: DateTime, t: Transaction)
    requires ValidDateTime(now)
    requires Keeps(Today, now, t)
    ensures Keeps(Week, now, t) && Keeps(Month, now, t)
  {
    TodayMeansSameDay(now, t);
  }

  /** `Month` keeps exactly the transactions whose day lies between the first
      and the last day of `now`'s month. */
  lemma MonthMeansCalendarMonth(now: DateTime, t: Transaction)
    requires ValidDateTime(now)
    ensures var first := Date(now.date.year, now.date.month, 1);
      var last := Date(now.date.year, now.date.month, DaysInMonth(now.date.year, now.date.month));
      && ValidDate(first) && ValidDate(last)
      && (Keeps(Month, now, t) <==>
            && ValidDateTime(t.date)
            && DayNumber(first) <= DayNumber(t.date.date) <= DayNumber(last))
  {
    var first := Date(now.date.year, now.date.month, 1);
    var last := Date(now.date.year, now.date.month, DaysInMonth(now.date.year, now.date.month));
    if ValidDateTime(t.date) {
      var d := t.date.date;
      DayNumberInjective(d, first);
      DayNumberInjective(first, d);
      DayNumberInjective(d, last);
      DayNumberInjective(last, d);
    }
  }
}
