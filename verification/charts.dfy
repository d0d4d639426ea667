/** The dashboard charts' data: per-day buckets with a running balance, and
    the expense share of each category. */
module Charts {
  import opened Seqs
  import opened Calendar
  import opened Types
  import opened Summary

  // ---- Daily cash flow ----

  /** One day of the bar and area charts; `sortDate` is the instant of the
      first transaction seen for that day. The source keys buckets by the
      text `YYYY-MM-DD` of the local day; two days share that text exactly
      when they are the same day (`Calendar.FormatInjective`), so the bucket
      is keyed here by the day itself and `DateLabel` gives the text. */
  datatype DayBucket = DayBucket(day: Date, income: real, expense: real, balance: real, sortDate: int)

  /** A bucket together with the running balance up to and including it. */
  datatype SeriesPoint = SeriesPoint(bucket: DayBucket, cumulative: real)

  function DayKey(t: Transaction): Date {
    t.date.date
  }

  function BucketDay(b: DayBucket): Date {
    b.day
  }

  /** The bucket's `date` field as the source writes it. */
  function DateLabel(b: DayBucket): string
    requires ValidDate(b.day)
  {
    FormatYMD(b.day)
  }

  function BucketBalance(b: DayBucket): real {
    b.balance
  }

  function SortKey(b: DayBucket): real {
    b.sortDate as real
  }

  /** Sum of the income amounts of `ts` on the day with key `key`. */
  function DayIncome(ts: seq<Transaction>, key: Date): real
    requires ValidDates(ts)
    decreases |ts|
  {
    if ts == [] then 0.0
    else
      var t := ts[|ts| - 1];
      DayIncome(ts[..|ts| - 1], key) + (if DayKey(t) == key && t.kind == Income then t.amount else 0.0)
  }

  /** Sum of the other (expense) amounts of `ts` on the day with key `key`. */
  function DayExpense(ts: seq<Transaction>, key: Date): real
    requires ValidDates(ts)
    decreases |ts|
  {
    if ts == [] then 0.0
    else
      var t := ts[|ts| - 1];
      DayExpense(ts[..|ts| - 1], key) + (if DayKey(t) == key && t.kind != Income then t.amount else 0.0)
  }

  /** Position of the first transaction of `ts` on the day with key `key`,
      or -1 when there is none. */
  function FirstOnDay(ts: seq<Transaction>, key: Date): (k: int)
    requires ValidDates(ts)
    ensures -1 <= k < |ts|
    ensures k == -1 ==> forall m :: 0 <= m < |ts| ==> DayKey(ts[m]) != key
    ensures k >= 0 ==> DayKey(ts[k]) == key && forall m :: 0 <= m < k ==> DayKey(ts[m]) != key
    decreases |ts|
  {
    if ts == [] then -1
    else
      var init := ts[..|ts| - 1];
      var k := FirstOnDay(init, key);
      if k >= 0 then k else if DayKey(ts[|ts| - 1]) == key then |ts| - 1 else -1
  }

  /** Whether some transaction of `ts` falls on the day with key `key`. */
  predicate OnDay(ts: seq<Transaction>, key: Date)
    requires ValidDates(ts)
  {
    FirstOnDay(ts, key) >= 0
  }

  predicate HasBucket(r: seq<DayBucket>, key: Date) {
    exists i :: 0 <= i < |r| && r[i].day == key
  }

  /** Position of the bucket keyed `key` in `acc`, or -1 when there is none. */
  function FindDay(acc: seq<DayBucket>, key: Date): (k: int)
    ensures -1 <= k < |acc|
    ensures k == -1 ==> forall i :: 0 <= i < |acc| ==> acc[i].day != key
    ensures k >= 0 ==> acc[k].day == key
    decreases |acc|
  {
    if acc == [] then -1
    else if acc[0].day == key then 0
    else
      var k := FindDay(acc[1..], key);
      if k == -1 then -1 else k + 1
  }

  /** Adds `t` to bucket `b`: income raises income and balance, anything
      else raises expense and lowers balance. */
  function Apply(b: DayBucket, t: Transaction): DayBucket {
    if t.kind == Income then b.(income := b.income + t.amount, balance := b.balance + t.amount)
    else b.(expense := b.expense + t.amount, balance := b.balance - t.amount)
  }

  /** One step of the `reduce` that builds the per-day record. */
  function AddToDay(acc: seq<DayBucket>, t: Transaction): seq<DayBucket>
    requires ValidDateTime(t.date)
  {
    var key := DayKey(t);
    var k := FindDay(acc, key);
    if k == -1 then acc + [Apply(DayBucket(key, 0.0, 0.0, 0.0, Instant(t.date)), t)]
    else acc[k := Apply(acc[k], t)]
  }

  /** Buckets exist for exactly the days that occur in `ts`. */
  ghost predicate KeysOf(r: seq<DayBucket>, ts: seq<Transaction>)
    requires ValidDates(ts)
  {
    forall key :: HasBucket(r, key) <==> OnDay(ts, key)
  }

  /** Each bucket holds its day's income and expense sums and their difference. */
  predicate SumsOf(r: seq<DayBucket>, ts: seq<Transaction>)
    requires ValidDates(ts)
  {
    forall i :: 0 <= i < |r| ==>
      && r[i].income == DayIncome(ts, r[i].day)
      && r[i].expense == DayExpense(ts, r[i].day)
      && r[i].balance == r[i].income - r[i].expense
  }

  /** Each bucket's sort instant is that of the first transaction on its day. */
  predicate SortDatesOf(r: seq<DayBucket>, ts: seq<Transaction>)
    requires ValidDates(ts)
  {
    forall i :: 0 <= i < |r| ==>
      var k := FirstOnDay(ts, r[i].day);
      k >= 0 && r[i].sortDate == Instant(ts[k].date)
  }

  /** What a grouping of `ts` by day holds. */
  ghost predicate BucketsOf(r: seq<DayBucket>, ts: seq<Transaction>)
    requires ValidDates(ts)
  {
    DistinctBy(r, BucketDay) && KeysOf(r, ts) && SumsOf(r, ts) && SortDatesOf(r, ts)
  }

  /** The per-day record, keys in first-seen order: exactly one bucket per
      local day that occurs, holding that day's income and expense sums. */
  function GroupByDate(ts: seq<Transaction>): (r: seq<DayBucket>)
    requires ValidDates(ts)
    ensures BucketsOf(r, ts)
    ensures SumOf(r, BucketBalance) == SumOf(ts, Signed)
    decreases |ts|
  {
    if ts == [] then []
    else
      var init := ts[..|ts| - 1];
      var t := ts[|ts| - 1];
      var acc := GroupByDate(init);
      var r := AddToDay(acc, t);
      assert ts == init + [t];
      SumOfAppend(init, [t], Signed);
      DayStep(init, t, acc, r);
      r
  }

  lemma DayStep(init: seq<Transaction>, t: Transaction, acc: seq<DayBucket>, r: seq<DayBucket>)
    requires ValidDates(init) && ValidDateTime(t.date)
    requires BucketsOf(acc, init)
    requires r == AddToDay(acc, t)
    ensures ValidDates(init + [t])
    ensures BucketsOf(r, init + [t])
    ensures SumOf(r, BucketBalance) == SumOf(acc, BucketBalance) + Signed(t)
  {
    var ts := init + [t];
    assert ValidDates(ts) by {
      forall i | 0 <= i < |ts| ensures ValidDateTime(ts[i].date) {
        if i < |init| { assert ts[i] == init[i]; }
      }
    }
    var k := FindDay(acc, DayKey(t));
    if k == -1 {
      var nb := Apply(DayBucket(DayKey(t), 0.0, 0.0, 0.0, Instant(t.date)), t);
      assert r == acc + [nb];
      SumOfAppend(acc, [nb], BucketBalance);
      AppendKeys(init, t, acc, r);
      assert !HasBucket(acc, DayKey(t));
      NoDayZero(init, DayKey(t));
      forall i | 0 <= i < |r|
        ensures r[i].income == DayIncome(ts, r[i].day)
        ensures r[i].expense == DayExpense(ts, r[i].day)
        ensures r[i].balance == r[i].income - r[i].expense
      {
        DaySumsSnoc(init, t, r[i].day);
        if i < |acc| {
          assert r[i] == acc[i];
        }
      }
      AppendSortDates(init, t, acc, r);
    } else {
      var nb := Apply(acc[k], t);
      assert r == acc[k := nb];
      SumOfUpdate(acc, k, nb, BucketBalance);
      UpdateKeys(init, t, acc, k, r);
      UpdateSums(init, t, acc, k, r);
      UpdateSortDates(init, t, acc, k, r);
    }
  }

  lemma OnDaySnoc(init: seq<Transaction>, t: Transaction, key: Date)
    requires ValidDates(init) && ValidDateTime(t.date) && ValidDates(init + [t])
    ensures FirstOnDay(init + [t], key)
         == if FirstOnDay(init, key) >= 0 then FirstOnDay(init, key) else if DayKey(t) == key then |init| else -1
  {
    assert (init + [t])[..|init|] == init;
  }

  lemma DaySumsSnoc(init: seq<Transaction>, t: Transaction, key: Date)
    requires ValidDates(init) && ValidDateTime(t.date) && ValidDates(init + [t])
    ensures DayIncome(init + [t], key) == DayIncome(init, key) + (if DayKey(t) == key && t.kind == Income then t.amount else 0.0)
    ensures DayExpense(init + [t], key) == DayExpense(init, key) + (if DayKey(t) == key && t.kind != Income then t.amount else 0.0)
  {
    assert (init + [t])[..|init|] == init;
  }

  lemma {:induction false} NoDayZero(ts: seq<Transaction>, key: Date)
    requires ValidDates(ts)
    requires !OnDay(ts, key)
    ensures DayIncome(ts, key) == 0.0 && DayExpense(ts, key) == 0.0
    decreases |ts|
  {
    if ts != [] {
      var init := ts[..|ts| - 1];
      assert ts == init + [ts[|ts| - 1]];
      OnDaySnoc(init, ts[|ts| - 1], key);
      NoDayZero(init, key);
    }
  }

  lemma {:induction false} AppendKeys(init: seq<Transaction>, t: Transaction, acc: seq<DayBucket>, r: seq<DayBucket>)
    requires ValidDates(init) && ValidDateTime(t.date) && ValidDates(init + [t])
    requires DistinctBy(acc, BucketDay) && KeysOf(acc, init)
    requires FindDay(acc, DayKey(t)) == -1
    requires |r| == |acc| + 1 && r[..|acc|] == acc && r[|acc|].day == DayKey(t)
    ensures DistinctBy(r, BucketDay) && KeysOf(r, init + [t])
  {
    forall key ensures HasBucket(r, key) <==> OnDay(init + [t], key) {
      OnDaySnoc(init, t, key);
      AppendHas(acc, r, DayKey(t), key);
    }
  }

  lemma {:induction false} AppendHas(acc: seq<DayBucket>, r: seq<DayBucket>, day: Date, key: Date)
    requires |r| == |acc| + 1 && r[..|acc|] == acc && r[|acc|].day == day
    ensures HasBucket(r, key) <==> HasBucket(acc, key) || day == key
  {
    assert forall i :: 0 <= i < |acc| ==> r[i] == acc[i];
  }

  lemma AppendSortDates(init: seq<Transaction>, t: Transaction, acc: seq<DayBucket>, r: seq<DayBucket>)
    requires ValidDates(init) && ValidDateTime(t.date) && ValidDates(init + [t])
    requires KeysOf(acc, init) && SortDatesOf(acc, init)
    requires FindDay(acc, DayKey(t)) == -1
    requires r == acc + [Apply(DayBucket(DayKey(t), 0.0, 0.0, 0.0, Instant(t.date)), t)]
    ensures SortDatesOf(r, init + [t])
  {
    var ts := init + [t];
    assert !OnDay(init, DayKey(t)) by {
      assert !HasBucket(acc, DayKey(t));
    }
    forall i | 0 <= i < |r|
      ensures FirstOnDay(ts, r[i].day) >= 0 && r[i].sortDate == Instant(ts[FirstOnDay(ts, r[i].day)].date)
    {
      OnDaySnoc(init, t, r[i].day);
      if i < |acc| {
        assert r[i] == acc[i];
        assert ts[FirstOnDay(init, acc[i].day)] == init[FirstOnDay(init, acc[i].day)];
      } else {
        assert ts[|init|] == t;
      }
    }
  }

  lemma UpdateKeys(init: seq<Transaction>, t: Transaction, acc: seq<DayBucket>, k: int, r: seq<DayBucket>)
    requires ValidDates(init) && ValidDateTime(t.date) && ValidDates(init + [t])
    requires DistinctBy(acc, BucketDay) && KeysOf(acc, init)
    requires 0 <= k < |acc| && acc[k].day == DayKey(t)
    requires |r| == |acc| && forall i :: 0 <= i < |r| ==> r[i].day == acc[i].day
    ensures DistinctBy(r, BucketDay) && KeysOf(r, init + [t])
  {
    forall key ensures HasBucket(r, key) <==> OnDay(init + [t], key) {
      OnDaySnoc(init, t, key);
      if HasBucket(r, key) {
        var i :| 0 <= i < |r| && r[i].day == key;
        assert acc[i].day == key;
      }
      if HasBucket(acc, key) {
        var i :| 0 <= i < |acc| && acc[i].day == key;
        assert r[i].day == key;
      }
    }
  }

  lemma UpdateSums(init: seq<Transaction>, t: Transaction, acc: seq<DayBucket>, k: int, r: seq<DayBucket>)
    requires ValidDates(init) && ValidDateTime(t.date) && ValidDates(init + [t])
    requires DistinctBy(acc, BucketDay) && SumsOf(acc, init)
    requires 0 <= k < |acc| && acc[k].day == DayKey(t)
    requires r == acc[k := Apply(acc[k], t)]
    ensures SumsOf(r, init + [t])
  {
    forall i | 0 <= i < |r|
      ensures r[i].income == DayIncome(init + [t], r[i].day)
      ensures r[i].expense == DayExpense(init + [t], r[i].day)
      ensures r[i].balance == r[i].income - r[i].expense
    {
      DaySumsSnoc(init, t, r[i].day);
      if i != k {
        assert r[i] == acc[i];
        assert acc[i].day != acc[k].day;
      }
    }
  }

  lemma UpdateSortDates(init: seq<Transaction>, t: Transaction, acc: seq<DayBucket>, k: int, r: seq<DayBucket>)
    requires ValidDates(init) && ValidDateTime(t.date) && ValidDates(init + [t])
    requires SortDatesOf(acc, init)
    requires 0 <= k < |acc|
    requires |r| == |acc| && forall i :: 0 <= i < |r| ==> r[i].day == acc[i].day && r[i].sortDate == acc[i].sortDate
    ensures SortDatesOf(r, init + [t])
  {
    var ts := init + [t];
    forall i | 0 <= i < |r|
      ensures FirstOnDay(ts, r[i].day) >= 0 && r[i].sortDate == Instant(ts[FirstOnDay(ts, r[i].day)].date)
    {
      OnDaySnoc(init, t, r[i].day);
      assert ts[FirstOnDay(init, acc[i].day)] == init[FirstOnDay(init, acc[i].day)];
    }
  }

  /** The running balance: each point adds its day's income minus expense
      to the previous point's cumulative value, starting from `start`. */
  function Accumulate(bs: seq<DayBucket>, start: real): (r: seq<SeriesPoint>)
    ensures |r| == |bs|
    ensures forall i :: 0 <= i < |r| ==> r[i].bucket == bs[i]
    ensures |r| > 0 ==> r[0].cumulative == start + (bs[0].income - bs[0].expense)
    ensures forall i, j :: 0 <= i && j == i + 1 && j < |r| ==>
      r[j].cumulative == r[i].cumulative + (bs[j].income - bs[j].expense)
    decreases |bs|
  {
    if bs == [] then []
    else
      var c := start + (bs[0].income - bs[0].expense);
      var rest := Accumulate(bs[1..], c);
      var r := [SeriesPoint(bs[0], c)] + rest;
      assert forall i, j :: 0 <= i && j == i + 1 && j < |r| ==> r[j] == rest[i];
      r
  }

  /** With balances that are income minus expense, the last cumulative
      value is the start plus the sum of the balances. */
  lemma {:induction false} AccumulateLast(bs: seq<DayBucket>, start: real)
    requires forall i :: 0 <= i < |bs| ==> bs[i].balance == bs[i].income - bs[i].expense
    ensures |bs| > 0 ==> Accumulate(bs, start)[|bs| - 1].cumulative == start + SumOf(bs, BucketBalance)
    decreases |bs|
  {
    if |bs| > 0 {
      var c := start + (bs[0].income - bs[0].expense);
      var rest := Accumulate(bs[1..], c);
      assert Accumulate(bs, start) == [SeriesPoint(bs[0], c)] + rest;
      assert SumOf(bs, BucketBalance) == bs[0].balance + SumOf(bs[1..], BucketBalance);
      if |bs| == 1 {
        assert SumOf(bs[1..], BucketBalance) == 0.0;
      } else {
        assert forall i :: 0 <= i < |bs[1..]| ==> bs[1..][i] == bs[i + 1];
        AccumulateLast(bs[1..], c);
        assert Accumulate(bs, start)[|bs| - 1] == rest[|bs| - 2];
      }
    }
  }

  /** The data of the daily bars and of the savings trend. */
  function TimeSeries(ts: seq<Transaction>): seq<SeriesPoint>
    requires ValidDates(ts)
  {
    Accumulate(SortBy(GroupByDate(ts), SortKey), 0.0)
  }

  /** Reordering a grouping keeps it a grouping. */
  lemma PermutedBuckets(g: seq<DayBucket>, s: seq<DayBucket>, ts: seq<Transaction>)
    requires ValidDates(ts)
    requires BucketsOf(g, ts)
    requires multiset(s) == multiset(g)
    requires DistinctBy(s, BucketDay)
    ensures BucketsOf(s, ts)
  {
    forall i | 0 <= i < |s|
      ensures s[i].income == DayIncome(ts, s[i].day)
      ensures s[i].expense == DayExpense(ts, s[i].day)
      ensures s[i].balance == s[i].income - s[i].expense
      ensures FirstOnDay(ts, s[i].day) >= 0 && s[i].sortDate == Instant(ts[FirstOnDay(ts, s[i].day)].date)
    {
      assert s[i] in multiset(g);
      var j :| 0 <= j < |g| && g[j] == s[i];
    }
    forall key ensures HasBucket(s, key) <==> HasBucket(g, key) {
      if HasBucket(s, key) {
        var i :| 0 <= i < |s| && s[i].day == key;
        assert s[i] in multiset(g);
        var j :| 0 <= j < |g| && g[j] == s[i];
      }
      if HasBucket(g, key) {
        var j :| 0 <= j < |g| && g[j].day == key;
        assert g[j] in multiset(s);
        var i :| 0 <= i < |s| && s[i] == g[j];
      }
    }
  }

  /** The buckets in the order the chart draws them. */
  lemma SortedGrouping(ts: seq<Transaction>)
    requires ValidDates(ts)
    ensures var s := SortBy(GroupByDate(ts), SortKey);
      && BucketsOf(s, ts)
      && SortedBy(s, SortKey)
      && SumOf(s, BucketBalance) == SumOf(ts, Signed)
  {
    var g := GroupByDate(ts);
    SortByDistinct(g, SortKey, BucketDay);
    SumOfSortBy(g, SortKey, BucketBalance);
    PermutedBuckets(g, SortBy(g, SortKey), ts);
  }

  /** The buckets a series is drawn from. */
  function Buckets(r: seq<SeriesPoint>): seq<DayBucket> {
    seq(|r|, i requires 0 <= i < |r| => r[i].bucket)
  }

  /** The series has one point per local day that occurs, each holding that
      day's income and expense sums, and is empty exactly when `ts` is. */
  lemma TimeSeriesDays(ts: seq<Transaction>)
    requires ValidDates(ts)
    ensures BucketsOf(Buckets(TimeSeries(ts)), ts)
    ensures ts == [] <==> TimeSeries(ts) == []
  {
    var s := SortBy(GroupByDate(ts), SortKey);
    SortedGrouping(ts);
    assert Buckets(TimeSeries(ts)) == s;
    if ts != [] {
      assert OnDay(ts, ts[0].date.date);
      assert HasBucket(s, ts[0].date.date);
    }
  }

  /** Days appear in strictly increasing calendar order, and so do their
      sort instants. */
  lemma TimeSeriesChronological(ts: seq<Transaction>)
    requires ValidDates(ts)
    ensures var r := TimeSeries(ts);
      forall i, j :: 0 <= i < j < |r| ==>
        && Before(r[i].bucket.day, r[j].bucket.day)
        && r[i].bucket.sortDate < r[j].bucket.sortDate
  {
    var s := SortBy(GroupByDate(ts), SortKey);
    var r := TimeSeries(ts);
    SortedGrouping(ts);
    forall i, j | 0 <= i < j < |r|
      ensures Before(r[i].bucket.day, r[j].bucket.day)
      ensures r[i].bucket.sortDate < r[j].bucket.sortDate
    {
      assert BucketDay(s[i]) != BucketDay(s[j]);
      assert SortKey(s[i]) <= SortKey(s[j]);
      ChronologicalPair(s[i], s[j], ts[FirstOnDay(ts, s[i].day)], ts[FirstOnDay(ts, s[j].day)]);
    }
  }

  /** The cumulative line is the running sum of the daily balances and ends
      at the net savings of `ts`. */
  lemma TimeSeriesCumulative(ts: seq<Transaction>)
    requires ValidDates(ts)
    ensures var r := TimeSeries(ts);
      && (|r| > 0 ==> r[0].cumulative == r[0].bucket.balance)
      && (forall i, j :: 0 <= i && j == i + 1 && j < |r| ==> r[j].cumulative == r[i].cumulative + r[j].bucket.balance)
      && (|r| > 0 ==> r[|r| - 1].cumulative == Summarize(ts).netSavings)
  {
    var s := SortBy(GroupByDate(ts), SortKey);
    SortedBalances(ts);
    AccumulateBalances(s);
    assert TimeSeries(ts) == Accumulate(s, 0.0);
  }

  lemma AccumulateBalances(bs: seq<DayBucket>)
    requires forall i :: 0 <= i < |bs| ==> bs[i].balance == bs[i].income - bs[i].expense
    ensures var r := Accumulate(bs, 0.0);
      && (|r| > 0 ==> r[0].cumulative == r[0].bucket.balance)
      && (forall i, j :: 0 <= i && j == i + 1 && j < |r| ==> r[j].cumulative == r[i].cumulative + r[j].bucket.balance)
      && (|r| > 0 ==> r[|r| - 1].cumulative == SumOf(bs, BucketBalance))
  {
    AccumulateLast(bs, 0.0);
  }

  lemma SortedBalances(ts: seq<Transaction>)
    requires ValidDates(ts)
    ensures var s := SortBy(GroupByDate(ts), SortKey);
      && (forall i :: 0 <= i < |s| ==> s[i].balance == s[i].income - s[i].expense)
      && SumOf(s, BucketBalance) == SumOf(ts, Signed)
  {
    SortedGrouping(ts);
  }

  /** Two buckets of different days, each stamped with the instant of a
      transaction on its day, the first sorting no later, are in calendar
      order and strictly ordered by sort instant. */
  lemma ChronologicalPair(a: DayBucket, b: DayBucket, ta: Transaction, tb: Transaction)
    requires ValidDateTime(ta.date) && ValidDateTime(tb.date)
    requires a.day == DayKey(ta) && a.sortDate == Instant(ta.date)
    requires b.day == DayKey(tb) && b.sortDate == Instant(tb.date)
    requires a.day != b.day
    requires SortKey(a) <= SortKey(b)
    ensures Before(a.day, b.day)
    ensures a.sortDate < b.sortDate
  {
    DayNumberInjective(a.day, b.day);
    InstantWithinDay(ta.date, tb.date);
    InstantWithinDay(tb.date, ta.date);
  }

  /** One wedge of the expense pie: a category, its expense total and its
      share of all expenses in percent. */
  datatype PieSlice = PieSlice(name: Category, value: real, percent: real)

  function SliceName(s: PieSlice): Category {
    s.name
  }

  function SliceValue(s: PieSlice): real {
    s.value
  }

  function SlicePercent(s: PieSlice): real {
    s.percent
  }

  /** The pie's sort key: larger values first. */
  function Descending(s: PieSlice): real {
    -s.value
  }

  /** `value` as a percentage of `total`, or 0 when there is nothing to share. */
  function Percent(value: real, total: real): real {
    if total > 0.0 then value / total * 100.0 else 0.0
  }

  function Slices(cs: seq<CategoryTotal>, total: real): (r: seq<PieSlice>)
    ensures |r| == |cs|
    ensures forall i :: 0 <= i < |r| ==> r[i].name == cs[i].category && r[i].value == cs[i].total
    ensures forall i :: 0 <= i < |r| ==> r[i].percent == Percent(r[i].value, total)
    decreases |cs|
  {
    if cs == [] then []
    else [PieSlice(cs[0].category, cs[0].total, Percent(cs[0].total, total))] + Slices(cs[1..], total)
  }

  /** The pie of the expenses of `ts`, largest first. */
  function PieData(ts: seq<Transaction>): seq<PieSlice> {
    SortBy(Slices(ExpenseTotals(ts), TotalExpense(ts)), Descending)
  }

  lemma {:induction false} SlicesSums(cs: seq<CategoryTotal>, total: real)
    ensures SumOf(Slices(cs, total), SliceValue) == SumOf(cs, TotalOf)
    ensures total > 0.0 ==> SumOf(Slices(cs, total), SlicePercent) == SumOf(cs, TotalOf) / total * 100.0
    decreases |cs|
  {
    if cs != [] {
      SlicesSums(cs[1..], total);
      var r := Slices(cs, total);
      assert r[1..] == Slices(cs[1..], total);
      if total > 0.0 {
        var x := cs[0].total;
        var rest := SumOf(cs[1..], TotalOf);
        assert x / total * 100.0 + rest / total * 100.0 == (x + rest) / total * 100.0;
      }
    }
  }

  predicate HasSlice(r: seq<PieSlice>, c: Category) {
    exists i :: 0 <= i < |r| && r[i].name == c
  }

  /** What a pie of the expenses of `ts` holds: one slice per category that
      occurs among the expenses, with that category's expense total and its
      percentage of all expenses. */
  ghost predicate PieOf(r: seq<PieSlice>, ts: seq<Transaction>) {
    var es := Filter(ts, IsExpense);
    && DistinctBy(r, SliceName)
    && (forall c :: HasSlice(r, c) <==> Occurs(es, c))
    && (forall i :: 0 <= i < |r| ==>
          && r[i].value == CategorySum(es, r[i].name)
          && r[i].percent == Percent(r[i].value, TotalExpense(ts)))
  }

  lemma UnsortedPie(ts: seq<Transaction>)
    ensures PieOf(Slices(ExpenseTotals(ts), TotalExpense(ts)), ts)
  {
    var cs := ExpenseTotals(ts);
    var sl := Slices(cs, TotalExpense(ts));
    forall c ensures HasSlice(sl, c) <==> Lists(cs, c) {
      if Lists(cs, c) {
        var j :| 0 <= j < |cs| && cs[j].category == c;
        assert sl[j].name == c;
      }
    }
    assert DistinctBy(sl, SliceName) by {
      forall i, j | 0 <= i < j < |sl| ensures SliceName(sl[i]) != SliceName(sl[j]) {
        assert CategoryOf(cs[i]) != CategoryOf(cs[j]);
      }
    }
  }

  /** Reordering a pie keeps it a pie. */
  lemma PermutedPie(a: seq<PieSlice>, b: seq<PieSlice>, ts: seq<Transaction>)
    requires PieOf(a, ts)
    requires multiset(b) == multiset(a)
    requires DistinctBy(b, SliceName)
    ensures PieOf(b, ts)
  {
    forall i | 0 <= i < |b|
      ensures b[i].value == CategorySum(Filter(ts, IsExpense), b[i].name)
      ensures b[i].percent == Percent(b[i].value, TotalExpense(ts))
    {
      assert b[i] in multiset(a);
      var j :| 0 <= j < |a| && a[j] == b[i];
    }
    forall c ensures HasSlice(b, c) <==> HasSlice(a, c) {
      if HasSlice(b, c) {
        var i :| 0 <= i < |b| && b[i].name == c;
        assert b[i] in multiset(a);
        var j :| 0 <= j < |a| && a[j] == b[i];
      }
      if HasSlice(a, c) {
        var j :| 0 <= j < |a| && a[j].name == c;
        assert a[j] in multiset(b);
        var i :| 0 <= i < |b| && b[i] == a[j];
      }
    }
  }

  /** The pie holds the expense totals per category, largest first, and is
      empty exactly when there are no expenses. */
  lemma PieDataSlices(ts: seq<Transaction>)
    ensures PieOf(PieData(ts), ts)
    ensures forall i, j :: 0 <= i < j < |PieData(ts)| ==> PieData(ts)[i].value >= PieData(ts)[j].value
    ensures PieData(ts) == [] <==> Filter(ts, IsExpense) == []
  {
    var es := Filter(ts, IsExpense);
    var sl := Slices(ExpenseTotals(ts), TotalExpense(ts));
    var r := PieData(ts);
    UnsortedPie(ts);
    SortByDistinct(sl, Descending, SliceName);
    PermutedPie(sl, r, ts);
    forall i, j | 0 <= i < j < |r| ensures r[i].value >= r[j].value {
      assert Descending(r[i]) <= Descending(r[j]);
    }
    if es != [] {
      assert Occurs(es, es[0].category);
      assert HasSlice(r, es[0].category);
    }
  }

  /** The pie's values add up to the total expense and, when that is
      positive, its percentages to 100. */
  lemma PieDataTotals(ts: seq<Transaction>)
    ensures SumOf(PieData(ts), SliceValue) == TotalExpense(ts)
    ensures TotalExpense(ts) > 0.0 ==> SumOf(PieData(ts), SlicePercent) == 100.0
  {
    var cs := ExpenseTotals(ts);
    var total := TotalExpense(ts);
    var slices := Slices(cs, total);
    assert PieData(ts) == SortBy(slices, Descending);
    SlicesSums(cs, total);
    SumOfSortBy(slices, Descending, SliceValue);
    SumOfSortBy(slices, Descending, SlicePercent);
    assert SumOf(cs, TotalOf) == total;
    if total > 0.0 {
      WholeIsHundred(SumOf(cs, TotalOf), total);
    }
  }

  lemma WholeIsHundred(part: real, total: real)
    requires total > 0.0 && part == total
    ensures part / total * 100.0 == 100.0
  {
    assert part / total == 1.0;
  }

  /** The legend under the pie: its first four slices. */
  function Legend(pie: seq<PieSlice>): seq<PieSlice> {
    if |pie| <= 4 then pie else pie[..4]
  }

  /** The legend lists up to four slices, and no slice left out of it is
      larger than one it shows. */
  lemma LegendShowsLargest(ts: seq<Transaction>)
    ensures var pie := PieData(ts);
      var l := Legend(pie);
      && |l| == (if |pie| < 4 then |pie| else 4)
      && (forall i :: 0 <= i < |l| ==> l[i] in pie)
      && (forall i, j :: 0 <= i < |l| && |l| <= j < |pie| ==> pie[j].value <= l[i].value)
  {
    PieDataSlices(ts);
  }
}
