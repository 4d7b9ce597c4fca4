/** The dashboard's revenue cards (`Dashboard`, App.tsx): the day, week and month
    totals of the tenant's service records. Local-time calendar arithmetic is not
    modelled: the start of today and the start of the month are given, and the
    weekday of today (0 = Sunday) is given. */
module Revenue {
  import opened Model

  /** The three period starts, in milliseconds. */
  datatype PeriodStarts = PeriodStarts(startOfToday: int, startOfWeek: int, startOfMonth: int)

  /** `startOfWeek.setDate(startOfWeek.getDate() - startOfToday.getDay())`: the week
      begins on the Sunday at or before today. */
  function WeekStart(startOfToday: int, weekday: int): (w: int)
    requires 0 <= weekday <= 6
    ensures startOfToday - w == weekday * DAY_MS
    ensures w <= startOfToday && startOfToday - w < 7 * DAY_MS
    ensures (startOfToday - w) % DAY_MS == 0
    ensures weekday == 0 <==> w == startOfToday
  {
    startOfToday - weekday * DAY_MS
  }

  function Periods(startOfToday: int, weekday: int, startOfMonth: int): (p: PeriodStarts)
    requires 0 <= weekday <= 6
    ensures p.startOfToday == startOfToday && p.startOfMonth == startOfMonth
    ensures p.startOfWeek == WeekStart(startOfToday, weekday)
    ensures p.startOfWeek <= p.startOfToday
  {
    PeriodStarts(startOfToday, WeekStart(startOfToday, weekday), startOfMonth)
  }

  /** Reference definition: the sum of `totalValue` over the records dated at or
      after `start`. */
  function RevenueSince(records: seq<ServiceRecord>, start: int): (r: real)
    ensures NonNegativeTotals(records) ==> r >= 0.0
  {
    if records == [] then 0.0
    else
      var last := records[|records| - 1];
      assert NonNegativeTotals(records) ==> NonNegativeTotals(records[..|records| - 1]);
      RevenueSince(records[..|records| - 1], start) + (if last.date >= start then last.totalValue else 0.0)
  }

  /** The `for (const record of data.records)` loop with its three accumulators. */
  method ComputeRevenue(records: seq<ServiceRecord>, p: PeriodStarts)
    returns (daily: real, weekly: real, monthly: real)
    ensures daily == RevenueSince(records, p.startOfToday)
    ensures weekly == RevenueSince(records, p.startOfWeek)
    ensures monthly == RevenueSince(records, p.startOfMonth)
  {
    daily, weekly, monthly := 0.0, 0.0, 0.0;
    for i := 0 to |records|
      invariant daily == RevenueSince(records[..i], p.startOfToday)
      invariant weekly == RevenueSince(records[..i], p.startOfWeek)
      invariant monthly == RevenueSince(records[..i], p.startOfMonth)
    {
      var record := records[i];
      assert records[..i + 1][..i] == records[..i];
      if record.date >= p.startOfToday {
        daily := daily + record.totalValue;
      }
      if record.date >= p.startOfWeek {
        weekly := weekly + record.totalValue;
      }
      if record.date >= p.startOfMonth {
        monthly := monthly + record.totalValue;
      }
    }
    assert records[..|records|] == records;
  }

  /** The totals of two batches of records add up. */
  lemma {:induction false} RevenueSinceAppend(a: seq<ServiceRecord>, b: seq<ServiceRecord>, start: int)
    ensures RevenueSince(a + b, start) == RevenueSince(a, start) + RevenueSince(b, start)
    decreases |b|
  {
    if b == [] {
      assert a + b == a;
    } else {
      var b' := b[..|b| - 1];
      assert (a + b)[..|a + b| - 1] == a + b';
      RevenueSinceAppend(a, b', start);
    }
  }

  ghost predicate NonNegativeTotals(records: seq<ServiceRecord>) {
    forall i :: 0 <= i < |records| ==> records[i].totalValue >= 0.0
  }

  /** An earlier period start takes in every record a later one does: with
      non-negative record totals, the revenue can only grow. */
  lemma {:induction false} RevenueMonotone(records: seq<ServiceRecord>, earlier: int, later: int)
    requires earlier <= later
    requires NonNegativeTotals(records)
    ensures RevenueSince(records, later) <= RevenueSince(records, earlier)
  {
    if records != [] {
      RevenueMonotone(records[..|records| - 1], earlier, later);
    }
  }

  /** Every record in today's bucket is also in this week's and this month's. */
  lemma DailyRecordInWiderBuckets(r: ServiceRecord, startOfToday: int, weekday: int, startOfMonth: int)
    requires 0 <= weekday <= 6 && startOfMonth <= startOfToday
    requires r.date >= startOfToday
    ensures var p := Periods(startOfToday, weekday, startOfMonth);
            r.date >= p.startOfWeek && r.date >= p.startOfMonth
  {
  }

  /** The day's revenue never exceeds the week's or the month's. */
  lemma DailyAtMostWeeklyAndMonthly(records: seq<ServiceRecord>, startOfToday: int, weekday: int, startOfMonth: int)
    requires 0 <= weekday <= 6 && startOfMonth <= startOfToday
    requires NonNegativeTotals(records)
    ensures var p := Periods(startOfToday, weekday, startOfMonth);
            RevenueSince(records, p.startOfToday) <= RevenueSince(records, p.startOfWeek)
            && RevenueSince(records, p.startOfToday) <= RevenueSince(records, p.startOfMonth)
  {
    var p := Periods(startOfToday, weekday, startOfMonth);
    RevenueMonotone(records, p.startOfWeek, p.startOfToday);
    RevenueMonotone(records, p.startOfMonth, p.startOfToday);
  }

  /** A record dated before the period start adds nothing to that bucket. */
  lemma {:induction false} RevenueIgnoresOlder(records: seq<ServiceRecord>, start: int)
    requires forall i :: 0 <= i < |records| ==> records[i].date < start
    ensures RevenueSince(records, start) == 0.0
  {
    if records != [] {
      RevenueIgnoresOlder(records[..|records| - 1], start);
    }
  }
}
