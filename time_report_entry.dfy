/**
  The TimeReportEntry record: one calendar day and the time worked on it,
  together with the operations on collections of such entries that the
  transfer pipeline relies on (grouping by date and summing).

  A calendar day is an integer day number and a duration is a whole
  number of seconds; a timestamp on day `d` lies in
  `[d * SecondsPerDay, (d + 1) * SecondsPerDay)`.
*/
module Models {

  const SecondsPerHour: int := 3600
  const SecondsPerDay: int := 86400

  /** `DateTime.Date` as a day number: the day on which timestamp `t` falls. */
  function DayOf(t: int): (d: int)
    ensures d * 86400 <= t < d * 86400 + 86400
  {
    t / 86400
  }

  /** `DateTime.Date` as a timestamp: midnight at the start of `t`'s day. */
  function Midnight(t: int): (m: int)
    ensures m % 86400 == 0
    ensures m <= t < m + 86400
  {
    DayOf(t) * 86400
  }

  /** A day (`date`) and the seconds worked on it (`workTime`). The source's
      constructor stores both exactly as given, and nothing changes them later. */
  datatype TimeReportEntry = TimeReportEntry(date: int, workTime: int)

  /** `Math.Round(WorkTime.TotalHours)`: the whole number of hours nearest to
      the work time, an exact half-hour going to the even neighbour. */
  function TotalHours(e: TimeReportEntry): (h: int)
    ensures -1800 <= e.workTime - 3600 * h <= 1800
    ensures e.workTime - 3600 * h == 1800 ==> h % 2 == 0
    ensures e.workTime - 3600 * h == -1800 ==> h % 2 == 0
  {
    var q := e.workTime / 3600;
    var r := e.workTime % 3600;
    if 2 * r < 3600 then q
    else if 2 * r > 3600 then q + 1
    else if q % 2 == 0 then q
    else q + 1
  }

  /** The contract of TotalHours pins down a single integer. */
  lemma TotalHoursUnique(e: TimeReportEntry, h: int)
    requires -1800 <= e.workTime - 3600 * h <= 1800
    requires e.workTime - 3600 * h == 1800 ==> h % 2 == 0
    requires e.workTime - 3600 * h == -1800 ==> h % 2 == 0
    ensures h == TotalHours(e)
  {
  }

  /** More work never gives fewer rounded hours. */
  lemma TotalHoursMonotone(a: TimeReportEntry, b: TimeReportEntry)
    requires a.workTime <= b.workTime
    ensures TotalHours(a) <= TotalHours(b)
  {
  }

  /** A whole number of hours is not rounded at all. */
  lemma TotalHoursOfWholeHours(e: TimeReportEntry, n: int)
    requires e.workTime == 3600 * n
    ensures TotalHours(e) == n
  {
    TotalHoursUnique(e, n);
  }

  /** Ties go to the even hour: 2h30m gives 2, 3h30m gives 4; 2h15m gives 2. */
  lemma TotalHoursExamples(d: int)
    ensures TotalHours(TimeReportEntry(d, 2 * 3600 + 1800)) == 2
    ensures TotalHours(TimeReportEntry(d, 3 * 3600 + 1800)) == 4
    ensures TotalHours(TimeReportEntry(d, 2 * 3600 + 900)) == 2
  {
  }

  // ---------------------------------------------------------------------
  // Collections of entries

  /** The dates of a collection, position by position. */
  function Dates(es: seq<TimeReportEntry>): (ds: seq<int>)
    ensures |ds| == |es|
    ensures forall i :: 0 <= i < |es| ==> ds[i] == es[i].date
  {
    seq(|es|, i requires 0 <= i < |es| => es[i].date)
  }

  /** One entry per day: the invariant of every collection the fetcher and
      the aggregator produce. */
  predicate DistinctDates(es: seq<TimeReportEntry>)
  {
    forall i, j :: 0 <= i < j < |es| ==> es[i].date != es[j].date
  }

  /** The seconds a collection records on day `d`, summed over all its entries. */
  function SumOn(es: seq<TimeReportEntry>, d: int): int
  {
    if es == [] then 0
    else (if es[0].date == d then es[0].workTime else 0) + SumOn(es[1..], d)
  }

  /** The seconds a collection records in all. */
  function Total(es: seq<TimeReportEntry>): int
  {
    if es == [] then 0 else es[0].workTime + Total(es[1..])
  }

  lemma {:induction false} SumOnAppend(a: seq<TimeReportEntry>, b: seq<TimeReportEntry>, d: int)
    ensures SumOn(a + b, d) == SumOn(a, d) + SumOn(b, d)
  {
    if a != [] {
      assert (a + b)[1..] == a[1..] + b;
      SumOnAppend(a[1..], b, d);
    } else {
      assert a + b == b;
    }
  }

  lemma {:induction false} TotalAppend(a: seq<TimeReportEntry>, b: seq<TimeReportEntry>)
    ensures Total(a + b) == Total(a) + Total(b)
  {
    if a != [] {
      assert (a + b)[1..] == a[1..] + b;
      TotalAppend(a[1..], b);
    } else {
      assert a + b == b;
    }
  }

  /** A day that no entry carries has nothing recorded on it. */
  lemma {:induction false} SumOnAbsent(es: seq<TimeReportEntry>, d: int)
    requires d !in Dates(es)
    ensures SumOn(es, d) == 0
  {
    if es != [] {
      assert Dates(es[1..]) == Dates(es)[1..];
      SumOnAbsent(es[1..], d);
    }
  }

  /** In a collection with one entry per day, the sum on an entry's day is
      that entry's own work time. */
  lemma {:induction false} SumOnDistinct(es: seq<TimeReportEntry>, i: int)
    requires DistinctDates(es)
    requires 0 <= i < |es|
    ensures SumOn(es, es[i].date) == es[i].workTime
  {
    assert Dates(es[1..]) == Dates(es)[1..];
    if i == 0 {
      assert es[0].date !in Dates(es[1..]);
      SumOnAbsent(es[1..], es[0].date);
    } else {
      SumOnDistinct(es[1..], i - 1);
    }
  }

  /** Adds one entry to a grouped collection: its seconds go to the group of
      its day, or it opens a new group at the end (the first-seen order of
      the source's GroupBy). */
  function Merge(groups: seq<TimeReportEntry>, e: TimeReportEntry): (r: seq<TimeReportEntry>)
    ensures |r| == |groups| || r == groups + [e]
  {
    if groups == [] then [e]
    else if groups[0].date == e.date then
      [TimeReportEntry(e.date, groups[0].workTime + e.workTime)] + groups[1..]
    else
      [groups[0]] + Merge(groups[1..], e)
  }

  /** Merging keeps every day's sum and adds the new seconds to the entry's day. */
  lemma {:induction false} MergeSumOn(groups: seq<TimeReportEntry>, e: TimeReportEntry, d: int)
    ensures SumOn(Merge(groups, e), d) == SumOn(groups, d) + (if d == e.date then e.workTime else 0)
  {
    if groups != [] && groups[0].date != e.date {
      var r := Merge(groups, e);
      assert r[1..] == Merge(groups[1..], e);
      MergeSumOn(groups[1..], e, d);
    }
  }

  /** Merging adds the seconds of the entry to the collection's total. */
  lemma {:induction false} MergeTotal(groups: seq<TimeReportEntry>, e: TimeReportEntry)
    ensures Total(Merge(groups, e)) == Total(groups) + e.workTime
  {
    if groups != [] && groups[0].date != e.date {
      var r := Merge(groups, e);
      assert r[1..] == Merge(groups[1..], e);
      MergeTotal(groups[1..], e);
    }
  }

  /** Merging an entry whose day already has a group keeps the days as they are. */
  lemma {:induction false} MergeDatesPresent(groups: seq<TimeReportEntry>, e: TimeReportEntry)
    requires e.date in Dates(groups)
    ensures Dates(Merge(groups, e)) == Dates(groups)
  {
    var r := Merge(groups, e);
    assert Dates(groups) == [groups[0].date] + Dates(groups[1..]);
    if groups[0].date != e.date {
      MergeDatesPresent(groups[1..], e);
      assert Dates(r) == [groups[0].date] + Dates(Merge(groups[1..], e));
    } else {
      assert Dates(r) == [e.date] + Dates(groups[1..]);
    }
  }

  /** Merging an entry of a new day appends it. */
  lemma {:induction false} MergeDatesAbsent(groups: seq<TimeReportEntry>, e: TimeReportEntry)
    requires e.date !in Dates(groups)
    ensures Merge(groups, e) == groups + [e]
  {
    if groups != [] {
      assert Dates(groups) == [groups[0].date] + Dates(groups[1..]);
      MergeDatesAbsent(groups[1..], e);
      assert groups == [groups[0]] + groups[1..];
    }
  }

  /** Merging keeps the days present and adds the entry's day, in place when
      that day already has a group and at the end otherwise. */
  lemma MergeDates(groups: seq<TimeReportEntry>, e: TimeReportEntry)
    ensures e.date in Dates(groups) ==> Dates(Merge(groups, e)) == Dates(groups)
    ensures e.date !in Dates(groups) ==> Merge(groups, e) == groups + [e]
    ensures forall d :: d in Dates(Merge(groups, e)) <==> d in Dates(groups) || d == e.date
  {
    if e.date in Dates(groups) {
      MergeDatesPresent(groups, e);
    } else {
      MergeDatesAbsent(groups, e);
      assert Dates(groups + [e]) == Dates(groups) + [e.date];
    }
  }

  /** Merging keeps one entry per day. */
  lemma MergeDistinct(groups: seq<TimeReportEntry>, e: TimeReportEntry)
    requires DistinctDates(groups)
    ensures DistinctDates(Merge(groups, e))
  {
    MergeDates(groups, e);
    var r := Merge(groups, e);
    if e.date in Dates(groups) {
      assert forall k :: 0 <= k < |r| ==> r[k].date == Dates(r)[k] == Dates(groups)[k];
    }
  }

  /** What grouping promises about `r` as a grouping of `es`. */
  ghost predicate GroupsOf(r: seq<TimeReportEntry>, es: seq<TimeReportEntry>)
  {
    && DistinctDates(r)
    && (forall d :: d in Dates(r) <==> d in Dates(es))
    && (forall d :: SumOn(r, d) == SumOn(es, d))
    && Total(r) == Total(es)
    && |r| <= |es|
  }

  lemma MergeGroupsDates(g: seq<TimeReportEntry>, init: seq<TimeReportEntry>, last: TimeReportEntry)
    requires DistinctDates(g)
    requires forall d :: d in Dates(g) <==> d in Dates(init)
    ensures DistinctDates(Merge(g, last))
    ensures forall d :: d in Dates(Merge(g, last)) <==> d in Dates(init + [last])
  {
    MergeDates(g, last);
    MergeDistinct(g, last);
    assert Dates(init + [last]) == Dates(init) + [last.date];
  }

  lemma MergeGroupsSums(g: seq<TimeReportEntry>, init: seq<TimeReportEntry>, last: TimeReportEntry)
    requires forall d :: SumOn(g, d) == SumOn(init, d)
    ensures forall d :: SumOn(Merge(g, last), d) == SumOn(init + [last], d)
  {
    forall d ensures SumOn(Merge(g, last), d) == SumOn(init + [last], d) {
      MergeSumOn(g, last, d);
      SumOnAppend(init, [last], d);
    }
  }

  lemma MergeGroupsTotal(g: seq<TimeReportEntry>, init: seq<TimeReportEntry>, last: TimeReportEntry)
    requires Total(g) == Total(init) && |g| <= |init|
    ensures Total(Merge(g, last)) == Total(init + [last])
    ensures |Merge(g, last)| <= |init + [last]|
  {
    MergeTotal(g, last);
    TotalAppend(init, [last]);
  }

  /** Merging one more entry into a grouping of `init` gives a grouping of
      `init + [last]`. */
  lemma MergeGroups(g: seq<TimeReportEntry>, init: seq<TimeReportEntry>, last: TimeReportEntry)
    requires GroupsOf(g, init)
    ensures GroupsOf(Merge(g, last), init + [last])
  {
    MergeGroupsDates(g, init, last);
    MergeGroupsSums(g, init, last);
    MergeGroupsTotal(g, init, last);
  }

  /** In a grouping, each entry carries its day's total. */
  lemma GroupsOfSums(r: seq<TimeReportEntry>, es: seq<TimeReportEntry>)
    requires GroupsOf(r, es)
    ensures forall i :: 0 <= i < |r| ==> r[i].workTime == SumOn(es, r[i].date)
  {
    forall i | 0 <= i < |r| ensures r[i].workTime == SumOn(es, r[i].date) {
      SumOnDistinct(r, i);
    }
  }

  /** `GroupBy(date).Select(new TimeReportEntry(key, Sum(seconds)))`: one
      entry per day present, carrying that day's total, in the order in
      which the days first appear. */
  function GroupByDate(es: seq<TimeReportEntry>): (r: seq<TimeReportEntry>)
    ensures DistinctDates(r)
    ensures forall d :: d in Dates(r) <==> d in Dates(es)
    ensures forall d :: SumOn(r, d) == SumOn(es, d)
    ensures forall i :: 0 <= i < |r| ==> r[i].workTime == SumOn(es, r[i].date)
    ensures Total(r) == Total(es)
    ensures |r| <= |es|
    decreases |es|
  {
    if es == [] then []
    else
      var init, last := es[..|es| - 1], es[|es| - 1];
      assert es == init + [last];
      var g := GroupByDate(init);
      MergeGroups(g, init, last);
      GroupsOfSums(Merge(g, last), es);
      Merge(g, last)
  }

  /** A collection that already has one entry per day is grouped into itself. */
  lemma {:induction false} GroupByDateOfDistinct(es: seq<TimeReportEntry>)
    requires DistinctDates(es)
    ensures GroupByDate(es) == es
    decreases |es|
  {
    if es != [] {
      var init, last := es[..|es| - 1], es[|es| - 1];
      assert es == init + [last];
      GroupByDateOfDistinct(init);
      assert last.date !in Dates(init);
      MergeDates(init, last);
    }
  }

  /** Grouping twice is grouping once. */
  lemma GroupByDateIdempotent(es: seq<TimeReportEntry>)
    ensures GroupByDate(GroupByDate(es)) == GroupByDate(es)
  {
    GroupByDateOfDistinct(GroupByDate(es));
  }
}
