/**
  The aggregator (`ConcatTimeReports`): merges the reports of the several
  source projects of one mapping into a single report with one entry per
  day, summing the seconds recorded on a day across all projects.
*/
module Aggregation {

  import opened Models

  /** `SelectMany`: the reports one after another. */
  function Flatten(reports: seq<seq<TimeReportEntry>>): seq<TimeReportEntry>
  {
    if reports == [] then [] else reports[0] + Flatten(reports[1..])
  }

  /** The seconds all reports together record on day `d`. */
  function CrossSum(reports: seq<seq<TimeReportEntry>>, d: int): int
  {
    if reports == [] then 0 else SumOn(reports[0], d) + CrossSum(reports[1..], d)
  }

  /** The seconds all reports together record. */
  function CrossTotal(reports: seq<seq<TimeReportEntry>>): int
  {
    if reports == [] then 0 else Total(reports[0]) + CrossTotal(reports[1..])
  }

  /** Day `d` occurs in some report. */
  ghost predicate InSomeReport(reports: seq<seq<TimeReportEntry>>, d: int)
  {
    exists k :: 0 <= k < |reports| && d in Dates(reports[k])
  }

  lemma {:induction false} FlattenSums(reports: seq<seq<TimeReportEntry>>, d: int)
    ensures SumOn(Flatten(reports), d) == CrossSum(reports, d)
    ensures Total(Flatten(reports)) == CrossTotal(reports)
  {
    if reports != [] {
      FlattenSums(reports[1..], d);
      SumOnAppend(reports[0], Flatten(reports[1..]), d);
      TotalAppend(reports[0], Flatten(reports[1..]));
    }
  }

  lemma {:induction false} FlattenDates(reports: seq<seq<TimeReportEntry>>, d: int)
    ensures d in Dates(Flatten(reports)) <==> InSomeReport(reports, d)
  {
    if reports != [] {
      FlattenDates(reports[1..], d);
      assert Dates(Flatten(reports)) == Dates(reports[0]) + Dates(Flatten(reports[1..]));
      if InSomeReport(reports, d) {
        var k :| 0 <= k < |reports| && d in Dates(reports[k]);
        if k > 0 { assert reports[1..][k - 1] == reports[k]; }
      }
      if InSomeReport(reports[1..], d) {
        var k :| 0 <= k < |reports[1..]| && d in Dates(reports[1..][k]);
        assert reports[k + 1] == reports[1..][k];
      }
    }
  }

  /** `ConcatTimeReports`: exactly one entry for every day present in any
      report, none for any other day, each carrying the sum over all reports
      of the seconds on its day; no second is lost or added. */
  function ConcatTimeReports(reports: seq<seq<TimeReportEntry>>): (r: seq<TimeReportEntry>)
    ensures DistinctDates(r)
    ensures forall d :: d in Dates(r) <==> InSomeReport(reports, d)
    ensures forall i :: 0 <= i < |r| ==> r[i].workTime == CrossSum(reports, r[i].date)
    ensures Total(r) == CrossTotal(reports)
  {
    forall d ensures SumOn(Flatten(reports), d) == CrossSum(reports, d)
                  && (d in Dates(Flatten(reports)) <==> InSomeReport(reports, d)) {
      FlattenSums(reports, d);
      FlattenDates(reports, d);
    }
    FlattenSums(reports, 0);
    GroupByDate(Flatten(reports))
  }

  /** When only report `k` has day `d`, the cross-project sum on `d` is that
      report's. */
  lemma {:induction false} CrossSumOfLoneDate(reports: seq<seq<TimeReportEntry>>, k: int, d: int)
    requires 0 <= k < |reports|
    requires forall k' :: 0 <= k' < |reports| && k' != k ==> d !in Dates(reports[k'])
    ensures CrossSum(reports, d) == SumOn(reports[k], d)
  {
    if k == 0 {
      CrossSumAbsent(reports[1..], d);
    } else {
      SumOnAbsent(reports[0], d);
      forall k' | 0 <= k' < |reports[1..]| && k' != k - 1 ensures d !in Dates(reports[1..][k']) {
        assert reports[1..][k'] == reports[k' + 1];
      }
      CrossSumOfLoneDate(reports[1..], k - 1, d);
    }
  }

  lemma {:induction false} CrossSumAbsent(reports: seq<seq<TimeReportEntry>>, d: int)
    requires forall k :: 0 <= k < |reports| ==> d !in Dates(reports[k])
    ensures CrossSum(reports, d) == 0
  {
    if reports != [] {
      SumOnAbsent(reports[0], d);
      assert forall k :: 0 <= k < |reports[1..]| ==> reports[1..][k] == reports[k + 1];
      CrossSumAbsent(reports[1..], d);
    }
  }

  /** A day found in only one report, which has one entry per day, keeps
      that entry's seconds unchanged. */
  lemma LoneDateKeepsDuration(reports: seq<seq<TimeReportEntry>>, k: int, j: int)
    requires 0 <= k < |reports| && 0 <= j < |reports[k]|
    requires DistinctDates(reports[k])
    requires forall k' :: 0 <= k' < |reports| && k' != k ==> reports[k][j].date !in Dates(reports[k'])
    ensures reports[k][j] in ConcatTimeReports(reports)
  {
    var e := reports[k][j];
    var r := ConcatTimeReports(reports);
    assert e.date in Dates(reports[k]);
    assert e.date in Dates(r);
    var i :| 0 <= i < |r| && r[i].date == e.date;
    CrossSumOfLoneDate(reports, k, e.date);
    SumOnDistinct(reports[k], j);
    assert r[i] == e;
  }

  /** A mapping with a single source project passes its report through. */
  lemma ConcatOfSingleReport(report: seq<TimeReportEntry>)
    requires DistinctDates(report)
    ensures ConcatTimeReports([report]) == report
  {
    assert [report][1..] == [];
    assert Flatten([report]) == report + [];
    assert report + [] == report;
    GroupByDateOfDistinct(report);
  }

  /** Three hours on a day from one project and one hour on the same day
      from another make one entry of four hours. */
  lemma ConcatSameDayExample(d: int)
    ensures ConcatTimeReports([[TimeReportEntry(d, 3 * 3600)], [TimeReportEntry(d, 3600)]])
         == [TimeReportEntry(d, 4 * 3600)]
  {
    var reports := [[TimeReportEntry(d, 3 * 3600)], [TimeReportEntry(d, 3600)]];
    assert reports[1..] == [[TimeReportEntry(d, 3600)]];
    assert reports[1..][1..] == [];
    assert Flatten(reports[1..]) == [TimeReportEntry(d, 3600)] + [];
    assert Flatten(reports) == [TimeReportEntry(d, 3 * 3600), TimeReportEntry(d, 3600)];
    var r := ConcatTimeReports(reports);
    assert forall x :: x in Dates(r) <==> x == d by {
      forall x ensures x in Dates(r) <==> x == d {
        assert x == d ==> x in Dates(reports[0]);
        if x in Dates(r) {
          var k :| 0 <= k < |reports| && x in Dates(reports[k]);
        }
      }
    }
    assert d in Dates(r);
    assert r[0].date == d;
  }
}
