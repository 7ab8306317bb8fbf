/**
  The source-report fetcher (`GetTogglTimeReport`): lists the source
  provider's time entries of one project for the run window, drops the
  running ones, and buckets the rest into one TimeReportEntry per day.

  The listing call and the timestamp parser are not part of this model:
  both are parameters. `list` answers None where the listing throws;
  `parse` answers None where `DateTime.ParseExact` with the format
  `MM/dd/yyyy HH:mm:ss` throws, and otherwise the parsed local timestamp
  in seconds.
*/
module SourceReport {

  import opened Wrappers
  import opened Models

  /** A time entry as the source provider lists it: its start as text and its
      duration in seconds, null while the entry is still running. */
  datatype TogglTimeEntry = TogglTimeEntry(start: string, duration: Option<int>)

  /** The search criteria of the listing call. */
  datatype TimeEntryParams = TimeEntryParams(startDate: int, endDate: int, projectId: int)

  type Parser = string -> Option<int>

  type Listing = TimeEntryParams -> Option<seq<TogglTimeEntry>>

  /** The criteria built for a run window: the start is moved back to its
      midnight and the end forward by exactly one day, so that every
      timestamp on the days from the start's day through the end's day is
      listed. */
  function SourceQuery(startDate: int, endDate: int, projectId: int): (p: TimeEntryParams)
    ensures p.projectId == projectId
    ensures p.startDate % 86400 == 0 && p.startDate <= startDate < p.startDate + 86400
    ensures p.endDate == endDate + 86400
    ensures forall t :: DayOf(startDate) <= DayOf(t) <= DayOf(endDate) ==> p.startDate <= t < p.endDate
  {
    TimeEntryParams(Midnight(startDate), endDate + 86400, projectId)
  }

  /** Every entry that has a duration has a start the parser accepts. */
  ghost predicate AllParse(raw: seq<TogglTimeEntry>, parse: Parser)
  {
    forall i :: 0 <= i < |raw| && raw[i].duration.Some? ==> parse(raw[i].start).Some?
  }

  /** Entry `x` has a duration and starts on day `d`. */
  ghost predicate Contributes(x: TogglTimeEntry, parse: Parser, d: int)
  {
    x.duration.Some? && parse(x.start).Some? && DayOf(parse(x.start).value) == d
  }

  /** The seconds of the entries that start on day `d` and have a duration. */
  ghost function RawSum(raw: seq<TogglTimeEntry>, parse: Parser, d: int): int
  {
    if raw == [] then 0
    else (if Contributes(raw[0], parse, d) then raw[0].duration.value else 0) + RawSum(raw[1..], parse, d)
  }

  /** The seconds of all entries that have a duration. */
  ghost function RawTotal(raw: seq<TogglTimeEntry>): int
  {
    if raw == [] then 0
    else (if raw[0].duration.Some? then raw[0].duration.value else 0) + RawTotal(raw[1..])
  }

  /** `Where(Duration != null)` followed by the grouping key
      `ParseExact(Start).Date`: each kept entry as (day, seconds), or None as
      soon as one kept start fails to parse. Running entries are dropped
      before their start is parsed. */
  function KeyedEntries(raw: seq<TogglTimeEntry>, parse: Parser): Option<seq<TimeReportEntry>>
  {
    if raw == [] then Some([])
    else if raw[0].duration.None? then KeyedEntries(raw[1..], parse)
    else match parse(raw[0].start)
      case None => None
      case Some(t) =>
        match KeyedEntries(raw[1..], parse)
        case None => None
        case Some(rest) => Some([TimeReportEntry(DayOf(t), raw[0].duration.value)] + rest)
  }

  lemma AllParseTail(raw: seq<TogglTimeEntry>, parse: Parser)
    requires raw != []
    ensures AllParse(raw, parse) <==>
      (raw[0].duration.Some? ==> parse(raw[0].start).Some?) && AllParse(raw[1..], parse)
  {
    if AllParse(raw, parse) {
      forall i | 0 <= i < |raw[1..]| && raw[1..][i].duration.Some?
        ensures parse(raw[1..][i].start).Some?
      {
        assert raw[1..][i] == raw[i + 1];
      }
    }
    if (raw[0].duration.Some? ==> parse(raw[0].start).Some?) && AllParse(raw[1..], parse) {
      forall i | 0 <= i < |raw| && raw[i].duration.Some? ensures parse(raw[i].start).Some? {
        if i > 0 { assert raw[i] == raw[1..][i - 1]; }
      }
    }
  }

  /** Keying fails exactly when some entry with a duration does not parse. */
  lemma {:induction false} KeyedEntriesSucceed(raw: seq<TogglTimeEntry>, parse: Parser)
    ensures KeyedEntries(raw, parse).Some? <==> AllParse(raw, parse)
  {
    if raw != [] {
      KeyedEntriesSucceed(raw[1..], parse);
      AllParseTail(raw, parse);
    }
  }

  /** The keyed entries carry, day by day, the seconds of the listed entries
      that have a duration, and in all the seconds of all of them. */
  lemma {:induction false} KeyedEntriesSums(raw: seq<TogglTimeEntry>, parse: Parser, d: int)
    requires KeyedEntries(raw, parse).Some?
    ensures SumOn(KeyedEntries(raw, parse).value, d) == RawSum(raw, parse, d)
    ensures Total(KeyedEntries(raw, parse).value) == RawTotal(raw)
  {
    if raw != [] {
      KeyedEntriesSums(raw[1..], parse, d);
      var k, rest := KeyedEntries(raw, parse), KeyedEntries(raw[1..], parse);
      if raw[0].duration.Some? {
        assert k.value[1..] == rest.value;
      }
    }
  }

  /** The days of the keyed entries are the start days of the listed entries
      that have a duration. */
  lemma {:induction false} KeyedEntriesDates(raw: seq<TogglTimeEntry>, parse: Parser, d: int)
    requires KeyedEntries(raw, parse).Some?
    ensures d in Dates(KeyedEntries(raw, parse).value) <==>
            exists i :: 0 <= i < |raw| && Contributes(raw[i], parse, d)
  {
    if raw != [] {
      KeyedEntriesDates(raw[1..], parse, d);
      var k, rest := KeyedEntries(raw, parse), KeyedEntries(raw[1..], parse);
      if raw[0].duration.Some? {
        var e := TimeReportEntry(DayOf(parse(raw[0].start).value), raw[0].duration.value);
        assert Dates(k.value) == [e.date] + Dates(rest.value);
      }
      if exists i :: 0 <= i < |raw| && Contributes(raw[i], parse, d) {
        var i :| 0 <= i < |raw| && Contributes(raw[i], parse, d);
        if i > 0 { assert raw[1..][i - 1] == raw[i]; }
      }
      if exists i :: 0 <= i < |raw[1..]| && Contributes(raw[1..][i], parse, d) {
        var i :| 0 <= i < |raw[1..]| && Contributes(raw[1..][i], parse, d);
        assert raw[i + 1] == raw[1..][i];
      }
    }
  }

  /** The three facts above, for every day at once. */
  lemma KeyedEntriesMeaning(raw: seq<TogglTimeEntry>, parse: Parser)
    ensures KeyedEntries(raw, parse).Some? <==> AllParse(raw, parse)
    ensures KeyedEntries(raw, parse).Some? ==>
      && (forall d :: SumOn(KeyedEntries(raw, parse).value, d) == RawSum(raw, parse, d))
      && (forall d :: d in Dates(KeyedEntries(raw, parse).value) <==>
                        exists i :: 0 <= i < |raw| && Contributes(raw[i], parse, d))
      && Total(KeyedEntries(raw, parse).value) == RawTotal(raw)
  {
    KeyedEntriesSucceed(raw, parse);
    if KeyedEntries(raw, parse).Some? {
      forall d ensures SumOn(KeyedEntries(raw, parse).value, d) == RawSum(raw, parse, d) {
        KeyedEntriesSums(raw, parse, d);
      }
      forall d ensures d in Dates(KeyedEntries(raw, parse).value) <==>
                       exists i :: 0 <= i < |raw| && Contributes(raw[i], parse, d) {
        KeyedEntriesDates(raw, parse, d);
      }
      KeyedEntriesSums(raw, parse, 0);
    }
  }

  /** Keying a concatenation keys both halves; it fails when either does. */
  lemma {:induction false} KeyedEntriesAppend(a: seq<TogglTimeEntry>, b: seq<TogglTimeEntry>, parse: Parser)
    ensures KeyedEntries(a + b, parse) ==
      if KeyedEntries(a, parse).Some? && KeyedEntries(b, parse).Some?
      then Some(KeyedEntries(a, parse).value + KeyedEntries(b, parse).value)
      else None
  {
    if a == [] {
      assert a + b == b;
      assert KeyedEntries(b, parse).Some? ==> [] + KeyedEntries(b, parse).value == KeyedEntries(b, parse).value;
    } else {
      assert (a + b)[0] == a[0];
      assert (a + b)[1..] == a[1..] + b;
      KeyedEntriesAppend(a[1..], b, parse);
      if a[0].duration.Some? && parse(a[0].start).Some? &&
         KeyedEntries(a[1..], parse).Some? && KeyedEntries(b, parse).Some? {
        var e := TimeReportEntry(DayOf(parse(a[0].start).value), a[0].duration.value);
        assert [e] + (KeyedEntries(a[1..], parse).value + KeyedEntries(b, parse).value)
            == ([e] + KeyedEntries(a[1..], parse).value) + KeyedEntries(b, parse).value;
      }
    }
  }

  /** The bucketing pipeline inside the try block: one entry per day, with
      the day's seconds; the empty list when a parse fails. */
  function Bucket(raw: seq<TogglTimeEntry>, parse: Parser): (r: seq<TimeReportEntry>)
    ensures DistinctDates(r)
    ensures !AllParse(raw, parse) ==> r == []
    ensures AllParse(raw, parse) ==>
      forall d :: d in Dates(r) <==> exists i :: 0 <= i < |raw| && Contributes(raw[i], parse, d)
    ensures AllParse(raw, parse) ==>
      forall i :: 0 <= i < |r| ==> r[i].workTime == RawSum(raw, parse, r[i].date)
    ensures AllParse(raw, parse) ==> Total(r) == RawTotal(raw)
  {
    KeyedEntriesMeaning(raw, parse);
    match KeyedEntries(raw, parse)
    case None => []
    case Some(es) => GroupByDate(es)
  }

  /** A running entry contributes nothing, makes no bucket, and its start is
      never parsed: removing it leaves the report unchanged. */
  lemma BucketIgnoresRunningEntries(a: seq<TogglTimeEntry>, start: string, b: seq<TogglTimeEntry>, parse: Parser)
    ensures Bucket(a + [TogglTimeEntry(start, None)] + b, parse) == Bucket(a + b, parse)
  {
    var x := TogglTimeEntry(start, None);
    KeyedEntriesAppend(a + [x], b, parse);
    KeyedEntriesAppend(a, [x], parse);
    KeyedEntriesAppend(a, b, parse);
    assert KeyedEntries([x], parse) == Some([]) by {
      assert [x][1..] == [];
    }
    assert KeyedEntries(a, parse).Some? ==> KeyedEntries(a, parse).value + [] == KeyedEntries(a, parse).value;
  }

  /** `GetTogglTimeReport`: the listing runs outside the try block, so its
      failure propagates (None); a parse failure inside it yields the empty
      report. */
  function GetTogglTimeReport(list: Listing, parse: Parser, startDate: int, endDate: int, projectId: int)
    : (r: Option<seq<TimeReportEntry>>)
    ensures r.None? <==> list(SourceQuery(startDate, endDate, projectId)).None?
    ensures r.Some? ==> r.value == Bucket(list(SourceQuery(startDate, endDate, projectId)).value, parse)
  {
    match list(SourceQuery(startDate, endDate, projectId))
    case None => None
    case Some(raw) => Some(Bucket(raw, parse))
  }
}
