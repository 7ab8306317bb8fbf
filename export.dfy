/**
  The destination reconciler (`ExportToClockify`): replaces the entries of
  a destination project in the run window by one entry per aggregated day.
  It queries the existing entries, deletes each one the query returned
  (only when the query succeeded and returned some), then creates one entry
  per day, starting at the day's midnight. A failed delete or create is
  logged and the loop carries on.
*/
module Export {

  import opened Wrappers
  import opened Models
  import opened Clockify

  /** The destination credentials; a missing one makes the export throw
      before any request is sent. */
  datatype ClockifyOptions = ClockifyOptions(apiKey: Option<string>, workspaceId: Option<string>, userId: Option<string>)

  predicate HasCredentials(options: ClockifyOptions)
  {
    options.apiKey.Some? && options.workspaceId.Some? && options.userId.Some?
  }

  /** The request built for one aggregated day: it starts at the day's
      midnight and lasts the rounded hours when rounding is on, the exact
      work time otherwise. */
  function ToRequest(e: TimeReportEntry, projectId: string, shouldRoundTime: bool): (r: TimeEntry)
    ensures r.projectId == projectId
    ensures r.start % 86400 == 0 && DayOf(r.start) == e.date
    ensures !shouldRoundTime ==> r.end - r.start == e.workTime
    ensures shouldRoundTime ==> r.end == r.start + 3600 * TotalHours(e)
    ensures shouldRoundTime ==> (r.end - r.start) % 3600 == 0
    ensures shouldRoundTime ==> -1800 <= e.workTime - (r.end - r.start) <= 1800
  {
    var start := e.date * 86400;
    TimeEntry(projectId, start, if shouldRoundTime then start + 3600 * TotalHours(e) else start + e.workTime)
  }

  /** With rounding on, 2h15m of work ends the entry two hours after midnight;
      with rounding off, 2h15m after it. */
  lemma ToRequestExample(d: int, projectId: string)
    ensures ToRequest(TimeReportEntry(d, 8100), projectId, true).end == d * 86400 + 2 * 3600
    ensures ToRequest(TimeReportEntry(d, 8100), projectId, false).end == d * 86400 + 8100
  {
    assert TotalHours(TimeReportEntry(d, 8100)) == 2;
  }

  /** One request per aggregated entry, in input order. */
  function CreateRequests(entries: seq<TimeReportEntry>, projectId: string, shouldRoundTime: bool): (rs: seq<TimeEntry>)
    ensures |rs| == |entries|
    ensures forall i :: 0 <= i < |entries| ==> rs[i] == ToRequest(entries[i], projectId, shouldRoundTime)
  {
    seq(|entries|, i requires 0 <= i < |entries| => ToRequest(entries[i], projectId, shouldRoundTime))
  }

  /** The ids of the non-null elements, in order. */
  function SomeIds(xs: seq<Option<EntryId>>): (ids: seq<EntryId>)
    ensures forall x :: x in ids <==> Some(x) in xs
    ensures |ids| <= |xs|
  {
    if xs == [] then []
    else
      var init := xs[..|xs| - 1];
      assert xs == init + [xs[|xs| - 1]];
      match xs[|xs| - 1]
      case None => SomeIds(init)
      case Some(x) => SomeIds(init) + [x]
  }

  /** The ids the export deletes: every non-null id of the query's data,
      provided the query succeeded and its data is a non-empty list; none
      otherwise. */
  function DeletedIds(response: QueryResponse): (ids: seq<EntryId>)
    ensures !response.isSuccessful || response.data.None? ==> ids == []
    ensures response.isSuccessful && response.data.Some? ==>
      forall x :: x in ids <==> Some(x) in response.data.value
  {
    if response.isSuccessful && response.data.Some? && |response.data.value| > 0
    then SomeIds(response.data.value) else []
  }

  /** When the query succeeded, the export deletes exactly the entries in the
      window. */
  lemma DeletedIdsAreWindow(s: Store, projectId: string, start: int, end: int, response: QueryResponse)
    requires AnswersQuery(s, projectId, start, end, response)
    requires response.isSuccessful
    ensures (set x | x in DeletedIds(response)) == WindowIds(s, projectId, start, end)
  {
  }

  /** Every delete is requested before every create. */
  lemma DeletesPrecedeCreates(ids: seq<EntryId>, es: seq<TimeEntry>)
    ensures var rs := Deletes(ids) + Creates(es);
            forall i, j :: 0 <= i < j < |rs| && rs[i].CreateTimeEntry? ==> rs[j].CreateTimeEntry?
  {
  }

  /** One more element of the query's data: its id, if any, goes last. */
  lemma SomeIdsSnoc(xs: seq<Option<EntryId>>, x: Option<EntryId>)
    ensures SomeIds(xs + [x]) == if x.Some? then SomeIds(xs) + [x.value] else SomeIds(xs)
  {
    assert (xs + [x])[..|xs|] == xs;
  }

  lemma AppendCall(s: Store, calls: seq<Call>, c: Call)
    ensures Apply(s, calls + [c]) == Step(Apply(s, calls), c)
    ensures Requests(calls + [c]) == Requests(calls) + [c.request]
  {
    assert (calls + [c])[..|calls|] == calls;
  }

  lemma DeletesSnoc(ids: seq<EntryId>, id: EntryId)
    ensures Deletes(ids + [id]) == Deletes(ids) + [DeleteTimeEntry(id)]
  {
  }

  /** The requests of the delete loop after one more element of the data. */
  lemma DeleteStep(calls: seq<Call>, data: seq<Option<EntryId>>, i: int, ok: bool)
    requires 0 <= i < |data|
    requires Requests(calls) == Deletes(SomeIds(data[..i]))
    ensures data[i].None? ==> Requests(calls) == Deletes(SomeIds(data[..i + 1]))
    ensures data[i].Some? ==>
      Requests(calls + [Call(DeleteTimeEntry(data[i].value), ok)]) == Deletes(SomeIds(data[..i + 1]))
  {
    assert data[..i + 1] == data[..i] + [data[i]];
    SomeIdsSnoc(data[..i], data[i]);
    if data[i].Some? {
      var c := Call(DeleteTimeEntry(data[i].value), ok);
      AppendCall(Store(map[], 0), calls, c);
      DeletesSnoc(SomeIds(data[..i]), data[i].value);
    }
  }

  /** The delete loop: one delete per non-null element of the query's data. */
  method DeleteEach(client: ClockifyClient, data: seq<Option<EntryId>>) returns (calls: seq<Call>)
    requires client.Valid()
    modifies client
    ensures client.Valid()
    ensures Requests(calls) == Deletes(SomeIds(data))
    ensures client.State() == Apply(old(client.State()), calls)
  {
    calls := [];
    ghost var s0 := client.State();
    for i := 0 to |data|
      invariant client.Valid()
      invariant Requests(calls) == Deletes(SomeIds(data[..i]))
      invariant client.State() == Apply(s0, calls)
    {
      if data[i].Some? {
        // Delete each time entry, as it is going to be replaced; a failure is only logged
        var id := data[i].value;
        var ok := client.DeleteTimeEntry(id);
        DeleteStep(calls, data, i, ok);
        AppendCall(s0, calls, Call(DeleteTimeEntry(id), ok));
        calls := calls + [Call(DeleteTimeEntry(id), ok)];
      } else {
        DeleteStep(calls, data, i, false);
      }
    }
    assert data[..|data|] == data;
  }

  /** The create loop: one create per aggregated entry, in order. */
  method CreateEach(client: ClockifyClient, timeReportEntries: seq<TimeReportEntry>, projectId: string, shouldRoundTime: bool)
    returns (calls: seq<Call>)
    requires client.Valid()
    modifies client
    ensures client.Valid()
    ensures Requests(calls) == Creates(CreateRequests(timeReportEntries, projectId, shouldRoundTime))
    ensures client.State() == Apply(old(client.State()), calls)
  {
    calls := [];
    ghost var s0 := client.State();
    for i := 0 to |timeReportEntries|
      invariant client.Valid()
      invariant Requests(calls) == Creates(CreateRequests(timeReportEntries[..i], projectId, shouldRoundTime))
      invariant client.State() == Apply(s0, calls)
    {
      var request := ToRequest(timeReportEntries[i], projectId, shouldRoundTime);
      // A failed create is only logged
      var ok := client.CreateTimeEntry(request);
      AppendCall(s0, calls, Call(CreateTimeEntry(request), ok));
      calls := calls + [Call(CreateTimeEntry(request), ok)];
      assert CreateRequests(timeReportEntries[..i + 1], projectId, shouldRoundTime)
          == CreateRequests(timeReportEntries[..i], projectId, shouldRoundTime) + [request];
    }
    assert timeReportEntries[..|timeReportEntries|] == timeReportEntries;
  }

  /** `ExportToClockify`. `thrown` is a missing credential; `response` is the
      query's answer, and `calls` every request sent, with its outcome. */
  method ExportToClockify(client: ClockifyClient, options: ClockifyOptions, timeReportEntries: seq<TimeReportEntry>,
                          projectId: string, startTime: int, endTime: int, shouldRoundTime: bool)
    returns (thrown: bool, response: QueryResponse, calls: seq<Call>)
    requires client.Valid()
    modifies client
    ensures client.Valid()
    ensures thrown <==> !HasCredentials(options)
    ensures thrown ==> calls == []
    ensures !thrown ==> AnswersQuery(old(client.State()), projectId, startTime, endTime, response)
    ensures !thrown ==> Requests(calls) == Deletes(DeletedIds(response))
                                         + Creates(CreateRequests(timeReportEntries, projectId, shouldRoundTime))
    ensures client.State() == Apply(old(client.State()), calls)
    ensures !thrown && response.isSuccessful && AllSucceeded(calls) ==>
      client.State() == Replaced(old(client.State()), projectId, startTime, endTime,
                                 CreateRequests(timeReportEntries, projectId, shouldRoundTime))
  {
    calls := [];
    response := QueryResponse(false, None);
    thrown := !HasCredentials(options);
    if thrown {
      return;
    }
    ghost var s0 := client.State();
    response := client.FindAllTimeEntriesForUser(projectId, startTime, endTime);
    var deletes := [];
    if response.isSuccessful && response.data.Some? && |response.data.value| > 0 {
      deletes := DeleteEach(client, response.data.value);
    }
    ghost var s1 := client.State();
    var creates := CreateEach(client, timeReportEntries, projectId, shouldRoundTime);
    calls := deletes + creates;
    assert client.State() == Apply(s0, calls) by {
      ApplyAppend(s0, deletes, creates);
    }
    assert Requests(calls) == Requests(deletes) + Requests(creates);
    if response.isSuccessful && AllSucceeded(calls) {
      ghost var es := CreateRequests(timeReportEntries, projectId, shouldRoundTime);
      assert client.State() == Replaced(s0, projectId, startTime, endTime, es) by {
        DeletedIdsAreWindow(s0, projectId, startTime, endTime, response);
        ApplyReplacesWindow(s0, projectId, startTime, endTime, DeletedIds(response), es, calls);
      }
    }
  }

  /** Two identical exports in a row, every request succeeding, leave the
      destination with the same set of entry values as one export; when
      every created entry also starts inside the window, with as many
      entries as one export. */
  method ExportTwice(client: ClockifyClient, options: ClockifyOptions, timeReportEntries: seq<TimeReportEntry>,
                     projectId: string, startTime: int, endTime: int, shouldRoundTime: bool)
    returns (converged: bool)
    requires client.Valid()
    modifies client
    ensures client.Valid()
    ensures converged ==> exists once: Store ::
      && once == Replaced(old(client.State()), projectId, startTime, endTime,
                          CreateRequests(timeReportEntries, projectId, shouldRoundTime))
      && client.State().entries.Values == once.entries.Values
      && ((forall i :: 0 <= i < |timeReportEntries| ==>
             InWindow(ToRequest(timeReportEntries[i], projectId, shouldRoundTime), projectId, startTime, endTime))
          ==> |client.State().entries| == |once.entries|)
  {
    var thrown1, response1, calls1 := ExportToClockify(client, options, timeReportEntries, projectId, startTime, endTime, shouldRoundTime);
    var thrown2, response2, calls2 := ExportToClockify(client, options, timeReportEntries, projectId, startTime, endTime, shouldRoundTime);
    converged := !thrown1 && response1.isSuccessful && AllSucceeded(calls1)
              && !thrown2 && response2.isSuccessful && AllSucceeded(calls2);
    if converged {
      ghost var es := CreateRequests(timeReportEntries, projectId, shouldRoundTime);
      ReplaceTwiceSameValues(old(client.State()), projectId, startTime, endTime, es);
      if forall i :: 0 <= i < |es| ==> InWindow(es[i], projectId, startTime, endTime) {
        ReplaceTwiceConverges(old(client.State()), projectId, startTime, endTime, es);
      }
    }
  }
}
