/**
  The transfer orchestrator (`TransferTimeReports`): resolves the run window
  from the watermark, and for each configured project mapping fetches the
  reports of its source projects, aggregates them and exports the result to
  its destination project; after a complete pass it saves the end of the
  window as the new watermark.

  Reading and writing `history.json` is not part of this model: the stored
  watermark is an input and the watermark left behind is an output. The two
  clock reads of a run (one inside GetStartDate, one for the end date) are
  parameters too.
*/
module Transfer {

  import opened Wrappers
  import opened Models
  import opened SourceReport
  import opened Aggregation
  import opened Clockify
  import opened Export

  /** A configured mapping; both fields may be absent in the configuration. */
  datatype ProjectMapping = ProjectMapping(sourceProjectIds: Option<seq<int>>, destinationProjectId: Option<string>)

  /** The general options, with their defaults below. */
  datatype GeneralConfigurationOptions =
    GeneralConfigurationOptions(defaultDaysSinceNow: int, shouldRoundTime: bool, runIntervalInHours: int)

  const DefaultGeneralConfiguration := GeneralConfigurationOptions(30, true, 8)

  /** `GetStartDate` once the watermark is read: the last execution when there
      is one, otherwise `defaultDaysSinceNow` days before the clock. */
  function GetStartDate(lastExecution: Option<int>, clock: int, defaultDaysSinceNow: int): int
  {
    if lastExecution.Some? then lastExecution.value else clock - defaultDaysSinceNow * 86400
  }

  /** A stored watermark is the start whatever the clock and the look-back;
      without one, the start lies exactly the look-back days before the clock
      (30 days with the default configuration). */
  lemma StartDateChoice(w: int, clock: int, clock': int, days: int, days': int)
    ensures GetStartDate(Some(w), clock, days) == GetStartDate(Some(w), clock', days') == w
    ensures clock - GetStartDate(None, clock, days) == days * 86400
    ensures clock - GetStartDate(None, clock, DefaultGeneralConfiguration.defaultDaysSinceNow) == 30 * 86400
  {
  }

  /** `SourceProjectIds.Select(GetTogglTimeReport).ToList()`: the reports in
      order, or None once a listing throws. */
  function FetchAll(list: Listing, parse: Parser, startDate: int, endDate: int, ids: seq<int>)
    : (r: Option<seq<seq<TimeReportEntry>>>)
    ensures r.Some? <==> forall i :: 0 <= i < |ids| ==> GetTogglTimeReport(list, parse, startDate, endDate, ids[i]).Some?
    ensures r.Some? ==> |r.value| == |ids|
    ensures r.Some? ==> forall i :: 0 <= i < |ids| ==>
      r.value[i] == GetTogglTimeReport(list, parse, startDate, endDate, ids[i]).value
  {
    if ids == [] then Some([])
    else
      var head := GetTogglTimeReport(list, parse, startDate, endDate, ids[0]);
      var rest := FetchAll(list, parse, startDate, endDate, ids[1..]);
      assert forall i :: 0 < i < |ids| ==> ids[1..][i - 1] == ids[i];
      if head.None? || rest.None? then None else Some([head.value] + rest.value)
  }

  /** An export to perform: the reports fetched for the mapping's source
      projects and the destination project. */
  datatype Job = Job(reports: seq<seq<TimeReportEntry>>, projectId: string)

  /** The report exported for a job: its source reports aggregated. */
  function Summarized(job: Job): (r: seq<TimeReportEntry>)
    ensures DistinctDates(r)
    ensures forall i :: 0 <= i < |r| ==> r[i].workTime == CrossSum(job.reports, r[i].date)
  {
    ConcatTimeReports(job.reports)
  }

  /** What one mapping does: nothing, stop the run (a listing threw, the
      destination id is missing or a destination credential is missing), or
      export. */
  datatype MappingOutcome = Skipped | Aborted | Exports(job: Job)

  function MappingStep(m: Option<ProjectMapping>, list: Listing, parse: Parser, startDate: int, endDate: int,
                       credentialsPresent: bool): MappingOutcome
  {
    if m.None? || m.value.sourceProjectIds.None? then Skipped
    else match FetchAll(list, parse, startDate, endDate, m.value.sourceProjectIds.value)
      case None => Aborted
      case Some(reports) =>
        if m.value.destinationProjectId.None? || !credentialsPresent then Aborted
        else Exports(Job(reports, m.value.destinationProjectId.value))
  }

  /** The outcome of every mapping, in configured order. */
  function Steps(ms: seq<Option<ProjectMapping>>, list: Listing, parse: Parser, startDate: int, endDate: int,
                 credentialsPresent: bool): (steps: seq<MappingOutcome>)
    ensures |steps| == |ms|
    ensures forall i :: 0 <= i < |ms| ==> steps[i] == MappingStep(ms[i], list, parse, startDate, endDate, credentialsPresent)
  {
    seq(|ms|, i requires 0 <= i < |ms| => MappingStep(ms[i], list, parse, startDate, endDate, credentialsPresent))
  }

  /** The exports of a run, and whether it gets to the end of the mappings. */
  datatype Plan = Plan(jobs: seq<Job>, completes: bool)

  /** The mappings' outcomes taken in order until one stops the run: the
      exports performed, and whether no mapping stopped it. */
  function PlanOf(steps: seq<MappingOutcome>): (p: Plan)
    ensures p.completes <==> forall i :: 0 <= i < |steps| ==> !steps[i].Aborted?
    ensures |p.jobs| <= |steps|
  {
    if steps == [] then Plan([], true)
    else
      var rest := PlanOf(steps[1..]);
      assert forall i :: 0 < i < |steps| ==> steps[1..][i - 1] == steps[i];
      match steps[0]
      case Skipped => rest
      case Aborted => Plan([], false)
      case Exports(job) =>
        Plan([job] + rest.jobs, rest.completes)
  }

  /** A run over the configured mappings, if there are any: without them it
      returns before the watermark is saved. */
  function RunPlan(mappings: Option<seq<Option<ProjectMapping>>>, list: Listing, parse: Parser,
                   startDate: int, endDate: int, credentialsPresent: bool): Plan
  {
    match mappings
    case None => Plan([], false)
    case Some(ms) => PlanOf(Steps(ms, list, parse, startDate, endDate, credentialsPresent))
  }

  /** Processing two lists of mappings one after the other: the second only
      runs when the first completes. */
  lemma {:induction false} PlanAppend(a: seq<MappingOutcome>, b: seq<MappingOutcome>)
    ensures PlanOf(a + b) == if PlanOf(a).completes then Plan(PlanOf(a).jobs + PlanOf(b).jobs, PlanOf(b).completes)
                             else PlanOf(a)
  {
    if a == [] {
      assert a + b == b;
    } else {
      assert (a + b)[0] == a[0];
      assert (a + b)[1..] == a[1..] + b;
      PlanAppend(a[1..], b);
      match a[0]
      case Skipped =>
      case Aborted =>
      case Exports(job) =>
        assert [job] + (PlanOf(a[1..]).jobs + PlanOf(b).jobs) == ([job] + PlanOf(a[1..]).jobs) + PlanOf(b).jobs;
    }
  }

  /** A mapping whose SourceProjectIds is set but empty is not skipped: it
      exports an empty report, so its destination window is still queried and
      cleared and nothing is created. */
  lemma EmptySourcesStillExport(m: ProjectMapping, list: Listing, parse: Parser, startDate: int, endDate: int,
                                shouldRoundTime: bool)
    requires m.sourceProjectIds == Some([]) && m.destinationProjectId.Some?
    ensures MappingStep(Some(m), list, parse, startDate, endDate, true) == Exports(Job([], m.destinationProjectId.value))
    ensures CreateRequests(Summarized(Job([], m.destinationProjectId.value)), m.destinationProjectId.value,
                           shouldRoundTime) == []
  {
    assert FetchAll(list, parse, startDate, endDate, []) == Some([]);
  }

  /** A mapping whose SourceProjectIds is null is skipped: the run is as if
      it were not configured. An empty SourceProjectIds is not skipped. */
  lemma SkippedMappingIsIgnored(a: seq<Option<ProjectMapping>>, m: Option<ProjectMapping>, b: seq<Option<ProjectMapping>>,
                                list: Listing, parse: Parser, startDate: int, endDate: int, credentialsPresent: bool)
    requires m.None? || m.value.sourceProjectIds.None?
    ensures RunPlan(Some(a + [m] + b), list, parse, startDate, endDate, credentialsPresent)
         == RunPlan(Some(a + b), list, parse, startDate, endDate, credentialsPresent)
  {
    var sa := Steps(a, list, parse, startDate, endDate, credentialsPresent);
    var sb := Steps(b, list, parse, startDate, endDate, credentialsPresent);
    assert Steps(a + [m] + b, list, parse, startDate, endDate, credentialsPresent) == sa + [Skipped] + sb;
    assert Steps(a + b, list, parse, startDate, endDate, credentialsPresent) == sa + sb;
    PlanAppend(sa + [Skipped], sb);
    PlanAppend(sa, [Skipped]);
    PlanAppend(sa, sb);
    assert [Skipped][1..] == [];
    assert PlanOf(sa).jobs + [] == PlanOf(sa).jobs;
  }

  /** Outcomes that stop the run after a completed prefix leave the exports
      of that prefix as the run's exports. */
  lemma {:induction false} RunStopsAt(steps: seq<MappingOutcome>, i: int)
    requires 0 <= i < |steps| && steps[i].Aborted?
    ensures PlanOf(steps) == Plan(PlanOf(steps[..i]).jobs, false)
  {
    assert steps == steps[..i] + steps[i..];
    PlanAppend(steps[..i], steps[i..]);
    assert steps[i..][0] == steps[i];
    assert PlanOf(steps[..i]).jobs + [] == PlanOf(steps[..i]).jobs;
  }

  /** A mapping whose destination id is missing stops the run there, after
      its source reports are fetched: no later mapping is exported and the
      watermark is not saved. */
  lemma MissingDestinationStopsRun(ms: seq<Option<ProjectMapping>>, k: int,
                                   list: Listing, parse: Parser, startDate: int, endDate: int, credentialsPresent: bool)
    requires 0 <= k < |ms|
    requires ms[k].Some? && ms[k].value.sourceProjectIds.Some? && ms[k].value.destinationProjectId.None?
    ensures var p := RunPlan(Some(ms), list, parse, startDate, endDate, credentialsPresent);
            && !p.completes
            && p.jobs == RunPlan(Some(ms[..k]), list, parse, startDate, endDate, credentialsPresent).jobs
  {
    var steps := Steps(ms, list, parse, startDate, endDate, credentialsPresent);
    assert Steps(ms[..k], list, parse, startDate, endDate, credentialsPresent) == steps[..k];
    RunStopsAt(steps, k);
  }

  /** The mappings whose SourceProjectIds is set, in configured order. */
  function ActiveMappings(ms: seq<Option<ProjectMapping>>): seq<ProjectMapping>
  {
    if ms == [] then []
    else if ms[0].Some? && ms[0].value.sourceProjectIds.Some? then [ms[0].value] + ActiveMappings(ms[1..])
    else ActiveMappings(ms[1..])
  }

  /** The mapping has its destination and every listing of its source
      projects answers. */
  ghost predicate WellConfigured(m: ProjectMapping, list: Listing, startDate: int, endDate: int)
    requires m.sourceProjectIds.Some?
  {
    && m.destinationProjectId.Some?
    && forall j :: 0 <= j < |m.sourceProjectIds.value| ==>
         list(SourceQuery(startDate, endDate, m.sourceProjectIds.value[j])).Some?
  }

  lemma WellConfiguredMappingExports(m: ProjectMapping, list: Listing, parse: Parser, startDate: int, endDate: int)
    requires m.sourceProjectIds.Some? && WellConfigured(m, list, startDate, endDate)
    ensures MappingStep(Some(m), list, parse, startDate, endDate, true).Exports?
    ensures MappingStep(Some(m), list, parse, startDate, endDate, true).job.projectId == m.destinationProjectId.value
  {
  }

  /** When every mapping whose SourceProjectIds is set is well configured and
      the credentials are present, the run completes with one export per such
      mapping, to its destination, in configured order. */
  lemma {:induction false} WellConfiguredRunCompletes(ms: seq<Option<ProjectMapping>>,
                                   list: Listing, parse: Parser, startDate: int, endDate: int)
    requires forall i :: 0 <= i < |ms| && ms[i].Some? && ms[i].value.sourceProjectIds.Some? ==>
      WellConfigured(ms[i].value, list, startDate, endDate)
    ensures var p := RunPlan(Some(ms), list, parse, startDate, endDate, true);
            && p.completes
            && |p.jobs| == |ActiveMappings(ms)|
            && forall j :: 0 <= j < |p.jobs| ==> ActiveMappings(ms)[j].destinationProjectId == Some(p.jobs[j].projectId)
  {
    if ms != [] {
      var steps := Steps(ms, list, parse, startDate, endDate, true);
      var rest := Steps(ms[1..], list, parse, startDate, endDate, true);
      assert steps == [steps[0]] + rest;
      assert forall i :: 0 < i < |ms| ==> ms[1..][i - 1] == ms[i];
      WellConfiguredRunCompletes(ms[1..], list, parse, startDate, endDate);
      var tail := PlanOf(rest);
      var active := ActiveMappings(ms[1..]);
      if ms[0].Some? && ms[0].value.sourceProjectIds.Some? {
        WellConfiguredMappingExports(ms[0].value, list, parse, startDate, endDate);
        var p := PlanOf(steps);
        assert p.jobs == [steps[0].job] + tail.jobs;
        assert ActiveMappings(ms) == [ms[0].value] + active;
        forall j | 0 <= j < |p.jobs|
          ensures ActiveMappings(ms)[j].destinationProjectId == Some(p.jobs[j].projectId)
        {
          if j > 0 {
            assert p.jobs[j] == tail.jobs[j - 1];
            assert ActiveMappings(ms)[j] == active[j - 1];
          }
        }
      }
    }
  }

  /** One export performed by a run: its job, the query's answer and the
      requests sent. */
  datatype ExportRun = ExportRun(job: Job, response: QueryResponse, calls: seq<Call>)

  function JobsOf(runs: seq<ExportRun>): (jobs: seq<Job>)
    ensures |jobs| == |runs|
    ensures forall i :: 0 <= i < |runs| ==> jobs[i] == runs[i].job
  {
    seq(|runs|, i requires 0 <= i < |runs| => runs[i].job)
  }

  /** Every request of a run, export after export. */
  function AllCalls(runs: seq<ExportRun>): seq<Call>
  {
    if runs == [] then [] else AllCalls(runs[..|runs| - 1]) + runs[|runs| - 1].calls
  }

  /** Appending one export run to the runs performed so far. */
  lemma RunsAppend(s0: Store, runs: seq<ExportRun>, r: ExportRun)
    ensures JobsOf(runs + [r]) == JobsOf(runs) + [r.job]
    ensures Apply(s0, AllCalls(runs + [r])) == Apply(Apply(s0, AllCalls(runs)), r.calls)
  {
    assert (runs + [r])[..|runs|] == runs;
    ApplyAppend(s0, AllCalls(runs), r.calls);
  }

  /** One more mapping outcome: the plan of the longer prefix. */
  lemma PlanStep(steps: seq<MappingOutcome>, i: int)
    requires 0 <= i < |steps|
    ensures PlanOf(steps[..i + 1]) == if !PlanOf(steps[..i]).completes then PlanOf(steps[..i])
      else match steps[i]
        case Skipped => PlanOf(steps[..i])
        case Aborted => Plan(PlanOf(steps[..i]).jobs, false)
        case Exports(job) => Plan(PlanOf(steps[..i]).jobs + [job], true)
  {
    PlanAppend(steps[..i], [steps[i]]);
    assert steps[..i + 1] == steps[..i] + [steps[i]];
    assert [steps[i]][1..] == [];
    assert PlanOf(steps[..i]).jobs + [] == PlanOf(steps[..i]).jobs;
  }

  /** The requests of an export run: the deletions of what the query found,
      then one creation per aggregated day. */
  ghost predicate RunRequests(r: ExportRun, shouldRoundTime: bool)
  {
    Requests(r.calls) == Deletes(DeletedIds(r.response))
      + Creates(CreateRequests(Summarized(r.job), r.job.projectId, shouldRoundTime))
  }

  /** An export run performed on the store `before`: its query answered for
      the window of `before`, and it sent the requests of RunRequests. */
  ghost predicate ExportedRun(before: Store, r: ExportRun, startDate: int, endDate: int, shouldRoundTime: bool)
  {
    && AnswersQuery(before, r.job.projectId, startDate, endDate, r.response)
    && RunRequests(r, shouldRoundTime)
  }

  /** Every run of `runs`, performed one after the other from `s0`, is an
      ExportedRun on the store the runs before it left. */
  ghost predicate ExportedRuns(s0: Store, runs: seq<ExportRun>, startDate: int, endDate: int, shouldRoundTime: bool)
  {
    runs == [] ||
      (&& ExportedRuns(s0, runs[..|runs| - 1], startDate, endDate, shouldRoundTime)
       && ExportedRun(Apply(s0, AllCalls(runs[..|runs| - 1])), runs[|runs| - 1], startDate, endDate, shouldRoundTime))
  }

  /** One more export run, performed on the store the earlier runs left. */
  lemma ExportedRunsSnoc(s0: Store, runs: seq<ExportRun>, r: ExportRun, startDate: int, endDate: int,
                         shouldRoundTime: bool)
    requires ExportedRuns(s0, runs, startDate, endDate, shouldRoundTime)
    requires ExportedRun(Apply(s0, AllCalls(runs)), r, startDate, endDate, shouldRoundTime)
    ensures ExportedRuns(s0, runs + [r], startDate, endDate, shouldRoundTime)
  {
    assert (runs + [r])[..|runs|] == runs;
  }

  /** The run at index `i` was performed on the store the earlier runs left. */
  lemma {:induction false} ExportedRunAt(s0: Store, runs: seq<ExportRun>, i: int, startDate: int, endDate: int,
                                         shouldRoundTime: bool)
    requires ExportedRuns(s0, runs, startDate, endDate, shouldRoundTime)
    requires 0 <= i < |runs|
    ensures ExportedRun(Apply(s0, AllCalls(runs[..i])), runs[i], startDate, endDate, shouldRoundTime)
  {
    var init := runs[..|runs| - 1];
    if i < |init| {
      ExportedRunAt(s0, init, i, startDate, endDate, shouldRoundTime);
      assert runs[i] == init[i];
      assert runs[..i] == init[..i];
    } else {
      assert runs[..i] == init;
    }
  }

  lemma ExportedRunsEach(s0: Store, runs: seq<ExportRun>, startDate: int, endDate: int, shouldRoundTime: bool)
    requires ExportedRuns(s0, runs, startDate, endDate, shouldRoundTime)
    ensures forall i :: 0 <= i < |runs| ==>
      ExportedRun(Apply(s0, AllCalls(runs[..i])), runs[i], startDate, endDate, shouldRoundTime)
  {
    forall i | 0 <= i < |runs|
      ensures ExportedRun(Apply(s0, AllCalls(runs[..i])), runs[i], startDate, endDate, shouldRoundTime)
    {
      ExportedRunAt(s0, runs, i, startDate, endDate, shouldRoundTime);
    }
  }

  /** The body of the loop over the mappings: what one mapping does to the
      destination. `stops` is set when the run ends at this mapping. */
  method TransferMapping(client: ClockifyClient, m: Option<ProjectMapping>, clockifyOptions: ClockifyOptions,
                         list: Listing, parse: Parser, startDate: int, endDate: int, shouldRoundTime: bool)
    returns (stops: bool, run: Option<ExportRun>)
    requires client.Valid()
    modifies client
    ensures client.Valid()
    ensures var step := MappingStep(m, list, parse, startDate, endDate, HasCredentials(clockifyOptions));
            && (stops <==> step.Aborted?)
            && (run.Some? <==> step.Exports?)
            && (run.Some? ==> (&& run.value.job == step.job
                               && ExportedRun(old(client.State()), run.value, startDate, endDate, shouldRoundTime)))
    ensures client.State() == Apply(old(client.State()), if run.Some? then run.value.calls else [])
  {
    stops, run := false, None;
    if m.None? || m.value.sourceProjectIds.None? {
      return;
    }
    var reports := FetchAll(list, parse, startDate, endDate, m.value.sourceProjectIds.value);
    if reports.None? {
      // A source listing threw: the run ends without saving the watermark
      stops := true;
      return;
    }
    var summarized := ConcatTimeReports(reports.value);
    if m.value.destinationProjectId.None? {
      // NullReferenceException: the run ends without saving the watermark
      stops := true;
      return;
    }
    var projectId := m.value.destinationProjectId.value;
    var thrown, response, calls := ExportToClockify(client, clockifyOptions, summarized, projectId,
                                                    startDate, endDate, shouldRoundTime);
    if thrown {
      // A missing destination credential: the run ends without saving the watermark
      stops := true;
      return;
    }
    run := Some(ExportRun(Job(reports.value, projectId), response, calls));
  }

  /** The loop over the mappings: the exports performed, and whether no
      mapping stopped the run. */
  method TransferMappings(client: ClockifyClient, ms: seq<Option<ProjectMapping>>, clockifyOptions: ClockifyOptions,
                          list: Listing, parse: Parser, startDate: int, endDate: int, shouldRoundTime: bool)
    returns (completes: bool, runs: seq<ExportRun>)
    requires client.Valid()
    modifies client
    ensures client.Valid()
    ensures PlanOf(Steps(ms, list, parse, startDate, endDate, HasCredentials(clockifyOptions)))
         == Plan(JobsOf(runs), completes)
    ensures ExportedRuns(old(client.State()), runs, startDate, endDate, shouldRoundTime)
    ensures client.State() == Apply(old(client.State()), AllCalls(runs))
  {
    runs := [];
    ghost var s0 := client.State();
    ghost var steps := Steps(ms, list, parse, startDate, endDate, HasCredentials(clockifyOptions));
    for i := 0 to |ms|
      invariant client.Valid()
      invariant PlanOf(steps[..i]) == Plan(JobsOf(runs), true)
      invariant ExportedRuns(s0, runs, startDate, endDate, shouldRoundTime)
      invariant client.State() == Apply(s0, AllCalls(runs))
    {
      PlanStep(steps, i);
      var stops, run := TransferMapping(client, ms[i], clockifyOptions, list, parse, startDate, endDate,
                                        shouldRoundTime);
      if stops {
        RunStopsAt(steps, i);
        return false, runs;
      }
      if run.Some? {
        RunsAppend(s0, runs, run.value);
        ExportedRunsSnoc(s0, runs, run.value, startDate, endDate, shouldRoundTime);
        runs := runs + [run.value];
      }
    }
    assert steps[..|ms|] == steps;
    completes := true;
  }

  /** `TransferTimeReports`. `watermark` is the watermark the run leaves
      behind; `runs` are the exports it performed, in order. */
  method TransferTimeReports(client: ClockifyClient, mappings: Option<seq<Option<ProjectMapping>>>,
                             clockifyOptions: ClockifyOptions, general: GeneralConfigurationOptions,
                             lastExecution: Option<int>, startClock: int, now: int,
                             list: Listing, parse: Parser)
    returns (watermark: Option<int>, runs: seq<ExportRun>)
    requires client.Valid()
    modifies client
    ensures client.Valid()
    ensures var startDate := GetStartDate(lastExecution, startClock, general.defaultDaysSinceNow);
            var plan := RunPlan(mappings, list, parse, startDate, now, HasCredentials(clockifyOptions));
            && watermark == (if plan.completes then Some(now) else lastExecution)
            && JobsOf(runs) == plan.jobs
    ensures var startDate := GetStartDate(lastExecution, startClock, general.defaultDaysSinceNow);
            forall i :: 0 <= i < |runs| ==>
              ExportedRun(Apply(old(client.State()), AllCalls(runs[..i])), runs[i], startDate, now,
                          general.shouldRoundTime)
    ensures client.State() == Apply(old(client.State()), AllCalls(runs))
  {
    var startDate := GetStartDate(lastExecution, startClock, general.defaultDaysSinceNow);
    var endDate := now;
    watermark := lastExecution;
    runs := [];
    if mappings.None? {
      // No project mappings configured
      return;
    }
    var completes;
    completes, runs := TransferMappings(client, mappings.value, clockifyOptions, list, parse, startDate, endDate,
                                        general.shouldRoundTime);
    ExportedRunsEach(old(client.State()), runs, startDate, endDate, general.shouldRoundTime);
    if completes {
      // Save the end of the window for next time
      watermark := Some(endDate);
    }
  }
}
