/**
  The destination provider, seen from the transfer service: a store of time
  entries keyed by id, which answers a query for the entries of a project in
  a time window, deletes an entry by id and creates an entry. Each of the
  three calls may fail; the store stands for the remote service, so whether
  a call fails is not decided by anything in this model.

  The store holds the entries of the one configured user of one workspace.
  A query window `[start, end]` selects the entries of the project whose
  start lies in it.
*/
module Clockify {

  import opened Wrappers

  /** A destination time entry, as requested (`TimeEntryRequest`) and as stored. */
  datatype TimeEntry = TimeEntry(projectId: string, start: int, end: int)

  type EntryId = nat

  /** The abstract state of the destination: its entries, and the id the next
      created entry receives. */
  datatype Store = Store(entries: map<EntryId, TimeEntry>, nextId: nat)

  /** Every id in use was handed out before. */
  ghost predicate ValidStore(s: Store)
  {
    forall id :: id in s.entries ==> id < s.nextId
  }

  datatype Request = DeleteTimeEntry(id: EntryId) | CreateTimeEntry(entry: TimeEntry)

  /** A request sent to the destination and whether its response was successful. */
  datatype Call = Call(request: Request, isSuccessful: bool)

  /** The response to the query for existing entries: its success flag and its
      data, a list that may itself be null and may hold null elements. */
  datatype QueryResponse = QueryResponse(isSuccessful: bool, data: Option<seq<Option<EntryId>>>)

  predicate InWindow(e: TimeEntry, projectId: string, start: int, end: int)
  {
    e.projectId == projectId && start <= e.start <= end
  }

  /** The ids the query for `projectId` in `[start, end]` selects. */
  ghost function WindowIds(s: Store, projectId: string, start: int, end: int): set<EntryId>
  {
    set id | id in s.entries && InWindow(s.entries[id], projectId, start, end)
  }

  /** What a correct answer to that query looks like: a failure says nothing;
      a success lists each selected id exactly once and nothing else. */
  ghost predicate AnswersQuery(s: Store, projectId: string, start: int, end: int, response: QueryResponse)
  {
    response.isSuccessful ==>
      && response.data.Some?
      && None !in response.data.value
      && (forall i, j :: 0 <= i < j < |response.data.value| ==> response.data.value[i] != response.data.value[j])
      && (forall id :: Some(id) in response.data.value <==> id in WindowIds(s, projectId, start, end))
  }

  /** The effect of one call: a failed call changes nothing. */
  function Step(s: Store, c: Call): Store
  {
    if !c.isSuccessful then s
    else match c.request
      case DeleteTimeEntry(id) => Store(s.entries - {id}, s.nextId)
      case CreateTimeEntry(e) => Store(s.entries[s.nextId := e], s.nextId + 1)
  }

  /** The effect of a sequence of calls, made one after another. */
  function Apply(s: Store, calls: seq<Call>): Store
  {
    if calls == [] then s else Step(Apply(s, calls[..|calls| - 1]), calls[|calls| - 1])
  }

  function Requests(calls: seq<Call>): (rs: seq<Request>)
    ensures |rs| == |calls|
    ensures forall i :: 0 <= i < |calls| ==> rs[i] == calls[i].request
  {
    seq(|calls|, i requires 0 <= i < |calls| => calls[i].request)
  }

  predicate AllSucceeded(calls: seq<Call>)
  {
    forall i :: 0 <= i < |calls| ==> calls[i].isSuccessful
  }

  function Deletes(ids: seq<EntryId>): (rs: seq<Request>)
    ensures |rs| == |ids|
    ensures forall i :: 0 <= i < |ids| ==> rs[i] == DeleteTimeEntry(ids[i])
  {
    seq(|ids|, i requires 0 <= i < |ids| => DeleteTimeEntry(ids[i]))
  }

  function Creates(es: seq<TimeEntry>): (rs: seq<Request>)
    ensures |rs| == |es|
    ensures forall i :: 0 <= i < |es| ==> rs[i] == CreateTimeEntry(es[i])
  {
    seq(|es|, i requires 0 <= i < |es| => CreateTimeEntry(es[i]))
  }

  /** The entries `es` under the ids `n`, `n + 1`, ... */
  function Fresh(n: nat, es: seq<TimeEntry>): map<EntryId, TimeEntry>
    decreases |es|
  {
    if es == [] then map[] else Fresh(n, es[..|es| - 1])[n + |es| - 1 := es[|es| - 1]]
  }

  /** `Fresh(n, es)` uses exactly the ids `n .. n + |es| - 1`, the `i`-th
      holding `es[i]`. */
  lemma {:induction false} FreshAt(n: nat, es: seq<TimeEntry>)
    ensures forall id :: id in Fresh(n, es) <==> n <= id < n + |es|
    ensures forall i :: 0 <= i < |es| ==> Fresh(n, es)[n + i] == es[i]
    decreases |es|
  {
    if es != [] {
      FreshAt(n, es[..|es| - 1]);
    }
  }

  /** Replace-window semantics: the selected entries are gone and `es` are
      stored under fresh ids; everything else is as it was. */
  ghost function Replaced(s: Store, projectId: string, start: int, end: int, es: seq<TimeEntry>): Store
  {
    Store((s.entries - WindowIds(s, projectId, start, end)) + Fresh(s.nextId, es), s.nextId + |es|)
  }

  lemma {:induction false} ApplyAppend(s: Store, a: seq<Call>, b: seq<Call>)
    ensures Apply(s, a + b) == Apply(Apply(s, a), b)
    decreases |b|
  {
    if b == [] {
      assert a + b == a;
    } else {
      var b' := b[..|b| - 1];
      assert (a + b)[..|a + b| - 1] == a + b';
      ApplyAppend(s, a, b');
    }
  }

  lemma MapRemoveMore(m: map<EntryId, TimeEntry>, xs: set<EntryId>, x: EntryId)
    ensures (m - xs) - {x} == m - (xs + {x})
  {
  }

  lemma MapUpdateUnion(m: map<EntryId, TimeEntry>, f: map<EntryId, TimeEntry>, k: EntryId, v: TimeEntry)
    ensures (m + f)[k := v] == m + f[k := v]
  {
  }

  /** Deletes that all succeed remove exactly the ids they name. */
  lemma {:induction false} ApplyDeletes(s: Store, ids: seq<EntryId>, calls: seq<Call>)
    requires Requests(calls) == Deletes(ids)
    requires AllSucceeded(calls)
    ensures Apply(s, calls) == Store(s.entries - (set x | x in ids), s.nextId)
    decreases |calls|
  {
    if calls == [] {
      assert s.entries - {} == s.entries;
    } else {
      var n := |calls| - 1;
      var init := calls[..n];
      assert Requests(init) == Deletes(ids[..n]);
      ApplyDeletes(s, ids[..n], init);
      assert calls[n].request == DeleteTimeEntry(ids[n]) && calls[n].isSuccessful;
      assert Apply(s, calls) == Step(Apply(s, init), calls[n]);
      MapRemoveMore(s.entries, (set x | x in ids[..n]), ids[n]);
      assert (set x | x in ids) == (set x | x in ids[..n]) + {ids[n]} by {
        assert ids == ids[..n] + [ids[n]];
      }
    }
  }

  /** Creates that all succeed store their entries under consecutive fresh ids. */
  lemma {:induction false} ApplyCreates(s: Store, es: seq<TimeEntry>, calls: seq<Call>)
    requires Requests(calls) == Creates(es)
    requires AllSucceeded(calls)
    ensures Apply(s, calls) == Store(s.entries + Fresh(s.nextId, es), s.nextId + |es|)
    decreases |calls|
  {
    if calls == [] {
      assert Fresh(s.nextId, es) == map[];
      assert s.entries + map[] == s.entries;
    } else {
      var n := |calls| - 1;
      var init := calls[..n];
      assert Requests(init) == Creates(es[..n]);
      ApplyCreates(s, es[..n], init);
      assert calls[n].request == CreateTimeEntry(es[n]) && calls[n].isSuccessful;
      assert Apply(s, calls) == Step(Apply(s, init), calls[n]);
      assert Fresh(s.nextId, es) == Fresh(s.nextId, es[..n])[s.nextId + n := es[n]];
      MapUpdateUnion(s.entries, Fresh(s.nextId, es[..n]), s.nextId + n, es[n]);
    }
  }

  /** Deleting every id the query selected and then creating `es`, with every
      call successful, is replace-window: nothing outside the window changes,
      nothing from the old window survives, and `es` is added. */
  lemma ApplyReplacesWindow(s: Store, projectId: string, start: int, end: int,
                            ids: seq<EntryId>, es: seq<TimeEntry>, calls: seq<Call>)
    requires (set x | x in ids) == WindowIds(s, projectId, start, end)
    requires Requests(calls) == Deletes(ids) + Creates(es)
    requires AllSucceeded(calls)
    ensures Apply(s, calls) == Replaced(s, projectId, start, end, es)
  {
    var k := |ids|;
    var dels, crs := calls[..k], calls[k..];
    assert calls == dels + crs;
    var rs := Requests(calls);
    assert Requests(dels) == rs[..k] && Requests(crs) == rs[k..];
    assert rs[..k] == Deletes(ids) && rs[k..] == Creates(es);
    assert AllSucceeded(dels) && AllSucceeded(crs);
    ApplyAppend(s, dels, crs);
    ApplyDeletes(s, ids, dels);
    var mid := Store(s.entries - WindowIds(s, projectId, start, end), s.nextId);
    assert Apply(s, dels) == mid;
    ApplyCreates(mid, es, crs);
  }

  lemma {:induction false} FreshSize(n: nat, es: seq<TimeEntry>)
    ensures |Fresh(n, es)| == |es|
    decreases |es|
  {
    if es != [] {
      var m := |es| - 1;
      FreshSize(n, es[..m]);
      FreshAt(n, es[..m]);
      assert n + m !in Fresh(n, es[..m]);
    }
  }

  /** After a replace whose entries all lie in the window, the window holds
      exactly the created entries. */
  lemma ReplacedWindowHoldsCreated(s: Store, projectId: string, start: int, end: int, es: seq<TimeEntry>)
    requires ValidStore(s)
    requires forall i :: 0 <= i < |es| ==> InWindow(es[i], projectId, start, end)
    ensures ValidStore(Replaced(s, projectId, start, end, es))
    ensures WindowIds(Replaced(s, projectId, start, end, es), projectId, start, end) == Fresh(s.nextId, es).Keys
    ensures Replaced(s, projectId, start, end, es).entries - Fresh(s.nextId, es).Keys
         == s.entries - WindowIds(s, projectId, start, end)
  {
    var r := Replaced(s, projectId, start, end, es);
    var w := WindowIds(s, projectId, start, end);
    var f := Fresh(s.nextId, es);
    FreshAt(s.nextId, es);
    forall id | id in f ensures id in WindowIds(r, projectId, start, end) {
      var i := id - s.nextId;
      assert f[s.nextId + i] == es[i];
    }
    assert r.entries - f.Keys == s.entries - w;
  }

  /** The same entries under other ids are the same values. */
  lemma FreshValues(n1: nat, n2: nat, es: seq<TimeEntry>)
    ensures Fresh(n1, es).Values == Fresh(n2, es).Values
  {
    var f1, f2 := Fresh(n1, es), Fresh(n2, es);
    FreshAt(n1, es);
    FreshAt(n2, es);
    forall v | v in f1.Values ensures v in f2.Values {
      var id :| id in f1 && f1[id] == v;
      var i := id - n1;
      assert f1[n1 + i] == es[i] == f2[n2 + i];
    }
    forall v | v in f2.Values ensures v in f1.Values {
      var id :| id in f2 && f2[id] == v;
      var i := id - n2;
      assert f2[n2 + i] == es[i] == f1[n1 + i];
    }
  }

  /** Kept entries below `n` and fresh ones from `n` on do not overlap. */
  lemma FreshDisjoint(keep: map<EntryId, TimeEntry>, n: nat, es: seq<TimeEntry>)
    requires forall id :: id in keep ==> id < n
    ensures keep.Keys !! Fresh(n, es).Keys
  {
    FreshAt(n, es);
  }

  lemma UnionValues(keep: map<EntryId, TimeEntry>, f: map<EntryId, TimeEntry>)
    requires keep.Keys !! f.Keys
    ensures (keep + f).Values == keep.Values + f.Values
  {
    forall v | v in (keep + f).Values ensures v in keep.Values + f.Values {
      var id :| id in keep + f && (keep + f)[id] == v;
      if id in f { assert f[id] == v; } else { assert keep[id] == v; }
    }
    forall v | v in keep.Values ensures v in (keep + f).Values {
      var id :| id in keep && keep[id] == v;
      assert (keep + f)[id] == v;
    }
    forall v | v in f.Values ensures v in (keep + f).Values {
      var id :| id in f && f[id] == v;
      assert (keep + f)[id] == v;
    }
  }

  lemma UnionSize(keep: map<EntryId, TimeEntry>, f: map<EntryId, TimeEntry>)
    requires keep.Keys !! f.Keys
    ensures |keep + f| == |keep| + |f|
  {
    var u := (keep + f).Keys;
    assert u == keep.Keys + f.Keys;
  }

  /** When every created entry starts inside the window, running the same
      replace a second time changes nothing but the ids of the created
      entries: the entries outside the window are the same, the same entries
      are stored, and as many of them. */
  lemma ReplaceTwiceConverges(s: Store, projectId: string, start: int, end: int, es: seq<TimeEntry>)
    requires ValidStore(s)
    requires forall i :: 0 <= i < |es| ==> InWindow(es[i], projectId, start, end)
    ensures var s1 := Replaced(s, projectId, start, end, es);
            var s2 := Replaced(s1, projectId, start, end, es);
            && s2.entries - WindowIds(s2, projectId, start, end) == s1.entries - WindowIds(s1, projectId, start, end)
            && s2.entries.Values == s1.entries.Values
            && |s2.entries| == |s1.entries|
  {
    var s1 := Replaced(s, projectId, start, end, es);
    var s2 := Replaced(s1, projectId, start, end, es);
    ReplacedWindowHoldsCreated(s, projectId, start, end, es);
    ReplacedWindowHoldsCreated(s1, projectId, start, end, es);
    var keep := s.entries - WindowIds(s, projectId, start, end);
    assert s1.entries == keep + Fresh(s.nextId, es);
    assert s2.entries == keep + Fresh(s1.nextId, es);
    assert forall id :: id in keep ==> id < s.nextId <= s1.nextId;
    FreshDisjoint(keep, s.nextId, es);
    FreshDisjoint(keep, s1.nextId, es);
    UnionValues(keep, Fresh(s.nextId, es));
    UnionValues(keep, Fresh(s1.nextId, es));
    UnionSize(keep, Fresh(s.nextId, es));
    UnionSize(keep, Fresh(s1.nextId, es));
    FreshSize(s.nextId, es);
    FreshSize(s1.nextId, es);
    FreshValues(s.nextId, s1.nextId, es);
  }

  /** Running the same replace a second time stores the same set of
      (project, start, end) values, wherever the created entries start: an
      entry created outside the window survives the second replace, but its
      value is created again anyway. */
  lemma ReplaceTwiceSameValues(s: Store, projectId: string, start: int, end: int, es: seq<TimeEntry>)
    requires ValidStore(s)
    ensures var s1 := Replaced(s, projectId, start, end, es);
            Replaced(s1, projectId, start, end, es).entries.Values == s1.entries.Values
  {
    var s1 := Replaced(s, projectId, start, end, es);
    var s2 := Replaced(s1, projectId, start, end, es);
    var keep := s.entries - WindowIds(s, projectId, start, end);
    var f1, f2 := Fresh(s.nextId, es), Fresh(s1.nextId, es);
    var m := s1.entries - WindowIds(s1, projectId, start, end);
    assert s1.entries == keep + f1;
    assert s2.entries == m + f2;
    FreshAt(s.nextId, es);
    assert forall id :: id in keep ==> id < s.nextId;
    FreshDisjoint(keep, s.nextId, es);
    assert forall id :: id in m ==> id < s1.nextId;
    FreshDisjoint(m, s1.nextId, es);
    UnionValues(keep, f1);
    UnionValues(m, f2);
    FreshValues(s.nextId, s1.nextId, es);
    forall v | v in keep.Values ensures v in m.Values {
      var id :| id in keep && keep[id] == v;
      assert id !in f1;
      assert s1.entries[id] == v;
      assert id !in WindowIds(s1, projectId, start, end);
      assert m[id] == v;
    }
    forall v | v in m.Values ensures v in s1.entries.Values {
      var id :| id in m && m[id] == v;
      assert s1.entries[id] == v;
    }
  }

  /** An entry created outside the window is not selected by the next query
      for that window, so a second identical replace stores it twice. */
  lemma CreatedOutsideWindowIsDuplicated(s: Store, projectId: string, start: int, end: int, e: TimeEntry)
    requires ValidStore(s)
    requires !InWindow(e, projectId, start, end)
    ensures var s1 := Replaced(s, projectId, start, end, [e]);
            var s2 := Replaced(s1, projectId, start, end, [e]);
            && s2.entries[s.nextId] == e && s2.entries[s1.nextId] == e
            && s.nextId != s1.nextId
            && |s2.entries| == |s1.entries| + 1
  {
    var s1 := Replaced(s, projectId, start, end, [e]);
    var s2 := Replaced(s1, projectId, start, end, [e]);
    FreshAt(s.nextId, [e]);
    FreshAt(s1.nextId, [e]);
    assert s.nextId !in WindowIds(s1, projectId, start, end);
    assert WindowIds(s1, projectId, start, end) == {};
    assert s1.entries - {} == s1.entries;
    assert s2.entries == s1.entries[s1.nextId := e];
    assert s1.nextId !in s1.entries;
  }

  /** The destination service, holding the store's state in its fields. */
  class ClockifyClient {

    var entries: map<EntryId, TimeEntry>
    var nextId: nat

    function State(): Store
      reads this
    {
      Store(entries, nextId)
    }

    ghost predicate Valid()
      reads this
    {
      ValidStore(State())
    }

    constructor (initial: Store)
      requires ValidStore(initial)
      ensures Valid() && State() == initial
    {
      entries := initial.entries;
      nextId := initial.nextId;
    }

    /** `FindAllTimeEntriesForUserAsync`: fails, or lists the ids of the
        project's entries that start in `[start, end]`. */
    method FindAllTimeEntriesForUser(projectId: string, start: int, end: int) returns (response: QueryResponse)
      requires Valid()
      ensures AnswersQuery(State(), projectId, start, end, response)
    {
      var ok: bool := *;
      if !ok {
        return QueryResponse(false, None);
      }
      var ids: seq<Option<EntryId>> := [];
      for id := 0 to nextId
        invariant None !in ids
        invariant forall i, j :: 0 <= i < j < |ids| ==> ids[i].value < ids[j].value
        invariant forall i :: 0 <= i < |ids| ==> ids[i].value < id
        invariant forall x :: Some(x) in ids <==> x < id && x in WindowIds(State(), projectId, start, end)
      {
        if id in entries && InWindow(entries[id], projectId, start, end) {
          ids := ids + [Some(id)];
        }
      }
      response := QueryResponse(true, Some(ids));
    }

    /** `DeleteTimeEntryAsync`: fails, or removes the entry; deleting an id
        that is not there fails. */
    method DeleteTimeEntry(id: EntryId) returns (ok: bool)
      requires Valid()
      modifies this
      ensures Valid()
      ensures ok ==> id in old(entries)
      ensures State() == Step(old(State()), Call(Request.DeleteTimeEntry(id), ok))
    {
      ok := *;
      ok := ok && id in entries;
      if ok {
        entries := entries - {id};
      }
    }

    /** `CreateTimeEntryAsync`: fails, or stores the entry under a fresh id. */
    method CreateTimeEntry(e: TimeEntry) returns (ok: bool)
      requires Valid()
      modifies this
      ensures Valid()
      ensures State() == Step(old(State()), Call(Request.CreateTimeEntry(e), ok))
    {
      ok := *;
      if ok {
        entries := entries[nextId := e];
        nextId := nextId + 1;
      }
    }
  }
}
