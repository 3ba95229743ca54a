/** Reading a past run back: the runs up to it, the groups absent from it, and the page of listings. */
module Query {
  import opened Support
  import opened Comparator
  import opened Tables
  import opened ListingTrack
  import opened Persistence
  import opened SourceHistory
  import opened EventLog

  /* ------------------------- runs through the selected one ------------------------- */

  /** Ids of the source's runs with results among the first `n`, in creation order. */
  function ResultRuns(db: Db, source: SourceId, n: nat): seq<RunId>
    requires n <= |db.runs|
  {
    if n == 0 then []
    else
      ResultRuns(db, source, n - 1) +
      if db.runs[n - 1].source == source && IsResult(db.runs[n - 1].status) then [n - 1] else []
  }

  lemma {:induction false} ResultRunsThrough(db: Db, source: SourceId, n: nat, i: nat)
    requires n <= |db.runs| && i < |ResultRuns(db, source, n)|
    ensures var r := ResultRuns(db, source, n)[i];
      r < n && db.runs[r].source == source && IsResult(db.runs[r].status)
      && ResultRuns(db, source, n)[..i + 1] == ResultRuns(db, source, r + 1)
  {
    var rest := ResultRuns(db, source, n - 1);
    if i < |rest| {
      ResultRunsThrough(db, source, n - 1, i);
      assert ResultRuns(db, source, n)[..i + 1] == rest[..i + 1];
    } else {
      assert ResultRuns(db, source, n)[..i + 1] == ResultRuns(db, source, n);
    }
  }

  lemma {:induction false} ResultRunsContain(db: Db, source: SourceId, n: nat, r: RunId)
    requires n <= |db.runs|
    ensures r in ResultRuns(db, source, n) <==> r < n && db.runs[r].source == source && IsResult(db.runs[r].status)
  {
    if n > 0 {
      ResultRunsContain(db, source, n - 1, r);
    }
  }

  /** `_source_run_ids_through`: the source's result runs up to and including the selected one;
      a selected run without results stands alone. */
  method SourceRunIdsThrough(db: Db, selected: RunId) returns (ids: seq<RunId>)
    requires selected < |db.runs|
    ensures ids == if IsResult(db.runs[selected].status) then ResultRuns(db, db.runs[selected].source, selected + 1)
                   else [selected]
  {
    var ordered := ResultRuns(db, db.runs[selected].source, |db.runs|);
    ids := [];
    var i := 0;
    while i < |ordered|
      invariant 0 <= i <= |ordered|
      invariant ids == ordered[..i] && selected !in ids
    {
      ids := ids + [ordered[i]];
      assert ids == ordered[..i + 1];
      if ordered[i] == selected {
        ResultRunsThrough(db, db.runs[selected].source, |db.runs|, i);
        break;
      }
      i := i + 1;
    }
    ResultRunsContain(db, db.runs[selected].source, |db.runs|, selected);
    if selected !in ids {
      assert i == |ordered| && ids == ordered;
      ids := [selected];
    }
  }

  lemma {:induction false} HistoryIds(db: Db, source: SourceId, n: nat)
    requires n <= |db.runs|
    ensures |History(db, source, n)| == |ResultRuns(db, source, n)|
    ensures forall i :: 0 <= i < |History(db, source, n)| ==>
      History(db, source, n)[i].run == ResultRuns(db, source, n)[i] < n
  {
    hide Shown;
    if n > 0 {
      HistoryIds(db, source, n - 1);
    }
  }

  lemma {:induction false} HistoryRises(db: Db, source: SourceId, n: nat)
    requires n <= |db.runs|
    ensures RunsRise(History(db, source, n))
  {
    hide ObservationOf;
    HistoryIds(db, source, n);
    if n > 0 {
      HistoryIds(db, source, n - 1);
      HistoryRises(db, source, n - 1);
    }
  }

  /** The runs of a history are exactly the source's runs with results. */
  lemma HistoryRuns(db: Db, source: SourceId, n: nat)
    requires n <= |db.runs|
    ensures RunsRise(History(db, source, n))
    ensures RunSet(History(db, source, n)) == set r | r in ResultRuns(db, source, n)
    ensures RunSet(History(db, source, n)) <= RunsOf(db, source)
  {
    HistoryRises(db, source, n);
    HistoryIds(db, source, n);
    hide History, ObservationOf;
    var h, ids := History(db, source, n), ResultRuns(db, source, n);
    forall r ensures r in RunSet(h) <==> r in ids {
      if r in ids {
        var i :| 0 <= i < |ids| && ids[i] == r;
        assert h[i] in h;
      }
    }
    forall r | r in RunSet(h) ensures r in RunsOf(db, source) {
      ResultRunsContain(db, source, n, r);
    }
  }

  lemma {:induction false} HistoryPrefix(db: Db, source: SourceId, n: nat, m: nat)
    requires n <= m <= |db.runs|
    ensures |History(db, source, n)| <= |History(db, source, m)|
    ensures History(db, source, m)[..|History(db, source, n)|] == History(db, source, n)
  {
    hide ObservationOf;
    if n < m {
      HistoryPrefix(db, source, n, m - 1);
    }
  }

  /* ------------------------- absences as of a run ------------------------- */

  /** One more row of the event query moves the replay of its group only. */
  lemma ReplayRow(rows: seq<Event>, ids: set<RunId>, i: nat, g: GroupId)
    requires i < |rows| && rows[i].run in ids
    ensures ReplayAbsence(EventsOf(rows[..i + 1], ids, g)) ==
      var before := ReplayAbsence(EventsOf(rows[..i], ids, g));
      if rows[i].group == g then ReplayEvent(rows[i], before) else before
  {
    assert rows[..i + 1][..i] == rows[..i];
    hide ReplayAbsence;
    ReplayAppend(EventsOf(rows[..i], ids, g), if rows[i].group == g then Some(rows[i]) else None);
  }

  ghost predicate StatesAre(states: map<GroupId, Absence>, rows: seq<Event>, ids: set<RunId>)
  {
    forall g :: Lookup(states, g) == ReplayAbsence(EventsOf(rows, ids, g))
  }

  lemma StatesStep(states: map<GroupId, Absence>, states': map<GroupId, Absence>, rows: seq<Event>, ids: set<RunId>,
                   i: nat)
    requires i < |rows| && rows[i].run in ids && StatesAre(states, rows[..i], ids)
    requires var e := rows[i];
      states' == match ReplayEvent(e, None) case None => states - {e.group} case Some(a) => states[e.group := a]
    ensures StatesAre(states', rows[..i + 1], ids)
  {
    hide EventsOf, ReplayAbsence;
    forall g ensures Lookup(states', g) == ReplayAbsence(EventsOf(rows[..i + 1], ids, g)) {
      ReplayRow(rows, ids, i, g);
      assert Lookup(states, g) == ReplayAbsence(EventsOf(rows[..i], ids, g));
    }
  }

  /** The replay loop of `_absence_states_as_of_run`, and the removal of the groups the run itself shows. */
  method AbsenceStates(rows: seq<Event>, actual: seq<GroupId>, ghost ids: set<RunId>)
    returns (states: map<GroupId, Absence>)
    requires forall i :: 0 <= i < |rows| ==> rows[i].run in ids
    ensures forall g :: Lookup(states, g) == if g in actual then None else ReplayAbsence(EventsOf(rows, ids, g))
  {
    states := map[];
    for i := 0 to |rows|
      invariant StatesAre(states, rows[..i], ids)
    {
      var e := rows[i];
      ghost var before := states;
      match e.kind {
        case WentMissing => states := states[e.group := Absence(Missing, e.at, None)];
        case WentRemoved => states := states[e.group := Absence(Removed, e.at, Some(e.at))];
        case New => states := states - {e.group};
        case Changed => states := states - {e.group};
        case Restored => states := states - {e.group};
      }
      StatesStep(before, states, rows, ids, i);
    }
    assert rows[..|rows|] == rows;
    ghost var replayed := states;
    for i := 0 to |actual|
      invariant forall g :: Lookup(states, g) == if g in actual[..i] then None else Lookup(replayed, g)
    {
      states := states - {actual[i]};
      assert actual[..i + 1] == actual[..i] + [actual[i]];
    }
    assert actual[..|actual|] == actual;
  }

  /** `rows` is the event query: the events of these runs about groups of the complex, ordered by detection time;
      events detected at one time may come in any order. */
  ghost predicate EventQuery(db: Db, ids: set<RunId>, complexId: string, rows: seq<Event>)
  {
    && Sorted(rows)
    && forall e :: multiset(rows)[e] ==
         (if e.run in ids && e.group < |db.groups| && db.groups[e.group].complexId == complexId
          then multiset(db.events)[e] else 0)
  }

  lemma QueryRuns(db: Db, ids: set<RunId>, complexId: string, rows: seq<Event>)
    requires EventQuery(db, ids, complexId, rows)
    ensures forall i :: 0 <= i < |rows| ==> rows[i].run in ids
  {
    forall i | 0 <= i < |rows| ensures rows[i].run in ids {
      assert rows[i] in multiset(rows);
    }
  }

  /** Whatever order the query resolves ties in, each group's events replay in the order they were written. */
  lemma QueryOfGroup(db: Db, source: SourceId, selected: RunId, complexId: string, rows: seq<Event>, g: GroupId)
    requires Inv(db) && selected < |db.runs|
    requires source in db.sources && db.sources[source] == Some(complexId)
    requires EventQuery(db, RunSet(History(db, source, selected + 1)), complexId, rows)
    ensures EventsOf(rows, RunSet(History(db, source, selected + 1)), g)
      == After(History(db, source, selected + 1), g).events
  {
    assert Sorted(rows);
    hide *;
    InvParts(db);
    LogThrough(db, source, selected, g);
    OrderedThrough(db, source, selected);
    EventsRise(History(db, source, selected + 1), g);
    SelectSorted(rows, RunSet(History(db, source, selected + 1)), g);
    QueryCounts(db, source, selected, complexId, rows, g);
    SortedUnique(EventsOf(rows, RunSet(History(db, source, selected + 1)), g),
                 EventsOf(db.events, RunSet(History(db, source, selected + 1)), g));
  }

  lemma QueryCounts(db: Db, source: SourceId, selected: RunId, complexId: string, rows: seq<Event>, g: GroupId)
    requires TablesOk(db) && selected < |db.runs|
    requires source in db.sources && db.sources[source] == Some(complexId)
    requires EventQuery(db, RunSet(History(db, source, selected + 1)), complexId, rows)
    ensures var ids := RunSet(History(db, source, selected + 1));
      multiset(EventsOf(rows, ids, g)) == multiset(EventsOf(db.events, ids, g))
  {
    hide TablesOk, History, RunSet, EventsOf, Sorted;
    var ids := RunSet(History(db, source, selected + 1));
    var a, b := EventsOf(rows, ids, g), EventsOf(db.events, ids, g);
    forall e ensures multiset(a)[e] == multiset(b)[e] {
      SelectCount(rows, ids, g, e);
      SelectCount(db.events, ids, g, e);
      EventComplex(db, source, selected, complexId, e);
    }
  }

  lemma OrderedThrough(db: Db, source: SourceId, selected: RunId)
    requires ClocksOk(db) && selected < |db.runs|
    ensures Ordered(History(db, source, selected + 1))
  {
    HistoryPrefix(db, source, selected + 1, |db.runs|);
    hide History;
    var h, all := History(db, source, selected + 1), HistoryOf(db, source);
    assert Ordered(all);
    assert forall i :: 0 <= i < |h| ==> h[i] == all[..|h|][i];
  }

  /** The stored events of the runs through the selected one are the log of the history through it. */
  lemma LogThrough(db: Db, source: SourceId, selected: RunId, g: GroupId)
    requires TracksOk(db) && selected < |db.runs|
    ensures EventsOf(db.events, RunSet(History(db, source, selected + 1)), g)
      == After(History(db, source, selected + 1), g).events
  {
    assert EventsOf(db.events, RunsOf(db, source), g) == After(History(db, source, |db.runs|), g).events by {
      hide EventsOf, After, History, RunsOf, LastOf;
      assert Stored(db, source, g) == After(HistoryOf(db, source), g);
    }
    hide *;
    HistoryRuns(db, source, |db.runs|);
    HistoryRuns(db, source, selected + 1);
    HistoryPrefix(db, source, selected + 1, |db.runs|);
    PrefixEvents(History(db, source, |db.runs|), g, |History(db, source, selected + 1)|);
    SelectTwice(db.events, RunsOf(db, source), RunSet(History(db, source, selected + 1)), g);
  }

  /** Every stored event of the source's runs is about a group of its complex, so the complex filter drops none. */
  lemma EventComplex(db: Db, source: SourceId, selected: RunId, complexId: string, e: Event)
    requires TablesOk(db) && selected < |db.runs|
    requires source in db.sources && db.sources[source] == Some(complexId)
    ensures e.run in RunSet(History(db, source, selected + 1)) && multiset(db.events)[e] > 0 ==>
      e.group < |db.groups| && db.groups[e.group].complexId == complexId
  {
    if e.run in RunSet(History(db, source, selected + 1)) && e in multiset(db.events) {
      HistoryRuns(db, source, selected + 1);
      var i :| 0 <= i < |db.events| && db.events[i] == e;
      assert (source, e.group) in db.rows;
    }
  }

  /** The absence states computed for any past run are those of the history through it: missing or removed
      exactly when the visibility row was, with the times it had. The final removal of the shown groups is redundant. */
  lemma AbsenceAsOfRun(db: Db, source: SourceId, selected: RunId, complexId: string, rows: seq<Event>, g: GroupId)
    requires Inv(db) && selected < |db.runs|
    requires source in db.sources && db.sources[source] == Some(complexId)
    requires db.runs[selected].source == source && IsResult(db.runs[selected].status)
    requires EventQuery(db, RunSet(History(db, source, selected + 1)), complexId, rows)
    ensures var h := History(db, source, selected + 1);
      var replayed := ReplayAbsence(EventsOf(rows, RunSet(h), g));
      && replayed == AbsenceOfRow(After(h, g).row)
      && (g in Shown(db, selected, |db.snapshots|) ==> replayed == None)
  {
    QueryOfGroup(db, source, selected, complexId, rows, g);
    hide EventsOf, EventQuery, Inv;
    var h := History(db, source, selected + 1);
    ReplayGivesRow(h, g);
    assert h[|h| - 1] == ObservationOf(db, selected);
    hide History, ReplayAbsence, PresenceEvent, AbsenceEvent, Shown, After;
    if g in Shown(db, selected, |db.snapshots|) {
      ShownIsActive(h, g);
    }
  }

  lemma ShownIsActive(h: seq<Observation>, g: GroupId)
    requires h != [] && g in h[|h| - 1].shown
    ensures After(h, g).row.Some? && After(h, g).row.value.visibility == Active
  {
    assert After(h, g) == AfterRun(After(h[..|h| - 1], g), h[|h| - 1], g);
    hide After, PresenceEvent, AbsenceEvent;
  }
}
