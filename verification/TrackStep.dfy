/** One successful transaction seen from one group: row, last snapshot and events move by one `AfterRun`. */
module TrackStep {
  import opened Support
  import opened Tables
  import opened ListingTrack
  import opened Persistence
  import opened PersistenceShape
  import opened SourceHistory
  import opened PersistenceRefines
  import opened HistoryStep
  import opened EventLog

  /* ------------------------- the last completed snapshot ------------------------- */

  /** A run that is not completed never hides a snapshot, so naming it as current changes nothing. */
  lemma {:induction false} CurrentIrrelevant(db: Db, source: SourceId, g: GroupId, run: RunId, run': RunId, n: nat)
    requires n <= |db.snapshots|
    requires run >= |db.runs| || db.runs[run].status != Completed
    requires run' >= |db.runs| || db.runs[run'].status != Completed
    ensures LatestComplete(db, source, g, run, n) == LatestComplete(db, source, g, run', n)
  {
    if n > 0 {
      CurrentIrrelevant(db, source, g, run, run', n - 1);
    }
  }

  lemma LastCurrent(db: Db, source: SourceId, g: GroupId, run: RunId)
    requires run < |db.runs| && db.runs[run].status != Completed
    ensures LastOf(db, source, g, run) == LastOf(db, source, g, |db.runs|)
  {
    CurrentIrrelevant(db, source, g, run, |db.runs|, |db.snapshots|);
  }

  lemma {:induction false} LatestMember(db: Db, source: SourceId, g: GroupId, current: RunId, n: nat) returns (i: nat)
    requires n <= |db.snapshots| && LatestComplete(db, source, g, current, n).Some?
    ensures i < n && db.snapshots[i] == LatestComplete(db, source, g, current, n).value
    ensures CompleteFor(db, source, g, current, db.snapshots[i])
  {
    if CompleteFor(db, source, g, current, db.snapshots[n - 1])
       && LatestComplete(db, source, g, current, n) == Some(db.snapshots[n - 1]) {
      i := n - 1;
    } else {
      i := LatestMember(db, source, g, current, n - 1);
    }
  }

  lemma {:induction false} InHistory(db: Db, source: SourceId, run: RunId, n: nat) returns (i: nat)
    requires run < n <= |db.runs| && db.runs[run].source == source && IsResult(db.runs[run].status)
    ensures i < |History(db, source, n)| && History(db, source, n)[i] == ObservationOf(db, run)
  {
    hide ObservationOf;
    if run == n - 1 {
      i := |History(db, source, n - 1)|;
    } else {
      i := InHistory(db, source, run, n - 1);
    }
  }

  /** The last completed snapshot of a source is older than any later payload. */
  lemma LatestIsOlder(db: Db, source: SourceId, g: GroupId, n: nat, at: Time)
    requires n <= |db.snapshots| && SnapshotsOk(db) && CapturedAfter(db, source, at)
    ensures var s := LatestComplete(db, source, g, |db.runs|, n); s.Some? ==> s.value.at < at
  {
    if LatestComplete(db, source, g, |db.runs|, n).Some? {
      var i := LatestMember(db, source, g, |db.runs|, n);
      assert SnapshotOk(db, db.snapshots[i]);
      var k := InHistory(db, source, db.snapshots[i].run, |db.runs|);
      assert HistoryOf(db, source)[k].at < at;
    }
  }

  lemma {:induction false} LatestOld(j: Job, gs: seq<GroupId>, db: Db, source: SourceId, g: GroupId, n: nat)
    requires SnapshotsView(j, gs, db) && RunsView(j, db) && n <= |j.pre.snapshots|
    ensures LatestComplete(db, source, g, |db.runs|, n) == LatestComplete(j.pre, source, g, |j.pre.runs|, n)
  {
    hide Load, NewSnapshot;
    if n > 0 {
      LatestOld(j, gs, db, source, g, n - 1);
      assert OldSnapshot(j, db, n - 1);
    }
  }

  /** After the first `k` new snapshots: the group's own if its listing is among them and the run is completed. */
  lemma {:induction false} LatestNew(j: Job, gs: seq<GroupId>, db: Db, source: SourceId, g: GroupId, k: nat)
    requires SnapshotsView(j, gs, db) && RunsView(j, db) && Distinct(gs) && k <= |gs|
    requires SnapshotsOk(j.pre) && CapturedAfter(j.pre, j.source, j.p.at)
    ensures var latest := LatestComplete(db, source, g, |db.runs|, |j.pre.snapshots| + k);
      if source == j.source && j.p.completed && g in gs[..k]
      then exists i :: 0 <= i < k && gs[i] == g && latest == Some(db.snapshots[|j.pre.snapshots| + i])
      else latest == LatestComplete(j.pre, source, g, |j.pre.runs|, |j.pre.snapshots|)
  {
    hide Load, Incoming, OldSnapshot;
    if k == 0 {
      LatestOld(j, gs, db, source, g, |j.pre.snapshots|);
    } else {
      LatestNew(j, gs, db, source, g, k - 1);
      assert NewSnapshot(j, gs, db, k - 1);
      assert gs[..k] == gs[..k - 1] + [gs[k - 1]];
      if source == j.source {
        LatestIsOlder(j.pre, source, g, |j.pre.snapshots|, j.p.at);
      }
    }
  }

  /** A completed run's own snapshot becomes the last one. */
  lemma LastIsNew(j: Job, gs: seq<GroupId>, db: Db, g: GroupId, i: nat)
    requires SnapshotsView(j, gs, db) && RunsView(j, db) && Distinct(gs) && i < |gs| && gs[i] == g
    requires LatestComplete(db, j.source, g, |db.runs|, |db.snapshots|) == Some(db.snapshots[|j.pre.snapshots| + i])
    ensures g in ShownBy(j, gs) && LastOf(db, j.source, g, |db.runs|) == Some(Last(ShownBy(j, gs)[g], j.Details()))
  {
    hide Load, Incoming, ShownBy, LatestComplete;
    assert NewSnapshot(j, gs, db, i);
    ShownByAt(j, gs, i);
  }

  /** A snapshot that stays the last one loads as before. */
  lemma LastIsOld(j: Job, gs: seq<GroupId>, db: Db, source: SourceId, g: GroupId)
    requires SnapshotsView(j, gs, db) && RunsView(j, db)
    requires LatestComplete(db, source, g, |db.runs|, |db.snapshots|)
          == LatestComplete(j.pre, source, g, |j.pre.runs|, |j.pre.snapshots|)
    ensures LastOf(db, source, g, |db.runs|) == LastOf(j.pre, source, g, |j.pre.runs|)
  {
    hide Load, Incoming, LatestComplete;
    if LatestComplete(j.pre, source, g, |j.pre.runs|, |j.pre.snapshots|).Some? {
      var i := LatestMember(j.pre, source, g, |j.pre.runs|, |j.pre.snapshots|);
      assert OldSnapshot(j, db, i);
    }
  }

  lemma LastMoves(j: Job, gs: seq<GroupId>, db: Db, source: SourceId, g: GroupId)
    requires SnapshotsView(j, gs, db) && RunsView(j, db) && Distinct(gs)
    requires SnapshotsOk(j.pre) && CapturedAfter(j.pre, j.source, j.p.at)
    ensures ShownBy(j, gs).Keys == SetOf(gs)
    ensures LastOf(db, source, g, |db.runs|) ==
      if source == j.source && j.p.completed && g in ShownBy(j, gs)
      then Some(Last(ShownBy(j, gs)[g], j.Details())) else LastOf(j.pre, source, g, |j.pre.runs|)
  {
    assert |gs| <= |j.p.listings| && |db.snapshots| == |j.pre.snapshots| + |gs|;
    ShownByKeys(j, gs);
    LatestNew(j, gs, db, source, g, |gs|);
    assert gs[..|gs|] == gs;
    hide SnapshotsView, RunsView, SnapshotsOk, CapturedAfter, ShownBy, LatestComplete, LastOf;
    if source == j.source && j.p.completed && g in gs {
      var i :| 0 <= i < |gs| && gs[i] == g
               && LatestComplete(db, source, g, |db.runs|, |db.snapshots|) == Some(db.snapshots[|j.pre.snapshots| + i]);
      LastIsNew(j, gs, db, g, i);
    } else {
      LastIsOld(j, gs, db, source, g);
    }
  }

  /* ------------------------- events ------------------------- */

  /** The last listing's event joins the log of its group only. */
  lemma LastListingEvent(j: Job, gs: seq<GroupId>, runs: set<RunId>, g: GroupId)
    requires j.run < |j.pre.runs| && 0 < |gs| <= |j.p.listings|
    ensures var n := |gs| - 1;
      EventsOf(EventsFor(j, gs), runs, g) == EventsOf(EventsFor(j, gs[..n]), runs, g)
        + (if j.run in runs && gs[n] == g then ToSeq(EventFor(j, j.p.listings[n], gs[n])) else [])
  {
    hide EventFor;
    var n := |gs| - 1;
    var e := EventFor(j, j.p.listings[n], gs[n]);
    assert EventsFor(j, gs) == EventsFor(j, gs[..n]) + ToSeq(e);
    EventForFields(j, j.p.listings[n], gs[n]);
    hide EventsFor, EventsOf;
    EventsOfConcat(EventsFor(j, gs[..n]), ToSeq(e), runs, g);
    EventsOfOption(e, runs, g);
  }

  lemma {:induction false} ListingEventsOf(j: Job, gs: seq<GroupId>, runs: set<RunId>, g: GroupId)
    requires j.run < |j.pre.runs| && |gs| <= |j.p.listings| && Distinct(gs)
    ensures j.run !in runs || g !in gs ==> EventsOf(EventsFor(j, gs), runs, g) == []
    ensures j.run in runs ==> forall i :: 0 <= i < |gs| && gs[i] == g ==>
      EventsOf(EventsFor(j, gs), runs, g) == ToSeq(EventFor(j, j.p.listings[i], g))
  {
    if gs == [] {
      hide EventFor;
    } else {
      var n := |gs| - 1;
      assert gs == gs[..n] + [gs[n]];
      assert forall i :: 0 <= i < n ==> gs[..n][i] == gs[i] && gs[i] != gs[n];
      ListingEventsOf(j, gs[..n], runs, g);
      hide *;
      LastListingEvent(j, gs, runs, g);
    }
  }

  /** The absence event of one group, if it has one. */
  function AbsenceOf(j: Job, matched: set<GroupId>, g: GroupId): seq<Event>
  {
    if IsAbsent(j.pre, j.source, j.p.complexId, matched, g)
    then ToSeq(AbsenceEvent(j.pre.rows[(j.source, g)], j.p.completed, j.run, g, j.p.at)) else []
  }

  lemma AbsenceOfSelected(j: Job, matched: set<GroupId>, runs: set<RunId>, g: GroupId, x: GroupId)
    ensures EventsOf(AbsenceOf(j, matched, x), runs, g)
      == if j.run in runs && x == g then AbsenceOf(j, matched, x) else []
  {
    if IsAbsent(j.pre, j.source, j.p.complexId, matched, x) {
      var e := AbsenceEvent(j.pre.rows[(j.source, x)], j.p.completed, j.run, x, j.p.at);
      assert e.Some? ==> e.value.run == j.run && e.value.group == x;
      hide AbsenceEvent, IsAbsent;
      EventsOfOption(e, runs, g);
    }
  }

  lemma AbsencesSnoc(j: Job, matched: set<GroupId>, n: nat)
    ensures AbsenceEvents(j.pre, j.source, matched, j.run, j.p, n + 1)
         == AbsenceEvents(j.pre, j.source, matched, j.run, j.p, n) + AbsenceOf(j, matched, n)
  {
    hide IsAbsent, AbsenceEvent;
  }

  lemma NoAbsences(j: Job, matched: set<GroupId>, runs: set<RunId>, g: GroupId)
    ensures EventsOf(AbsenceEvents(j.pre, j.source, matched, j.run, j.p, 0), runs, g) == []
  {
  }

  lemma {:induction false} AbsenceEventsOf(j: Job, matched: set<GroupId>, runs: set<RunId>, g: GroupId, n: nat)
    ensures EventsOf(AbsenceEvents(j.pre, j.source, matched, j.run, j.p, n), runs, g) ==
      if j.run in runs && g < n then AbsenceOf(j, matched, g) else []
  {
    hide *;
    if n == 0 {
      NoAbsences(j, matched, runs, g);
    } else {
      AbsenceEventsOf(j, matched, runs, g, n - 1);
      AbsencesSnoc(j, matched, n - 1);
      EventsOfConcat(AbsenceEvents(j.pre, j.source, matched, j.run, j.p, n - 1), AbsenceOf(j, matched, n - 1), runs, g);
      AbsenceOfSelected(j, matched, runs, g, n - 1);
    }
  }

  /** The event a transaction adds to the log of a group of its own source. */
  function AddedEvent(j: Job, gs: seq<GroupId>, g: GroupId): Option<Event>
    requires j.run < |j.pre.runs| && |gs| <= |j.p.listings|
  {
    StepEvent(Stored(j.pre, j.source, g), NewObservation(j, gs), g)
  }

  /** For a shown group the added event is the event of its listing. */
  lemma AddedWhenShown(j: Job, gs: seq<GroupId>, i: nat)
    requires j.run < |j.pre.runs| && j.pre.runs[j.run].status != Completed
    requires i < |gs| <= |j.p.listings| && Distinct(gs)
    ensures AddedEvent(j, gs, gs[i]) == EventFor(j, j.p.listings[i], gs[i])
  {
    ShownByAt(j, gs, i);
    LastCurrent(j.pre, j.source, gs[i], j.run);
    hide Distinct, ShownBy, LastOf, PresenceEvent, EventsOf, Incoming;
  }

  /** For a group not shown it is the absence event of its row, if it has one. */
  lemma AddedWhenNotShown(j: Job, gs: seq<GroupId>, g: GroupId)
    requires j.run < |j.pre.runs| && |gs| <= |j.p.listings| && g !in gs
    ensures AddedEvent(j, gs, g) ==
      if (j.source, g) in j.pre.rows then AbsenceEvent(j.pre.rows[(j.source, g)], j.p.completed, j.run, g, j.p.at)
      else None
  {
    ShownByKeys(j, gs);
    hide ShownBy, LastOf, PresenceEvent, EventsOf, AbsenceEvent;
  }

  lemma AbsentInTable(j: Job, gs: seq<GroupId>, g: GroupId)
    requires Started(j) && TablesOk(j.pre)
    ensures g < |j.pre.groups| && IsAbsent(j.pre, j.source, j.p.complexId, SetOf(gs), g) <==>
            (j.source, g) in j.pre.rows && g !in gs
  {
    AbsentWhenUnmatched(j, SetOf(gs), g);
  }

  lemma StartedStatus(j: Job)
    requires Started(j)
    ensures j.run < |j.pre.runs| && j.pre.runs[j.run].status != Completed
  {
  }

  /** The new events of a group under its source are the one event of its step. */
  lemma AddedEvents(j: Job, gs: seq<GroupId>, g: GroupId, runs: set<RunId>)
    requires Started(j) && TablesOk(j.pre) && |gs| == |j.p.listings| && Distinct(gs) && j.run in runs
    ensures EventsOf(EventsFor(j, gs), runs, g) +
            EventsOf(AbsenceEvents(j.pre, j.source, SetOf(gs), j.run, j.p, |j.pre.groups|), runs, g)
         == ToSeq(AddedEvent(j, gs, g))
  {
    StartedStatus(j);
    assert ToSeq<Event>(None) == [];
    assert g in SetOf(gs) <==> g in gs;
    hide *;
    ListingEventsOf(j, gs, runs, g);
    AbsenceEventsOf(j, SetOf(gs), runs, g, |j.pre.groups|);
    AbsentInTable(j, gs, g);
    if g in gs {
      var i :| 0 <= i < |gs| && gs[i] == g;
      AddedWhenShown(j, gs, i);
    } else {
      AddedWhenNotShown(j, gs, g);
    }
  }

  lemma NoForeignEvents(j: Job, gs: seq<GroupId>, g: GroupId, runs: set<RunId>)
    requires j.run < |j.pre.runs| && |gs| <= |j.p.listings| && Distinct(gs) && j.run !in runs
    ensures EventsOf(EventsFor(j, gs), runs, g) == []
    ensures EventsOf(AbsenceEvents(j.pre, j.source, SetOf(gs), j.run, j.p, |j.pre.groups|), runs, g) == []
  {
    ListingEventsOf(j, gs, runs, g);
    AbsenceEventsOf(j, SetOf(gs), runs, g, |j.pre.groups|);
  }

  lemma EventsMove(j: Job, gs: seq<GroupId>, db: Db, source: SourceId, g: GroupId)
    requires Started(j) && TablesOk(j.pre) && |gs| == |j.p.listings| && Distinct(gs) && RunsView(j, db)
    requires db.events
      == j.pre.events + EventsFor(j, gs) + AbsenceEvents(j.pre, j.source, SetOf(gs), j.run, j.p, |j.pre.groups|)
    ensures EventsOf(db.events, RunsOf(db, source), g) ==
      EventsOf(j.pre.events, RunsOf(j.pre, source), g)
      + (if source == j.source then ToSeq(AddedEvent(j, gs, g)) else [])
  {
    var runs := RunsOf(j.pre, source);
    assert RunsOf(db, source) == RunsOf(j.pre, source);
    assert j.run in runs <==> source == j.source;
    StartedStatus(j);
    hide *;
    var listed, absent := EventsFor(j, gs), AbsenceEvents(j.pre, j.source, SetOf(gs), j.run, j.p, |j.pre.groups|);
    EventsOfThree(j.pre.events, listed, absent, runs, g);
    if source == j.source {
      AddedEvents(j, gs, g, runs);
    } else {
      NoForeignEvents(j, gs, g, runs);
    }
  }

  lemma EventsOfThree(a: seq<Event>, b: seq<Event>, c: seq<Event>, runs: set<RunId>, g: GroupId)
    ensures EventsOf(a + b + c, runs, g) == EventsOf(a, runs, g) + (EventsOf(b, runs, g) + EventsOf(c, runs, g))
  {
    hide *;
    EventsOfConcat(a + b, c, runs, g);
    EventsOfConcat(a, b, runs, g);
  }

  /* ------------------------- one step ------------------------- */

  /** The stored track of a group moves by exactly one step under the run's source and stays put elsewhere. */
  lemma StoredMoves(j: Job, gs: seq<GroupId>, db: Db, source: SourceId, g: GroupId)
    requires Landed(j, gs, db) && TablesOk(j.pre) && CapturedAfter(j.pre, j.source, j.p.at)
    ensures Stored(db, source, g) ==
      if source == j.source then AfterRun(Stored(j.pre, source, g), NewObservation(j, gs), g)
      else Stored(j.pre, source, g)
  {
    hide Landed, CapturedAfter, LastOf, EventsOf, SnapshotsView, RunsView, ShownBy, History;
    hide RunsOk, SnapshotsOk, SnapshotKeysOk, ArticlesOk, RowsOk, GroupsOk, EventsOk, LabelsOk;
    hide PresenceEvent, AbsenceEvent, PresentRow, AbsentRow, EventsFor, AbsenceEvents;
    LandedStarted(j, gs, db);
    MakeView(j, gs, db);
    StartedView(j, gs, db);
    LastMoves(j, gs, db, source, g);
    EventsMove(j, gs, db, source, g);
    RowMoves(j, gs, db, source, g);
    assert EventsOf(j.pre.events, RunsOf(j.pre, source), g) + [] == EventsOf(j.pre.events, RunsOf(j.pre, source), g);
  }

  lemma LandedStarted(j: Job, gs: seq<GroupId>, db: Db)
    requires Landed(j, gs, db)
    ensures Started(j) && |gs| == |j.p.listings| && Distinct(gs)
    ensures db.events
      == j.pre.events + EventsFor(j, gs) + AbsenceEvents(j.pre, j.source, SetOf(gs), j.run, j.p, |j.pre.groups|)
  {
    hide GroupsGrown, ArticlesGrown, RowsLanded, FinishRun, EventsFor, AbsenceEvents;
  }

  lemma ActiveOrTerminal(s: Status)
    ensures IsActive(s) <==> !IsTerminal(s)
  {
    match s
    case Queued => case Running => case Completed => case Partial => case Failed => case Blocked => case Cancelled =>
  }

  lemma StartedView(j: Job, gs: seq<GroupId>, db: Db)
    requires Landed(j, gs, db)
    ensures RunsView(j, db)
  {
    assert Started(j) && db.runs == j.pre.runs[j.run := FinishRun(j.pre.runs[j.run], j.p)];
    hide Landed, FinishRun;
    ActiveOrTerminal(j.pre.runs[j.run].status);
  }

  lemma RowMoves(j: Job, gs: seq<GroupId>, db: Db, source: SourceId, g: GroupId)
    requires Landed(j, gs, db)
    ensures Lookup(db.rows, (source, g)) ==
      if source != j.source then Lookup(j.pre.rows, (source, g))
      else if g in gs then Some(RowFor(j, g))
      else if (source, g) in j.pre.rows then Some(AbsentRow(j.pre.rows[(source, g)], j.p.completed, j.p.at)) else None
  {
    assert RowsLanded(j, gs, db);
    hide Landed, RowFor, AbsentRow;
  }
}
