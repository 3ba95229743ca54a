/** The transaction keeps the invariant of the tables. */
module PersistKeeps {
  import opened Support
  import opened Tables
  import opened ListingIdentity
  import opened ListingTrack
  import opened Persistence
  import opened PersistenceShape
  import opened SourceHistory
  import opened PersistenceRefines
  import opened HistoryStep
  import opened TrackStep

  lemma {:induction false} AfterSnoc(h: seq<Observation>, o: Observation, g: GroupId)
    ensures After(h + [o], g) == AfterRun(After(h, g), o, g)
  {
    assert (h + [o])[..|h|] == h && (h + [o])[|h|] == o;
  }

  /** The histories after the transaction. */
  lemma HistoriesMove(j: Job, gs: seq<GroupId>, db: Db, source: SourceId)
    requires Landed(j, gs, db) && TablesOk(j.pre)
    ensures HistoryOf(db, source) ==
      HistoryOf(j.pre, source) + (if source == j.source then [NewObservation(j, gs)] else [])
  {
    assert Started(j) && |db.runs| == |j.pre.runs|;
    MakeView(j, gs, db);
    StartedView(j, gs, db);
    HistoryGrows(j, gs, db, source, |j.pre.runs|);
  }

  lemma TracksKept(j: Job, gs: seq<GroupId>, db: Db)
    requires Landed(j, gs, db) && Inv(j.pre) && CapturedAfter(j.pre, j.source, j.p.at)
    ensures TracksOk(db)
  {
    forall s, g ensures Stored(db, s, g) == After(HistoryOf(db, s), g) {
      TrackKept(j, gs, db, s, g);
    }
  }

  lemma TrackKept(j: Job, gs: seq<GroupId>, db: Db, s: SourceId, g: GroupId)
    requires Landed(j, gs, db) && TablesOk(j.pre) && CapturedAfter(j.pre, j.source, j.p.at)
    requires Stored(j.pre, s, g) == After(HistoryOf(j.pre, s), g)
    ensures Stored(db, s, g) == After(HistoryOf(db, s), g)
  {
    assert Started(j);
    hide *;
    HistoriesMove(j, gs, db, s);
    StoredMoves(j, gs, db, s, g);
    if s == j.source {
      AfterSnoc(HistoryOf(j.pre, s), NewObservation(j, gs), g);
    } else {
      assert HistoryOf(j.pre, s) + [] == HistoryOf(j.pre, s);
    }
  }

  lemma ClocksKept(j: Job, gs: seq<GroupId>, db: Db)
    requires Landed(j, gs, db) && TablesOk(j.pre) && ClocksOk(j.pre) && CapturedAfter(j.pre, j.source, j.p.at)
    ensures ClocksOk(db)
  {
    assert Started(j);
    hide TablesOk, Landed, History, ShownBy;
    forall s ensures Ordered(HistoryOf(db, s)) {
      HistoriesMove(j, gs, db, s);
      assert Ordered(HistoryOf(j.pre, s));
    }
  }

  /* ------------------------- table by table ------------------------- */

  lemma RunsKept(j: Job, db: Db)
    requires RunsView(j, db) && RunsOk(j.pre) && j.source in j.pre.sources
    requires db.sources == j.pre.sources[j.source := Some(j.p.complexId)]
    ensures RunsOk(db)
  {
  }

  lemma SnapshotsKept(j: Job, gs: seq<GroupId>, db: Db)
    requires RunsView(j, db) && SnapshotsView(j, gs, db) && SnapshotsOk(j.pre) && GroupsGrown(j, db, gs)
    requires RowsLanded(j, gs, db)
    ensures SnapshotsOk(db)
  {
    hide Load, Incoming, RowFor, AbsentRow, MatchedTo;
    forall i | 0 <= i < |db.snapshots| ensures SnapshotOk(db, db.snapshots[i]) {
      if i < |j.pre.snapshots| {
        assert OldSnapshot(j, db, i);
        assert SnapshotOk(j.pre, j.pre.snapshots[i]);
      } else {
        assert NewSnapshot(j, gs, db, i - |j.pre.snapshots|);
      }
    }
  }

  lemma SnapshotKeysKept(j: Job, gs: seq<GroupId>, db: Db)
    requires SnapshotsView(j, gs, db) && SnapshotKeysOk(j.pre) && Distinct(gs)
    ensures SnapshotKeysOk(db)
  {
    hide Load, Incoming;
    var n := |j.pre.snapshots|;
    forall i, k | 0 <= i < k < |db.snapshots|
      ensures db.snapshots[i].run != db.snapshots[k].run || db.snapshots[i].group != db.snapshots[k].group
    {
      if i < n {
        assert OldSnapshot(j, db, i);
        if k < n {
          assert OldSnapshot(j, db, k);
        } else {
          assert NewSnapshot(j, gs, db, k - n);
        }
      } else {
        assert NewSnapshot(j, gs, db, i - n) && NewSnapshot(j, gs, db, k - n);
      }
    }
  }

  lemma ListedGroup(j: Job, gs: seq<GroupId>, db: Db, a: ArticleId)
    requires |gs| <= |j.p.listings| && GroupsGrown(j, db, gs) && ArticlesGrown(j, db, gs) && ListedIn(j, gs, a)
    ensures a in db.articles && db.articles[a] < |db.groups|
  {
    hide MatchedTo;
    var i :| 0 <= i < |gs| && a in j.p.listings[i].articles;
  }

  lemma ArticlesKept(j: Job, gs: seq<GroupId>, db: Db)
    requires |gs| <= |j.p.listings| && RunsView(j, db) && ArticlesOk(j.pre) && GroupsGrown(j, db, gs)
    requires ArticlesGrown(j, db, gs)
    ensures ArticlesOk(db)
  {
    hide MatchedTo, ListedIn;
    forall a | a in db.articles ensures db.articles[a] < |db.groups| {
      if a !in j.pre.articles {
        ListedGroup(j, gs, db, a);
      }
    }
    forall x | x in db.sightings ensures x.0 < |db.runs| && IsResult(db.runs[x.0].status) && x.1 in db.articles {
      if x !in j.pre.sightings {
        ListedGroup(j, gs, db, x.1);
      }
    }
  }

  lemma RowsKept(j: Job, gs: seq<GroupId>, db: Db)
    requires |gs| <= |j.p.listings| && Started(j) && RowsOk(j.pre) && GroupsGrown(j, db, gs) && RowsLanded(j, gs, db)
    requires db.sources == j.pre.sources[j.source := Some(j.p.complexId)]
    ensures RowsOk(db)
  {
    hide RowFor, AbsentRow, MatchedTo;
    forall k | k in db.rows
      ensures k.1 < |db.groups| && k.0 in db.sources && db.sources[k.0] == Some(db.groups[k.1].complexId)
    {
      assert (k.0, k.1) in db.rows;
      if (k.0, k.1) in j.pre.rows {
        assert db.groups[k.1] == db.groups[..|j.pre.groups|][k.1] == j.pre.groups[k.1];
      }
    }
  }

  lemma GroupsKept(j: Job, gs: seq<GroupId>, db: Db)
    requires |gs| <= |j.p.listings| && GroupsOk(j.pre) && GroupsGrown(j, db, gs) && SnapshotsView(j, gs, db)
    ensures GroupsOk(db)
  {
    hide MatchedTo, Load, Incoming;
    forall g | 0 <= g < |db.groups| ensures HasSnapshot(db, g) {
      if g < |j.pre.groups| {
        assert HasSnapshot(j.pre, g);
        var i :| 0 <= i < |j.pre.snapshots| && j.pre.snapshots[i].group == g;
        assert OldSnapshot(j, db, i);
      } else {
        assert g in gs;
        var i :| 0 <= i < |gs| && gs[i] == g;
        assert NewSnapshot(j, gs, db, i);
        assert db.snapshots[|j.pre.snapshots| + i].group == g;
      }
    }
  }

  lemma {:induction false} ListingEventMember(j: Job, gs: seq<GroupId>, i: nat)
    requires j.run < |j.pre.runs| && |gs| <= |j.p.listings| && i < |EventsFor(j, gs)|
    ensures var e := EventsFor(j, gs)[i];
      e.run == j.run && e.group in gs && e.kind in {Comparator.New, Comparator.Restored, Comparator.Changed}
  {
    var n := |gs| - 1;
    var rest := EventsFor(j, gs[..n]);
    EventForFields(j, j.p.listings[n], gs[n]);
    hide EventFor;
    if i < |rest| {
      ListingEventMember(j, gs[..n], i);
      assert EventsFor(j, gs)[i] == rest[i];
    } else {
      assert gs[n] in gs;
    }
  }

  lemma {:induction false} AbsenceEventMember(j: Job, matched: set<GroupId>, n: nat, i: nat)
    requires i < |AbsenceEvents(j.pre, j.source, matched, j.run, j.p, n)|
    ensures var e := AbsenceEvents(j.pre, j.source, matched, j.run, j.p, n)[i];
      e.run == j.run && (j.source, e.group) in j.pre.rows
  {
    var rest := AbsenceEvents(j.pre, j.source, matched, j.run, j.p, n - 1);
    hide IsAbsent;
    if i < |rest| {
      AbsenceEventMember(j, matched, n - 1, i);
      assert AbsenceEvents(j.pre, j.source, matched, j.run, j.p, n)[i] == rest[i];
    } else {
      HasRow(j.pre, j.source, j.p.complexId, matched, n - 1);
    }
  }

  lemma EventsKept(j: Job, gs: seq<GroupId>, db: Db)
    requires Started(j) && |gs| <= |j.p.listings| && RunsView(j, db) && EventsOk(j.pre) && RowsLanded(j, gs, db)
    requires db.events
      == j.pre.events + EventsFor(j, gs) + AbsenceEvents(j.pre, j.source, SetOf(gs), j.run, j.p, |j.pre.groups|)
    ensures EventsOk(db)
  {
    hide RowFor, AbsentRow, EventsFor, AbsenceEvents;
    var a, b := EventsFor(j, gs), AbsenceEvents(j.pre, j.source, SetOf(gs), j.run, j.p, |j.pre.groups|);
    forall i | 0 <= i < |db.events|
      ensures db.events[i].run < |db.runs| && IsResult(db.runs[db.events[i].run].status)
              && (db.runs[db.events[i].run].source, db.events[i].group) in db.rows
    {
      if i < |j.pre.events| {
        assert db.events[i] == j.pre.events[i];
      } else if i < |j.pre.events| + |a| {
        assert db.events[i] == a[i - |j.pre.events|];
        ListingEventMember(j, gs, i - |j.pre.events|);
      } else {
        assert db.events[i] == b[i - |j.pre.events| - |a|];
        AbsenceEventMember(j, SetOf(gs), |j.pre.groups|, i - |j.pre.events| - |a|);
      }
    }
  }

  /** The kind of an event is that of the run's only selected one. */
  lemma {:induction false} KindSelected(events: seq<Event>, run: RunId, g: GroupId)
    ensures var own := EventsOf(events, {run}, g);
      KindIn(events, run, g) == if own == [] then None else Some(own[|own| - 1].kind)
  {
    if events != [] {
      KindSelected(events[..|events| - 1], run, g);
    }
  }

  lemma {:induction false} NoneSelected(events: seq<Event>, run: RunId, g: GroupId)
    requires forall i :: 0 <= i < |events| ==> events[i].run != run
    ensures EventsOf(events, {run}, g) == []
  {
    if events != [] {
      NoneSelected(events[..|events| - 1], run, g);
    }
  }

  /** The events of another run about a group stay. */
  lemma OtherKind(j: Job, gs: seq<GroupId>, db: Db, run: RunId, g: GroupId)
    requires j.run < |j.pre.runs| && |gs| <= |j.p.listings| && Distinct(gs) && run != j.run
    requires db.events
      == j.pre.events + EventsFor(j, gs) + AbsenceEvents(j.pre, j.source, SetOf(gs), j.run, j.p, |j.pre.groups|)
    ensures KindIn(db.events, run, g) == KindIn(j.pre.events, run, g)
  {
    hide *;
    var runs := {run};
    var listed, absent := EventsFor(j, gs), AbsenceEvents(j.pre, j.source, SetOf(gs), j.run, j.p, |j.pre.groups|);
    NoForeignEvents(j, gs, g, runs);
    EventsOfThree(j.pre.events, listed, absent, runs, g);
    SameKind(db.events, j.pre.events, run, g);
  }

  lemma SameKind(a: seq<Event>, b: seq<Event>, run: RunId, g: GroupId)
    requires EventsOf(a, {run}, g) == EventsOf(b, {run}, g) + ([] + [])
    ensures KindIn(a, run, g) == KindIn(b, run, g)
  {
    hide *;
    KindSelected(a, run, g);
    KindSelected(b, run, g);
    assert EventsOf(b, {run}, g) + ([] + []) == EventsOf(b, {run}, g);
  }

  /** Those of the new run are the one it adds. */
  lemma OwnKind(j: Job, gs: seq<GroupId>, db: Db, g: GroupId)
    requires Started(j) && TablesOk(j.pre) && |gs| == |j.p.listings| && Distinct(gs)
    requires db.events
      == j.pre.events + EventsFor(j, gs) + AbsenceEvents(j.pre, j.source, SetOf(gs), j.run, j.p, |j.pre.groups|)
    ensures KindIn(db.events, j.run, g) == KindOf(AddedEvent(j, gs, g))
  {
    hide *;
    var runs := {j.run};
    StartedStatus(j);
    var listed, absent := EventsFor(j, gs), AbsenceEvents(j.pre, j.source, SetOf(gs), j.run, j.p, |j.pre.groups|);
    OwnEventsNew(j);
    NoneSelected(j.pre.events, j.run, g);
    AddedEvents(j, gs, g, runs);
    EventsOfThree(j.pre.events, listed, absent, runs, g);
    KindSelected(db.events, j.run, g);
    KindOfOption(AddedEvent(j, gs, g));
    assert [] + ToSeq(AddedEvent(j, gs, g)) == ToSeq(AddedEvent(j, gs, g));
  }

  lemma KindOfOption(e: Option<Event>)
    ensures KindOf(e) == if ToSeq(e) == [] then None else Some(ToSeq(e)[|ToSeq(e)| - 1].kind)
  {
  }

  lemma OwnEventsNew(j: Job)
    requires Started(j) && TablesOk(j.pre)
    ensures forall i :: 0 <= i < |j.pre.events| ==> j.pre.events[i].run != j.run
    ensures forall i :: 0 <= i < |j.pre.snapshots| ==> j.pre.snapshots[i].run != j.run
  {
    forall i | 0 <= i < |j.pre.snapshots| ensures j.pre.snapshots[i].run != j.run {
      assert SnapshotOk(j.pre, j.pre.snapshots[i]);
    }
  }

  /** A snapshot of an earlier run keeps its label. */
  lemma OldLabel(j: Job, gs: seq<GroupId>, db: Db, i: nat)
    requires j.run < |j.pre.runs| && |gs| <= |j.p.listings| && Distinct(gs)
    requires LabelsOk(j.pre) && i < |j.pre.snapshots| && j.pre.snapshots[i].run != j.run
    requires db.events
      == j.pre.events + EventsFor(j, gs) + AbsenceEvents(j.pre, j.source, SetOf(gs), j.run, j.p, |j.pre.groups|)
    ensures var s := j.pre.snapshots[i];
      s.event == KindIn(db.events, s.run, s.group)
  {
    hide *;
    OtherKind(j, gs, db, j.pre.snapshots[i].run, j.pre.snapshots[i].group);
    LabelOf(j.pre, i);
  }

  lemma LabelOf(db: Db, i: nat)
    requires LabelsOk(db) && i < |db.snapshots|
    ensures db.snapshots[i].event == KindIn(db.events, db.snapshots[i].run, db.snapshots[i].group)
  {
  }

  lemma LabelsKept(j: Job, gs: seq<GroupId>, db: Db)
    requires Landed(j, gs, db) && TablesOk(j.pre)
    ensures LabelsOk(db)
  {
    LandedStarted(j, gs, db);
    LandedAs(j, gs, db);
    StartedStatus(j);
    OwnEventsNew(j);
    assert LabelsOk(j.pre);
    hide *;
    forall i | 0 <= i < |db.snapshots|
      ensures db.snapshots[i].event == KindIn(db.events, db.snapshots[i].run, db.snapshots[i].group)
    {
      if i < |j.pre.snapshots| {
        OldLabel(j, gs, db, i);
      } else {
        NewLabel(j, gs, db, i - |j.pre.snapshots|);
        OwnKind(j, gs, db, db.snapshots[i].group);
      }
    }
    AllLabels(db);
  }

  lemma AllLabels(db: Db)
    requires forall i :: 0 <= i < |db.snapshots| ==>
      db.snapshots[i].event == KindIn(db.events, db.snapshots[i].run, db.snapshots[i].group)
    ensures LabelsOk(db)
  {
  }

  lemma NewLabel(j: Job, gs: seq<GroupId>, db: Db, i: nat)
    requires j.run < |j.pre.runs| && j.pre.runs[j.run].status != Completed && i < |gs| == |j.p.listings| && Distinct(gs)
    requires db.snapshots == j.pre.snapshots + SnapshotsFor(j, gs)
    ensures var s := db.snapshots[|j.pre.snapshots| + i];
      s.run == j.run && s.group == gs[i] && s.event == KindOf(AddedEvent(j, gs, gs[i]))
  {
    AddedWhenShown(j, gs, i);
    hide EventFor, AddedEvent, KindOf, Distinct;
  }

  lemma TablesKept(j: Job, gs: seq<GroupId>, db: Db)
    requires Landed(j, gs, db) && TablesOk(j.pre)
    ensures TablesOk(db)
  {
    MakeView(j, gs, db);
    StartedView(j, gs, db);
    assert Distinct(gs);
    hide RunsOk, SnapshotsOk, SnapshotKeysOk, ArticlesOk, RowsOk, GroupsOk, EventsOk, LabelsOk;
    hide RunsView, SnapshotsView, GroupsGrown, ArticlesGrown, RowsLanded;
    RunsKept(j, db);
    SnapshotsKept(j, gs, db);
    SnapshotKeysKept(j, gs, db);
    ArticlesKept(j, gs, db);
    RowsKept(j, gs, db);
    GroupsKept(j, gs, db);
    EventsKept(j, gs, db);
    LabelsKept(j, gs, db);
  }

  /** A successful transaction keeps the invariant, appends its observation to its source's history
      and leaves the history of every other source alone. */
  lemma PersistKeepsInv(digest: Digest, db: Db, run: RunId, p: Payload) returns (j: Job, gs: seq<GroupId>)
    requires Inv(db)
    requires run < |db.runs| && !IsTerminal(db.runs[run].status) && Persisted(digest, db, run, p).Ok?
    requires CapturedAfter(db, db.runs[run].source, p.at)
    ensures j == Job(digest, db, db.runs[run].source, run, p)
    ensures Landed(j, gs, Persisted(digest, db, run, p).value)
    ensures Inv(Persisted(digest, db, run, p).value)
    ensures forall s :: HistoryOf(Persisted(digest, db, run, p).value, s)
                     == HistoryOf(db, s) + (if s == db.runs[run].source then [NewObservation(j, gs)] else [])
  {
    hide Persisted, TablesOk, TracksOk, ClocksOk, CapturedAfter, Landed, HistoryOf, NewObservation;
    j, gs := Land(digest, db, run, p);
    LandedAs(j, gs, Persisted(digest, db, run, p).value);
    var db' := Persisted(digest, db, run, p).value;
    TablesKept(j, gs, db');
    TracksKept(j, gs, db');
    ClocksKept(j, gs, db');
    forall s ensures HistoryOf(db', s) == HistoryOf(db, s) + (if s == j.source then [NewObservation(j, gs)] else []) {
      HistoriesMove(j, gs, db', s);
    }
  }
}
