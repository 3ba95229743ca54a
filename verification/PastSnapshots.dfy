/** What a past run's source had shown: the last snapshot of each group and the label of its run. */
module PastSnapshots {
  import opened Support
  import opened Comparator
  import opened Tables
  import opened ListingTrack
  import opened ReplayedFacts
  import opened Persistence
  import opened PersistenceShape
  import opened SourceHistory
  import opened EventLog
  import opened PersistKeeps
  import opened Query

  /** The history of a run's source up to and including the run. */
  function Through(db: Db, selected: RunId): seq<Observation>
    requires selected < |db.runs|
  {
    History(db, db.runs[selected].source, selected + 1)
  }

  /** The newest snapshot of a group within some runs. */
  function LatestWithin(snapshots: seq<Snapshot>, ids: set<RunId>, g: GroupId): Option<Snapshot>
  {
    if snapshots == [] then None
    else
      var rest, s := LatestWithin(snapshots[..|snapshots| - 1], ids, g), snapshots[|snapshots| - 1];
      if s.group == g && s.run in ids then Later(rest, s) else rest
  }

  lemma {:induction false} ShownMember(db: Db, run: RunId, n: nat, g: GroupId)
    requires n <= |db.snapshots|
    ensures g in Shown(db, run, n) <==>
      exists i :: 0 <= i < n && db.snapshots[i].run == run && db.snapshots[i].group == g
  {
    hide Load;
    if n > 0 {
      ShownMember(db, run, n - 1, g);
    }
  }

  lemma {:induction false} HistoryObservations(db: Db, source: SourceId, n: nat, i: nat)
    requires n <= |db.runs| && i < |History(db, source, n)|
    ensures var r := History(db, source, n)[i].run; r < n && History(db, source, n)[i] == ObservationOf(db, r)
    ensures IsResult(db.runs[History(db, source, n)[i].run].status)
  {
    hide Shown;
    if i < |History(db, source, n - 1)| {
      HistoryObservations(db, source, n - 1, i);
    }
  }

  lemma {:induction false} LatestWithinExists(snapshots: seq<Snapshot>, ids: set<RunId>, g: GroupId, i: nat)
    requires i < |snapshots| && snapshots[i].group == g && snapshots[i].run in ids
    ensures LatestWithin(snapshots, ids, g).Some?
  {
    if i < |snapshots| - 1 {
      LatestWithinExists(snapshots[..|snapshots| - 1], ids, g, i);
    }
  }

  /** A group with a row has a snapshot in one of the runs of the history. */
  lemma HasLastSnapshot(db: Db, selected: RunId, g: GroupId)
    requires TablesOk(db) && selected < |db.runs| && After(Through(db, selected), g).row.Some?
    ensures g < |db.groups| && LatestWithin(db.snapshots, RunSet(Through(db, selected)), g).Some?
  {
    var h := Through(db, selected);
    NeverShown(h, g);
    hide TablesOk, After, Shown, History;
    var i :| 0 <= i < |h| && g in h[i].shown;
    HistoryObservations(db, db.runs[selected].source, selected + 1, i);
    ShownMember(db, h[i].run, |db.snapshots|, g);
    var m :| 0 <= m < |db.snapshots| && db.snapshots[m].run == h[i].run && db.snapshots[m].group == g;
    assert h[i] in h;
    SnapshotGroup(db, m);
    LatestWithinExists(db.snapshots, RunSet(h), g, m);
  }

  lemma SnapshotGroup(db: Db, m: nat)
    requires TablesOk(db) && m < |db.snapshots|
    ensures db.snapshots[m].group < |db.groups|
  {
    assert SnapshotOk(db, db.snapshots[m]);
  }

  lemma ThroughEnds(db: Db, selected: RunId)
    requires selected < |db.runs| && IsResult(db.runs[selected].status)
    ensures var h := Through(db, selected);
      h != [] && h[|h| - 1] == ObservationOf(db, selected)
      && h[..|h| - 1] == History(db, db.runs[selected].source, selected)
  {
    hide ObservationOf;
  }

  /* ------------------------- the last snapshot ------------------------- */

  lemma {:induction false} LatestWithinMeaning(snapshots: seq<Snapshot>, ids: set<RunId>, g: GroupId)
    ensures var s := LatestWithin(snapshots, ids, g);
      && (s.Some? ==> s.value in snapshots && s.value.group == g && s.value.run in ids)
      && (forall i :: 0 <= i < |snapshots| && snapshots[i].group == g && snapshots[i].run in ids ==>
            s.Some? && s.value.at >= snapshots[i].at)
  {
    if snapshots != [] {
      var n := |snapshots| - 1;
      LatestWithinMeaning(snapshots[..n], ids, g);
      assert forall i :: 0 <= i < n ==> snapshots[..n][i] == snapshots[i];
    }
  }

  /** The snapshot a history's run stored of a group it shows. */
  lemma SnapshotOfRun(db: Db, selected: RunId, g: GroupId, j: nat) returns (m: nat)
    requires TablesOk(db) && selected < |db.runs| && j < |Through(db, selected)| && g in Through(db, selected)[j].shown
    ensures m < |db.snapshots| && db.snapshots[m].group == g
    ensures var o := Through(db, selected)[j]; db.snapshots[m].run == o.run && db.snapshots[m].at == o.at
  {
    HistoryObservations(db, db.runs[selected].source, selected + 1, j);
    var r := Through(db, selected)[j].run;
    ShownMember(db, r, |db.snapshots|, g);
    hide Shown, History;
    m :| 0 <= m < |db.snapshots| && db.snapshots[m].run == r && db.snapshots[m].group == g;
    assert SnapshotOk(db, db.snapshots[m]);
  }

  /** A snapshot of a run of the history belongs to one of its observations, which shows the group. */
  lemma RunOfSnapshot(db: Db, selected: RunId, m: nat) returns (k: nat)
    requires TablesOk(db) && selected < |db.runs| && m < |db.snapshots|
    requires db.snapshots[m].run in RunSet(Through(db, selected))
    ensures k < |Through(db, selected)| && db.snapshots[m].group in Through(db, selected)[k].shown
    ensures var o := Through(db, selected)[k]; db.snapshots[m].run == o.run && db.snapshots[m].at == o.at
  {
    var h := Through(db, selected);
    hide TablesOk, Shown, History;
    k :| 0 <= k < |h| && h[k].run == db.snapshots[m].run;
    HistoryObservations(db, db.runs[selected].source, selected + 1, k);
    ShownMember(db, h[k].run, |db.snapshots|, db.snapshots[m].group);
    SnapshotTime(db, m);
  }

  lemma SnapshotTime(db: Db, m: nat)
    requires TablesOk(db) && m < |db.snapshots|
    ensures db.snapshots[m].run < |db.runs| && db.runs[db.snapshots[m].run].finishedAt == Some(db.snapshots[m].at)
  {
    assert SnapshotOk(db, db.snapshots[m]);
  }

  /** The newest snapshot of a group within the runs through a run is that of the last run that shows the group. */
  lemma LatestWithinIsLast(db: Db, selected: RunId, g: GroupId, j: nat)
    requires Inv(db) && selected < |db.runs| && LastShownAt(Through(db, selected), g, j)
    ensures var s := LatestWithin(db.snapshots, RunSet(Through(db, selected)), g);
      s.Some? && s.value in db.snapshots && s.value.group == g && s.value.run == Through(db, selected)[j].run
  {
    hide Inv, TablesOk, TracksOk, ClocksOk, History, RunSet, LatestWithin;
    var h := Through(db, selected);
    InvParts(db);
    OrderedThrough(db, db.runs[selected].source, selected);
    LatestWithinMeaning(db.snapshots, RunSet(h), g);
    var m := SnapshotOfRun(db, selected, g, j);
    InRunSet(h, j);
    var s := LatestWithin(db.snapshots, RunSet(h), g).value;
    var n :| 0 <= n < |db.snapshots| && db.snapshots[n] == s;
    var k := RunOfSnapshot(db, selected, n);
    assert h[k].at >= h[j].at;
  }

  lemma InRunSet(h: seq<Observation>, j: nat)
    requires j < |h|
    ensures h[j].run in RunSet(h)
  {
    assert h[j] in h;
  }

  /* ------------------------- the label ------------------------- */

  /** Run `i` shows a group that was not away and reports a field of it. */
  ghost predicate Altered(h: seq<Observation>, g: GroupId, i: nat)
  {
    !Away(h, g, i) && exists f: Field :: Reports(h, g, i, f)
  }

  /** The kind of the event of a group that the last run shows. */
  lemma ShownKind(h: seq<Observation>, g: GroupId)
    requires h != [] && g in h[|h| - 1].shown
    ensures var n := |h| - 1;
      var k := KindOf(StepEvent(After(h[..n], g), h[n], g));
      && (k == Some(New) <==> !EverShown(h[..n], g))
      && (k == Some(Changed) <==> Altered(h, g, n))
      && (k.Some? ==> k.value in {New, Changed, Restored})
  {
    var n, p := |h| - 1, h[..|h| - 1];
    var t := After(p, g);
    NeverShown(p, g);
    AwayIsInactive(p, g);
    AwayPrefix(h, g, n);
    forall f: Field ensures Reports(h, g, n, f) <==> StepReports(t, h[n], g, f) {
      ReportsIsStep(h, g, f);
    }
    hide After, Away, Reports, EverShown, StepReports;
    StepKind(t, h[n], g);
  }

  lemma StepKind(t: Track, o: Observation, g: GroupId)
    requires g in o.shown
    ensures var k := KindOf(StepEvent(t, o, g));
      && (k == Some(New) <==> t.row.None?)
      && (k == Some(Changed) <==>
            t.row.Some? && t.row.value.visibility == Active && exists f: Field :: StepReports(t, o, g, f))
      && (k.Some? ==> k.value in {New, Changed, Restored})
  {
    if t.row.Some? && t.row.value.visibility == Active && t.last.Some? {
      var b, a, details := t.last.value.listing, o.shown[g], t.last.value.details && o.details;
      DiffFields(b, a, details);
      hide Diff, JsonField;
      if f: Field :| Compared(f, details) && JsonField(b, f) != JsonField(a, f) {
        assert StepReports(t, o, g, f);
      }
    }
    hide Diff, JsonField;
  }

  /** The kind the tables give a run's group is that of its step in the history. */
  lemma KindOfRun(db: Db, selected: RunId, g: GroupId)
    requires Inv(db) && selected < |db.runs| && IsResult(db.runs[selected].status)
    ensures var h := Through(db, selected);
      h != [] && KindIn(db.events, selected, g) == KindOf(StepEvent(After(h[..|h| - 1], g), h[|h| - 1], g))
  {
    var source, h := db.runs[selected].source, Through(db, selected);
    InvParts(db);
    ThroughEnds(db, selected);
    ThroughRuns(db, selected);
    hide *;
    LogThrough(db, source, selected, g);
    SelectTwice(db.events, RunSet(h), {selected}, g);
    OwnEvents(h, g, selected);
    KindSelected(db.events, selected, g);
    KindOfOption(StepEvent(After(h[..|h| - 1], g), h[|h| - 1], g));
  }

  lemma ThroughRuns(db: Db, selected: RunId)
    requires selected < |db.runs| && IsResult(db.runs[selected].status)
    ensures var h := Through(db, selected);
      && h == History(db, db.runs[selected].source, selected + 1) && h != [] && h[|h| - 1].run == selected
      && RunsRise(h) && {selected} <= RunSet(h)
  {
    ThroughEnds(db, selected);
    HistoryRuns(db, db.runs[selected].source, selected + 1);
    var h := Through(db, selected);
    hide History, Shown;
    assert h[|h| - 1] in h;
  }

  /** The last run's own event is that of its step. */
  lemma OwnEvents(h: seq<Observation>, g: GroupId, run: RunId)
    requires h != [] && h[|h| - 1].run == run && RunsRise(h)
    ensures EventsOf(After(h, g).events, {run}, g) == ToSeq(StepEvent(After(h[..|h| - 1], g), h[|h| - 1], g))
  {
    var n, p := |h| - 1, h[..|h| - 1];
    var t := After(p, g);
    var e := StepEvent(t, h[n], g);
    StepEventMeaning(t, h[n], g);
    assert After(h, g) == AfterRun(t, h[n], g);
    hide After, AfterRun, StepEvent, EventsOf;
    forall i | 0 <= i < |t.events| ensures t.events[i].run != run {
      var k := EventOrigin(p, g, i);
      assert h[k].run < h[n].run;
    }
    NoneSelected(t.events, run, g);
    EventsOfConcat(t.events, ToSeq(e), {run}, g);
    EventsOfOption(e, {run}, g);
    assert [] + ToSeq(e) == ToSeq(e);
  }
}
