/** One successful transaction seen from the history of each source. */
module HistoryStep {
  import opened Support
  import opened Comparator
  import opened Tables
  import opened ListingTrack
  import opened Persistence
  import opened PersistenceShape
  import opened SourceHistory
  import opened PersistenceRefines

  /* ------------------------- loading snapshots ------------------------- */

  /** Snapshots of earlier runs load as before. */
  lemma LoadOld(j: Job, gs: seq<GroupId>, db: Db, s: Snapshot)
    requires |gs| <= |j.p.listings| && ArticlesGrown(j, db, gs) && ArticlesOk(j.pre) && s.run != j.run
    ensures Load(db, s) == Load(j.pre, s)
  {
    hide ListedIn;
    assert RunArticles(db, s.run, s.group) == RunArticles(j.pre, s.run, s.group);
  }

  lemma NewRunArticles(j: Job, gs: seq<GroupId>, db: Db, i: nat)
    requires i < |gs| <= |j.p.listings| && Distinct(gs) && ArticlesGrown(j, db, gs)
    requires forall a :: (j.run, a) !in j.pre.sightings
    ensures RunArticles(db, j.run, gs[i]) == ArticleSet(j.p.listings[i])
  {
    var l := j.p.listings[i];
    forall a | (j.run, a) in db.sightings && a in db.articles && db.articles[a] == gs[i] ensures a in l.articles {
      assert ListedIn(j, gs, a);
      var i' :| 0 <= i' < |gs| && a in j.p.listings[i'].articles;
      assert db.articles[a] == gs[i'];
    }
  }

  /** A snapshot of this run loads as the comparable it was stored from: store, then load, is the identity. */
  lemma LoadNew(j: Job, gs: seq<GroupId>, db: Db, i: nat)
    requires j.run < |j.pre.runs| && !IsResult(j.pre.runs[j.run].status) && ArticlesOk(j.pre)
    requires i < |gs| <= |j.p.listings| && Distinct(gs) && ArticlesGrown(j, db, gs)
    ensures Load(db, SnapshotFor(j, i, gs[i])) == Incoming(j.p.listings[i])
  {
    assert forall a :: (j.run, a) !in j.pre.sightings;
    NewRunArticles(j, gs, db, i);
    hide ArticlesGrown, ArticlesOk, EventFor, RunArticles, Distinct;
  }

  /** The snapshots after the transaction: the old ones unchanged, then one per listing. */
  ghost predicate SnapshotsView(j: Job, gs: seq<GroupId>, db: Db)
  {
    && |gs| <= |j.p.listings|
    && |db.snapshots| == |j.pre.snapshots| + |gs|
    && (forall i :: 0 <= i < |j.pre.snapshots| ==> OldSnapshot(j, db, i))
    && (forall i :: 0 <= i < |gs| ==> NewSnapshot(j, gs, db, i))
  }

  ghost predicate OldSnapshot(j: Job, db: Db, i: nat)
    requires i < |j.pre.snapshots| <= |db.snapshots|
  {
    && db.snapshots[i] == j.pre.snapshots[i] && j.pre.snapshots[i].run != j.run
    && Load(db, db.snapshots[i]) == Load(j.pre, j.pre.snapshots[i])
  }

  ghost predicate NewSnapshot(j: Job, gs: seq<GroupId>, db: Db, i: nat)
    requires i < |gs| <= |j.p.listings| && |db.snapshots| == |j.pre.snapshots| + |gs|
  {
    var s := db.snapshots[|j.pre.snapshots| + i];
    && s.run == j.run && s.group == gs[i] && s.at == j.p.at && Load(db, s) == Incoming(j.p.listings[i])
    && (s.event.Some? ==> s.event.value in {New, Changed, Restored})
  }

  lemma MakeView(j: Job, gs: seq<GroupId>, db: Db)
    requires Landed(j, gs, db) && SnapshotsOk(j.pre) && ArticlesOk(j.pre)
    ensures SnapshotsView(j, gs, db)
  {
    MakeViewFrom(j, gs, db);
  }

  lemma MakeViewFrom(j: Job, gs: seq<GroupId>, db: Db)
    requires Started(j) && |gs| <= |j.p.listings| && Distinct(gs) && ArticlesGrown(j, db, gs)
    requires db.snapshots == j.pre.snapshots + SnapshotsFor(j, gs)
    requires SnapshotsOk(j.pre) && ArticlesOk(j.pre)
    ensures SnapshotsView(j, gs, db)
  {
    hide ArticlesGrown, ArticlesOk, Distinct, EventFor, Load, SnapshotFor, Incoming;
    hide SnapshotOk, OldSnapshot, NewSnapshot;
    var n := |j.pre.snapshots|;
    forall i | 0 <= i < n ensures OldSnapshot(j, db, i) {
      assert SnapshotOk(j.pre, j.pre.snapshots[i]);
      OldSnapshotKept(j, gs, db, i);
    }
    forall i | 0 <= i < |gs| ensures NewSnapshot(j, gs, db, i) {
      assert db.snapshots[n + i] == SnapshotFor(j, i, gs[i]);
      NewSnapshotStored(j, gs, db, i);
    }
  }

  lemma OldSnapshotKept(j: Job, gs: seq<GroupId>, db: Db, i: nat)
    requires Started(j) && |gs| <= |j.p.listings| && ArticlesGrown(j, db, gs) && ArticlesOk(j.pre)
    requires i < |j.pre.snapshots| <= |db.snapshots|
    requires db.snapshots[i] == j.pre.snapshots[i] && SnapshotOk(j.pre, j.pre.snapshots[i])
    ensures OldSnapshot(j, db, i)
  {
    LoadOld(j, gs, db, j.pre.snapshots[i]);
  }

  lemma EventForFields(j: Job, l: Listing, g: GroupId)
    requires j.run < |j.pre.runs|
    ensures EventFor(j, l, g).Some? ==>
      EventFor(j, l, g).value.run == j.run && EventFor(j, l, g).value.group == g && EventFor(j, l, g).value.at == j.p.at
      && EventFor(j, l, g).value.kind in {New, Restored, Changed}
  {
    PresenceEvents(Lookup(j.pre.rows, (j.source, g)), LastOf(j.pre, j.source, g, j.run), Incoming(l), j.Details(),
                   j.run, g, j.p.at);
  }

  lemma NewSnapshotStored(j: Job, gs: seq<GroupId>, db: Db, i: nat)
    requires Started(j) && i < |gs| <= |j.p.listings| && Distinct(gs) && ArticlesGrown(j, db, gs) && ArticlesOk(j.pre)
    requires |db.snapshots| == |j.pre.snapshots| + |gs|
    requires db.snapshots[|j.pre.snapshots| + i] == SnapshotFor(j, i, gs[i])
    ensures NewSnapshot(j, gs, db, i)
  {
    LoadNew(j, gs, db, i);
    EventForFields(j, j.p.listings[i], gs[i]);
    hide ArticlesGrown, ArticlesOk, Distinct, EventFor, Load, Incoming;
  }

  /* ------------------------- what runs have shown ------------------------- */

  lemma {:induction false} ShownOld(j: Job, gs: seq<GroupId>, db: Db, run: RunId, n: nat)
    requires SnapshotsView(j, gs, db) && run != j.run && n <= |db.snapshots|
    ensures Shown(db, run, n) == Shown(j.pre, run, if n <= |j.pre.snapshots| then n else |j.pre.snapshots|)
  {
    hide Load, Incoming;
    if n > 0 {
      ShownOld(j, gs, db, run, n - 1);
      if n - 1 < |j.pre.snapshots| {
        assert OldSnapshot(j, db, n - 1);
      } else {
        assert NewSnapshot(j, gs, db, n - 1 - |j.pre.snapshots|);
      }
    }
  }

  lemma {:induction false} ShownNothing(j: Job, gs: seq<GroupId>, db: Db, n: nat)
    requires SnapshotsView(j, gs, db) && n <= |j.pre.snapshots|
    ensures Shown(db, j.run, n) == map[]
  {
    hide Load, Incoming;
    if n > 0 {
      ShownNothing(j, gs, db, n - 1);
      assert OldSnapshot(j, db, n - 1);
    }
  }

  lemma {:induction false} ShownNew(j: Job, gs: seq<GroupId>, db: Db, k: nat)
    requires SnapshotsView(j, gs, db) && k <= |gs|
    ensures Shown(db, j.run, |j.pre.snapshots| + k) == ShownBy(j, gs[..k])
  {
    hide Load, Incoming;
    if k == 0 {
      ShownNothing(j, gs, db, |j.pre.snapshots|);
    } else {
      ShownNew(j, gs, db, k - 1);
      assert NewSnapshot(j, gs, db, k - 1);
      assert gs[..k][..k - 1] == gs[..k - 1];
    }
  }

  /* ------------------------- histories ------------------------- */

  /** The observation this transaction adds to its source. */
  function NewObservation(j: Job, gs: seq<GroupId>): Observation
    requires j.run < |j.pre.runs| && |gs| <= |j.p.listings|
  {
    Observation(j.run, j.p.completed, j.p.at, j.Details(), ShownBy(j, gs))
  }

  ghost predicate RunsView(j: Job, db: Db)
  {
    && j.run < |j.pre.runs|
    && IsActive(j.pre.runs[j.run].status) && j.pre.runs[j.run].source == j.source
    && db.runs == j.pre.runs[j.run := FinishRun(j.pre.runs[j.run], j.p)]
  }

  lemma ObservationsStep(j: Job, gs: seq<GroupId>, db: Db, run: RunId)
    requires SnapshotsView(j, gs, db) && RunsView(j, db) && run < |j.pre.runs|
    ensures |db.runs| == |j.pre.runs|
    ensures ObservationOf(db, run) == if run == j.run then NewObservation(j, gs) else ObservationOf(j.pre, run)
  {
    if run == j.run {
      ShownNew(j, gs, db, |gs|);
      assert gs[..|gs|] == gs;
    } else {
      ShownOld(j, gs, db, run, |db.snapshots|);
    }
    hide Shown, ShownBy;
  }

  /** The source's history grows by one observation at the end; the other sources keep theirs. */
  lemma {:induction false} HistoryGrows(j: Job, gs: seq<GroupId>, db: Db, source: SourceId, n: nat)
    requires SnapshotsView(j, gs, db) && RunsView(j, db) && RunsOk(j.pre) && n <= |j.pre.runs| == |db.runs|
    ensures History(db, source, n) ==
      History(j.pre, source, n) + (if source == j.source && j.run < n then [NewObservation(j, gs)] else [])
  {
    hide SnapshotsView, ObservationOf, NewObservation;
    if n > 0 {
      HistoryGrows(j, gs, db, source, n - 1);
      ObservationsStep(j, gs, db, n - 1);
      if source == j.source && j.run < n - 1 {
        assert !(j.pre.runs[n - 1].source == source && IsResult(j.pre.runs[n - 1].status));
      }
    }
  }
}
