/** The transaction takes the stored history of its source one observation further and changes no other source. */
module PersistenceRefines {
  import opened Support
  import opened ListingIdentity
  import opened Tables
  import opened ListingTrack
  import opened Persistence
  import opened PersistenceShape
  import opened SourceHistory

  /* ------------------------- groups ------------------------- */

  /** Every listing sits in a group of the complex, its match or a new one; keys stay unique. */
  ghost predicate GroupsGrown(j: Job, db: Db, gs: seq<GroupId>)
    requires |gs| <= |j.p.listings|
  {
    && |j.pre.groups| <= |db.groups| && db.groups[..|j.pre.groups|] == j.pre.groups
    && (forall i :: 0 <= i < |gs| ==> gs[i] < |db.groups| && db.groups[gs[i]].complexId == j.p.complexId)
    && (forall g :: |j.pre.groups| <= g < |db.groups| ==> g in gs)
    && (forall g, g' :: 0 <= g < g' < |db.groups| ==> db.groups[g] != db.groups[g'])
    && (forall i :: 0 <= i < |gs| ==> MatchedTo(j, j.p.listings[i], gs[i]))
  }

  /** The listing went to its match, or had none and went to a group that did not exist. */
  ghost predicate MatchedTo(j: Job, l: Listing, g: GroupId)
  {
    match Target(j.digest, j.pre, j.source, j.run, j.p.complexId, l)
    case Some(t) => g == t
    case None => g >= |j.pre.groups|
  }

  /** One group of the complex was appended, under a key that was not in use. */
  ghost predicate Appended(groups: seq<Group>, groups': seq<Group>, complexId: string)
  {
    && |groups'| == |groups| + 1 && groups'[..|groups|] == groups && groups'[|groups|].complexId == complexId
    && forall x :: 0 <= x < |groups| ==> groups[x] != groups'[|groups|]
  }

  lemma PlaceMeaning(j: Job, w: Work, w': Work, l: Listing, g: GroupId)
    requires TablesOk(j.pre) && Placed(j, w, w', l, g)
    requires |j.pre.groups| <= |w.db.groups| && w.db.groups[..|j.pre.groups|] == j.pre.groups
    requires forall x :: |j.pre.groups| <= x < |w.db.groups| ==> x in w.matched
    requires g !in w.matched
    ensures MatchedTo(j, l, g)
    ensures if g < |j.pre.groups| then w'.db.groups == w.db.groups && j.pre.groups[g].complexId == j.p.complexId
            else g == |w.db.groups| && Appended(w.db.groups, w'.db.groups, j.p.complexId)
  {
    var target := Target(j.digest, j.pre, j.source, j.run, j.p.complexId, l);
    TargetMeaning(j.digest, j.pre, j.source, j.run, j.p.complexId, l);
    if target.None? {
      var key := IdentityKey(j.digest, IdentityOf(j.p.complexId, l.columns, ArticleSet(l)));
      forall x | 0 <= x < |j.pre.groups| ensures w.db.groups[x] != Group(j.p.complexId, key) {
        FreshKey(j.digest, j.pre, j.source, j.run, j.p.complexId, l, x);
        assert w.db.groups[x] == w.db.groups[..|j.pre.groups|][x];
      }
      hide Target, IdentityKey;
      GroupWithKeyMeaning(w.db.groups, j.p.complexId, key);
    }
  }

  lemma GroupsGrow(j: Job, w: Work, w': Work, gs: seq<GroupId>, g: GroupId)
    requires j.run < |j.pre.runs| && |gs| < |j.p.listings| && TablesOk(j.pre)
    requires GroupsGrown(j, w.db, gs) && w.matched == SetOf(gs)
    requires Grew(j, w, w', j.p.listings[|gs|], g) && Placed(j, w, w', j.p.listings[|gs|], g)
    ensures GroupsGrown(j, w'.db, gs + [g])
  {
    MatchedGrows(j, w, w', j.p.listings[|gs|], g);
    PlaceMeaning(j, w, w', j.p.listings[|gs|], g);
    hide Grew, Placed, MatchedTo;
    if g < |j.pre.groups| {
      assert w'.db.groups[g] == w.db.groups[..|j.pre.groups|][g] == j.pre.groups[g];
      GroupsKept(j, w'.db, gs, g);
    } else {
      GroupsAppended(j, w.db, w'.db, gs);
    }
  }

  lemma GroupsKept(j: Job, db: Db, gs: seq<GroupId>, g: GroupId)
    requires |gs| < |j.p.listings| && GroupsGrown(j, db, gs)
    requires g < |db.groups| && db.groups[g].complexId == j.p.complexId && MatchedTo(j, j.p.listings[|gs|], g)
    ensures GroupsGrown(j, db, gs + [g])
  {
    hide MatchedTo;
    var gs' := gs + [g];
    assert forall x :: x in gs ==> x in gs';
    forall i | 0 <= i < |gs'|
      ensures gs'[i] < |db.groups| && db.groups[gs'[i]].complexId == j.p.complexId
      ensures MatchedTo(j, j.p.listings[i], gs'[i])
    {
      if i < |gs| {
        assert gs'[i] == gs[i];
      }
    }
  }

  lemma GroupsAppended(j: Job, db: Db, db': Db, gs: seq<GroupId>)
    requires |gs| < |j.p.listings| && GroupsGrown(j, db, gs) && Appended(db.groups, db'.groups, j.p.complexId)
    requires MatchedTo(j, j.p.listings[|gs|], |db.groups|)
    ensures GroupsGrown(j, db', gs + [|db.groups|])
  {
    hide MatchedTo;
    var gs', n := gs + [|db.groups|], |db.groups|;
    assert db'.groups[..|j.pre.groups|] == db'.groups[..n][..|j.pre.groups|];
    assert gs'[|gs|] == n;
    forall x | 0 <= x < n ensures db'.groups[x] == db.groups[x] {
      assert db'.groups[x] == db'.groups[..n][x];
    }
    forall i | 0 <= i < |gs'|
      ensures gs'[i] < |db'.groups| && db'.groups[gs'[i]].complexId == j.p.complexId
      ensures MatchedTo(j, j.p.listings[i], gs'[i])
    {
      if i < |gs| {
        assert gs'[i] == gs[i];
      }
    }
    assert forall x :: x in gs ==> x in gs';
  }

  lemma {:induction false} ChainGroups(j: Job, ws: seq<Work>, gs: seq<GroupId>, k: nat)
    requires Chain(j, ws, gs) && k <= |gs| && TablesOk(j.pre)
    ensures GroupsGrown(j, ws[k].db, gs[..k])
  {
    hide Grew, Placed;
    if k > 0 {
      ChainGroups(j, ws, gs, k - 1);
      ChainDistinct(j, ws, gs, k - 1);
      GroupsGrow(j, ws[k - 1], ws[k], gs[..k - 1], gs[k - 1]);
      assert gs[..k] == gs[..k - 1] + [gs[k - 1]];
    }
  }

  /* ------------------------- the database after the transaction ------------------------- */

  ghost predicate Started(j: Job)
  {
    && j.run < |j.pre.runs| && j.pre.runs[j.run].source == j.source && !IsTerminal(j.pre.runs[j.run].status)
    && j.source in j.pre.sources
    && (j.pre.sources[j.source].None? || j.pre.sources[j.source] == Some(j.p.complexId))
  }

  /** How the tables after a successful transaction relate to the tables before it. */
  ghost predicate Landed(j: Job, gs: seq<GroupId>, db: Db)
  {
    && Started(j)
    && |gs| == |j.p.listings| && Distinct(gs)
    && db.runs == j.pre.runs[j.run := FinishRun(j.pre.runs[j.run], j.p)]
    && db.sources == j.pre.sources[j.source := Some(j.p.complexId)]
    && GroupsGrown(j, db, gs)
    && db.snapshots == j.pre.snapshots + SnapshotsFor(j, gs)
    && ArticlesGrown(j, db, gs)
    && RowsLanded(j, gs, db)
    && db.events
      == j.pre.events + EventsFor(j, gs) + AbsenceEvents(j.pre, j.source, SetOf(gs), j.run, j.p, |j.pre.groups|)
  }

  ghost predicate RowsLanded(j: Job, gs: seq<GroupId>, db: Db)
  {
    && (forall s, g :: (s, g) in db.rows <==> (s, g) in j.pre.rows || (s == j.source && g in gs))
    && (forall s, g :: (s, g) in db.rows ==>
          db.rows[(s, g)] == (if s == j.source && g in gs then RowFor(j, g)
                              else if s == j.source then AbsentRow(j.pre.rows[(s, g)], j.p.completed, j.p.at)
                              else j.pre.rows[(s, g)]))
  }

  /** Every unmatched group of the source counts as absent: its record exists and is of this complex. */
  lemma AbsentWhenUnmatched(j: Job, matched: set<GroupId>, g: GroupId)
    requires Started(j) && TablesOk(j.pre)
    ensures IsAbsent(j.pre, j.source, j.p.complexId, matched, g) <==> (j.source, g) in j.pre.rows && g !in matched
  {
    if (j.source, g) in j.pre.rows {
      assert HasSnapshot(j.pre, g);
      LatestAnyExists(j.pre.snapshots, g);
    }
  }

  lemma RowsLand(j: Job, w: Work, gs: seq<GroupId>)
    requires Started(j) && TablesOk(j.pre) && RowsGrown(j, w) && w.matched == SetOf(gs)
    ensures RowsLanded(j, gs, StoreAbsences(j.pre, w, j.source, j.run, j.p))
  {
    hide RowFor, AbsentRow, IsAbsent, AbsenceEvents;
    forall g
      ensures IsAbsent(j.pre, j.source, j.p.complexId, w.matched, g) <==> (j.source, g) in j.pre.rows && g !in gs {
      AbsentWhenUnmatched(j, w.matched, g);
    }
    var db := StoreAbsences(j.pre, w, j.source, j.run, j.p);
    assert db.rows.Keys == w.db.rows.Keys;
  }

  /** A successful transaction of a run that was not terminal. */
  lemma Land(digest: Digest, db: Db, run: RunId, p: Payload) returns (j: Job, gs: seq<GroupId>)
    requires TablesOk(db)
    requires run < |db.runs| && !IsTerminal(db.runs[run].status) && Persisted(digest, db, run, p).Ok?
    ensures j == Job(digest, db, db.runs[run].source, run, p)
    ensures Landed(j, gs, Persisted(digest, db, run, p).value)
  {
    hide StoreListing, StoreAbsences;
    j := Job(digest, db, db.runs[run].source, run, p);
    var n := |p.listings|;
    var ws;
    assert j.Stored(n).Ok?;
    ws, gs := MakeChain(j, n);
    assert gs[..n] == gs;
    ChainDistinct(j, ws, gs, n);
    ChainSnapshots(j, ws, gs, n);
    ChainRows(j, ws, gs, n);
    ChainArticles(j, ws, gs, n);
    ChainEvents(j, ws, gs, n);
    ChainGroups(j, ws, gs, n);
    RowsLand(j, ws[n], gs);
    AssembleLanded(j, ws[n], gs, Persisted(digest, db, run, p).value);
  }

  lemma AssembleLanded(j: Job, w: Work, gs: seq<GroupId>, db: Db)
    requires Started(j) && |gs| == |j.p.listings| && Distinct(gs) && w.matched == SetOf(gs)
    requires GroupsGrown(j, w.db, gs) && ArticlesGrown(j, w.db, gs) && RowsGrown(j, w)
    requires w.db.snapshots == j.pre.snapshots + SnapshotsFor(j, gs)
    requires w.db.events == j.pre.events + EventsFor(j, gs)
    requires RowsLanded(j, gs, StoreAbsences(j.pre, w, j.source, j.run, j.p))
    requires db == StoreAbsences(j.pre, w, j.source, j.run, j.p)
                   .(sources := j.pre.sources[j.source := Some(j.p.complexId)],
                     runs := j.pre.runs[j.run := FinishRun(j.pre.runs[j.run], j.p)])
    ensures Landed(j, gs, db)
  {
    hide RowFor, AbsentRow, IsAbsent, AbsenceEvents, SnapshotsFor, EventsFor, MatchedTo, ListedIn;
  }

  /** The plain equations of a landed transaction. */
  lemma LandedAs(j: Job, gs: seq<GroupId>, db: Db)
    requires Landed(j, gs, db)
    ensures j.run < |j.pre.runs| && |gs| == |j.p.listings|
    ensures db.snapshots == j.pre.snapshots + SnapshotsFor(j, gs)
    ensures db.events
      == j.pre.events + EventsFor(j, gs) + AbsenceEvents(j.pre, j.source, SetOf(gs), j.run, j.p, |j.pre.groups|)
    ensures j.source in db.sources && db.sources[j.source] == Some(j.p.complexId)
  {
    hide GroupsGrown, ArticlesGrown, RowsLanded, Distinct, EventsFor, AbsenceEvents, SnapshotsFor, FinishRun;
  }
}
