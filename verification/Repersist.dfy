/** Storing the same payload again, after anything but another result of the same source. */
module Repersist {
  import opened Support
  import opened Comparator
  import opened Tables
  import opened ListingIdentity
  import opened ListingTrack
  import opened Persistence
  import opened PersistenceShape
  import opened SourceHistory
  import opened PersistenceRefines
  import opened HistoryStep
  import opened TrackStep
  import opened PersistKeeps
  import opened Growth
  import opened Guarantees
  import opened System

  /** The listings are already known to the database under the groups `gs`, each with an article. */
  ghost predicate Known(db: Db, p: Payload, gs: seq<GroupId>)
  {
    && |gs| == |p.listings| && Distinct(gs)
    && forall i :: 0 <= i < |gs| ==> KnownListing(db, p.complexId, p.listings[i], gs[i])
  }

  ghost predicate KnownListing(db: Db, complexId: string, l: Listing, g: GroupId)
  {
    && l.articles != [] && Distinct(l.articles)
    && g < |db.groups| && db.groups[g].complexId == complexId
    && forall a :: a in l.articles ==> a in db.articles && db.articles[a] == g
  }

  /* ------------------------- matching ------------------------- */

  lemma KnownTarget(j: Job, l: Listing, g: GroupId)
    requires GroupsOk(j.pre) && KnownListing(j.pre, j.p.complexId, l, g)
    ensures Target(j.digest, j.pre, j.source, j.run, j.p.complexId, l) == Some(g)
  {
    TargetOverlaps(j.digest, j.pre, j.source, j.run, j.p.complexId, l, l.articles[0]);
    hide Target;
  }

  lemma SameGroups(j: Job, db: Db, gs: seq<GroupId>, gs': seq<GroupId>)
    requires |gs'| <= |j.p.listings| && Known(j.pre, j.p, gs) && ArticlesGrown(j, db, gs')
    ensures gs' == gs[..|gs'|]
  {
    hide ListedIn;
    forall i | 0 <= i < |gs'| ensures gs'[i] == gs[i] {
      assert KnownListing(j.pre, j.p.complexId, j.p.listings[i], gs[i]);
      var a := j.p.listings[i].articles[0];
      assert a in j.p.listings[i].articles;
      assert db.articles[a] == j.pre.articles[a];
    }
  }

  lemma StillFits(j: Job, db: Db, gs: seq<GroupId>, k: nat)
    requires k < |gs| && Known(j.pre, j.p, gs) && ArticlesGrown(j, db, gs[..k])
    requires forall a :: (j.run, a) !in j.pre.sightings
    ensures BrokersFit(db, j.run, gs[k], j.p.listings[k].articles)
  {
    var l := j.p.listings[k];
    assert forall i :: 0 <= i < |gs| ==> KnownListing(j.pre, j.p.complexId, j.p.listings[i], gs[i]);
    forall a | a in l.articles ensures a in db.articles && db.articles[a] == gs[k] && (j.run, a) !in db.sightings {
      assert j.pre.articles[a] == gs[k];
      forall i | 0 <= i < k ensures a !in j.p.listings[i].articles {
        assert gs[i] != gs[k];
      }
    }
  }

  /** The listing loop cannot fail on known listings. */
  lemma {:induction false} KnownStored(j: Job, gs: seq<GroupId>, k: nat)
    requires j.run < |j.pre.runs| && GroupsOk(j.pre) && Known(j.pre, j.p, gs) && k <= |gs|
    requires forall a :: (j.run, a) !in j.pre.sightings
    ensures j.Stored(k).Ok?
  {
    hide StoreListing, GroupsOk;
    if k > 0 {
      KnownStored(j, gs, k - 1);
      var ws, hs := MakeChain(j, k - 1);
      ChainDistinct(j, ws, hs, k - 1);
      ChainArticles(j, ws, hs, k - 1);
      assert hs[..k - 1] == hs;
      NextStored(j, ws[k - 1], gs, hs, k - 1);
    }
  }

  lemma NextStored(j: Job, w: Work, gs: seq<GroupId>, hs: seq<GroupId>, k: nat)
    requires j.run < |j.pre.runs| && GroupsOk(j.pre) && Known(j.pre, j.p, gs) && |hs| == k < |gs|
    requires forall a :: (j.run, a) !in j.pre.sightings
    requires w.matched == SetOf(hs) && ArticlesGrown(j, w.db, hs)
    ensures StoreListing(j.digest, j.pre, w, j.source, j.run, j.Details(), j.p, j.p.listings[k]).Ok?
  {
    SameGroups(j, w.db, gs, hs);
    StillFits(j, w.db, gs, k);
    assert KnownListing(j.pre, j.p.complexId, j.p.listings[k], gs[k]);
    KnownTarget(j, j.p.listings[k], gs[k]);
    hide StoreListing, ArticlesGrown, KnownListing, GroupsOk, BrokersFit, Target, Grew;
    StoreListingMeaning(j, w, j.p.listings[k]);
    assert gs[k] !in hs;
  }

  /* ------------------------- events ------------------------- */

  /** An active group seen again as its last completed snapshot shows it. */
  ghost predicate SeenSame(j: Job, l: Listing, g: GroupId)
  {
    var row, last := Lookup(j.pre.rows, (j.source, g)), LastOf(j.pre, j.source, g, j.run);
    row.Some? && row.value.visibility == Active && last.Some? && last.value.listing == Incoming(l)
  }

  lemma NoEventWhenSame(j: Job, l: Listing, g: GroupId)
    requires j.run < |j.pre.runs| && SeenSame(j, l, g)
    ensures EventFor(j, l, g) == None
  {
    var last := LastOf(j.pre, j.source, g, j.run);
    SameListing(Incoming(l), last.value.details && j.Details());
    hide LastOf, Incoming, Diff;
  }

  lemma {:induction false} NoEvents(j: Job, gs: seq<GroupId>)
    requires j.run < |j.pre.runs| && |gs| <= |j.p.listings|
    requires forall i :: 0 <= i < |gs| ==> SeenSame(j, j.p.listings[i], gs[i])
    ensures EventsFor(j, gs) == []
  {
    hide SeenSame, EventFor;
    if gs != [] {
      var n := |gs| - 1;
      NoEvents(j, gs[..n]);
      NoEventWhenSame(j, j.p.listings[n], gs[n]);
    }
  }

  lemma {:induction false} OnlyAbsences(j: Job, matched: set<GroupId>, n: nat)
    ensures forall i :: 0 <= i < |AbsenceEvents(j.pre, j.source, matched, j.run, j.p, n)| ==>
      AbsenceEvents(j.pre, j.source, matched, j.run, j.p, n)[i].kind in {WentMissing, WentRemoved}
  {
    hide IsAbsent;
    if n > 0 {
      OnlyAbsences(j, matched, n - 1);
    }
  }

  /** What the first transaction left behind for the group of its `i`-th listing. */
  lemma LeftBehind(j: Job, gs: seq<GroupId>, h: seq<Observation>, i: nat)
    requires j.run < |j.pre.runs| && i < |gs| <= |j.p.listings| && Distinct(gs) && j.p.completed
    ensures var t := After(h + [NewObservation(j, gs)], gs[i]);
      && t.row.Some? && t.row.value.visibility == Active
      && t.last == Some(Last(Incoming(j.p.listings[i]), j.Details()))
  {
    AfterSnoc(h, NewObservation(j, gs), gs[i]);
    ShownByAt(j, gs, i);
    hide After, ShownBy, Incoming, PresenceEvent;
  }

  lemma SeenSameAgain(j: Job, gs: seq<GroupId>, h: seq<Observation>, k: Job, i: nat)
    requires j.run < |j.pre.runs| && i < |gs| == |j.p.listings| && Distinct(gs) && j.p.completed
    requires k.p.listings == j.p.listings && k.source == j.source
    requires k.run < |k.pre.runs| && k.pre.runs[k.run].status != Completed
    requires TracksOk(k.pre) && HistoryOf(k.pre, k.source) == h + [NewObservation(j, gs)]
    ensures SeenSame(k, k.p.listings[i], gs[i])
  {
    hide After, LastOf, Incoming, EventsOf, History, NewObservation;
    LeftBehind(j, gs, h, i);
    assert Stored(k.pre, k.source, gs[i]) == After(HistoryOf(k.pre, k.source), gs[i]);
    LastCurrent(k.pre, k.source, gs[i], k.run);
  }

  /* ------------------------- the second transaction ------------------------- */

  lemma KnownAfter(j: Job, gs: seq<GroupId>, db: Db, later: Db, p: Payload)
    requires |gs| == |j.p.listings| && Distinct(gs) && GroupsGrown(j, db, gs) && ArticlesGrown(j, db, gs)
    requires Extends(db, later)
    requires forall i :: 0 <= i < |j.p.listings| ==> j.p.listings[i].articles != []
    requires p.listings == j.p.listings && p.complexId == j.p.complexId
    ensures Known(later, p, gs)
  {
    hide ListedIn, MatchedTo;
    forall i | 0 <= i < |gs| ensures KnownListing(later, j.p.complexId, j.p.listings[i], gs[i]) {
      assert later.groups[gs[i]] == db.groups[gs[i]];
    }
  }

  /** The second transaction, as a job over listings it knows and has just seen: it succeeds, puts every listing where
      it was, adds no group and no binding, and writes absence events only. */
  lemma KnownPersisted(j: Job, gs: seq<GroupId>) returns (db: Db)
    requires TablesOk(j.pre) && Started(j) && Known(j.pre, j.p, gs)
    requires j.pre.sources[j.source] == Some(j.p.complexId)
    requires forall i :: 0 <= i < |gs| ==> SeenSame(j, j.p.listings[i], gs[i])
    ensures Persisted(j.digest, j.pre, j.run, j.p) == Ok(db)
    ensures Landed(j, gs, db)
    ensures db.groups == j.pre.groups && db.articles == j.pre.articles
    ensures |j.pre.events| <= |db.events| && db.events[..|j.pre.events|] == j.pre.events
    ensures forall i :: |j.pre.events| <= i < |db.events| ==> db.events[i].kind in {WentMissing, WentRemoved}
  {
    KnownParts(j, gs);
    hide *;
    KnownStored(j, gs, |j.p.listings|);
    PersistedWhenStored(j);
    var j', hs := Land(j.digest, j.pre, j.run, j.p);
    db := Persisted(j.digest, j.pre, j.run, j.p).value;
    LandedParts(j, hs, db);
    SameGroups(j, db, gs, hs);
    assert gs[..|hs|] == gs == hs;
    NothingNew(j, gs, db);
    NoEvents(j, gs);
    OnlyAbsences(j, SetOf(gs), |j.pre.groups|);
    LandedAs(j, gs, db);
  }

  lemma KnownParts(j: Job, gs: seq<GroupId>)
    requires TablesOk(j.pre) && Started(j) && Known(j.pre, j.p, gs)
    ensures j.run < |j.pre.runs| && j.pre.runs[j.run].source == j.source && !IsTerminal(j.pre.runs[j.run].status)
    ensures |gs| == |j.p.listings| && GroupsOk(j.pre) && forall a :: (j.run, a) !in j.pre.sightings
    ensures j == Job(j.digest, j.pre, j.source, j.run, j.p)
  {
    ActiveOrTerminal(j.pre.runs[j.run].status);
  }

  lemma PersistedWhenStored(j: Job)
    requires Started(j) && j.Stored(|j.p.listings|).Ok?
    ensures Persisted(j.digest, j.pre, j.run, j.p).Ok?
  {
    hide StoreListings, StoreAbsences, FinishRun;
  }

  lemma NothingNew(j: Job, gs: seq<GroupId>, db: Db)
    requires Known(j.pre, j.p, gs) && GroupsGrown(j, db, gs) && ArticlesGrown(j, db, gs)
    ensures db.groups == j.pre.groups && db.articles == j.pre.articles
  {
    hide MatchedTo;
    assert forall i :: 0 <= i < |gs| ==> KnownListing(j.pre, j.p.complexId, j.p.listings[i], gs[i]);
    assert |j.pre.groups| !in gs;
    forall a | a in db.articles ensures a in j.pre.articles {
      if ListedIn(j, gs, a) {
        var i :| 0 <= i < |gs| && a in j.p.listings[i].articles;
      }
    }
    assert db.articles.Keys == j.pre.articles.Keys;
  }

  /* ------------------------- the theorem ------------------------- */

  /**
   A completed payload is stored; then the backend runs on, storing no other result of that source; then the same
   listings, each with at least one article, are stored for another run of the source. The second transaction succeeds,
   gives every listing the group it had, creates no group and binds no article, and writes no event other than absences.
   */
  lemma RepeatedPayload(digest: Digest, s: Sys, run: RunId, p: Payload, steps: seq<Step>, s2: Sys, run2: RunId,
                        p2: Payload)
    returns (gs: seq<GroupId>, db2: Db)
    requires SysInv(s) && run < |s.db.runs| && !IsTerminal(s.db.runs[run].status)
    requires Enabled(s, PersistPayload(run, p)) && Persisted(digest, s.db, run, p).Ok? && p.completed
    requires forall i :: 0 <= i < |p.listings| ==> p.listings[i].articles != []
    requires Leads(digest, Next(digest, s, PersistPayload(run, p)), steps, s2)
    requires SparesResults(digest, Next(digest, s, PersistPayload(run, p)), steps)
    requires HistoryOf(s2.db, s.db.runs[run].source)
      == HistoryOf(Next(digest, s, PersistPayload(run, p)).db, s.db.runs[run].source)
    requires run2 < |s2.db.runs| && s2.db.runs[run2].source == s.db.runs[run].source
    requires !IsTerminal(s2.db.runs[run2].status)
    requires p2.listings == p.listings && p2.complexId == p.complexId
    ensures Persisted(digest, s2.db, run2, p2) == Ok(db2)
    ensures |gs| == |p.listings|
    ensures var db1 := Next(digest, s, PersistPayload(run, p)).db;
      && |db1.snapshots| == |s.db.snapshots| + |gs| && |db2.snapshots| == |s2.db.snapshots| + |gs|
      && (forall i :: 0 <= i < |gs| ==>
            db1.snapshots[|s.db.snapshots| + i].group == gs[i] && db2.snapshots[|s2.db.snapshots| + i].group == gs[i])
    ensures db2.groups == s2.db.groups && db2.articles == s2.db.articles
    ensures |s2.db.events| <= |db2.events| && db2.events[..|s2.db.events|] == s2.db.events
    ensures forall i :: |s2.db.events| <= i < |db2.events| ==> db2.events[i].kind in {WentMissing, WentRemoved}
  {
    hide *;
    var s1, source := Next(digest, s, PersistPayload(run, p)), s.db.runs[run].source;
    StoredState(digest, s, run, p);
    BindingsAreFinal(digest, s1, steps, s2);
    AlwaysExact(digest, s1, steps, s2);
    InvOf(s);
    InvOf(s2);
    var j;
    j, gs := PersistKeepsInv(digest, s.db, run, p);
    db2 := Again(j, gs, s1.db, Job(digest, s2.db, source, run2, p2));
    LandedSnapshots(j, gs, s1.db);
    LandedSnapshots(Job(digest, s2.db, source, run2, p2), gs, db2);
    LandedParts(j, gs, s1.db);
  }

  lemma StoredState(digest: Digest, s: Sys, run: RunId, p: Payload)
    requires SysInv(s) && run < |s.db.runs| && !IsTerminal(s.db.runs[run].status)
    requires Enabled(s, PersistPayload(run, p)) && Persisted(digest, s.db, run, p).Ok?
    ensures SysInv(Next(digest, s, PersistPayload(run, p)))
    ensures Next(digest, s, PersistPayload(run, p)).db == Persisted(digest, s.db, run, p).value
    ensures CapturedAfter(s.db, s.db.runs[run].source, p.at)
  {
    hide *;
    OtherStep(digest, s, PersistPayload(run, p));
    StoringStep(digest, s, run, p);
  }

  lemma StoringStep(digest: Digest, s: Sys, run: RunId, p: Payload)
    requires run < |s.db.runs| && !IsTerminal(s.db.runs[run].status)
    requires Enabled(s, PersistPayload(run, p)) && Persisted(digest, s.db, run, p).Ok?
    ensures Next(digest, s, PersistPayload(run, p)).db == Persisted(digest, s.db, run, p).value
    ensures CapturedAfter(s.db, s.db.runs[run].source, p.at)
  {
    hide Persisted, CapturedAfter;
  }

  lemma Again(j: Job, gs: seq<GroupId>, db: Db, k: Job) returns (db2: Db)
    requires Landed(j, gs, db) && TablesOk(j.pre) && j.p.completed
    requires forall i :: 0 <= i < |j.p.listings| ==> j.p.listings[i].articles != []
    requires Extends(db, k.pre) && TablesOk(k.pre) && TracksOk(k.pre)
    requires HistoryOf(k.pre, j.source) == HistoryOf(db, j.source) && k.source == j.source
    requires k.run < |k.pre.runs| && k.pre.runs[k.run].source == k.source && !IsTerminal(k.pre.runs[k.run].status)
    requires k.p.listings == j.p.listings && k.p.complexId == j.p.complexId
    ensures Persisted(k.digest, k.pre, k.run, k.p) == Ok(db2) && Landed(k, gs, db2)
    ensures db2.groups == k.pre.groups && db2.articles == k.pre.articles
    ensures |k.pre.events| <= |db2.events| && db2.events[..|k.pre.events|] == k.pre.events
    ensures forall i :: |k.pre.events| <= i < |db2.events| ==> db2.events[i].kind in {WentMissing, WentRemoved}
  {
    LandedParts(j, gs, db);
    LandedAs(j, gs, db);
    HistoriesMove(j, gs, db, j.source);
    assert k.pre.sources[k.source] == Some(k.p.complexId);
    ActiveOrTerminal(k.pre.runs[k.run].status);
    hide Landed, TablesOk, TracksOk, GroupsGrown, ArticlesGrown, Known, History, SeenSame, NewObservation, Extends;
    KnownAfter(j, gs, db, k.pre, k.p);
    forall i | 0 <= i < |gs| ensures SeenSame(k, k.p.listings[i], gs[i]) {
      SeenSameAgain(j, gs, HistoryOf(j.pre, j.source), k, i);
    }
    db2 := KnownPersisted(k, gs);
  }
}
