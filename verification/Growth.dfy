/** What no transaction ever takes back, whatever the tables held before it. */
module Growth {
  import opened Support
  import opened Tables
  import opened ListingIdentity
  import opened Persistence
  import opened PersistenceShape
  import opened PersistKeeps

  /** Bindings of articles and known complexes of sources are still there; groups, snapshots
      and events were only appended. */
  ghost predicate Extends(db: Db, later: Db)
  {
    && (forall a :: a in db.articles ==> a in later.articles && later.articles[a] == db.articles[a])
    && db.groups <= later.groups && db.snapshots <= later.snapshots && db.events <= later.events
    && (forall s :: s in db.sources && db.sources[s].Some? ==> s in later.sources && later.sources[s] == db.sources[s])
  }

  lemma ExtendsTrans(a: Db, b: Db, c: Db)
    requires Extends(a, b) && Extends(b, c)
    ensures Extends(a, c)
  {
  }

  /** One run finished, and every new snapshot and event is its own. */
  ghost predicate Grows(db: Db, db': Db, run: RunId, p: Payload)
  {
    && Extends(db, db')
    && run < |db.runs| && db'.runs == db.runs[run := FinishRun(db.runs[run], p)]
    && (forall i :: |db.snapshots| <= i < |db'.snapshots| ==> db'.snapshots[i].run == run)
    && (forall i :: |db.events| <= i < |db'.events| ==> db'.events[i].run == run)
  }

  lemma {:induction false} ChainAppends(j: Job, ws: seq<Work>, gs: seq<GroupId>, k: nat)
    requires Chain(j, ws, gs) && k <= |gs|
    ensures j.pre.groups <= ws[k].db.groups
  {
    hide Grew, Placed;
    if k > 0 {
      ChainAppends(j, ws, gs, k - 1);
      PlaceAppends(j, ws[k - 1], ws[k], j.p.listings[k - 1], gs[k - 1]);
    }
  }

  lemma PlaceAppends(j: Job, w: Work, w': Work, l: Listing, g: GroupId)
    requires Placed(j, w, w', l, g)
    ensures w.db.groups <= w'.db.groups
  {
    hide Target, GroupWithKey, IdentityKey;
  }

  lemma NewSnapshots(j: Job, gs: seq<GroupId>)
    requires j.run < |j.pre.runs| && |gs| <= |j.p.listings|
    ensures forall s :: s in SnapshotsFor(j, gs) ==> s.run == j.run
  {
    hide EventFor;
  }

  ghost predicate OfRun(events: seq<Event>, run: RunId)
  {
    forall i :: 0 <= i < |events| ==> events[i].run == run
  }

  lemma NewEvents(j: Job, gs: seq<GroupId>, matched: set<GroupId>)
    requires j.run < |j.pre.runs| && |gs| <= |j.p.listings|
    ensures OfRun(EventsFor(j, gs), j.run)
    ensures OfRun(AbsenceEvents(j.pre, j.source, matched, j.run, j.p, |j.pre.groups|), j.run)
  {
    var shown, absent := EventsFor(j, gs), AbsenceEvents(j.pre, j.source, matched, j.run, j.p, |j.pre.groups|);
    hide EventsFor, AbsenceEvents;
    forall i | 0 <= i < |shown| ensures shown[i].run == j.run {
      ListingEventMember(j, gs, i);
    }
    forall i | 0 <= i < |absent| ensures absent[i].run == j.run {
      AbsenceEventMember(j, matched, |j.pre.groups|, i);
    }
  }

  /** The parts of the tables after a successful transaction, with no assumption on the tables before it. */
  lemma PersistedParts(j: Job, w: Work, db: Db)
    requires j.run < |j.pre.runs| && !IsTerminal(j.pre.runs[j.run].status) && j.source == j.pre.runs[j.run].source
    requires j.Stored(|j.p.listings|) == Ok(w) && Persisted(j.digest, j.pre, j.run, j.p) == Ok(db)
    ensures db.runs == j.pre.runs[j.run := FinishRun(j.pre.runs[j.run], j.p)]
    ensures db.groups == w.db.groups && db.articles == w.db.articles && db.snapshots == w.db.snapshots
    ensures db.events == w.db.events + AbsenceEvents(j.pre, j.source, w.matched, j.run, j.p, |j.pre.groups|)
    ensures forall s :: s in j.pre.sources && j.pre.sources[s].Some? ==>
      s in db.sources && db.sources[s] == j.pre.sources[s]
  {
    hide StoreListings, AbsenceEvents, IsAbsent, FinishRun;
  }

  /** What the listing loop leaves behind. */
  lemma LoopAdds(j: Job) returns (w: Work, gs: seq<GroupId>)
    requires j.run < |j.pre.runs| && j.Stored(|j.p.listings|).Ok?
    ensures j.Stored(|j.p.listings|) == Ok(w) && |gs| == |j.p.listings|
    ensures j.pre.groups <= w.db.groups && ArticlesGrown(j, w.db, gs)
    ensures w.db.snapshots == j.pre.snapshots + SnapshotsFor(j, gs)
    ensures w.db.events == j.pre.events + EventsFor(j, gs)
  {
    hide StoreListings, ArticlesGrown, SnapshotsFor, EventsFor, Grew, Placed;
    var ws;
    ws, gs := MakeChain(j, |j.p.listings|);
    w := ws[|gs|];
    assert gs[..|gs|] == gs;
    ChainAppends(j, ws, gs, |gs|);
    ChainSnapshots(j, ws, gs, |gs|);
    ChainArticles(j, ws, gs, |gs|);
    ChainEvents(j, ws, gs, |gs|);
  }

  lemma LoopSucceeds(j: Job)
    requires j.run < |j.pre.runs| && !IsTerminal(j.pre.runs[j.run].status) && j.source == j.pre.runs[j.run].source
    requires Persisted(j.digest, j.pre, j.run, j.p).Ok?
    ensures j.Stored(|j.p.listings|).Ok?
  {
    hide StoreListings, StoreAbsences;
  }

  /** A successful transaction only adds, whatever the tables held. */
  lemma PersistedGrows(digest: Digest, db: Db, run: RunId, p: Payload)
    requires run < |db.runs| && !IsTerminal(db.runs[run].status) && Persisted(digest, db, run, p).Ok?
    ensures Grows(db, Persisted(digest, db, run, p).value, run, p)
  {
    var j := Job(digest, db, db.runs[run].source, run, p);
    hide *;
    LoopSucceeds(j);
    var w, gs := LoopAdds(j);
    var db' := Persisted(digest, db, run, p).value;
    PersistedParts(j, w, db');
    NewSnapshots(j, gs);
    NewEvents(j, gs, w.matched);
    BindingsKept(j, w.db, gs);
    AddedOnly(db, db', run, p, SnapshotsFor(j, gs), EventsFor(j, gs),
              AbsenceEvents(j.pre, j.source, w.matched, run, p, |db.groups|));
  }

  lemma BindingsKept(j: Job, db: Db, gs: seq<GroupId>)
    requires |gs| <= |j.p.listings| && ArticlesGrown(j, db, gs)
    ensures forall a :: a in j.pre.articles ==> a in db.articles && db.articles[a] == j.pre.articles[a]
  {
    hide ListedIn;
  }

  lemma AddedOnly(db: Db, db': Db, run: RunId, p: Payload, snapshots: seq<Snapshot>,
                  shown: seq<Event>, absent: seq<Event>)
    requires run < |db.runs| && db'.runs == db.runs[run := FinishRun(db.runs[run], p)]
    requires db'.snapshots == db.snapshots + snapshots && db'.events == db.events + shown + absent
    requires forall s :: s in snapshots ==> s.run == run
    requires OfRun(shown, run) && OfRun(absent, run)
    requires forall a :: a in db.articles ==> a in db'.articles && db'.articles[a] == db.articles[a]
    requires db.groups <= db'.groups
    requires forall s :: s in db.sources && db.sources[s].Some? ==> s in db'.sources && db'.sources[s] == db.sources[s]
    ensures Grows(db, db', run, p)
  {
    forall i | |db.events| <= i < |db'.events| ensures db'.events[i].run == run {
      assert db'.events[i] == (shown + absent)[i - |db.events|];
    }
    forall i | |db.snapshots| <= i < |db'.snapshots| ensures db'.snapshots[i].run == run {
      assert db'.snapshots[i] == snapshots[i - |db.snapshots|];
    }
  }
}
