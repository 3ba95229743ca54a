/** What holds of every database and every run of the backend. */
module Guarantees {
  import opened Support
  import opened Comparator
  import opened Tables
  import opened ListingIdentity
  import opened ListingTrack
  import opened ReplayedFacts
  import opened Persistence
  import opened PersistenceShape
  import opened SourceHistory
  import opened PersistenceRefines
  import opened TrackStep
  import opened RunLifecycle
  import opened Growth
  import opened EventLog
  import opened Query
  import opened System

  /* ------------------------- visibility and history ------------------------- */

  /** The stored row of a group is a function of the source's history: absent if never shown, otherwise
      decided by the completed runs since it was last shown. */
  ghost predicate VisibilityTold(db: Db, source: SourceId, g: GroupId)
  {
    var h := HistoryOf(db, source);
    && ((source, g) in db.rows <==> EverShown(h, g))
    && (forall j: nat :: LastShownAt(h, g, j) ==>
          (source, g) in db.rows && RowIs(db.rows[(source, g)], h[j].at, CompletedTimes(h[j + 1..])))
    && (forall i: nat :: FirstShownAt(h, g, i) ==>
          (source, g) in db.rows && db.rows[(source, g)].firstSeenAt == h[i].at)
  }

  lemma StoredVisibility(db: Db, source: SourceId, g: GroupId)
    requires Inv(db)
    ensures VisibilityTold(db, source, g)
  {
    var h := HistoryOf(db, source);
    assert Stored(db, source, g).row == After(h, g).row;
    NeverShown(h, g);
    hide Inv, After, History;
    forall j: nat | LastShownAt(h, g, j)
      ensures (source, g) in db.rows && RowIs(db.rows[(source, g)], h[j].at, CompletedTimes(h[j + 1..]))
    {
      ClosedForm(h, g, j);
    }
    forall i: nat | FirstShownAt(h, g, i)
      ensures (source, g) in db.rows && db.rows[(source, g)].firstSeenAt == h[i].at
    {
      FirstSeen(h, g, i);
    }
  }

  /** While a source has only completed runs, its event log alone reproduces the last snapshot of every group,
      on all fields if every run collected broker details and on the other fields in any case. */
  lemma StoredFacts(db: Db, source: SourceId, g: GroupId)
    requires Inv(db) && AllCompleted(HistoryOf(db, source)) && (source, g) in db.rows
    ensures var last := LastOf(db, source, g, |db.runs|);
      && last.Some?
      && Agrees(ReplayFacts(EventsOf(db.events, RunsOf(db, source), g)), last.value.listing,
                AllDetailed(HistoryOf(db, source)))
  {
    var h := HistoryOf(db, source);
    assert Stored(db, source, g) == After(h, g);
    hide Inv, After, History, LastOf, EventsOf;
    ReplayGivesFacts(h, g);
  }

  /** Every field was last reported as it is in `c`. */
  ghost predicate ReportedAs(h: seq<Observation>, g: GroupId, c: Comparable)
  {
    forall f: Field, k: nat :: LastReport(h, g, f, k) ==> JsonField(h[k].shown[g], f) == JsonField(c, f)
  }

  /** The stored events of a group alone give `c` back. */
  ghost predicate LogSays(db: Db, source: SourceId, g: GroupId, c: Comparable)
  {
    ReplayFacts(EventsOf(db.events, RunsOf(db, source), g)) == Some(Normal(c))
  }

  /** With partial runs and runs without details: exactly when the event log gives the listing `c` back, be it that of
      the last completed snapshot or of any other. */
  lemma StoredFactsExact(db: Db, source: SourceId, g: GroupId, c: Comparable)
    requires Inv(db) && (source, g) in db.rows
    ensures LogSays(db, source, g, c) <==> ReportedAs(HistoryOf(db, source), g, c)
  {
    var h := HistoryOf(db, source);
    assert Stored(db, source, g) == After(h, g);
    NeverShown(h, g);
    hide Inv, After, History, LastOf, EventsOf, ReplayFacts, JsonField, LastReport;
    LogExact(h, g, c);
  }

  /* ------------------------- matching ------------------------- */

  /** A successful transaction: distinct groups for distinct listings, every article bound to its listing's group,
      no article in two listings, no listing with articles of two existing groups, and no binding ever changed. */
  lemma MatchingIsConsistent(digest: Digest, db: Db, run: RunId, p: Payload) returns (gs: seq<GroupId>)
    requires TablesOk(db) && run < |db.runs| && !IsTerminal(db.runs[run].status) && Persisted(digest, db, run, p).Ok?
    ensures var db' := Persisted(digest, db, run, p).value;
      && |gs| == |p.listings| && Distinct(gs)
      && (forall i :: 0 <= i < |gs| ==>
            |db.snapshots| + i < |db'.snapshots| && db'.snapshots[|db.snapshots| + i].group == gs[i])
      && (forall i, a :: 0 <= i < |gs| && a in p.listings[i].articles ==> a in db'.articles && db'.articles[a] == gs[i])
      && (forall i, a :: 0 <= i < |gs| && a in p.listings[i].articles && a in db.articles ==> db.articles[a] == gs[i])
      && (forall i, k, a ::
            0 <= i < |gs| && 0 <= k < |gs| && a in p.listings[i].articles && a in p.listings[k].articles ==> i == k)
      && (forall a :: a in db.articles ==> a in db'.articles && db'.articles[a] == db.articles[a])
      && |db.groups| <= |db'.groups| && db'.groups[..|db.groups|] == db.groups
      && (forall g, g' :: 0 <= g < g' < |db'.groups| ==> db'.groups[g] != db'.groups[g'])
  {
    var j;
    hide *;
    j, gs := Land(digest, db, run, p);
    var db' := Persisted(digest, db, run, p).value;
    LandedSnapshots(j, gs, db');
    LandedParts(j, gs, db');
    BoundAndFinal(j, gs, db');
    OneListingEach(gs, p.listings, db'.articles);
  }

  lemma LandedSnapshots(j: Job, gs: seq<GroupId>, db': Db)
    requires Landed(j, gs, db')
    ensures |db'.snapshots| == |j.pre.snapshots| + |gs|
    ensures forall i :: 0 <= i < |gs| ==> db'.snapshots[|j.pre.snapshots| + i].group == gs[i]
  {
    hide *;
    LandedAs(j, gs, db');
    SnapshotGroups(j, gs);
  }

  lemma SnapshotGroups(j: Job, gs: seq<GroupId>)
    requires j.run < |j.pre.runs| && |gs| <= |j.p.listings|
    ensures |SnapshotsFor(j, gs)| == |gs| && forall i :: 0 <= i < |gs| ==> SnapshotsFor(j, gs)[i].group == gs[i]
  {
    hide EventFor;
  }

  lemma LandedParts(j: Job, gs: seq<GroupId>, db': Db)
    requires Landed(j, gs, db')
    ensures |gs| == |j.p.listings| && Distinct(gs) && ArticlesGrown(j, db', gs) && GroupsGrown(j, db', gs)
  {
  }

  lemma BoundAndFinal(j: Job, gs: seq<GroupId>, db': Db)
    requires |gs| <= |j.p.listings| && ArticlesGrown(j, db', gs) && GroupsGrown(j, db', gs)
    ensures forall i, a :: 0 <= i < |gs| && a in j.p.listings[i].articles ==>
      a in db'.articles && db'.articles[a] == gs[i]
    ensures forall a :: a in j.pre.articles ==> a in db'.articles && db'.articles[a] == j.pre.articles[a]
    ensures |j.pre.groups| <= |db'.groups| && db'.groups[..|j.pre.groups|] == j.pre.groups
    ensures forall g, g' :: 0 <= g < g' < |db'.groups| ==> db'.groups[g] != db'.groups[g']
  {
    hide MatchedTo, ListedIn;
  }

  /** Distinct groups leave no article to two listings. */
  lemma OneListingEach(gs: seq<GroupId>, listings: seq<Listing>, articles: map<ArticleId, GroupId>)
    requires |gs| == |listings| && Distinct(gs)
    requires forall i, a :: 0 <= i < |gs| && a in listings[i].articles ==> a in articles && articles[a] == gs[i]
    ensures forall i, k, a ::
      0 <= i < |gs| && 0 <= k < |gs| && a in listings[i].articles && a in listings[k].articles ==> i == k
  {
    forall i, k, a | 0 <= i < |gs| && 0 <= k < |gs| && a in listings[i].articles && a in listings[k].articles
      ensures i == k
    {
      assert gs[i] == articles[a] == gs[k];
    }
  }

  lemma {:induction false} SelectRising(events: seq<Event>, runs: set<RunId>, g: GroupId)
    requires Rising(events)
    ensures Rising(EventsOf(events, runs, g))
    ensures forall e :: e in EventsOf(events, runs, g) ==> e in events && e.run in runs
  {
    if events != [] {
      var n := |events| - 1;
      SelectRising(events[..n], runs, g);
      var s := EventsOf(events[..n], runs, g);
      forall i | 0 <= i < |s| ensures s[i].at < events[n].at {
        assert s[i] in events[..n];
        var k :| 0 <= k < n && events[..n][k] == s[i];
        assert events[k].at < events[n].at;
      }
    }
  }

  /** Each run writes at most one event per group. */
  lemma OneEventPerRunAndGroup(db: Db, run: RunId, g: GroupId)
    requires Inv(db) && run < |db.runs|
    ensures |EventsOf(db.events, {run}, g)| <= 1
  {
    hide *;
    var source := db.runs[run].source;
    LogOf(db, source, g);
    OwnRun(db, run);
    SelectTwice(db.events, RunsOf(db, source), {run}, g);
    OneEventInLog(HistoryOf(db, source), g, run);
  }

  lemma LogOf(db: Db, source: SourceId, g: GroupId)
    requires Inv(db)
    ensures EventsOf(db.events, RunsOf(db, source), g) == After(HistoryOf(db, source), g).events
    ensures Ordered(HistoryOf(db, source)) && RunsRise(HistoryOf(db, source))
  {
    assert Stored(db, source, g) == After(HistoryOf(db, source), g) && Ordered(HistoryOf(db, source));
    hide Inv, After, History, LastOf, EventsOf;
    HistoryRuns(db, source, |db.runs|);
  }

  lemma OwnRun(db: Db, run: RunId)
    requires run < |db.runs|
    ensures {run} <= RunsOf(db, db.runs[run].source)
  {
  }

  /** A history whose runs and times rise has at most one event per run. */
  lemma OneEventInLog(h: seq<Observation>, g: GroupId, run: RunId)
    requires Ordered(h) && RunsRise(h)
    ensures |EventsOf(After(h, g).events, {run}, g)| <= 1
  {
    hide After, EventsOf;
    var log := After(h, g).events;
    EventsRise(h, g);
    SelectRising(log, {run}, g);
    var own := EventsOf(log, {run}, g);
    if |own| > 1 {
      var x := OriginOf(h, g, own[0]);
      var y := OriginOf(h, g, own[1]);
    }
  }

  lemma OriginOf(h: seq<Observation>, g: GroupId, e: Event) returns (i: nat)
    requires e in After(h, g).events
    ensures i < |h| && h[i].run == e.run && h[i].at == e.at
  {
    hide After;
    var k :| 0 <= k < |After(h, g).events| && After(h, g).events[k] == e;
    i := EventOrigin(h, g, k);
  }

  /* ------------------------- runs ------------------------- */

  /** Whether a run has stored results and failed all the same: it had, or this step made it so. */
  lemma FailedAfterStoring(digest: Digest, s: Sys, step: Step, r: RunId)
    requires Lifecycle(s) && Enabled(s, step)
    ensures r in Next(digest, s, step).stored && StatusOf(Next(digest, s, step).db, r) == Some(Failed) <==>
      Hits(s, step, r, RESULTS) || (r in s.stored && StatusOf(s.db, r) == Some(Failed))
  {
    if r in s.stored {
      TerminalStep(digest, s, step, r);
      hide Persisted, CapturedAfter;
    } else if step.PersistPayload? && Persisted(digest, s.db, step.run, step.payload).Ok? {
      hide Persisted, CapturedAfter;
      if !IsTerminal(s.db.runs[step.run].status) {
        PersistedGrows(digest, s.db, step.run, step.payload);
        hide Extends;
      }
    }
  }

  /** A run that stored results still has its result status exactly when no failure write has hit it since. */
  lemma {:induction false} StoredStatusExact(digest: Digest, s: Sys, steps: seq<Step>, s': Sys, r: RunId)
    requires Lifecycle(s) && Leads(digest, s, steps, s') && r in s'.stored
    ensures r < |s'.db.runs|
    ensures IsResult(s'.db.runs[r].status) <==>
      !HitAlong(digest, s, steps, r, RESULTS) && !(r in s.stored && StatusOf(s.db, r) == Some(Failed))
    decreases |steps|
  {
    if steps != [] {
      FailedAfterStoring(digest, s, steps[0], r);
      LifecycleKeeps(digest, s, steps[0]);
      hide Next, Enabled, Lifecycle, Hits;
      StoredStatusExact(digest, Next(digest, s, steps[0]), steps[1..], s', r);
    }
  }

  /** Along every run of the backend, whatever is interleaved: one queued or running run per
      source, each run claimed at most once however often it is delivered, results stored at most
      once and only by a claimed run, snapshots and events only of stored runs, and a result
      status exactly for the stored runs that no failure write hit afterwards. */
  lemma RunGuarantees(digest: Digest, steps: seq<Step>, s: Sys)
    requires Leads(digest, INITIAL, steps, s)
    ensures OneActive(s.db.runs)
    ensures Distinct(s.claimed) && Distinct(s.stored)
    ensures forall r: RunId :: r in s.stored ==> r in s.claimed && r < |s.db.runs|
    ensures forall r: RunId :: r < |s.db.runs| ==>
      (IsResult(s.db.runs[r].status) <==> r in s.stored && !HitAlong(digest, INITIAL, steps, r, RESULTS))
    ensures forall r: RunId :: r in s.stored && HitAlong(digest, INITIAL, steps, r, RESULTS) ==>
      s.db.runs[r].status == Failed
    ensures forall i :: 0 <= i < |s.db.snapshots| ==> s.db.snapshots[i].run in s.stored
    ensures forall i :: 0 <= i < |s.db.events| ==> s.db.events[i].run in s.stored
  {
    hide Leads, OneActive, HitAlong;
    InitialOk();
    LifecycleAlways(digest, INITIAL, steps, s);
    forall r: RunId | r in s.stored
      ensures IsResult(s.db.runs[r].status) <==> !HitAlong(digest, INITIAL, steps, r, RESULTS)
    {
      StoredStatusExact(digest, INITIAL, steps, s, r);
    }
  }

  /** Along every run of the backend whose failure writes spare stored results, and for every source and group: the
      stored row is the closed form over the source's history, the stored events give a listing back exactly when
      every field was last reported as it is there, and no run wrote two events for the group. */
  lemma HistoryGuarantees(digest: Digest, steps: seq<Step>, s: Sys, source: SourceId, g: GroupId)
    requires Leads(digest, INITIAL, steps, s) && SparesResults(digest, INITIAL, steps)
    ensures VisibilityTold(s.db, source, g)
    ensures (source, g) in s.db.rows ==>
      forall c: Comparable :: LogSays(s.db, source, g, c) <==> ReportedAs(HistoryOf(s.db, source), g, c)
    ensures forall run: RunId :: run < |s.db.runs| ==> |EventsOf(s.db.events, {run}, g)| <= 1
  {
    hide *;
    InitialOk();
    AlwaysExact(digest, INITIAL, steps, s);
    InvOf(s);
    StoredVisibility(s.db, source, g);
    if (source, g) in s.db.rows {
      forall c: Comparable
        ensures LogSays(s.db, source, g, c) <==> ReportedAs(HistoryOf(s.db, source), g, c)
      {
        StoredFactsExact(s.db, source, g, c);
      }
    }
    forall run: RunId | run < |s.db.runs| ensures |EventsOf(s.db.events, {run}, g)| <= 1 {
      OneEventPerRunAndGroup(s.db, run, g);
    }
  }

  lemma InvOf(s: Sys)
    requires SysInv(s)
    ensures Inv(s.db) && TablesOk(s.db) && TracksOk(s.db)
  {
  }

  /** The moves of a run's status: claimed or cancelled from the queue, ended by its worker while running. */
  const MOVES: set<(Status, Status)> :=
    {(Queued, Running), (Queued, Cancelled), (Running, Completed), (Running, Partial),
                                         (Running, Failed), (Running, Blocked)}

  /** No step moves a status otherwise, but for the creator's failure write, which moves it to failed from anywhere. */
  lemma StatusMoves(digest: Digest, s: Sys, step: Step, r: RunId)
    requires Lifecycle(s) && Enabled(s, step) && r < |s.db.runs|
    ensures r < |Next(digest, s, step).db.runs|
    ensures var was, now := s.db.runs[r].status, Next(digest, s, step).db.runs[r].status;
      if step.WriteQueueFailure? && step.run == r then now == Failed else now == was || (was, now) in MOVES
  {
    hide CapturedAfter, Persisted;
    if step.PersistPayload? {
      if Persisted(digest, s.db, step.run, step.payload).Ok? && !IsTerminal(s.db.runs[step.run].status) {
        PersistedGrows(digest, s.db, step.run, step.payload);
        hide Extends;
        ActiveOrTerminal(s.db.runs[step.run].status);
      } else {
        PersistTerminal(digest, s.db, step.run, step.payload);
      }
    } else {
      WriteMoves(digest, s, step);
      if step.FailRun? {
        ActiveOrTerminal(s.db.runs[step.run].status);
      }
    }
  }

  /** One step keeps every terminal status exactly when it is not a creator's failure write onto a run
      that is already terminal under another status. */
  lemma TerminalStatusExact(digest: Digest, s: Sys, step: Step)
    ensures (forall r: RunId :: r < |s.db.runs| && IsTerminal(s.db.runs[r].status) ==>
              r < |Next(digest, s, step).db.runs| && Next(digest, s, step).db.runs[r].status == s.db.runs[r].status)
      <==> (forall r: RunId :: !Hits(s, step, r, SETTLED))
  {
    hide Next;
    forall r: RunId | r < |s.db.runs| && IsTerminal(s.db.runs[r].status)
      ensures r < |Next(digest, s, step).db.runs|
      ensures Next(digest, s, step).db.runs[r].status == s.db.runs[r].status <==> !Hits(s, step, r, SETTLED)
    {
      TerminalStep(digest, s, step, r);
    }
  }

  /** Terminal under a status that the failure write would change. */
  const SETTLED: set<Status> := {Completed, Partial, Blocked, Cancelled}

  /** Along every run of the backend a terminal status changes exactly when a creator's failure write hits the run
      while it is terminal and not failed, and then it changes to failed for good. */
  lemma {:induction false} TerminalIsFinal(digest: Digest, s: Sys, steps: seq<Step>, s': Sys, r: RunId)
    requires Leads(digest, s, steps, s') && r < |s.db.runs| && IsTerminal(s.db.runs[r].status)
    ensures r < |s'.db.runs|
    ensures s'.db.runs[r].status == if HitAlong(digest, s, steps, r, SETTLED) then Failed else s.db.runs[r].status
    ensures s'.db.runs[r].status != s.db.runs[r].status <==> HitAlong(digest, s, steps, r, SETTLED)
    decreases |steps|
  {
    if steps != [] {
      TerminalStep(digest, s, steps[0], r);
      hide Next, Enabled;
      TerminalIsFinal(digest, Next(digest, s, steps[0]), steps[1..], s', r);
    }
  }

  /* ------------------------- what is never taken back ------------------------- */

  /** Bindings of articles and complexes of sources are final, and groups, snapshots and events are only appended,
      along every run of the backend, whatever the tables held at its start. */
  lemma {:induction false} BindingsAreFinal(digest: Digest, s: Sys, steps: seq<Step>, s': Sys)
    requires Leads(digest, s, steps, s')
    ensures Extends(s.db, s'.db)
    decreases |steps|
  {
    if steps != [] {
      BindingsStep(digest, s, steps[0]);
      hide Next, Enabled, Extends;
      var m := Next(digest, s, steps[0]);
      BindingsAreFinal(digest, m, steps[1..], s');
      ExtendsTrans(s.db, m.db, s'.db);
    }
  }

  lemma BindingsStep(digest: Digest, s: Sys, step: Step)
    ensures Extends(s.db, Next(digest, s, step).db)
  {
    if step.PersistPayload? {
      var run, p := step.run, step.payload;
      assert Extends(s.db, s.db);
      PersistTerminal(digest, s.db, run, p);
      hide Persisted, Extends;
      if Persisted(digest, s.db, run, p).Ok? && !IsTerminal(s.db.runs[run].status) {
        PersistedGrows(digest, s.db, run, p);
      }
    } else {
      WriteMoves(digest, s, step);
      hide Next;
    }
  }
}
