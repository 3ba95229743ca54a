/** The one write that ignores what it finds, onto a cancelled run and onto a run whose results are stored. */
module Overwritten {
  import opened Support
  import opened Tables
  import opened ListingIdentity
  import opened ListingTrack
  import opened Persistence
  import opened PersistenceShape
  import opened SourceHistory
  import opened PersistenceRefines
  import opened PersistKeeps
  import opened Growth
  import opened RunLifecycle
  import opened System

  lemma {:induction false} ShownSame(db: Db, db': Db, run: RunId, n: nat)
    requires db' == db.(runs := db'.runs) && n <= |db.snapshots|
    ensures Shown(db', run, n) == Shown(db, run, n)
  {
    if n > 0 {
      ShownSame(db, db', run, n - 1);
      assert Load(db', db.snapshots[n - 1]) == Load(db, db.snapshots[n - 1]);
    }
  }

  /** What one run adds to the history of a source. */
  function Told(db: Db, source: SourceId, run: RunId): seq<Observation>
    requires run < |db.runs|
  {
    if db.runs[run].source == source && IsResult(db.runs[run].status) then [ObservationOf(db, run)] else []
  }

  lemma HistorySnoc(db: Db, source: SourceId, n: nat)
    requires n < |db.runs|
    ensures History(db, source, n + 1) == History(db, source, n) + Told(db, source, n)
  {
    hide ObservationOf;
  }

  lemma ToldSame(db: Db, db': Db, source: SourceId, run: RunId)
    requires db' == db.(runs := db'.runs) && run < |db.runs| && run < |db'.runs| && db'.runs[run] == db.runs[run]
    ensures Told(db', source, run) == Told(db, source, run)
  {
    ShownSame(db, db', run, |db.snapshots|);
    hide Shown;
  }

  lemma {:induction false} HistorySame(db: Db, db': Db, source: SourceId, n: nat)
    requires db' == db.(runs := db'.runs) && n <= |db.runs| && n <= |db'.runs|
    requires forall r :: 0 <= r < n ==> db'.runs[r] == db.runs[r]
    ensures History(db', source, n) == History(db, source, n)
  {
    if n > 0 {
      HistorySame(db, db', source, n - 1);
      ToldSame(db, db', source, n - 1);
      HistorySnoc(db, source, n - 1);
      HistorySnoc(db', source, n - 1);
      hide History, Told;
    }
  }

  function Without(h: seq<Observation>, i: nat): seq<Observation>
    requires i < |h|
  {
    h[..i] + h[i + 1..]
  }

  lemma WithoutConcat(a: seq<Observation>, b: seq<Observation>, i: nat)
    ensures i < |a| ==> Without(a + b, i) == Without(a, i) + b
    ensures i == |a| && |b| == 1 ==> Without(a + b, i) == a && (a + b)[i] == b[0]
  {
  }

  /** The creator's failure write onto a run with results takes its observation out of the history. */
  lemma {:induction false} HistoryWithout(db: Db, run: RunId, at: Time, n: nat) returns (i: nat)
    requires run < n <= |db.runs| && IsResult(db.runs[run].status)
    ensures var h, source := History(db, db.runs[run].source, n), db.runs[run].source;
      i < |h| && h[i].run == run && History(QueueFailure(db, run, at), source, n) == Without(h, i)
  {
    hide *;
    var db', source := QueueFailure(db, run, at), db.runs[run].source;
    FailedRun(db, run, at);
    HistorySnoc(db, source, n - 1);
    HistorySnoc(db', source, n - 1);
    if n == run + 1 {
      HistorySame(db, db', source, run);
      i := |History(db, source, run)|;
      assert History(db, source, run) + [] == History(db, source, run);
    } else {
      i := HistoryWithout(db, run, at, n - 1);
      ToldSame(db, db', source, n - 1);
    }
    WithoutConcat(History(db, source, n - 1), Told(db, source, n - 1), i);
  }

  lemma FailedRun(db: Db, run: RunId, at: Time)
    requires run < |db.runs| && IsResult(db.runs[run].status)
    ensures var db', source := QueueFailure(db, run, at), db.runs[run].source;
      && db' == db.(runs := db'.runs) && |db'.runs| == |db.runs|
      && (forall r :: 0 <= r < |db.runs| && r != run ==> db'.runs[r] == db.runs[r])
      && Told(db', source, run) == [] && |Told(db, source, run)| == 1 && Told(db, source, run)[0].run == run
  {
    hide Shown;
  }

  /** What such a write does: rows and events still tell the whole history, of which the run's observation is gone. */
  lemma OverwrittenResult(digest: Digest, s: Sys, step: Step, run: RunId) returns (i: nat)
    requires SysInv(s) && Hits(s, step, run, RESULTS)
    ensures var db', source := Next(digest, s, step).db, s.db.runs[run].source;
      var h := HistoryOf(s.db, source);
      && run < |s.db.runs| && i < |h| && h[i].run == run && HistoryOf(db', source) == Without(h, i)
      && (forall g :: Lookup(db'.rows, (source, g)) == After(h, g).row
                      && EventsOf(db'.events, RunsOf(db', source), g) == After(h, g).events)
  {
    var db, source := s.db, s.db.runs[run].source;
    var db' := QueueFailure(db, run, step.at);
    i := HistoryWithout(db, run, step.at, |db.runs|);
    assert RunsOf(db', source) == RunsOf(db, source);
    assert TracksOk(db);
    hide Inv, Lifecycle, After, History, LastOf, EventsOf, RunsOf;
    forall g ensures Lookup(db'.rows, (source, g)) == After(HistoryOf(db, source), g).row
      && EventsOf(db'.events, RunsOf(db', source), g) == After(HistoryOf(db, source), g).events
    {
      assert Stored(db, source, g) == After(HistoryOf(db, source), g);
    }
  }

  /** On tables without articles a payload of one listing can always be stored. */
  lemma FirstListingStored(digest: Digest, db: Db, run: RunId, p: Payload)
    requires run < |db.runs| && !IsTerminal(db.runs[run].status)
    requires db.runs[run].source in db.sources && db.sources[db.runs[run].source].None?
    requires db.rows == map[] && db.articles == map[] && db.sightings == {}
    requires |p.listings| == 1 && Distinct(p.listings[0].articles)
    ensures Persisted(digest, db, run, p).Ok?
  {
    var j, w := Job(digest, db, db.runs[run].source, run, p), Work(db, {});
    hide StoreListing, StoreAbsences, Target, Grew, FinishRun;
    assert j.Stored(0) == Ok(w);
    StoreListingMeaning(j, w, p.listings[0]);
    assert j.Stored(1).Ok?;
  }

  const ADDED := INITIAL.(db := INITIAL.db.(sources := map[0 := None]))

  const CREATED := ADDED.(db := ADDED.db.(runs := [Run(0, Queued, true, 0, 0, None)]), creating := {0})

  /** The enqueue has raised although the queue has the run. */
  const RAISED := CREATED.(creating := {}, refused := {0}, pending := {0})

  /** A worker executes it. */
  const DELIVERED :=
    RAISED.(db := ADDED.db.(runs := [Run(0, Running, true, 0, 1, None)]), workers := {0}, claimed := [0])

  lemma FirstSteps(digest: Digest)
    ensures Enabled(INITIAL, AddSource(0)) && Next(digest, INITIAL, AddSource(0)) == ADDED
    ensures Enabled(ADDED, CreateRun(0, true, 0)) && Next(digest, ADDED, CreateRun(0, true, 0)) == CREATED
  {
    hide Persisted;
  }

  lemma NextSteps(digest: Digest)
    ensures Enabled(CREATED, EnqueueRaised(0, true)) && Next(digest, CREATED, EnqueueRaised(0, true)) == RAISED
    ensures Enabled(RAISED, Deliver(0)) && Next(digest, RAISED, Deliver(0)) == DELIVERED
  {
    hide Persisted;
  }

  lemma CreatedReached(digest: Digest)
    ensures Leads(digest, INITIAL, [AddSource(0), CreateRun(0, true, 0)], CREATED) && SysInv(CREATED)
  {
    hide *;
    FirstSteps(digest);
    InitialOk();
    NoSteps(digest, INITIAL);
    Reach(digest, [], INITIAL, AddSource(0), ADDED);
    assert [] + [AddSource(0)] == [AddSource(0)];
    Reach(digest, [AddSource(0)], ADDED, CreateRun(0, true, 0), CREATED);
    assert [AddSource(0)] + [CreateRun(0, true, 0)] == [AddSource(0), CreateRun(0, true, 0)];
  }

  lemma DeliveredReached(digest: Digest)
    ensures Leads(digest, INITIAL, [AddSource(0), CreateRun(0, true, 0), EnqueueRaised(0, true), Deliver(0)], DELIVERED)
    ensures SysInv(DELIVERED)
  {
    hide *;
    CreatedReached(digest);
    NextSteps(digest);
    Reach(digest, [AddSource(0), CreateRun(0, true, 0)], CREATED, EnqueueRaised(0, true), RAISED);
    assert [AddSource(0), CreateRun(0, true, 0)] + [EnqueueRaised(0, true)]
        == [AddSource(0), CreateRun(0, true, 0), EnqueueRaised(0, true)];
    Reach(digest, [AddSource(0), CreateRun(0, true, 0), EnqueueRaised(0, true)], RAISED, Deliver(0), DELIVERED);
    assert [AddSource(0), CreateRun(0, true, 0), EnqueueRaised(0, true)] + [Deliver(0)]
        == [AddSource(0), CreateRun(0, true, 0), EnqueueRaised(0, true), Deliver(0)];
  }

  /** The enqueue has raised and the queue does not have the run. */
  const REFUSED := CREATED.(creating := {}, refused := {0})

  const CANCELLED := REFUSED.(db := ADDED.db.(runs := [Run(0, Cancelled, true, 0, 0, Some(1))]))

  const CANCELLED_FAILED := CANCELLED.(db := ADDED.db.(runs := [Run(0, Failed, true, 0, 0, Some(2))]), refused := {})

  lemma CancelSteps(digest: Digest)
    ensures Enabled(CREATED, EnqueueRaised(0, false)) && Next(digest, CREATED, EnqueueRaised(0, false)) == REFUSED
    ensures Enabled(REFUSED, CancelRun(0, 1)) && Next(digest, REFUSED, CancelRun(0, 1)) == CANCELLED
    ensures Enabled(CANCELLED, WriteQueueFailure(0, 2))
    ensures Next(digest, CANCELLED, WriteQueueFailure(0, 2)) == CANCELLED_FAILED
    ensures forall run: RunId :: !Hits(CANCELLED, WriteQueueFailure(0, 2), run, RESULTS)
  {
    hide Persisted;
  }

  lemma CancelledReached(digest: Digest)
    ensures Leads(digest, INITIAL, [AddSource(0), CreateRun(0, true, 0), EnqueueRaised(0, false), CancelRun(0, 1)],
                  CANCELLED)
    ensures SysInv(CANCELLED)
  {
    hide *;
    CreatedReached(digest);
    CancelSteps(digest);
    Reach(digest, [AddSource(0), CreateRun(0, true, 0)], CREATED, EnqueueRaised(0, false), REFUSED);
    assert [AddSource(0), CreateRun(0, true, 0)] + [EnqueueRaised(0, false)]
        == [AddSource(0), CreateRun(0, true, 0), EnqueueRaised(0, false)];
    Reach(digest, [AddSource(0), CreateRun(0, true, 0), EnqueueRaised(0, false)], REFUSED, CancelRun(0, 1), CANCELLED);
    assert [AddSource(0), CreateRun(0, true, 0), EnqueueRaised(0, false)] + [CancelRun(0, 1)]
        == [AddSource(0), CreateRun(0, true, 0), EnqueueRaised(0, false), CancelRun(0, 1)];
  }

  lemma CancelledStatuses()
    ensures StatusOf(CANCELLED.db, 0) == Some(Cancelled) && StatusOf(CANCELLED_FAILED.db, 0) == Some(Failed)
  {
  }

  /** The write is reachable: a run cancelled while its creator's enqueue is failing ends as failed. No stored results
      are concerned, so the invariant survives it. */
  lemma CancelledRunOverwritten(digest: Digest)
    ensures var cancelled := [AddSource(0), CreateRun(0, true, 0), EnqueueRaised(0, false), CancelRun(0, 1)];
      && Leads(digest, INITIAL, cancelled, CANCELLED) && StatusOf(CANCELLED.db, 0) == Some(Cancelled)
      && Leads(digest, INITIAL, cancelled + [WriteQueueFailure(0, 2)], CANCELLED_FAILED)
      && StatusOf(CANCELLED_FAILED.db, 0) == Some(Failed) && SysInv(CANCELLED_FAILED)
  {
    hide *;
    CancelledStatuses();
    CancelledReached(digest);
    CancelSteps(digest);
    LeadsSnoc(digest, INITIAL, [AddSource(0), CreateRun(0, true, 0), EnqueueRaised(0, false), CancelRun(0, 1)],
              CANCELLED, WriteQueueFailure(0, 2));
    StepKeepsExact(digest, CANCELLED, WriteQueueFailure(0, 2));
  }

  lemma NoSteps(digest: Digest, s: Sys)
    ensures Leads(digest, s, [], s)
  {
  }

  lemma Reach(digest: Digest, steps: seq<Step>, m: Sys, step: Step, m': Sys)
    requires Leads(digest, INITIAL, steps, m) && SysInv(m) && Enabled(m, step) && m' == Next(digest, m, step)
    requires !step.WriteQueueFailure?
    ensures Leads(digest, INITIAL, steps + [step], m') && SysInv(m')
  {
    hide *;
    LeadsSnoc(digest, INITIAL, steps, m, step);
    OtherStep(digest, m, step);
  }

  /** Its worker stores a payload of one listing. */
  lemma ResultsStored(digest: Digest, p: Payload) returns (g: GroupId)
    requires SysInv(DELIVERED) && |p.listings| == 1 && Distinct(p.listings[0].articles)
    ensures Enabled(DELIVERED, PersistPayload(0, p))
    ensures var s := Next(digest, DELIVERED, PersistPayload(0, p));
      && SysInv(s) && 0 in s.refused && |s.db.runs| == 1 && s.db.runs[0].source == 0 && IsResult(s.db.runs[0].status)
      && |HistoryOf(s.db, 0)| == 1 && (0, g) in s.db.rows
  {
    var db := DELIVERED.db;
    DeliveredDb();
    hide *;
    FirstListingStored(digest, db, 0, p);
    StoreEnabled(digest, p);
    OtherStep(digest, DELIVERED, PersistPayload(0, p));
    var j, gs := PersistKeepsInv(digest, db, 0, p);
    PersistedGrows(digest, db, 0, p);
    LandedRow(j, gs, Persisted(digest, db, 0, p).value);
    FinishedResult(db, Persisted(digest, db, 0, p).value, p);
    g := gs[0];
  }

  lemma DeliveredDb()
    requires SysInv(DELIVERED)
    ensures var db := DELIVERED.db;
      && Inv(db) && |db.runs| == 1 && db.runs[0].source == 0 && db.runs[0].status == Running
      && !IsTerminal(db.runs[0].status)
      && 0 in db.sources && db.sources[0] == None && db.rows == map[] && db.articles == map[] && db.sightings == {}
      && HistoryOf(db, 0) == [] && (forall at :: CapturedAfter(db, 0, at)) && DELIVERED.refused == {0}
  {
    assert HistoryOf(DELIVERED.db, 0) == [];
    hide Inv, Lifecycle, History;
  }

  lemma StoreEnabled(digest: Digest, p: Payload)
    requires Persisted(digest, DELIVERED.db, 0, p).Ok? && CapturedAfter(DELIVERED.db, 0, p.at)
    ensures var s := Next(digest, DELIVERED, PersistPayload(0, p));
      && Enabled(DELIVERED, PersistPayload(0, p))
      && s.db == Persisted(digest, DELIVERED.db, 0, p).value && s.refused == {0}
  {
    hide Persisted, CapturedAfter;
  }

  lemma FinishedResult(db: Db, db': Db, p: Payload)
    requires Grows(db, db', 0, p) && |db.runs| == 1
    ensures |db'.runs| == 1 && db'.runs[0].source == db.runs[0].source && IsResult(db'.runs[0].status)
  {
    hide Extends;
  }

  lemma LandedRow(j: Job, gs: seq<GroupId>, db': Db)
    requires Landed(j, gs, db') && j.p.listings != []
    ensures gs != [] && (j.source, gs[0]) in db'.rows
  {
    hide RowFor;
  }

  /** The write is reachable after results are stored, too: the enqueue raises although the queue has the run, a worker
      stores its results, and then the creator records its failure. The run is failed, its results are in the tables,
      and the row of its listing has no history left to stand for. */
  lemma StoredRunOverwritten(digest: Digest, p: Payload) returns (s: Sys, g: GroupId)
    requires |p.listings| == 1 && Distinct(p.listings[0].articles)
    ensures Leads(digest, INITIAL, [AddSource(0), CreateRun(0, true, 0), EnqueueRaised(0, true), Deliver(0)]
                                   + [PersistPayload(0, p)] + [WriteQueueFailure(0, 1)], s)
    ensures 0 in s.stored && StatusOf(s.db, 0) == Some(Failed)
    ensures HistoryOf(s.db, 0) == [] && (0, g) in s.db.rows && Stored(s.db, 0, g) != After(HistoryOf(s.db, 0), g)
  {
    var s5, write := Next(digest, DELIVERED, PersistPayload(0, p)), WriteQueueFailure(0, 1);
    DeliveredReached(digest);
    g := ResultsStored(digest, p);
    s := Next(digest, s5, write);
    assert Hits(s5, write, 0, RESULTS) && Enabled(s5, write);
    assert s.db.rows == s5.db.rows && Lifecycle(s5);
    HitBreaks(digest, s5, write, 0);
    hide *;
    var i := OverwrittenResult(digest, s5, write, 0);
    assert HistoryOf(s.db, 0) == [];
    var steps := [AddSource(0), CreateRun(0, true, 0), EnqueueRaised(0, true), Deliver(0)];
    LeadsSnoc(digest, INITIAL, steps, DELIVERED, PersistPayload(0, p));
    LeadsSnoc(digest, INITIAL, steps + [PersistPayload(0, p)], s5, write);
    RowWithoutHistory(s.db, 0, g);
  }

  lemma RowWithoutHistory(db: Db, source: SourceId, g: GroupId)
    requires HistoryOf(db, source) == [] && (source, g) in db.rows
    ensures Stored(db, source, g) != After(HistoryOf(db, source), g)
  {
    hide History, LastOf, EventsOf;
    assert After([], g).row == None;
  }
}
