/** What a run's record says at any time: when it ended, how far it got, and what it was asked to do. */
module RunRecords {
  import opened Tables
  import opened ListingIdentity
  import opened Persistence
  import opened Growth
  import opened System

  /** A run has an end exactly when its status is terminal, a queued one has not begun, and one with results is done. */
  ghost predicate RecordOk(r: Run)
  {
    && (r.finishedAt.Some? <==> r.status !in {Queued, Running})
    && (r.status == Queued ==> r.progress == 0)
    && (r.status in {Completed, Partial} ==> r.progress == 100)
  }

  ghost predicate RecordsOk(db: Db)
  {
    forall i :: 0 <= i < |db.runs| ==> RecordOk(db.runs[i])
  }

  /** No run disappears, and none changes its source or its options. */
  ghost predicate OrdersKept(db: Db, db': Db)
  {
    && |db.runs| <= |db'.runs|
    && forall i :: 0 <= i < |db.runs| ==>
         db'.runs[i].source == db.runs[i].source && db'.runs[i].collectDetails == db.runs[i].collectDetails
         && db'.runs[i].delayPreset == db.runs[i].delayPreset
  }

  /** At most one run is rewritten, or one added. */
  ghost predicate OneRun(db: Db, db': Db)
  {
    || db'.runs == db.runs
    || (exists r: Run :: db'.runs == db.runs + [r] && RecordOk(r))
    || (exists i: nat, r: Run :: i < |db.runs| && db'.runs == db.runs[i := r] && (RecordOk(db.runs[i]) ==> RecordOk(r))
          && r.source == db.runs[i].source && r.collectDetails == db.runs[i].collectDetails
          && r.delayPreset == db.runs[i].delayPreset)
  }

  lemma OneRunKeeps(db: Db, db': Db)
    requires RecordsOk(db) && OneRun(db, db')
    ensures RecordsOk(db') && OrdersKept(db, db')
  {
  }

  lemma Rewritten(db: Db, db': Db, i: nat, r: Run)
    requires i < |db.runs| && db'.runs == db.runs[i := r] && (RecordOk(db.runs[i]) ==> RecordOk(r))
    requires r.source == db.runs[i].source && r.collectDetails == db.runs[i].collectDetails
    requires r.delayPreset == db.runs[i].delayPreset
    ensures OneRun(db, db')
  {
  }

  lemma Added(db: Db, db': Db, r: Run)
    requires db'.runs == db.runs + [r] && RecordOk(r)
    ensures OneRun(db, db')
  {
  }

  lemma WriteOne(digest: Digest, s: Sys, step: Step)
    requires !step.PersistPayload?
    ensures OneRun(s.db, Next(digest, s, step).db)
  {
    hide OneRun, Persisted;
    var db, db' := s.db, Next(digest, s, step).db;
    if db'.runs == db.runs {
      Same(db, db');
    } else if step.CreateRun? || step.RecordScheduleFailure? {
      Added(db, db', db'.runs[|db.runs|]);
    } else {
      Rewritten(db, db', step.run, db'.runs[step.run]);
    }
  }

  lemma Same(db: Db, db': Db)
    requires db'.runs == db.runs
    ensures OneRun(db, db')
  {
  }

  lemma StoreOne(digest: Digest, s: Sys, step: Step)
    requires step.PersistPayload?
    ensures OneRun(s.db, Next(digest, s, step).db)
  {
    var run, p := step.run, step.payload;
    hide OneRun, Persisted, Grows;
    if run < |s.db.runs| && !IsTerminal(s.db.runs[run].status) && Persisted(digest, s.db, run, p).Ok? {
      PersistedGrows(digest, s.db, run, p);
      FinishedOne(s.db, Persisted(digest, s.db, run, p).value, run, p);
    } else {
      PersistTerminal(digest, s.db, run, p);
      Same(s.db, Next(digest, s, step).db);
    }
  }

  lemma FinishedOne(db: Db, db': Db, run: RunId, p: Payload)
    requires Grows(db, db', run, p)
    ensures OneRun(db, db')
  {
    hide Extends, OneRun;
    Rewritten(db, db', run, FinishRun(db.runs[run], p));
  }

  lemma RecordsStep(digest: Digest, s: Sys, step: Step)
    requires RecordsOk(s.db)
    ensures RecordsOk(Next(digest, s, step).db) && OrdersKept(s.db, Next(digest, s, step).db)
  {
    hide *;
    if step.PersistPayload? {
      StoreOne(digest, s, step);
    } else {
      WriteOne(digest, s, step);
    }
    OneRunKeeps(s.db, Next(digest, s, step).db);
  }

  lemma OrdersTrans(a: Db, b: Db, c: Db)
    requires OrdersKept(a, b) && OrdersKept(b, c)
    ensures OrdersKept(a, c)
  {
  }

  /** Along every run of the backend, whatever is interleaved, all records stay in order and
      no run is lost or changes what it was asked to do. */
  lemma {:induction false} RecordsAlways(digest: Digest, s: Sys, steps: seq<Step>, s': Sys)
    requires RecordsOk(s.db) && Leads(digest, s, steps, s')
    ensures RecordsOk(s'.db) && OrdersKept(s.db, s'.db)
    decreases |steps|
  {
    hide RecordsOk, OrdersKept, Next, Enabled;
    if steps == [] {
      OrdersSame(s.db);
    } else {
      RecordsStep(digest, s, steps[0]);
      RecordsAlways(digest, Next(digest, s, steps[0]), steps[1..], s');
      OrdersTrans(s.db, Next(digest, s, steps[0]).db, s'.db);
    }
  }

  lemma OrdersSame(db: Db)
    ensures OrdersKept(db, db)
  {
  }

  /** In particular every state the backend reaches has its records in order. */
  lemma ReachedRecords(digest: Digest, steps: seq<Step>, s: Sys)
    requires Leads(digest, INITIAL, steps, s)
    ensures RecordsOk(s.db)
  {
    assert RecordsOk(INITIAL.db);
    hide RecordsOk, Leads;
    RecordsAlways(digest, INITIAL, steps, s);
  }
}
