/** The whole backend as a state machine: requests, the task queue, workers and the result transaction, interleaved. */
module System {
  import opened Support
  import opened Tables
  import opened ListingIdentity
  import opened ListingTrack
  import opened Persistence
  import opened PersistenceShape
  import opened SourceHistory
  import opened PersistKeeps
  import opened Growth
  import opened RunLifecycle

  /**
   `creating`: runs committed but not yet handed to the queue; `refused`: runs whose enqueue raised and whose
   creator has not recorded it yet; `pending`: runs the queue may deliver, any number of times; `workers`: runs a
   worker is executing. `claimed` and `stored` log, in order, the successful claims and the stored results.
   */
  datatype Sys = Sys(db: Db, creating: set<RunId>, refused: set<RunId>, pending: set<RunId>, workers: set<RunId>,
                     claimed: seq<RunId>, stored: seq<RunId>)

  datatype Step =
    | AddSource(source: SourceId)
    | CreateRun(source: SourceId, details: bool, preset: nat)
    | EnqueueAccepted(run: RunId)
    | EnqueueRaised(run: RunId, delivered: bool)
    | WriteQueueFailure(run: RunId, at: Time)
    | RecordScheduleFailure(source: SourceId, details: bool, preset: nat, at: Time)
    | Deliver(run: RunId)
    | ReportProgress(run: RunId, progress: nat)
    | PersistPayload(run: RunId, payload: Payload)
    | FailRun(run: RunId, blocked: bool, at: Time)
    | CancelRun(run: RunId, at: Time)

  const INITIAL := Sys(Db(map[], [], [], map[], [], {}, map[], []), {}, {}, {}, {}, [], [])

  function StatusOf(db: Db, run: RunId): Option<Status>
  {
    if run < |db.runs| then Some(db.runs[run].status) else None
  }

  /** The steps that can happen. A payload is captured after the source's earlier results. */
  ghost predicate Enabled(s: Sys, step: Step)
  {
    match step
    case AddSource(_) => true
    case CreateRun(_, _, _) => true
    case EnqueueAccepted(run) => run in s.creating
    case EnqueueRaised(run, _) => run in s.creating
    case WriteQueueFailure(run, _) => run in s.refused
    case RecordScheduleFailure(source, _, _, _) => source in s.db.sources
    case Deliver(run) => run in s.pending
    case ReportProgress(run, _) => run in s.workers
    case PersistPayload(run, p) =>
      run in s.workers && run < |s.db.runs| && CapturedAfter(s.db, s.db.runs[run].source, p.at)
    case FailRun(run, _, _) => run in s.workers
    case CancelRun(_, _) => true
  }

  function Next(digest: Digest, s: Sys, step: Step): Sys
  {
    match step
    case AddSource(source) =>
      if source in s.db.sources then s else s.(db := s.db.(sources := s.db.sources[source := None]))
    case CreateRun(source, details, preset) =>
      var (db, outcome) := Create(s.db, source, details, preset);
      s.(db := db, creating := if outcome.Created? then s.creating + {outcome.run} else s.creating)
    case EnqueueAccepted(run) => s.(creating := s.creating - {run}, pending := s.pending + {run})
    case EnqueueRaised(run, delivered) =>
      s.(creating := s.creating - {run}, refused := s.refused + {run},
         pending := if delivered then s.pending + {run} else s.pending)
    case WriteQueueFailure(run, at) => s.(db := QueueFailure(s.db, run, at), refused := s.refused - {run})
    case RecordScheduleFailure(source, details, preset, at) =>
      s.(db := RecordFailure(s.db, source, details, preset, at))
    case Deliver(run) =>
      if StatusOf(s.db, run) == Some(Queued)
      then s.(db := Claim(s.db, run), workers := s.workers + {run}, claimed := s.claimed + [run]) else s
    case ReportProgress(run, progress) => s.(db := Advance(s.db, run, progress))
    case PersistPayload(run, p) =>
      (match Persisted(digest, s.db, run, p)
       case Err(_) => s
       case Ok(db) =>
         if run < |s.db.runs| && IsTerminal(s.db.runs[run].status) then s.(workers := s.workers - {run})
         else s.(db := db, workers := s.workers - {run}, stored := s.stored + [run]))
    case FailRun(run, blocked, at) => s.(db := MarkTerminal(s.db, run, blocked, at), workers := s.workers - {run})
    case CancelRun(run, at) => s.(db := Cancel(s.db, run, at))
  }

  const RESULTS: set<Status> := {Completed, Partial}

  /** The creator's unconditional failure write finds its run under one of these statuses. */
  predicate Hits(s: Sys, step: Step, run: RunId, statuses: set<Status>)
  {
    && step.WriteQueueFailure? && step.run == run
    && run < |s.db.runs| && s.db.runs[run].status in statuses
  }

  /** `steps` lead from `s` to `s'`, each enabled when it happens. */
  ghost predicate Leads(digest: Digest, s: Sys, steps: seq<Step>, s': Sys)
    decreases |steps|
  {
    if steps == [] then s == s'
    else Enabled(s, steps[0]) && Leads(digest, Next(digest, s, steps[0]), steps[1..], s')
  }

  /** Somewhere along the steps a failure write hits the run under one of these statuses. */
  ghost predicate HitAlong(digest: Digest, s: Sys, steps: seq<Step>, run: RunId, statuses: set<Status>)
    decreases |steps|
  {
    && steps != []
    && (Hits(s, steps[0], run, statuses) || HitAlong(digest, Next(digest, s, steps[0]), steps[1..], run, statuses))
  }

  /** No failure write along the steps hits a run whose results are stored. */
  ghost predicate SparesResults(digest: Digest, s: Sys, steps: seq<Step>)
  {
    forall run: RunId :: !HitAlong(digest, s, steps, run, RESULTS)
  }

  lemma SparesFirst(digest: Digest, s: Sys, steps: seq<Step>)
    requires steps != []
    ensures SparesResults(digest, s, steps) <==>
      (forall run: RunId :: !Hits(s, steps[0], run, RESULTS))
      && SparesResults(digest, Next(digest, s, steps[0]), steps[1..])
  {
    hide Next, Hits;
    var rest := Next(digest, s, steps[0]);
    forall run: RunId
      ensures HitAlong(digest, s, steps, run, RESULTS) <==>
        Hits(s, steps[0], run, RESULTS) || HitAlong(digest, rest, steps[1..], run, RESULTS)
    {
    }
  }

  /* ------------------------- the life of runs ------------------------- */

  /** What holds of runs, queue and logs whatever is written: at most one active run per source, no run claimed or
      stored twice, results only under runs that were claimed, and nothing in the tables of runs that stored nothing. */
  ghost predicate Lifecycle(s: Sys)
  {
    && (forall r: RunId :: r in s.creating || r in s.refused || r in s.pending || r in s.workers ==> r < |s.db.runs|)
    && OneActive(s.db.runs)
    && Distinct(s.claimed)
    && (forall r: RunId :: r in s.claimed ==> r < |s.db.runs| && s.db.runs[r].status != Queued)
    && (forall r: RunId :: r in s.workers ==> r in s.claimed && r !in s.stored)
    && Distinct(s.stored)
    && (forall r: RunId :: r in s.stored ==> r in s.claimed && s.db.runs[r].status in {Completed, Partial, Failed})
    && (forall r: RunId :: r < |s.db.runs| && IsResult(s.db.runs[r].status) ==> r in s.stored)
    && (forall i :: 0 <= i < |s.db.snapshots| ==> s.db.snapshots[i].run in s.stored)
    && (forall i :: 0 <= i < |s.db.events| ==> s.db.events[i].run in s.stored)
  }

  /** Every write but the result transaction only moves runs. */
  lemma WriteMoves(digest: Digest, s: Sys, step: Step)
    requires !step.PersistPayload?
    ensures RunsMove(s.db, Next(digest, s, step).db)
  {
    hide RunsMove, Create, Claim, Advance, MarkTerminal, Cancel, QueueFailure, RecordFailure, Persisted;
    var db := s.db;
    SameMoves(db);
    match step
    case AddSource(source) => AdditionsMove(db, source, true, 0, 0);
    case CreateRun(source, details, preset) => AdditionsMove(db, source, details, preset, 0);
    case EnqueueAccepted(_) =>
    case EnqueueRaised(_, _) =>
    case WriteQueueFailure(run, at) => RewritesMove(db, run, 0, true, at);
    case RecordScheduleFailure(source, details, preset, at) => AdditionsMove(db, source, details, preset, at);
    case Deliver(run) => RewritesMove(db, run, 0, true, 0);
    case ReportProgress(run, progress) => RewritesMove(db, run, progress, true, 0);
    case FailRun(run, blocked, at) => RewritesMove(db, run, 0, blocked, at);
    case CancelRun(run, at) => RewritesMove(db, run, 0, true, at);
  }

  /** Writes that move runs keep the logs right. */
  lemma MovesKeep(s: Sys, s': Sys)
    requires Lifecycle(s) && RunsMove(s.db, s'.db)
    requires s'.claimed == s.claimed && s'.stored == s.stored && s'.workers <= s.workers
    requires forall r: RunId :: r in s'.creating || r in s'.refused || r in s'.pending ==> r < |s'.db.runs|
    ensures Lifecycle(s')
  {
    hide OneActive;
  }

  lemma LifecycleMoves(digest: Digest, s: Sys, step: Step)
    requires Lifecycle(s) && Enabled(s, step) && !step.PersistPayload? && !step.Deliver?
    ensures Lifecycle(Next(digest, s, step))
  {
    hide CapturedAfter, Persisted, RunsMove, OneActive;
    var s' := Next(digest, s, step);
    WriteMoves(digest, s, step);
    assert |s.db.runs| <= |s'.db.runs| && s'.workers <= s.workers;
    assert s'.claimed == s.claimed && s'.stored == s.stored;
    assert forall r: RunId :: r in s'.creating || r in s'.refused || r in s'.pending ==> r < |s'.db.runs|;
    MovesKeep(s, s');
  }

  lemma LifecycleDelivers(digest: Digest, s: Sys, step: Step)
    requires Lifecycle(s) && Enabled(s, step) && step.Deliver?
    ensures Lifecycle(Next(digest, s, step))
  {
    WriteMoves(digest, s, step);
    hide RunsMove, OneActive, Persisted, CapturedAfter;
  }

  lemma LifecycleStores(digest: Digest, s: Sys, step: Step)
    requires Lifecycle(s) && Enabled(s, step) && step.PersistPayload?
    ensures Lifecycle(Next(digest, s, step))
  {
    var run, p := step.run, step.payload;
    hide Persisted, CapturedAfter;
    if Persisted(digest, s.db, run, p).Ok? && !IsTerminal(s.db.runs[run].status) {
      PersistedGrows(digest, s.db, run, p);
      StoredOnce(s, Next(digest, s, step), run, p);
    }
  }

  lemma StoredOnce(s: Sys, s': Sys, run: RunId, p: Payload)
    requires Lifecycle(s) && run in s.workers && run < |s.db.runs| && !IsTerminal(s.db.runs[run].status)
    requires s' == s.(db := s'.db, workers := s.workers - {run}, stored := s.stored + [run])
    requires Grows(s.db, s'.db, run, p)
    ensures Lifecycle(s')
  {
    assert run !in s.stored;
    hide Extends;
  }

  /** Every step keeps the life of runs in order, whatever it finds. */
  lemma LifecycleKeeps(digest: Digest, s: Sys, step: Step)
    requires Lifecycle(s) && Enabled(s, step)
    ensures Lifecycle(Next(digest, s, step))
  {
    hide *;
    if step.PersistPayload? {
      LifecycleStores(digest, s, step);
    } else if step.Deliver? {
      LifecycleDelivers(digest, s, step);
    } else {
      LifecycleMoves(digest, s, step);
    }
  }

  /* ------------------------- the invariant ------------------------- */

  /** Stored results are still there: no run that stored some has lost its result status. */
  ghost predicate StoredOk(s: Sys)
  {
    forall r: RunId :: r in s.stored ==> r < |s.db.runs| && IsResult(s.db.runs[r].status)
  }

  ghost predicate SysInv(s: Sys)
  {
    Inv(s.db) && Lifecycle(s) && StoredOk(s)
  }

  lemma InitialOk()
    ensures SysInv(INITIAL)
  {
    assert TracksOk(INITIAL.db) && ClocksOk(INITIAL.db) by {
      forall s, g ensures HistoryOf(INITIAL.db, s) == [] && Stored(INITIAL.db, s, g) == After([], g) {
      }
    }
    assert TablesOk(INITIAL.db) && Lifecycle(INITIAL) && StoredOk(INITIAL);
  }

  /** The database part of a step is quiet, unless it stores a payload or hits a run with results. */
  lemma DbStep(digest: Digest, s: Sys, step: Step)
    requires RunsOk(s.db) && !step.PersistPayload?
    requires forall run: RunId :: !Hits(s, step, run, RESULTS)
    ensures QuietWrite(s.db, Next(digest, s, step).db)
  {
    assert step.WriteQueueFailure? ==> !Hits(s, step, step.run, RESULTS);
    hide QuietWrite, RunsOk, Create, Claim, Advance, MarkTerminal, Cancel, QueueFailure, RecordFailure, Persisted;
    var db := s.db;
    SameQuiet(db);
    match step
    case AddSource(source) =>
      AdditionsQuiet(db, source, true, 0, 0);
    case CreateRun(source, details, preset) => AdditionsQuiet(db, source, details, preset, 0);
    case EnqueueAccepted(_) =>
    case EnqueueRaised(_, _) =>
    case WriteQueueFailure(run, at) => RewritesQuiet(db, run, 0, true, at);
    case RecordScheduleFailure(source, details, preset, at) => AdditionsQuiet(db, source, details, preset, at);
    case Deliver(run) => RewritesQuiet(db, run, 0, true, 0);
    case ReportProgress(run, progress) => RewritesQuiet(db, run, progress, true, 0);
    case FailRun(run, blocked, at) => RewritesQuiet(db, run, 0, blocked, at);
    case CancelRun(run, at) => RewritesQuiet(db, run, 0, true, at);
  }

  lemma PersistTerminal(digest: Digest, db: Db, run: RunId, p: Payload)
    ensures var r := Persisted(digest, db, run, p);
      r.Ok? ==> run < |db.runs| && |r.value.runs| == |db.runs|
                && (if IsTerminal(db.runs[run].status) then r.value == db
                    else forall x :: 0 <= x < |db.runs| && x != run ==> r.value.runs[x] == db.runs[x])
  {
    hide StoreListings, StoreAbsences, FinishRun;
  }

  lemma StoreKeeps(digest: Digest, db: Db, run: RunId, p: Payload)
    requires Inv(db) && run < |db.runs| && !IsTerminal(db.runs[run].status)
    requires CapturedAfter(db, db.runs[run].source, p.at)
    requires Persisted(digest, db, run, p).Ok?
    ensures Inv(Persisted(digest, db, run, p).value) && Grows(db, Persisted(digest, db, run, p).value, run, p)
  {
    hide *;
    var j, gs := PersistKeepsInv(digest, db, run, p);
    PersistedGrows(digest, db, run, p);
  }

  lemma StoredStays(s: Sys, s': Sys, run: RunId, p: Payload)
    requires StoredOk(s) && Grows(s.db, s'.db, run, p) && s'.stored == s.stored + [run]
    ensures StoredOk(s')
  {
    hide Extends;
  }

  lemma PersistStep(digest: Digest, s: Sys, step: Step)
    requires Inv(s.db) && StoredOk(s) && Enabled(s, step) && step.PersistPayload?
    ensures Inv(Next(digest, s, step).db) && StoredOk(Next(digest, s, step))
  {
    var run, p := step.run, step.payload;
    hide Persisted, Inv, CapturedAfter, Grows, StoredOk;
    if Persisted(digest, s.db, run, p).Ok? && !IsTerminal(s.db.runs[run].status) {
      StoreKeeps(digest, s.db, run, p);
      StoredStays(s, Next(digest, s, step), run, p);
    } else {
      PersistTerminal(digest, s.db, run, p);
      assert Next(digest, s, step).db == s.db && Next(digest, s, step).stored == s.stored;
      StoredSame(s, Next(digest, s, step));
    }
  }

  lemma StoredSame(s: Sys, s': Sys)
    requires StoredOk(s) && s'.db == s.db && s'.stored == s.stored
    ensures StoredOk(s')
  {
  }

  /** Every write but the result transaction keeps the stored results, unless it hits one. */
  lemma QuietStep(digest: Digest, s: Sys, step: Step)
    requires Inv(s.db) && StoredOk(s) && !step.PersistPayload?
    requires forall run: RunId :: !Hits(s, step, run, RESULTS)
    ensures Inv(Next(digest, s, step).db) && StoredOk(Next(digest, s, step))
  {
    var s' := Next(digest, s, step);
    assert RunsOk(s.db) && s'.stored == s.stored by { hide RunsOk; }
    hide Inv, Next, Hits, RunsOk;
    DbStep(digest, s, step);
    QuietKeeps(s.db, s'.db);
  }

  /** What a hit leaves behind: a run that stored results and has failed. */
  lemma HitBreaks(digest: Digest, s: Sys, step: Step, run: RunId)
    requires Lifecycle(s) && Hits(s, step, run, RESULTS)
    ensures run in Next(digest, s, step).stored && StatusOf(Next(digest, s, step).db, run) == Some(Failed)
  {
  }

  /** A step keeps the invariant exactly when it is not a failure write onto a run whose results are stored. */
  lemma StepKeepsExact(digest: Digest, s: Sys, step: Step)
    requires SysInv(s) && Enabled(s, step)
    ensures SysInv(Next(digest, s, step)) <==> forall run: RunId :: !Hits(s, step, run, RESULTS)
  {
    hide Inv, Lifecycle, Next, Enabled, Hits;
    LifecycleKeeps(digest, s, step);
    if run: RunId :| Hits(s, step, run, RESULTS) {
      HitBreaks(digest, s, step, run);
    } else if step.PersistPayload? {
      PersistStep(digest, s, step);
    } else {
      QuietStep(digest, s, step);
    }
  }

  /** In particular every step but the failure write keeps it. */
  lemma OtherStep(digest: Digest, s: Sys, step: Step)
    requires SysInv(s) && Enabled(s, step) && !step.WriteQueueFailure?
    ensures SysInv(Next(digest, s, step))
  {
    assert forall r: RunId :: !Hits(s, step, r, RESULTS);
    hide SysInv, Next, Enabled, Hits;
    StepKeepsExact(digest, s, step);
  }

  /* ------------------------- terminal statuses ------------------------- */

  /** Only a creator's failure write touches a terminal status. */
  lemma TerminalStep(digest: Digest, s: Sys, step: Step, run: RunId)
    requires run < |s.db.runs| && IsTerminal(s.db.runs[run].status)
    ensures run < |Next(digest, s, step).db.runs|
    ensures Next(digest, s, step).db.runs[run].status ==
      if step.WriteQueueFailure? && step.run == run then Failed else s.db.runs[run].status
  {
    if step.PersistPayload? {
      PersistTerminal(digest, s.db, step.run, step.payload);
      hide Persisted, IsTerminal;
    } else if step.CreateRun? {
      ActiveRunMeaning(s.db.runs, step.source);
    } else {
      hide Persisted;
    }
  }

  /** A run that stored results and has failed stays so. */
  lemma {:induction false} BrokenStays(digest: Digest, s: Sys, steps: seq<Step>, s': Sys, run: RunId)
    requires Leads(digest, s, steps, s')
    requires run in s.stored && StatusOf(s.db, run) == Some(Failed)
    ensures run in s'.stored && StatusOf(s'.db, run) == Some(Failed)
    decreases |steps|
  {
    if steps != [] {
      TerminalStep(digest, s, steps[0], run);
      assert run in Next(digest, s, steps[0]).stored by { hide Persisted; }
      hide Next, Enabled;
      BrokenStays(digest, Next(digest, s, steps[0]), steps[1..], s', run);
    }
  }

  /* ------------------------- all runs of the backend ------------------------- */

  lemma {:induction false} LeadsSnoc(digest: Digest, s: Sys, steps: seq<Step>, m: Sys, step: Step)
    requires Leads(digest, s, steps, m) && Enabled(m, step)
    ensures Leads(digest, s, steps + [step], Next(digest, m, step))
    decreases |steps|
  {
    hide Next, Enabled;
    if steps == [] {
      assert steps + [step] == [step] && [step][1..] == [];
    } else {
      LeadsSnoc(digest, Next(digest, s, steps[0]), steps[1..], m, step);
      assert (steps + [step])[1..] == steps[1..] + [step];
    }
  }

  lemma {:induction false} LifecycleAlways(digest: Digest, s: Sys, steps: seq<Step>, s': Sys)
    requires Lifecycle(s) && Leads(digest, s, steps, s')
    ensures Lifecycle(s')
    decreases |steps|
  {
    hide Lifecycle, Next, Enabled;
    if steps != [] {
      LifecycleKeeps(digest, s, steps[0]);
      LifecycleAlways(digest, Next(digest, s, steps[0]), steps[1..], s');
    }
  }

  /** After any run of the backend the invariant holds exactly when no failure write hit a
      run whose results are stored. */
  lemma {:induction false} AlwaysExact(digest: Digest, s: Sys, steps: seq<Step>, s': Sys)
    requires SysInv(s) && Leads(digest, s, steps, s')
    ensures SysInv(s') <==> SparesResults(digest, s, steps)
    decreases |steps|
  {
    hide Lifecycle, Inv, Next, Enabled, Hits, SparesResults;
    if steps == [] {
      NothingHit(digest, s);
    } else {
      var m := Next(digest, s, steps[0]);
      StepKeepsExact(digest, s, steps[0]);
      SparesFirst(digest, s, steps);
      if run: RunId :| Hits(s, steps[0], run, RESULTS) {
        HitBreaks(digest, s, steps[0], run);
        BrokenStays(digest, m, steps[1..], s', run);
      } else {
        AlwaysExact(digest, m, steps[1..], s');
      }
    }
  }

  lemma NothingHit(digest: Digest, s: Sys)
    ensures SparesResults(digest, s, [])
  {
  }
}
