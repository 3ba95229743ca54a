/** The runner's cycle on the backend: what becomes of a due schedule follows from the runs of its source. */
module ScheduledRuns {
  import opened Support
  import opened Tables
  import opened ListingIdentity
  import opened Persistence
  import opened RunLifecycle
  import opened System
  import Sc = Schedules

  /** What the runner meets when it dispatches: no browser, a taken source lock, a queue
      that accepts or one that raises. */
  datatype Circumstance = NoBrowser | LockTaken | QueueUp | QueueDown(delivered: bool)

  /** The steps of the backend in the turn of a due schedule, and what the runner counts. */
  function Turned(s: Sys, t: Sc.Schedule, c: Circumstance, at: Time): (seq<Step>, Sc.Dispatch)
  {
    var create, record :=
      CreateRun(t.source, t.details, t.preset), RecordScheduleFailure(t.source, t.details, t.preset, at);
    var found := RunLifecycle.Create(s.db, t.source, t.details, t.preset).1;
    match c
    case NoBrowser => ([record], Sc.Failed)
    case LockTaken => ([], Sc.Locked)
    case QueueUp =>
      if found.Created? then ([create, EnqueueAccepted(found.run)], Sc.Enqueued)
      else if found.Deduplicated? then ([create], Sc.Deduplicated)
      else ([record], Sc.Failed)
    case QueueDown(delivered) =>
      if found.Created? then
        ([create, EnqueueRaised(found.run, delivered), WriteQueueFailure(found.run, at), record], Sc.Failed)
      else if found.Deduplicated? then ([create], Sc.Deduplicated)
      else ([record], Sc.Failed)
  }

  function Ran(digest: Digest, s: Sys, steps: seq<Step>): Sys
    decreases |steps|
  {
    if steps == [] then s else Ran(digest, Next(digest, s, steps[0]), steps[1..])
  }

  ghost predicate NoActive(s: Sys, source: SourceId)
  {
    forall r :: 0 <= r < |s.db.runs| ==> !(s.db.runs[r].source == source && IsActive(s.db.runs[r].status))
  }

  /** The source has an active run with the options of the schedule. */
  ghost predicate ActiveAlike(s: Sys, t: Sc.Schedule)
  {
    exists r :: 0 <= r < |s.db.runs| && s.db.runs[r].source == t.source && IsActive(s.db.runs[r].status)
                && s.db.runs[r].collectDetails == t.details && s.db.runs[r].delayPreset == t.preset
  }

  function Recorded(t: Sc.Schedule, status: Status, at: Option<Time>): Run
  {
    Run(t.source, status, t.details, t.preset, 0, at)
  }

  /** What a turn leaves behind, by what the runner counts. */
  ghost predicate TurnEnds(s: Sys, s': Sys, t: Sc.Schedule, outcome: Sc.Dispatch, at: Time)
  {
    match outcome
    case Enqueued =>
      s'.db == s.db.(runs := s.db.runs + [Recorded(t, Queued, None)]) && |s.db.runs| in s'.pending
    case Failed =>
      || s'.db == s.db.(runs := s.db.runs + [Recorded(t, Failed, Some(at))])
      || (NoActive(s, t.source)
          && s'.db == s.db.(runs := s.db.runs + [Recorded(t, Failed, Some(at)), Recorded(t, Failed, Some(at))]))
    case _ => s' == s
  }

  lemma CreateMeaning(s: Sys, t: Sc.Schedule)
    requires OneActive(s.db.runs) && t.source in s.db.sources
    ensures var outcome := RunLifecycle.Create(s.db, t.source, t.details, t.preset).1;
      && (outcome.Created? <==> NoActive(s, t.source))
      && (outcome.Created? ==> outcome.run == |s.db.runs|)
      && (outcome.Deduplicated? <==> ActiveAlike(s, t))
      && !outcome.SourceNotFound?
  {
    ActiveRunMeaning(s.db.runs, t.source);
    hide ActiveRun;
  }

  /** The steps can happen one after the other and hit no stored results. */
  ghost predicate Runs(digest: Digest, s: Sys, steps: seq<Step>)
  {
    Leads(digest, s, steps, Ran(digest, s, steps)) && SparesResults(digest, s, steps)
  }

  lemma RunsNone(digest: Digest, s: Sys)
    ensures Runs(digest, s, []) && Ran(digest, s, []) == s
  {
    NothingHit(digest, s);
  }

  lemma RunsCons(digest: Digest, s: Sys, step: Step, rest: seq<Step>)
    requires Enabled(s, step) && Runs(digest, Next(digest, s, step), rest)
    requires forall run: RunId :: !Hits(s, step, run, RESULTS)
    ensures Runs(digest, s, [step] + rest) && Ran(digest, s, [step] + rest) == Ran(digest, Next(digest, s, step), rest)
  {
    hide Next, Enabled, Hits, SparesResults;
    assert ([step] + rest)[1..] == rest && ([step] + rest)[0] == step;
    SparesFirst(digest, s, [step] + rest);
  }

  lemma RunsOne(digest: Digest, s: Sys, step: Step)
    requires Enabled(s, step) && forall run: RunId :: !Hits(s, step, run, RESULTS)
    ensures Runs(digest, s, [step]) && Ran(digest, s, [step]) == Next(digest, s, step)
  {
    hide *;
    RunsNone(digest, Next(digest, s, step));
    RunsCons(digest, s, step, []);
    assert [step] + [] == [step];
  }

  /** Recording a failed run. */
  lemma RecordRuns(digest: Digest, s: Sys, t: Sc.Schedule, at: Time)
    requires t.source in s.db.sources
    ensures var record := RecordScheduleFailure(t.source, t.details, t.preset, at);
      && Runs(digest, s, [record])
      && Ran(digest, s, [record]) == s.(db := s.db.(runs := s.db.runs + [Recorded(t, Failed, Some(at))]))
  {
    hide Leads, SparesResults, Runs;
    RunsOne(digest, s, RecordScheduleFailure(t.source, t.details, t.preset, at));
  }

  /** An active run is found. */
  lemma FoundRuns(digest: Digest, s: Sys, t: Sc.Schedule)
    requires ActiveRun(s.db.runs, t.source).Some?
    ensures var create := CreateRun(t.source, t.details, t.preset);
      Runs(digest, s, [create]) && Ran(digest, s, [create]) == s
  {
    hide Leads, SparesResults, Runs, ActiveRun;
    RunsOne(digest, s, CreateRun(t.source, t.details, t.preset));
  }

  /** The backend after a run was created. */
  function WithRun(s: Sys, t: Sc.Schedule): Sys
  {
    s.(db := s.db.(runs := s.db.runs + [Recorded(t, Queued, None)]), creating := s.creating + {|s.db.runs|})
  }

  lemma CreateRuns(digest: Digest, s: Sys, t: Sc.Schedule)
    requires ActiveRun(s.db.runs, t.source).None? && t.source in s.db.sources
    ensures var create := CreateRun(t.source, t.details, t.preset);
      Enabled(s, create) && Next(digest, s, create) == WithRun(s, t)
      && forall run: RunId :: !Hits(s, create, run, RESULTS)
  {
    hide ActiveRun;
  }

  /** A run is created and the queue accepts it. */
  lemma AcceptedRuns(digest: Digest, s: Sys, t: Sc.Schedule)
    requires ActiveRun(s.db.runs, t.source).None? && t.source in s.db.sources
    ensures var n := |s.db.runs|;
      var steps := [CreateRun(t.source, t.details, t.preset), EnqueueAccepted(n)];
      var s' := Ran(digest, s, steps);
      && Runs(digest, s, steps)
      && s'.db == s.db.(runs := s.db.runs + [Recorded(t, Queued, None)]) && n in s'.pending
  {
    var n, m := |s.db.runs|, WithRun(s, t);
    CreateRuns(digest, s, t);
    assert Enabled(m, EnqueueAccepted(n)) && forall run: RunId :: !Hits(m, EnqueueAccepted(n), run, RESULTS);
    assert Next(digest, m, EnqueueAccepted(n)).db == m.db && n in Next(digest, m, EnqueueAccepted(n)).pending;
    hide Next, Enabled, Hits, Runs, Ran;
    RunsOne(digest, m, EnqueueAccepted(n));
    RunsCons(digest, s, CreateRun(t.source, t.details, t.preset), [EnqueueAccepted(n)]);
    assert [CreateRun(t.source, t.details, t.preset)] + [EnqueueAccepted(n)]
        == [CreateRun(t.source, t.details, t.preset), EnqueueAccepted(n)];
  }

  /** A run is created and the queue raises: the creator's write and the runner's record follow. */
  lemma RefusedRuns(digest: Digest, s: Sys, t: Sc.Schedule, delivered: bool, at: Time)
    requires ActiveRun(s.db.runs, t.source).None? && t.source in s.db.sources
    ensures var n := |s.db.runs|;
      var steps := [CreateRun(t.source, t.details, t.preset), EnqueueRaised(n, delivered), WriteQueueFailure(n, at),
                    RecordScheduleFailure(t.source, t.details, t.preset, at)];
      && Runs(digest, s, steps)
      && Ran(digest, s, steps).db
         == s.db.(runs := s.db.runs + [Recorded(t, Failed, Some(at)), Recorded(t, Failed, Some(at))])
  {
    var n, m := |s.db.runs|, WithRun(s, t);
    var create, raise, write, record := CreateRun(t.source, t.details, t.preset), EnqueueRaised(n, delivered),
      WriteQueueFailure(n, at), RecordScheduleFailure(t.source, t.details, t.preset, at);
    CreateRuns(digest, s, t);
    var m1 := Next(digest, m, raise);
    var m2 := Next(digest, m1, write);
    RefusalSteps(digest, s, t, delivered, at);
    hide Next, Enabled, Hits, Runs, Ran, WithRun, Recorded;
    RecordRuns(digest, m2, t, at);
    RunsCons(digest, m1, write, [record]);
    RunsCons(digest, m, raise, [write] + [record]);
    RunsCons(digest, s, create, [raise] + ([write] + [record]));
    assert [create] + ([raise] + ([write] + [record])) == [create, raise, write, record];
    TwoRecorded(s.db.runs, Recorded(t, Failed, Some(at)));
  }

  lemma TwoRecorded(runs: seq<Run>, r: Run)
    ensures runs + [r] + [r] == runs + [r, r]
  {
  }

  lemma RefusalSteps(digest: Digest, s: Sys, t: Sc.Schedule, delivered: bool, at: Time)
    requires t.source in s.db.sources
    ensures var n, m := |s.db.runs|, WithRun(s, t);
      var m1 := Next(digest, m, EnqueueRaised(n, delivered));
      var m2 := Next(digest, m1, WriteQueueFailure(n, at));
      && Enabled(m, EnqueueRaised(n, delivered)) && Enabled(m1, WriteQueueFailure(n, at))
      && (forall run: RunId :: !Hits(m, EnqueueRaised(n, delivered), run, RESULTS))
      && (forall run: RunId :: !Hits(m1, WriteQueueFailure(n, at), run, RESULTS))
      && m2.db == s.db.(runs := s.db.runs + [Recorded(t, Failed, Some(at))]) && t.source in m2.db.sources
  {
  }

  lemma NoneIsNoActive(s: Sys, source: SourceId)
    ensures ActiveRun(s.db.runs, source).None? <==> NoActive(s, source)
  {
    ActiveRunMeaning(s.db.runs, source);
    hide ActiveRun;
  }

  /** A turn is a run of the backend that hits no stored results. It is counted as enqueued exactly when
      the queue accepts and the source has no active run, as deduplicated exactly when an active run has
      the schedule's options, and a turn that fails leaves a failed run behind. */
  lemma TurnMeaning(digest: Digest, s: Sys, t: Sc.Schedule, c: Circumstance, at: Time)
    requires Lifecycle(s) && t.source in s.db.sources
    ensures var (steps, outcome) := Turned(s, t, c, at);
      && Runs(digest, s, steps)
      && (outcome == Sc.Locked <==> c.LockTaken?)
      && (outcome == Sc.Enqueued <==> c.QueueUp? && NoActive(s, t.source))
      && (outcome == Sc.Deduplicated <==> (c.QueueUp? || c.QueueDown?) && ActiveAlike(s, t))
      && TurnEnds(s, Ran(digest, s, steps), t, outcome, at)
  {
    assert OneActive(s.db.runs);
    hide Lifecycle, OneActive, NoActive, ActiveAlike, Runs, Ran, RunLifecycle.Create, Recorded, ActiveRun;
    CreateMeaning(s, t);
    NoneIsNoActive(s, t.source);
    RunsNone(digest, s);
    RecordRuns(digest, s, t, at);
    if ActiveRun(s.db.runs, t.source).Some? {
      FoundRuns(digest, s, t);
    } else {
      AcceptedRuns(digest, s, t);
      if c.QueueDown? {
        RefusedRuns(digest, s, t, c.delivered, at);
      }
    }
  }

  /* ------------------------- a whole cycle ------------------------- */

  /** A due schedule in its turn; `between` is what the rest of the backend does since the turn before. */
  datatype Turn = Turn(between: seq<Step>, id: Sc.ScheduleId, circumstance: Circumstance)

  /** The steps of a cycle, and what the runner counts for each schedule. */
  function Cycle(digest: Digest, table: map<Sc.ScheduleId, Sc.Schedule>, s: Sys, turns: seq<Turn>, at: Time)
    : (seq<Step>, map<Sc.ScheduleId, Sc.Dispatch>)
    requires forall i :: 0 <= i < |turns| ==> turns[i].id in table
    decreases |turns|
  {
    if turns == [] then ([], map[])
    else
      var m := Ran(digest, s, turns[0].between);
      var (steps, outcome) := Turned(m, table[turns[0].id], turns[0].circumstance, at);
      var (rest, outcomes) := Cycle(digest, table, Ran(digest, m, steps), turns[1..], at);
      (turns[0].between + steps + rest, outcomes[turns[0].id := outcome])
  }

  ghost predicate Possible(digest: Digest, s: Sys, steps: seq<Step>)
  {
    Leads(digest, s, steps, Ran(digest, s, steps))
  }

  /** What happens between the turns can happen. */
  ghost predicate Interleaved(digest: Digest, table: map<Sc.ScheduleId, Sc.Schedule>, s: Sys, turns: seq<Turn>,
                              at: Time)
    requires forall i :: 0 <= i < |turns| ==> turns[i].id in table
    decreases |turns|
  {
    turns != [] ==>
      var m := Ran(digest, s, turns[0].between);
      var steps := Turned(m, table[turns[0].id], turns[0].circumstance, at).0;
      && Possible(digest, s, turns[0].between)
      && Interleaved(digest, table, Ran(digest, m, steps), turns[1..], at)
  }

  lemma {:induction false} PossibleConcat(digest: Digest, s: Sys, a: seq<Step>, b: seq<Step>)
    requires Possible(digest, s, a) && Possible(digest, Ran(digest, s, a), b)
    ensures Possible(digest, s, a + b) && Ran(digest, s, a + b) == Ran(digest, Ran(digest, s, a), b)
    decreases |a|
  {
    hide Next, Enabled;
    if a == [] {
      assert a + b == b;
    } else {
      PossibleConcat(digest, Next(digest, s, a[0]), a[1..], b);
      assert (a + b)[1..] == a[1..] + b;
    }
  }

  lemma SourcesStep(digest: Digest, s: Sys, step: Step)
    ensures s.db.sources.Keys <= Next(digest, s, step).db.sources.Keys
  {
    if step.PersistPayload? {
      PersistedSources(digest, s.db, step.run, step.payload);
      hide Persisted;
    } else {
      WriteMoves(digest, s, step);
      hide Next;
    }
  }

  lemma PersistedSources(digest: Digest, db: Db, run: RunId, p: Payload)
    ensures var r := Persisted(digest, db, run, p); r.Ok? ==> db.sources.Keys <= r.value.sources.Keys
  {
    hide StoreListings, StoreAbsences;
  }

  lemma {:induction false} SourcesStay(digest: Digest, s: Sys, steps: seq<Step>)
    ensures s.db.sources.Keys <= Ran(digest, s, steps).db.sources.Keys
    decreases |steps|
  {
    hide Next;
    if steps != [] {
      SourcesStep(digest, s, steps[0]);
      SourcesStay(digest, Next(digest, s, steps[0]), steps[1..]);
    }
  }

  /** A turn after what happened since the one before. */
  lemma TurnAfter(digest: Digest, s: Sys, between: seq<Step>, t: Sc.Schedule, c: Circumstance, at: Time)
    requires Lifecycle(s) && Possible(digest, s, between) && t.source in s.db.sources
    ensures var m := Ran(digest, s, between);
      var steps := Turned(m, t, c, at).0;
      var n := Ran(digest, m, steps);
      && Possible(digest, s, between + steps) && Ran(digest, s, between + steps) == n
      && Lifecycle(n) && s.db.sources.Keys <= n.db.sources.Keys
  {
    hide Lifecycle, Turned, Ran, Leads, SparesResults, TurnEnds, NoActive, ActiveAlike;
    var m := Ran(digest, s, between);
    var steps := Turned(m, t, c, at).0;
    LifecycleAlways(digest, s, between, m);
    SourcesStay(digest, s, between);
    TurnMeaning(digest, m, t, c, at);
    LifecycleAlways(digest, m, steps, Ran(digest, m, steps));
    SourcesStay(digest, m, steps);
    PossibleConcat(digest, s, between, steps);
  }

  /** A cycle, however the rest of the backend runs in between, is a run of the backend. */
  lemma {:induction false} CycleLeads(digest: Digest, table: map<Sc.ScheduleId, Sc.Schedule>, s: Sys, turns: seq<Turn>,
                                      at: Time)
    requires Lifecycle(s)
    requires forall i :: 0 <= i < |turns| ==>
      turns[i].id in table && table[turns[i].id].source in s.db.sources
    requires Interleaved(digest, table, s, turns, at)
    ensures Possible(digest, s, Cycle(digest, table, s, turns, at).0)
    ensures forall i :: 0 <= i < |turns| ==> turns[i].id in Cycle(digest, table, s, turns, at).1
    decreases |turns|
  {
    if turns == [] {
      RunsNone(digest, s);
    } else {
      var t := table[turns[0].id];
      var m := Ran(digest, s, turns[0].between);
      var steps := Turned(m, t, turns[0].circumstance, at).0;
      var n := Ran(digest, m, steps);
      hide Lifecycle, Turned, Ran, Possible;
      TurnAfter(digest, s, turns[0].between, t, turns[0].circumstance, at);
      CycleLeads(digest, table, n, turns[1..], at);
      hide Interleaved;
      PossibleConcat(digest, s, turns[0].between + steps, Cycle(digest, table, n, turns[1..], at).0);
    }
  }

  function IdsOf(turns: seq<Turn>): seq<Sc.ScheduleId>
  {
    seq(|turns|, i requires 0 <= i < |turns| => turns[i].id)
  }

  lemma IdsMeaning(turns: seq<Turn>)
    ensures |IdsOf(turns)| == |turns| && forall i :: 0 <= i < |turns| ==> turns[i].id in IdsOf(turns)
    ensures forall id :: id in IdsOf(turns) ==> exists i :: 0 <= i < |turns| && turns[i].id == id
  {
    forall i | 0 <= i < |turns| ensures turns[i].id in IdsOf(turns) {
      assert IdsOf(turns)[i] == turns[i].id;
    }
  }

  /** The schedules of the turns with this outcome. */
  function With(turns: seq<Turn>, outcomes: map<Sc.ScheduleId, Sc.Dispatch>, d: Sc.Dispatch): set<Sc.ScheduleId>
  {
    set id | id in IdsOf(turns) && id in outcomes && outcomes[id] == d
  }

  lemma Counted(turns: seq<Turn>, outcomes: map<Sc.ScheduleId, Sc.Dispatch>, dispatch: Sc.ScheduleId -> Sc.Dispatch,
                d: Sc.Dispatch)
    requires Distinct(IdsOf(turns))
    requires forall id :: id in IdsOf(turns) ==> id in outcomes && dispatch(id) == outcomes[id]
    ensures Sc.CountOf(IdsOf(turns), dispatch, d) == |With(turns, outcomes, d)|
  {
    Sc.CountOfDistinct(IdsOf(turns), dispatch, d);
    hide IdsOf;
    assert With(turns, outcomes, d) == set id | id in IdsOf(turns) && dispatch(id) == d;
  }

  /** `enqueue_due` on the backend: the table moves as the dispatch outcomes say, and these are the
      outcomes of turns that, with whatever runs in between, are a run of the backend. */
  method RunCycle(table: Sc.ScheduleTable, digest: Digest, s: Sys, turns: seq<Turn>, sources: set<SourceId>, now: int)
    returns (counts: Sc.Counts, outcomes: map<Sc.ScheduleId, Sc.Dispatch>, steps: seq<Step>)
    requires table.Valid() && Lifecycle(s) && sources <= s.db.sources.Keys
    requires Distinct(IdsOf(turns))
    requires forall id :: id in IdsOf(turns) <==>
      id in table.schedules && table.schedules[id].enabled && table.schedules[id].nextRunAt <= now
      && table.schedules[id].source in sources
    requires forall i :: 0 <= i < |turns| ==> turns[i].id in table.schedules
    requires Interleaved(digest, table.schedules, s, turns, now)
    modifies table`schedules
    ensures table.Valid()
    ensures (steps, outcomes) == Cycle(digest, old(table.schedules), s, turns, now)
    ensures Leads(digest, s, steps, Ran(digest, s, steps))
    ensures counts.due == |turns| == counts.enqueued + counts.deduplicated + counts.locked + counts.failed
    ensures counts.enqueued == |With(turns, outcomes, Sc.Enqueued)|
    ensures counts.locked == |With(turns, outcomes, Sc.Locked)|
    ensures counts.deduplicated == |With(turns, outcomes, Sc.Deduplicated)|
    ensures forall id :: id in old(table.schedules) && id !in IdsOf(turns) ==>
      id in table.schedules && table.schedules[id] == old(table.schedules)[id]
    ensures forall id :: id in IdsOf(turns) ==>
      && id in outcomes && id in old(table.schedules) && Sc.Legal(old(table.schedules)[id].rule)
      && id in table.schedules && table.schedules[id] == Sc.Rescheduled(old(table.schedules)[id], outcomes[id], now)
  {
    hide Lifecycle, Leads, Cycle, Interleaved, Sc.ScheduleOk, Sc.Rescheduled, Sc.Legal, Sc.CountOf;
    IdsMeaning(turns);
    CycleLeads(digest, table.schedules, s, turns, now);
    var (taken, dispatched) := Cycle(digest, table.schedules, s, turns, now);
    steps, outcomes := taken, dispatched;
    var dispatch := id => if id in dispatched then dispatched[id] else Sc.Failed;
    Counted(turns, outcomes, dispatch, Sc.Enqueued);
    Counted(turns, outcomes, dispatch, Sc.Deduplicated);
    Counted(turns, outcomes, dispatch, Sc.Locked);
    counts := table.EnqueueDue(IdsOf(turns), sources, dispatch, now);
  }
}
