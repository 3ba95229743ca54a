/** Creating, claiming, advancing, failing and cancelling crawl runs: each write as one step on the tables. */
module RunLifecycle {
  import opened Support
  import opened Tables
  import opened ListingTrack
  import opened Persistence
  import opened SourceHistory
  import opened TrackStep

  datatype CreateOutcome = Created(run: RunId) | Deduplicated(run: RunId) | OptionConflict | SourceNotFound

  /** `_active_run`: the newest queued or running run of a source. */
  function ActiveRun(runs: seq<Run>, source: SourceId): Option<RunId>
  {
    if runs == [] then None
    else
      var n := |runs| - 1;
      if runs[n].source == source && IsActive(runs[n].status) then Some(n) else ActiveRun(runs[..n], source)
  }

  lemma {:induction false} ActiveRunMeaning(runs: seq<Run>, source: SourceId)
    ensures var r := ActiveRun(runs, source);
      && (r.Some? ==> r.value < |runs| && runs[r.value].source == source && IsActive(runs[r.value].status))
      && (r.None? <==> forall i :: 0 <= i < |runs| ==> !(runs[i].source == source && IsActive(runs[i].status)))
  {
    if runs != [] {
      ActiveRunMeaning(runs[..|runs| - 1], source);
    }
  }

  /** `_create_for_source`: the partial unique index lets at most one active run of a source commit,
      so a second request, concurrent or later, gets the first one's run. */
  function Create(db: Db, source: SourceId, details: bool, preset: nat): (Db, CreateOutcome)
  {
    if source !in db.sources then (db, SourceNotFound)
    else
      match ActiveRun(db.runs, source)
      case Some(r) =>
        (db, if r < |db.runs| && db.runs[r].collectDetails == details && db.runs[r].delayPreset == preset
             then Deduplicated(r) else OptionConflict)
      case None =>
        (db.(runs := db.runs + [Run(source, Queued, details, preset, 0, None)]), Created(|db.runs|))
  }

  /** A queued or running run of the source. */
  ghost predicate Unended(db: Db, source: SourceId, i: RunId)
  {
    i < |db.runs| && db.runs[i].source == source && db.runs[i].status in {Queued, Running}
  }

  /** A request adds a queued run as it was asked for exactly if the source is known and has no unended run; otherwise
      nothing changes, and the answer names an unended run with the options asked for or tells that they differ. */
  lemma CreateTold(db: Db, source: SourceId, details: bool, preset: nat)
    ensures var (db', outcome) := Create(db, source, details, preset);
      && (source !in db.sources ==> db' == db && outcome == SourceNotFound)
      && (source in db.sources && (exists i: RunId :: Unended(db, source, i)) ==>
            && db' == db
            && exists i: RunId :: Unended(db, source, i)
                 && (if db.runs[i].collectDetails == details && db.runs[i].delayPreset == preset
                     then outcome == Deduplicated(i) else outcome == OptionConflict))
      && (source in db.sources && (forall i: RunId :: !Unended(db, source, i)) ==>
            outcome == Created(|db.runs|)
            && db' == db.(runs := db.runs + [Run(source, Queued, details, preset, 0, None)]))
  {
    ActiveRunMeaning(db.runs, source);
    var active := ActiveRun(db.runs, source);
    if active.Some? {
      assert Unended(db, source, active.value);
    }
    hide ActiveRun;
  }

  function SetRun(db: Db, run: RunId, r: Run): Db
    requires run < |db.runs|
  {
    db.(runs := db.runs[run := r])
  }

  /** `_claim_run`: queued to running, by compare and set. */
  function Claim(db: Db, run: RunId): Db
  {
    if run < |db.runs| && db.runs[run].status == Queued
    then SetRun(db, run, db.runs[run].(status := Running, progress := 1)) else db
  }

  /** `_update_progress`. */
  function Advance(db: Db, run: RunId, progress: nat): Db
  {
    if run < |db.runs| && db.runs[run].status == Running
    then SetRun(db, run, db.runs[run].(progress := progress)) else db
  }

  /** `mark_run_terminal`. */
  function MarkTerminal(db: Db, run: RunId, blocked: bool, at: Time): Db
  {
    if run >= |db.runs| || IsTerminal(db.runs[run].status) then db
    else SetRun(db, run, db.runs[run].(status := if blocked then Blocked else Failed, finishedAt := Some(at)))
  }

  /** `cancel`, as one check and set. */
  function Cancel(db: Db, run: RunId, at: Time): Db
  {
    if run < |db.runs| && db.runs[run].status == Queued
    then SetRun(db, run, db.runs[run].(status := Cancelled, finishedAt := Some(at))) else db
  }

  /** The creator's write after its enqueue raised: it does not look at the current status. */
  function QueueFailure(db: Db, run: RunId, at: Time): Db
  {
    if run < |db.runs| then SetRun(db, run, db.runs[run].(status := Failed, finishedAt := Some(at))) else db
  }

  /** A failed run recorded by the schedule runner. */
  function RecordFailure(db: Db, source: SourceId, details: bool, preset: nat, at: Time): Db
  {
    db.(runs := db.runs + [Run(source, Failed, details, preset, 0, Some(at))])
  }

  /* ------------------------- writes that touch no result ------------------------- */

  /** Only runs change, and no run with results changes, appears or disappears. */
  ghost predicate Quiet(db: Db, db': Db)
  {
    && db' == db.(runs := db'.runs, sources := db'.sources)
    && (forall s :: s in db.sources ==> s in db'.sources && db'.sources[s] == db.sources[s])
    && |db.runs| <= |db'.runs|
    && (forall r :: 0 <= r < |db.runs| ==>
          db'.runs[r].source == db.runs[r].source && db'.runs[r].collectDetails == db.runs[r].collectDetails)
    && (forall r :: 0 <= r < |db.runs| && (IsResult(db.runs[r].status) || IsResult(db'.runs[r].status)) ==>
          db'.runs[r] == db.runs[r])
    && (forall r :: |db.runs| <= r < |db'.runs| ==> !IsResult(db'.runs[r].status))
  }

  lemma {:induction false} QuietShown(db: Db, db': Db, run: RunId, n: nat)
    requires Quiet(db, db') && n <= |db.snapshots|
    ensures Shown(db', run, n) == Shown(db, run, n)
  {
    if n > 0 {
      QuietShown(db, db', run, n - 1);
      assert RunArticles(db', db.snapshots[n - 1].run, db.snapshots[n - 1].group)
          == RunArticles(db, db.snapshots[n - 1].run, db.snapshots[n - 1].group);
    }
  }

  lemma {:induction false} QuietHistory(db: Db, db': Db, source: SourceId, n: nat)
    requires Quiet(db, db') && n <= |db'.runs|
    ensures History(db', source, n) == History(db, source, if n <= |db.runs| then n else |db.runs|)
  {
    if n > 0 {
      QuietHistory(db, db', source, n - 1);
      if n <= |db.runs| {
        QuietShown(db, db', n - 1, |db.snapshots|);
      }
    }
  }

  lemma {:induction false} QuietLatest(db: Db, db': Db, source: SourceId, g: GroupId, n: nat)
    requires Quiet(db, db') && SnapshotsOk(db) && n <= |db.snapshots|
    ensures LatestComplete(db', source, g, |db'.runs|, n) == LatestComplete(db, source, g, |db.runs|, n)
  {
    if n > 0 {
      QuietLatest(db, db', source, g, n - 1);
      assert SnapshotOk(db, db.snapshots[n - 1]);
    }
  }

  lemma QuietStored(db: Db, db': Db, source: SourceId, g: GroupId)
    requires Quiet(db, db') && SnapshotsOk(db) && EventsOk(db)
    ensures Stored(db', source, g) == Stored(db, source, g)
  {
    QuietLatest(db, db', source, g, |db.snapshots|);
    if LatestComplete(db, source, g, |db.runs|, |db.snapshots|).Some? {
      var i := LatestMember(db, source, g, |db.runs|, |db.snapshots|);
    }
    EventsOfSame(db.events, RunsOf(db, source), RunsOf(db', source), g);
  }

  /** Such writes keep the invariant and every history. */
  lemma QuietKeeps(db: Db, db': Db)
    requires Inv(db) && Quiet(db, db') && RunsOk(db')
    ensures Inv(db')
    ensures forall s :: HistoryOf(db', s) == HistoryOf(db, s)
  {
    forall s ensures HistoryOf(db', s) == HistoryOf(db, s) {
      QuietHistory(db, db', s, |db'.runs|);
    }
    forall s, g ensures Stored(db', s, g) == After(HistoryOf(db', s), g) {
      QuietStored(db, db', s, g);
    }
    QuietTables(db, db');
    QuietClocks(db, db');
  }

  lemma QuietTables(db: Db, db': Db)
    requires TablesOk(db) && Quiet(db, db') && RunsOk(db')
    ensures TablesOk(db')
  {
    forall i | 0 <= i < |db.snapshots| ensures SnapshotOk(db', db'.snapshots[i]) {
      assert SnapshotOk(db, db.snapshots[i]);
    }
    forall g | 0 <= g < |db.groups| ensures HasSnapshot(db', g) {
      assert HasSnapshot(db, g);
    }
  }

  lemma QuietClocks(db: Db, db': Db)
    requires ClocksOk(db) && forall s :: HistoryOf(db', s) == HistoryOf(db, s)
    ensures ClocksOk(db')
  {
    forall s ensures Ordered(HistoryOf(db', s)) {
      assert Ordered(HistoryOf(db, s));
    }
  }

  /** Rewriting a run without results, into one without results and no more active, is quiet. */
  lemma SetRunQuiet(db: Db, run: RunId, r: Run)
    requires RunsOk(db) && run < |db.runs|
    requires r.source == db.runs[run].source && r.collectDetails == db.runs[run].collectDetails
    requires !IsResult(db.runs[run].status) && !IsResult(r.status)
    requires IsActive(r.status) ==> IsActive(db.runs[run].status)
    ensures Quiet(db, SetRun(db, run, r)) && RunsOk(SetRun(db, run, r))
  {
  }

  /** So is appending a run without results, if it is not active or its source has no active run. */
  lemma AppendRunQuiet(db: Db, r: Run)
    requires RunsOk(db) && !IsResult(r.status)
    requires IsActive(r.status) ==> ActiveRun(db.runs, r.source).None?
    ensures Quiet(db, db.(runs := db.runs + [r])) && RunsOk(db.(runs := db.runs + [r]))
  {
    ActiveRunMeaning(db.runs, r.source);
  }

  /* ------------------------- every write of a run's life is one of these ------------------------- */

  ghost predicate QuietWrite(db: Db, db': Db)
  {
    Quiet(db, db') && RunsOk(db')
  }

  lemma SameQuiet(db: Db)
    requires RunsOk(db)
    ensures QuietWrite(db, db)
  {
  }

  /** Adding a source, creating a run and recording a failed one. */
  lemma AdditionsQuiet(db: Db, source: SourceId, details: bool, preset: nat, at: Time)
    requires RunsOk(db)
    ensures source !in db.sources ==>
      QuietWrite(db, db.(sources := db.sources[source := None]))
    ensures QuietWrite(db, Create(db, source, details, preset).0)
    ensures QuietWrite(db, RecordFailure(db, source, details, preset, at))
  {
    SameQuiet(db);
    if source in db.sources && ActiveRun(db.runs, source).None? {
      AppendRunQuiet(db, Run(source, Queued, details, preset, 0, None));
    }
    AppendRunQuiet(db, Run(source, Failed, details, preset, 0, Some(at)));
    hide ActiveRun;
  }

  /** Claiming, advancing, failing and cancelling a run, and the creator's failure write
      exactly when the run has no results. */
  lemma RewritesQuiet(db: Db, run: RunId, progress: nat, blocked: bool, at: Time)
    requires RunsOk(db)
    ensures QuietWrite(db, Claim(db, run))
    ensures QuietWrite(db, Advance(db, run, progress))
    ensures QuietWrite(db, MarkTerminal(db, run, blocked, at))
    ensures QuietWrite(db, Cancel(db, run, at))
    ensures QuietWrite(db, QueueFailure(db, run, at)) <==> !(run < |db.runs| && IsResult(db.runs[run].status))
  {
    SameQuiet(db);
    if run < |db.runs| {
      var r := db.runs[run];
      if r.status == Queued {
        SetRunQuiet(db, run, r.(status := Running, progress := 1));
        SetRunQuiet(db, run, r.(status := Cancelled, finishedAt := Some(at)));
      }
      if r.status == Running {
        SetRunQuiet(db, run, r.(progress := progress));
      }
      if !IsTerminal(r.status) {
        SetRunQuiet(db, run, r.(status := if blocked then Blocked else Failed, finishedAt := Some(at)));
      }
      if IsResult(r.status) {
        assert QueueFailure(db, run, at).runs[run].status == Failed;
      } else {
        SetRunQuiet(db, run, r.(status := Failed, finishedAt := Some(at)));
      }
    }
    hide RunsOk;
  }

  /* ------------------------- what every write does to every run ------------------------- */

  ghost predicate OneActive(runs: seq<Run>)
  {
    forall r, r' :: 0 <= r < r' < |runs| && runs[r].source == runs[r'].source && IsActive(runs[r].status)
      ==> !IsActive(runs[r'].status)
  }

  /** How the runs may move under every write but the result transaction. */
  ghost predicate RunMoves(r: Run, r': Run)
  {
    && r'.source == r.source
    && (IsActive(r'.status) ==> IsActive(r.status))
    && (r.status != Queued ==> r'.status != Queued)
    && (IsResult(r'.status) ==> r'.status == r.status)
    && (IsTerminal(r.status) ==> r'.status in {r.status, Failed})
  }

  ghost predicate RunsMove(db: Db, db': Db)
  {
    && db' == db.(runs := db'.runs, sources := db'.sources)
    && (forall s :: s in db.sources ==> s in db'.sources && db'.sources[s] == db.sources[s])
    && |db.runs| <= |db'.runs|
    && (forall r :: 0 <= r < |db.runs| ==> RunMoves(db.runs[r], db'.runs[r]))
    && (forall r :: |db.runs| <= r < |db'.runs| ==> !IsResult(db'.runs[r].status))
    && (OneActive(db.runs) ==> OneActive(db'.runs))
  }

  lemma SameMoves(db: Db)
    ensures RunsMove(db, db)
  {
  }

  lemma SetRunMoves(db: Db, run: RunId, r: Run)
    requires run < |db.runs| && RunMoves(db.runs[run], r)
    ensures RunsMove(db, SetRun(db, run, r))
  {
  }

  lemma AppendRunMoves(db: Db, r: Run)
    requires !IsResult(r.status)
    requires IsActive(r.status) ==> ActiveRun(db.runs, r.source).None?
    ensures RunsMove(db, db.(runs := db.runs + [r]))
  {
    ActiveRunMeaning(db.runs, r.source);
  }

  lemma AdditionsMove(db: Db, source: SourceId, details: bool, preset: nat, at: Time)
    ensures source !in db.sources ==> RunsMove(db, db.(sources := db.sources[source := None]))
    ensures RunsMove(db, Create(db, source, details, preset).0)
    ensures RunsMove(db, RecordFailure(db, source, details, preset, at))
  {
    SameMoves(db);
    if ActiveRun(db.runs, source).None? {
      AppendRunMoves(db, Run(source, Queued, details, preset, 0, None));
    }
    AppendRunMoves(db, Run(source, Failed, details, preset, 0, Some(at)));
    hide ActiveRun, OneActive;
  }

  /** Claiming, advancing, failing, cancelling and the creator's failure write, whatever they find. */
  lemma RewritesMove(db: Db, run: RunId, progress: nat, blocked: bool, at: Time)
    ensures RunsMove(db, Claim(db, run))
    ensures RunsMove(db, Advance(db, run, progress))
    ensures RunsMove(db, MarkTerminal(db, run, blocked, at))
    ensures RunsMove(db, Cancel(db, run, at))
    ensures RunsMove(db, QueueFailure(db, run, at))
  {
    SameMoves(db);
    if run < |db.runs| {
      var r := db.runs[run];
      if r.status == Queued {
        SetRunMoves(db, run, r.(status := Running, progress := 1));
        SetRunMoves(db, run, r.(status := Cancelled, finishedAt := Some(at)));
      }
      if r.status == Running {
        SetRunMoves(db, run, r.(progress := progress));
      }
      if !IsTerminal(r.status) {
        SetRunMoves(db, run, r.(status := if blocked then Blocked else Failed, finishedAt := Some(at)));
      }
      SetRunMoves(db, run, r.(status := Failed, finishedAt := Some(at)));
    }
    hide RunsMove;
  }
}
