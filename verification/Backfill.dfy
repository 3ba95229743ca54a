/** The one-shot migration that rebuilds the visibility rows from runs and snapshots. */
module Backfill {
  import opened Support
  import opened Comparator
  import opened Tables
  import opened ListingTrack
  import opened Persistence
  import opened SourceHistory
  import opened PastSnapshots

  datatype RunRow = RunRow(run: RunId, source: SourceId, completed: bool, createdAt: Time, finishedAt: Option<Time>)

  datatype SnapshotRow = SnapshotRow(run: RunId, group: GroupId, at: Time)

  type Lives = map<(SourceId, GroupId), StateRow>

  /* ------------------------- the fold the migration computes ------------------------- */

  /** The latest capture time of a group in a run. */
  function SeenAt(snapshots: seq<SnapshotRow>, run: RunId, g: GroupId): Option<Time>
  {
    if snapshots == [] then None
    else
      var s, rest := snapshots[|snapshots| - 1], SeenAt(snapshots[..|snapshots| - 1], run, g);
      if s.run == run && s.group == g && (rest.None? || s.at > rest.value) then Some(s.at) else rest
  }

  function TransitionAt(r: RunRow): Time
  {
    if r.finishedAt.Some? then r.finishedAt.value else r.createdAt
  }

  function Seen(life: Option<StateRow>, at: Time): StateRow
  {
    match life
    case None => StateRow(Active, 0, at, at, None, at)
    case Some(s) => s.(visibility := Active, missingCount := 0, lastSeenAt := at, removedAt := None, updatedAt := at)
  }

  /** A completed run without the group: the counter is not capped, and each further miss moves the removal time. */
  function Missed(s: StateRow, at: Time): StateRow
  {
    var count := s.missingCount + 1;
    s.(missingCount := count, visibility := if count >= 2 then Removed else Missing,
       removedAt := if count >= 2 then Some(at) else None, updatedAt := at)
  }

  function LifeStep(life: Option<StateRow>, r: RunRow, seenAt: Option<Time>): Option<StateRow>
  {
    if seenAt.Some? then Some(Seen(life, seenAt.value))
    else if life.None? || !r.completed then life
    else Some(Missed(life.value, TransitionAt(r)))
  }

  /** The life of a group under a source after the run rows; rows of other sources do not touch it. */
  function Life(rows: seq<RunRow>, snapshots: seq<SnapshotRow>, source: SourceId, g: GroupId): Option<StateRow>
  {
    if rows == [] then None
    else
      var r, rest := rows[|rows| - 1], Life(rows[..|rows| - 1], snapshots, source, g);
      if r.source == source then LifeStep(rest, r, SeenAt(snapshots, r.run, g)) else rest
  }

  /* ------------------------- the loops ------------------------- */

  /** `snapshots_by_run`. */
  method GroupByRun(snapshots: seq<SnapshotRow>) returns (byRun: map<RunId, seq<SnapshotRow>>)
    ensures forall run, g :: SeenAt(Entries(byRun, run), run, g) == SeenAt(snapshots, run, g)
    ensures forall run, i :: run in byRun && 0 <= i < |byRun[run]| ==> byRun[run][i].run == run
  {
    byRun := map[];
    for i := 0 to |snapshots|
      invariant forall run, g :: SeenAt(Entries(byRun, run), run, g) == SeenAt(snapshots[..i], run, g)
      invariant forall run, i :: run in byRun && 0 <= i < |byRun[run]| ==> byRun[run][i].run == run
    {
      var s := snapshots[i];
      assert snapshots[..i + 1][..i] == snapshots[..i];
      var entries := Entries(byRun, s.run);
      assert (entries + [s])[..|entries|] == entries;
      byRun := byRun[s.run := entries + [s]];
    }
    assert snapshots[..|snapshots|] == snapshots;
  }

  function Entries(byRun: map<RunId, seq<SnapshotRow>>, run: RunId): seq<SnapshotRow>
  {
    if run in byRun then byRun[run] else []
  }

  /** `observed`: each group of the run with its latest capture time. */
  method Observe(entries: seq<SnapshotRow>, run: RunId) returns (observed: map<GroupId, Time>)
    requires forall i :: 0 <= i < |entries| ==> entries[i].run == run
    ensures forall g :: Lookup(observed, g) == SeenAt(entries, run, g)
  {
    observed := map[];
    for i := 0 to |entries|
      invariant forall g :: Lookup(observed, g) == SeenAt(entries[..i], run, g)
    {
      var s := entries[i];
      assert entries[..i + 1][..i] == entries[..i];
      assert Lookup(observed, s.group) == SeenAt(entries[..i], run, s.group);
      if s.group !in observed || s.at > observed[s.group] {
        observed := observed[s.group := s.at];
      }
    }
    assert entries[..|entries|] == entries;
  }

  /** A life after the observed groups, except those still to do, were marked. */
  function MarkedSeen(lives: Lives, source: SourceId, observed: map<GroupId, Time>, todo: set<GroupId>,
                      k: (SourceId, GroupId))
    : Option<StateRow>
  {
    if k.0 == source && k.1 in observed && k.1 !in todo then Some(Seen(Lookup(lives, k), observed[k.1]))
    else Lookup(lives, k)
  }

  method MarkSeen(lives: Lives, source: SourceId, observed: map<GroupId, Time>) returns (lives': Lives)
    ensures forall k :: Lookup(lives', k) == MarkedSeen(lives, source, observed, {}, k)
  {
    lives' := lives;
    var todo := observed.Keys;
    while todo != {}
      invariant todo <= observed.Keys
      invariant forall k :: Lookup(lives', k) == MarkedSeen(lives, source, observed, todo, k)
      decreases todo
    {
      var g :| g in todo;
      assert Lookup(lives', (source, g)) == MarkedSeen(lives, source, observed, todo, (source, g));
      ghost var before, left := lives', todo;
      todo := todo - {g};
      if (source, g) !in lives' {
        lives' := lives'[(source, g) := StateRow(Active, 0, observed[g], observed[g], None, observed[g])];
      } else {
        var s := lives'[(source, g)];
        lives' := lives'[(source, g) := s.(visibility := Active, missingCount := 0, lastSeenAt := observed[g],
                                           removedAt := None, updatedAt := observed[g])];
      }
      forall k ensures Lookup(lives', k) == MarkedSeen(lives, source, observed, todo, k) {
        assert Lookup(before, k) == MarkedSeen(lives, source, observed, left, k);
      }
    }
  }

  method MarkMissed(lives: Lives, source: SourceId, observed: map<GroupId, Time>, at: Time) returns (lives': Lives)
    ensures lives'.Keys == lives.Keys
    ensures forall k :: k in lives ==>
      lives'[k] == (if k.0 == source && k.1 !in observed then Missed(lives[k], at) else lives[k])
  {
    lives' := lives;
    var todo := lives.Keys;
    while todo != {}
      invariant todo <= lives.Keys == lives'.Keys
      invariant forall k :: k in lives ==>
        lives'[k] == (if k !in todo && k.0 == source && k.1 !in observed then Missed(lives[k], at) else lives[k])
      decreases todo
    {
      var k :| k in todo;
      todo := todo - {k};
      if k.0 == source && k.1 !in observed {
        lives' := lives'[k := Missed(lives'[k], at)];
      }
    }
  }

  /** `_backfill_source_listing_states`, from the queried rows to the rows it inserts. */
  method BackfillStates(rows: seq<RunRow>, snapshots: seq<SnapshotRow>) returns (lives: Lives)
    ensures forall s, g :: Lookup(lives, (s, g)) == Life(rows, snapshots, s, g)
  {
    var byRun := GroupByRun(snapshots);
    lives := map[];
    for i := 0 to |rows|
      invariant forall s, g :: Lookup(lives, (s, g)) == Life(rows[..i], snapshots, s, g)
    {
      var r := rows[i];
      assert rows[..i + 1][..i] == rows[..i];
      var observed := Observe(Entries(byRun, r.run), r.run);
      ghost var before := lives;
      lives := MarkSeen(lives, r.source, observed);
      ghost var seen := lives;
      if r.completed {
        lives := MarkMissed(lives, r.source, observed, TransitionAt(r));
      }
      forall s, g ensures Lookup(lives, (s, g)) == Life(rows[..i + 1], snapshots, s, g) {
        assert Lookup(before, (s, g)) == Life(rows[..i], snapshots, s, g);
        assert Lookup(observed, g) == SeenAt(snapshots, r.run, g);
        assert Lookup(seen, (s, g)) ==
          if s == r.source && g in observed then Some(Seen(Lookup(before, (s, g)), observed[g]))
          else Lookup(before, (s, g));
      }
    }
    assert rows[..|rows|] == rows;
  }

  /* ------------------------- refinement of the live rows ------------------------- */

  /** What the two machines agree on. The live row caps its counter and keeps the first removal time;
      `until` bounds the removal times. */
  ghost predicate Refines(live: Option<StateRow>, life: Option<StateRow>, until: Time)
  {
    && (live.None? <==> life.None?)
    && (live.Some? ==>
          var a, b := live.value, life.value;
          && a.visibility == b.visibility
          && a.missingCount == (if b.missingCount < 2 then b.missingCount else 2)
          && (a.removedAt.Some? <==> a.visibility == Removed) && (b.removedAt.Some? <==> b.visibility == Removed)
          && (a.visibility == Removed ==> a.removedAt.value <= b.removedAt.value <= until)
          && (b.visibility == Removed <==> b.missingCount >= 2) && (b.visibility == Active <==> b.missingCount == 0)
          && a.firstSeenAt == b.firstSeenAt && a.lastSeenAt == b.lastSeenAt)
  }

  lemma RefinesStep(t: Track, life: Option<StateRow>, o: Observation, r: RunRow, g: GroupId, until: Time)
    requires Refines(t.row, life, until) && until <= o.at
    requires r.completed == o.completed && TransitionAt(r) == o.at
    ensures Refines(AfterRun(t, o, g).row, LifeStep(life, r, if g in o.shown then Some(o.at) else None), o.at)
  {
    hide PresenceEvent, AbsenceEvent;
  }

  /** The rows of one source among the queried rows, in their order. */
  function RowsOf(rows: seq<RunRow>, source: SourceId): seq<RunRow>
  {
    if rows == [] then []
    else RowsOf(rows[..|rows| - 1], source) + (if rows[|rows| - 1].source == source then [rows[|rows| - 1]] else [])
  }

  lemma {:induction false} LifeOfSource(rows: seq<RunRow>, snapshots: seq<SnapshotRow>, source: SourceId, g: GroupId)
    ensures Life(rows, snapshots, source, g) == Life(RowsOf(rows, source), snapshots, source, g)
    ensures forall i :: 0 <= i < |RowsOf(rows, source)| ==> RowsOf(rows, source)[i].source == source
  {
    hide LifeStep, SeenAt;
    if rows != [] {
      LifeOfSource(rows[..|rows| - 1], snapshots, source, g);
      var rest := RowsOf(rows[..|rows| - 1], source);
      assert (rest + [rows[|rows| - 1]])[..|rest|] == rest && rest + [] == rest;
    }
  }

  /** The run query: per source, the runs with results in creation order; sources may be interleaved in any way. */
  ghost predicate RunQuery(db: Db, rows: seq<RunRow>)
  {
    forall s :: |RowsOf(rows, s)| == |HistoryOf(db, s)| &&
      forall i :: 0 <= i < |HistoryOf(db, s)| ==> RowIsObservation(RowsOf(rows, s)[i], HistoryOf(db, s)[i])
  }

  ghost predicate RowIsObservation(r: RunRow, o: Observation)
  {
    r.run == o.run && r.completed == o.completed && r.finishedAt == Some(o.at)
  }

  /** The snapshot query, in any order. */
  ghost predicate SnapshotQuery(db: Db, snapshots: seq<SnapshotRow>)
  {
    forall r :: r in snapshots <==>
      exists i :: 0 <= i < |db.snapshots|
          && r == SnapshotRow(db.snapshots[i].run, db.snapshots[i].group, db.snapshots[i].at)
  }

  lemma {:induction false} SeenAtMeaning(snapshots: seq<SnapshotRow>, run: RunId, g: GroupId)
    ensures var t := SeenAt(snapshots, run, g);
      && (t.Some? ==> SnapshotRow(run, g, t.value) in snapshots)
      && (t.None? ==> forall r :: r in snapshots ==> !(r.run == run && r.group == g))
  {
    if snapshots != [] {
      var n := |snapshots| - 1;
      SeenAtMeaning(snapshots[..n], run, g);
      assert snapshots == snapshots[..n] + [snapshots[n]];
    }
  }

  lemma SeenAtIsShown(db: Db, snapshots: seq<SnapshotRow>, run: RunId, g: GroupId)
    requires TablesOk(db) && SnapshotQuery(db, snapshots) && run < |db.runs| && IsResult(db.runs[run].status)
    ensures var o := ObservationOf(db, run);
      SeenAt(snapshots, run, g) == if g in o.shown then Some(o.at) else None
  {
    SeenAtMeaning(snapshots, run, g);
    ShownMember(db, run, |db.snapshots|, g);
    hide Shown, SeenAt;
    assert forall i :: 0 <= i < |db.snapshots| ==>
      SnapshotRow(db.snapshots[i].run, db.snapshots[i].group, db.snapshots[i].at) in snapshots;
    var t := SeenAt(snapshots, run, g);
    if t.Some? {
      var i :| 0 <= i < |db.snapshots|
               && SnapshotRow(run, g, t.value)
                 == SnapshotRow(db.snapshots[i].run, db.snapshots[i].group, db.snapshots[i].at);
      assert SnapshotOk(db, db.snapshots[i]);
    }
  }

  lemma {:induction false} LifeRefines(db: Db, h: seq<Observation>, rows: seq<RunRow>, snapshots: seq<SnapshotRow>,
                                       source: SourceId, g: GroupId, until: Time)
    requires |rows| == |h| && Ordered(h)
    requires forall i :: 0 <= i < |h| ==>
      RowIsObservation(rows[i], h[i]) && rows[i].source == source && h[i].at <= until
    requires forall i :: 0 <= i < |h| ==>
      SeenAt(snapshots, h[i].run, g) == if g in h[i].shown then Some(h[i].at) else None
    ensures Refines(After(h, g).row, Life(rows, snapshots, source, g), until)
  {
    hide LifeStep, SeenAt, AfterRun;
    if h != [] {
      var n := |h| - 1;
      LifeRefines(db, h[..n], rows[..n], snapshots, source, g, h[n].at);
      RefinesStep(After(h[..n], g), Life(rows[..n], snapshots, source, g), h[n], rows[n], g, h[n].at);
    }
  }

  /** What the migration makes of a group first and last seen at these times and missed at those since. */
  function Rebuilt(firstAt: Time, lastAt: Time, misses: seq<Time>): StateRow
  {
    var n := |misses|;
    StateRow(if n == 0 then Active else if n == 1 then Missing else Removed, n, firstAt, lastAt,
             if n < 2 then None else Some(misses[n - 1]), if n == 0 then lastAt else misses[n - 1])
  }

  lemma RebuiltStep(firstAt: Time, lastAt: Time, misses: seq<Time>, r: RunRow, at: Time)
    requires TransitionAt(r) == at
    ensures LifeStep(Some(Rebuilt(firstAt, lastAt, misses)), r, None)
         == Some(Rebuilt(firstAt, lastAt, misses + if r.completed then [at] else []))
  {
    assert misses + [] == misses;
  }

  /** The rows of the source tell the observations of its history. */
  ghost predicate Tells(rows: seq<RunRow>, snapshots: seq<SnapshotRow>, source: SourceId, g: GroupId,
                        h: seq<Observation>)
  {
    && |rows| == |h|
    && (forall i :: 0 <= i < |h| ==> RowIsObservation(rows[i], h[i]) && rows[i].source == source)
    && (forall i :: 0 <= i < |h| ==>
          SeenAt(snapshots, h[i].run, g) == if g in h[i].shown then Some(h[i].at) else None)
  }

  lemma {:induction false} LifeNone(h: seq<Observation>, rows: seq<RunRow>, snapshots: seq<SnapshotRow>,
                                    source: SourceId, g: GroupId)
    requires Tells(rows, snapshots, source, g, h) && !EverShown(h, g)
    ensures Life(rows, snapshots, source, g) == None
  {
    hide SeenAt;
    if h != [] {
      var n := |h| - 1;
      LifeNone(h[..n], rows[..n], snapshots, source, g);
    }
  }

  /** The migrated row in closed form: it counts every completed run since the group was
      last seen, and was removed at the last of them. */
  lemma {:induction false} LifeClosed(h: seq<Observation>, rows: seq<RunRow>, snapshots: seq<SnapshotRow>,
                                      source: SourceId, g: GroupId, i: nat, j: nat)
    requires Tells(rows, snapshots, source, g, h) && FirstShownAt(h, g, i) && LastShownAt(h, g, j)
    ensures Life(rows, snapshots, source, g) == Some(Rebuilt(h[i].at, h[j].at, CompletedTimes(h[j + 1..])))
  {
    hide SeenAt;
    var n := |h| - 1;
    var r, o := rows[n], h[n];
    assert RowIsObservation(r, o);
    if j == n {
      assert h[j + 1..] == [];
      if i == n {
        LifeNone(h[..n], rows[..n], snapshots, source, g);
      } else {
        var k := LastShownExists(h[..n], g) by { assert EverShown(h[..n], g) by { assert g in h[..n][i].shown; } }
        LifeClosed(h[..n], rows[..n], snapshots, source, g, i, k);
      }
    } else {
      LifeClosed(h[..n], rows[..n], snapshots, source, g, i, j);
      assert h[j + 1..][..n - j - 1] == h[..n][j + 1..];
      RebuiltStep(h[i].at, h[j].at, CompletedTimes(h[..n][j + 1..]), r, o.at);
      hide LifeStep, Rebuilt;
    }
  }

  /** Run on any database meeting the invariant, the migration rebuilds every live row up to the counter's cap and later
      removal times, for each source from that source's runs alone. */
  lemma BackfillRefines(db: Db, rows: seq<RunRow>, snapshots: seq<SnapshotRow>, source: SourceId, g: GroupId,
                        until: Time)
    requires Inv(db) && RunQuery(db, rows) && SnapshotQuery(db, snapshots)
    requires forall i :: 0 <= i < |HistoryOf(db, source)| ==> HistoryOf(db, source)[i].at <= until
    ensures Refines(Lookup(db.rows, (source, g)), Life(rows, snapshots, source, g), until)
  {
    var h := HistoryOf(db, source);
    LifeOfSource(rows, snapshots, source, g);
    QueriesTell(db, rows, snapshots, source, g);
    assert Stored(db, source, g).row == After(h, g).row;
    assert Ordered(h);
    hide Inv, History, SeenAt, Life, After, TablesOk, SnapshotQuery, RunQuery;
    LifeRefines(db, h, RowsOf(rows, source), snapshots, source, g, until);
  }

  lemma QueriesTell(db: Db, rows: seq<RunRow>, snapshots: seq<SnapshotRow>, source: SourceId, g: GroupId)
    requires Inv(db) && RunQuery(db, rows) && SnapshotQuery(db, snapshots)
    ensures Tells(RowsOf(rows, source), snapshots, source, g, HistoryOf(db, source))
  {
    var h := HistoryOf(db, source);
    LifeOfSource(rows, snapshots, source, g);
    assert TablesOk(db);
    forall i | 0 <= i < |h| ensures SeenAt(snapshots, h[i].run, g) == if g in h[i].shown then Some(h[i].at) else None {
      HistoryObservations(db, source, |db.runs|, i);
      hide *;
      assert h[i] == ObservationOf(db, h[i].run) && IsResult(db.runs[h[i].run].status) && h[i].run < |db.runs| by {
        HistoryObservations(db, source, |db.runs|, i);
        HistoryOfIs(db, source);
      }
      SeenAtIsShown(db, snapshots, h[i].run, g);
    }
    hide Inv, History, SeenAt, Life, TablesOk, SnapshotQuery;
  }

  /** On every database meeting the invariant, and for every group its source has shown, exactly what the migration
      makes of it. */
  lemma BackfillExact(db: Db, rows: seq<RunRow>, snapshots: seq<SnapshotRow>, source: SourceId, g: GroupId, i: nat,
                      j: nat)
    requires Inv(db) && RunQuery(db, rows) && SnapshotQuery(db, snapshots)
    requires FirstShownAt(HistoryOf(db, source), g, i) && LastShownAt(HistoryOf(db, source), g, j)
    ensures var h := HistoryOf(db, source);
      Life(rows, snapshots, source, g) == Some(Rebuilt(h[i].at, h[j].at, CompletedTimes(h[j + 1..])))
  {
    hide *;
    LifeOfSource(rows, snapshots, source, g);
    QueriesTell(db, rows, snapshots, source, g);
    LifeClosed(HistoryOf(db, source), RowsOf(rows, source), snapshots, source, g, i, j);
  }

  lemma HistoryOfIs(db: Db, source: SourceId)
    ensures HistoryOf(db, source) == History(db, source, |db.runs|)
  {
  }
}
