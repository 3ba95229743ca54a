/** The tables as mutable state, with the writes of the backend as methods. Every method is one transaction. */
module Database {
  import opened Support
  import opened ListingIdentity
  import opened Tables
  import opened ListingTrack
  import opened Persistence
  import opened PersistenceShape
  import opened RunLifecycle

  datatype Outcome = Outcome(status: Status, listingCount: nat, eventCount: nat, alreadyTerminal: bool)

  lemma {:induction false} FailureStays(digest: Digest, pre: Db, source: SourceId, run: RunId, details: bool,
                                        p: Payload, k: nat, n: nat)
    requires k <= n <= |p.listings|
    ensures var r := StoreListings(digest, pre, source, run, details, p, k);
      r.Err? ==> StoreListings(digest, pre, source, run, details, p, n) == Err(r.error)
  {
    hide StoreListing;
    if k < n {
      FailureStays(digest, pre, source, run, details, p, k, n - 1);
    }
  }

  lemma {:induction false} BrokerFailureStays(db: Db, run: RunId, g: GroupId, articles: seq<ArticleId>, k: nat)
    requires k <= |articles|
    ensures StoreBrokers(db, run, g, articles[..k]).Err? ==>
      StoreBrokers(db, run, g, articles) == Err(StoreBrokers(db, run, g, articles[..k]).error)
    decreases |articles| - k
  {
    if k == |articles| {
      assert articles[..k] == articles;
    } else {
      assert articles[..k + 1][..k] == articles[..k];
      BrokerFailureStays(db, run, g, articles, k + 1);
    }
  }

  /** The listing loop never drops a row and never touches sources or runs. */
  lemma RowsRemain(j: Job)
    requires j.run < |j.pre.runs| && j.Stored(|j.p.listings|).Ok?
    ensures var db := j.Stored(|j.p.listings|).value.db;
      (forall x :: x in j.pre.rows ==> x in db.rows) && db.sources == j.pre.sources && db.runs == j.pre.runs
      && |j.pre.events| <= |db.events|
  {
    hide StoreListings, Grew, Placed;
    var ws, gs := MakeChain(j, |j.p.listings|);
    ChainRows(j, ws, gs, |j.p.listings|);
    ChainEvents(j, ws, gs, |j.p.listings|);
    forall x | x in j.pre.rows ensures x in ws[|j.p.listings|].db.rows {
      assert (x.0, x.1) in ws[|j.p.listings|].db.rows;
    }
  }

  /** A row after the absences of the groups below `g`. */
  ghost function Moved(pre: Db, before: map<(SourceId, GroupId), StateRow>, matched: set<GroupId>, source: SourceId,
                       p: Payload, g: nat, k: (SourceId, GroupId)): StateRow
    requires k in before
  {
    if k.0 == source && k.1 < g && IsAbsent(pre, source, p.complexId, matched, k.1)
    then AbsentRow(pre.rows[k], p.completed, p.at) else before[k]
  }

  /** The rows of the groups below `g` have moved and no others. */
  ghost predicate RowsMoved(pre: Db, before: map<(SourceId, GroupId), StateRow>, matched: set<GroupId>,
                            source: SourceId, p: Payload, g: nat, rows: map<(SourceId, GroupId), StateRow>)
  {
    rows.Keys == before.Keys && forall k :: k in rows ==> rows[k] == Moved(pre, before, matched, source, p, g, k)
  }

  lemma NoneMoved(pre: Db, before: map<(SourceId, GroupId), StateRow>, matched: set<GroupId>, source: SourceId,
                  p: Payload)
    ensures RowsMoved(pre, before, matched, source, p, 0, before)
  {
  }

  lemma OneMoved(pre: Db, before: map<(SourceId, GroupId), StateRow>, matched: set<GroupId>, source: SourceId,
                 p: Payload, g: nat, rows: map<(SourceId, GroupId), StateRow>)
    requires RowsMoved(pre, before, matched, source, p, g, rows)
    requires (source, g) in pre.rows ==> (source, g) in before
    ensures RowsMoved(pre, before, matched, source, p, g + 1,
                      if IsAbsent(pre, source, p.complexId, matched, g)
                      then rows[(source, g) := AbsentRow(pre.rows[(source, g)], p.completed, p.at)] else rows)
  {
    hide AbsentRow, LatestAny;
  }

  lemma AllMoved(pre: Db, w: Work, source: SourceId, p: Payload, rows: map<(SourceId, GroupId), StateRow>)
    requires RowsMoved(pre, w.db.rows, w.matched, source, p, |pre.groups|, rows)
    ensures forall run :: rows == StoreAbsences(pre, w, source, run, p).rows
  {
    hide AbsentRow, LatestAny;
  }

  class Store {
    var sources: map<SourceId, Option<string>>
    var runs: seq<Run>
    var groups: seq<Group>
    var articles: map<ArticleId, GroupId>
    var snapshots: seq<Snapshot>
    var sightings: set<(RunId, ArticleId)>
    var rows: map<(SourceId, GroupId), StateRow>
    var events: seq<Event>

    function View(): Db
      reads this
    {
      Db(sources, runs, groups, articles, snapshots, sightings, rows, events)
    }

    constructor ()
      ensures View() == Db(map[], [], [], map[], [], {}, map[], [])
    {
      sources, runs, groups, articles := map[], [], [], map[];
      snapshots, sightings, rows, events := [], {}, map[], [];
    }

    /** Roll the transaction back. */
    method Restore(saved: Db)
      modifies this
      ensures View() == saved
    {
      sources, runs, groups, articles := saved.sources, saved.runs, saved.groups, saved.articles;
      snapshots, sightings, rows, events := saved.snapshots, saved.sightings, saved.rows, saved.events;
    }

    /** `_existing_records`, as candidates for matching. */
    method ExistingRecords(complexId: string, source: SourceId, current: RunId) returns (candidates: seq<Candidate>)
      ensures candidates == Candidates(View(), complexId, source, current, |groups|)
    {
      hide LatestComplete, LatestAny, GroupArticles, IdentityOf;
      candidates := [];
      var db := View();
      for g := 0 to |groups|
        invariant candidates == Candidates(db, complexId, source, current, g)
      {
        var complete := LatestComplete(db, source, g, current, |snapshots|);
        var chosen := if complete.Some? then complete else LatestAny(snapshots, g);
        if groups[g].complexId == complexId && chosen.Some? {
          candidates := candidates + [Candidate(g, groups[g].identityKey,
                                                IdentityOf(complexId, chosen.value.columns, GroupArticles(db, g)))];
        }
      }
    }

    /** `_store_brokers`. */
    method StoreBrokersOf(run: RunId, g: GroupId, ids: seq<ArticleId>) returns (failure: Option<Error>)
      modifies `articles, `sightings
      ensures match StoreBrokers(old(View()), run, g, ids)
              case Ok(db) => failure.None? && View() == db
              case Err(e) => failure == Some(e)
    {
      ghost var start := View();
      for i := 0 to |ids|
        invariant StoreBrokers(start, run, g, ids[..i]) == Ok(View())
      {
        var a := ids[i];
        assert ids[..i + 1][..i] == ids[..i];
        if a in articles && articles[a] != g {
          BrokerFailureStays(start, run, g, ids, i + 1);
          return Some(ArticleGroupConflict);
        }
        if (run, a) in sightings {
          BrokerFailureStays(start, run, g, ids, i + 1);
          return Some(IntegrityConflict);
        }
        articles := articles[a := g];
        sightings := sightings + {(run, a)};
      }
      assert ids[..|ids|] == ids;
      failure := None;
    }

    /** One iteration of the listing loop, given the records read before the loop. */
    method StoreOne(digest: Digest, pre: Db, existing: seq<Candidate>, matched: set<GroupId>, source: SourceId,
                    run: RunId, details: bool, p: Payload, l: Listing) returns (result: Result<GroupId, Error>)
      requires existing == Candidates(pre, p.complexId, source, run, |pre.groups|)
      modifies this
      ensures match StoreListing(digest, pre, Work(old(View()), matched), source, run, details, p, l)
              case Ok(w) => result.Ok? && w == Work(View(), matched + {result.value})
              case Err(e) => result == Err(e)
    {
      hide Choose, Candidates, PresenceEvent, LastOf, GroupWithKey, StoreBrokers, IdentityKey;
      var incoming := IdentityOf(p.complexId, l.columns, ArticleSet(l));
      var found := Choose(digest, incoming, existing);
      var g: GroupId;
      if found.Some? {
        g := found.value.group;
      } else {
        var key := IdentityKey(digest, incoming);
        var holder := GroupWithKey(groups, p.complexId, key);
        if holder.Some? {
          g := holder.value;
        } else {
          g := |groups|;
          groups := groups + [Group(p.complexId, key)];
        }
      }
      if g in matched {
        return Err(DuplicateGroup);
      }
      if found.None? && (source, g) in rows {
        return Err(IntegrityConflict);
      }
      var row, last := Lookup(pre.rows, (source, g)), LastOf(pre, source, g, run);
      var event := PresenceEvent(row, last, Incoming(l), details, run, g, p.at);
      rows := rows[(source, g) := PresentRow(row, p.at)];
      var kind := if event.Some? then Some(event.value.kind) else None;
      snapshots := snapshots + [Snapshot(run, g, l.columns, l.aggregate, kind, p.at)];
      if event.Some? {
        events := events + [event.value];
      } else {
        assert events + [] == events;
      }
      var failure := StoreBrokersOf(run, g, l.articles);
      if failure.Some? {
        return Err(failure.value);
      }
      result := Ok(g);
    }

    /** The absence loop over the source's groups that this run did not match. */
    method StoreAbsencesOf(pre: Db, matched: set<GroupId>, source: SourceId, run: RunId, p: Payload)
      requires forall k :: k in pre.rows ==> k in rows
      modifies `rows, `events
      ensures View() == StoreAbsences(pre, Work(old(View()), matched), source, run, p)
      ensures |old(events)| <= |events|
    {
      hide AbsentRow, AbsenceEvent, IsAbsent, RowsMoved;
      ghost var before := View();
      NoneMoved(pre, rows, matched, source, p);
      for g := 0 to |pre.groups|
        invariant View() == before.(rows := rows, events := events)
        invariant RowsMoved(pre, before.rows, matched, source, p, g, rows)
        invariant events == before.events + AbsenceEvents(pre, source, matched, run, p, g)
      {
        OneMoved(pre, before.rows, matched, source, p, g, rows);
        if IsAbsent(pre, source, p.complexId, matched, g) {
          HasRow(pre, source, p.complexId, matched, g);
          var row := pre.rows[(source, g)];
          rows := rows[(source, g) := AbsentRow(row, p.completed, p.at)];
          var event := AbsenceEvent(row, p.completed, run, g, p.at);
          if event.Some? {
            events := events + [event.value];
          }
        }
      }
      AllMoved(pre, Work(before, matched), source, p, rows);
    }

    /** The listing loop. */
    method StoreAll(digest: Digest, pre: Db, existing: seq<Candidate>, source: SourceId, run: RunId, details: bool,
                    p: Payload)
      returns (result: Result<set<GroupId>, Error>)
      requires existing == Candidates(pre, p.complexId, source, run, |pre.groups|) && pre == View()
      modifies this
      ensures match StoreListings(digest, pre, source, run, details, p, |p.listings|)
              case Ok(w) => result.Ok? && w == Work(View(), result.value)
              case Err(e) => result == Err(e)
    {
      hide StoreListing;
      var matched: set<GroupId> := {};
      for i := 0 to |p.listings|
        invariant StoreListings(digest, pre, source, run, details, p, i) == Ok(Work(View(), matched))
      {
        var placed := StoreOne(digest, pre, existing, matched, source, run, details, p, p.listings[i]);
        if placed.Err? {
          FailureStays(digest, pre, source, run, details, p, i + 1, |p.listings|);
          return Err(placed.error);
        }
        matched := matched + {placed.value};
      }
      result := Ok(matched);
    }

    /** `persist`: on success the tables are those of the transaction, on failure they are untouched. */
    method Persist(digest: Digest, run: RunId, p: Payload) returns (result: Result<Outcome, Error>)
      modifies this
      ensures match Persisted(digest, old(View()), run, p)
              case Err(e) => result == Err(e) && View() == old(View())
              case Ok(db) => View() == db && result.Ok? && run < |db.runs| && result.value.status == db.runs[run].status
                             && result.value.alreadyTerminal == IsTerminal(old(runs)[run].status)
                             && result.value.eventCount == |db.events| - |old(events)|
                             && result.value.listingCount == (if result.value.alreadyTerminal then 0 else |p.listings|)
    {
      hide StoreListings, StoreAbsences, FinishRun, Candidates;
      if run >= |runs| {
        return Err(RunNotFound);
      }
      if IsTerminal(runs[run].status) {
        return Ok(Outcome(runs[run].status, 0, 0, true));
      }
      var source, details := runs[run].source, runs[run].collectDetails;
      if source !in sources {
        return Err(RunNotFound);
      }
      if sources[source].Some? && sources[source].value != p.complexId {
        return Err(ComplexMismatch);
      }
      var saved := View();
      var existing := ExistingRecords(p.complexId, source, run);
      var stored := StoreAll(digest, saved, existing, source, run, details, p);
      if stored.Err? {
        Restore(saved);
        return Err(stored.error);
      }
      RowsRemain(Job(digest, saved, source, run, p));
      StoreAbsencesOf(saved, stored.value, source, run, p);
      sources := sources[source := Some(p.complexId)];
      runs := runs[run := FinishRun(runs[run], p)];
      result := Ok(Outcome(runs[run].status, |p.listings|, |events| - |saved.events|, false));
    }

    /** `_create_for_source` up to the commit. */
    method CreateRun(source: SourceId, details: bool, preset: nat) returns (outcome: CreateOutcome)
      modifies `runs
      ensures (View(), outcome) == Create(old(View()), source, details, preset)
    {
      if source !in sources {
        return SourceNotFound;
      }
      var active := ActiveRun(runs, source);
      if active.Some? {
        ActiveRunMeaning(runs, source);
        if runs[active.value].collectDetails != details || runs[active.value].delayPreset != preset {
          return OptionConflict;
        }
        return Deduplicated(active.value);
      }
      runs := runs + [Run(source, Queued, details, preset, 0, None)];
      outcome := Created(|runs| - 1);
    }

    /** `_claim_run`: the compare and set reports whether this caller won the run. */
    method ClaimRun(run: RunId) returns (won: bool)
      modifies `runs
      ensures View() == Claim(old(View()), run)
      ensures won <==> run < |old(runs)| && old(runs)[run].status == Queued
    {
      won := run < |runs| && runs[run].status == Queued;
      if won {
        runs := runs[run := runs[run].(status := Running, progress := 1)];
      }
    }

    /** `_update_progress`. */
    method UpdateProgress(run: RunId, progress: nat)
      modifies `runs
      ensures View() == Advance(old(View()), run, progress)
    {
      if run < |runs| && runs[run].status == Running {
        runs := runs[run := runs[run].(progress := progress)];
      }
    }

    /** The creator's failure write after its enqueue raised, which does not look at the current status. */
    method FailEnqueue(run: RunId, at: Time)
      modifies `runs
      ensures View() == QueueFailure(old(View()), run, at)
    {
      if run < |runs| {
        runs := runs[run := runs[run].(status := Failed, finishedAt := Some(at))];
      }
    }

    /** `mark_run_terminal`. */
    method MarkRunTerminal(run: RunId, blocked: bool, at: Time)
      modifies `runs
      ensures View() == MarkTerminal(old(View()), run, blocked, at)
    {
      if run >= |runs| || IsTerminal(runs[run].status) {
        return;
      }
      runs := runs[run := runs[run].(status := if blocked then Blocked else Failed, finishedAt := Some(at))];
    }

    /** `cancel`: only a queued run can be cancelled. */
    method CancelRun(run: RunId, at: Time) returns (cancelled: bool)
      modifies `runs
      ensures View() == Cancel(old(View()), run, at)
      ensures cancelled <==> run < |old(runs)| && old(runs)[run].status == Queued
    {
      cancelled := run < |runs| && runs[run].status == Queued;
      if cancelled {
        runs := runs[run := runs[run].(status := Cancelled, finishedAt := Some(at))];
      }
    }
  }
}
