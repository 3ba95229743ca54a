/** The history of a source as read off the tables, and the invariant of the tables. */
module SourceHistory {
  import opened Support
  import opened Comparator
  import opened ListingIdentity
  import opened Tables
  import opened ListingTrack
  import opened Persistence

  /** The groups a run has snapshots of, with their comparables. */
  function Shown(db: Db, run: RunId, n: nat): map<GroupId, Comparable>
    requires n <= |db.snapshots|
  {
    if n == 0 then map[]
    else
      var rest, s := Shown(db, run, n - 1), db.snapshots[n - 1];
      if s.run == run then rest[s.group := Load(db, s)] else rest
  }

  function ObservationOf(db: Db, run: RunId): Observation
    requires run < |db.runs|
  {
    var r := db.runs[run];
    Observation(run, r.status == Completed, if r.finishedAt.Some? then r.finishedAt.value else 0, r.collectDetails,
                Shown(db, run, |db.snapshots|))
  }

  /** The successful runs of a source among the first `n`, in creation order. */
  function History(db: Db, source: SourceId, n: nat): seq<Observation>
    requires n <= |db.runs|
  {
    if n == 0 then []
    else
      var r := db.runs[n - 1];
      History(db, source, n - 1) +
      if r.source == source && IsResult(r.status) then [ObservationOf(db, n - 1)] else []
  }

  function HistoryOf(db: Db, source: SourceId): seq<Observation>
  {
    History(db, source, |db.runs|)
  }

  function RunsOf(db: Db, source: SourceId): set<RunId>
  {
    set r | 0 <= r < |db.runs| && db.runs[r].source == source
  }

  /** The events of a group in the given runs, in order. */
  function EventsOf(events: seq<Event>, runs: set<RunId>, g: GroupId): seq<Event>
  {
    if events == [] then []
    else
      var e := events[|events| - 1];
      EventsOf(events[..|events| - 1], runs, g) + (if e.run in runs && e.group == g then [e] else [])
  }

  /** What the tables hold about a group under a source. */
  function Stored(db: Db, source: SourceId, g: GroupId): Track
  {
    Track(Lookup(db.rows, (source, g)), LastOf(db, source, g, |db.runs|), EventsOf(db.events, RunsOf(db, source), g))
  }

  /** Capture times rise along a history. */
  ghost predicate Ordered(h: seq<Observation>)
  {
    forall i, j :: 0 <= i < j < |h| ==> h[i].at < h[j].at
  }

  /* ------------------------- the invariant ------------------------- */

  ghost predicate RunsOk(db: Db)
  {
    && (forall r :: 0 <= r < |db.runs| && IsResult(db.runs[r].status) ==>
          db.runs[r].finishedAt.Some? && db.runs[r].source in db.sources && db.sources[db.runs[r].source].Some?)
    && (forall r, r' ::
          0 <= r < r' < |db.runs| && db.runs[r].source == db.runs[r'].source && IsActive(db.runs[r].status) ==>
            !IsActive(db.runs[r'].status) && !IsResult(db.runs[r'].status))
  }

  ghost predicate SnapshotOk(db: Db, s: Snapshot)
  {
    && s.run < |db.runs| && IsResult(db.runs[s.run].status) && db.runs[s.run].finishedAt == Some(s.at)
    && s.group < |db.groups|
    && (db.runs[s.run].source, s.group) in db.rows
    && (s.event.Some? ==> s.event.value in {New, Changed, Restored})
  }

  ghost predicate SnapshotsOk(db: Db)
  {
    forall i :: 0 <= i < |db.snapshots| ==> SnapshotOk(db, db.snapshots[i])
  }

  /** The unique key (run, group) of `listing_snapshots`. */
  ghost predicate SnapshotKeysOk(db: Db)
  {
    forall i, j :: 0 <= i < j < |db.snapshots| ==>
      db.snapshots[i].run != db.snapshots[j].run || db.snapshots[i].group != db.snapshots[j].group
  }

  ghost predicate ArticlesOk(db: Db)
  {
    && (forall a :: a in db.articles ==> db.articles[a] < |db.groups|)
    && (forall x :: x in db.sightings ==> x.0 < |db.runs| && IsResult(db.runs[x.0].status) && x.1 in db.articles)
  }

  ghost predicate RowsOk(db: Db)
  {
    forall k :: k in db.rows ==>
      k.1 < |db.groups| && k.0 in db.sources && db.sources[k.0] == Some(db.groups[k.1].complexId)
  }

  ghost predicate HasSnapshot(db: Db, g: GroupId)
  {
    exists i :: 0 <= i < |db.snapshots| && db.snapshots[i].group == g
  }

  /** Identity keys are unique within a complex and every group was observed at least once. */
  ghost predicate GroupsOk(db: Db)
  {
    && (forall g, g' :: 0 <= g < g' < |db.groups| ==> db.groups[g] != db.groups[g'])
    && (forall g :: 0 <= g < |db.groups| ==> HasSnapshot(db, g))
  }

  ghost predicate EventsOk(db: Db)
  {
    forall i :: 0 <= i < |db.events| ==>
      db.events[i].run < |db.runs| && IsResult(db.runs[db.events[i].run].status)
      && (db.runs[db.events[i].run].source, db.events[i].group) in db.rows
  }

  /** The kind that a run's event gives a group, the last one if there were several. */
  function KindIn(events: seq<Event>, run: RunId, g: GroupId): Option<Kind>
  {
    if events == [] then None
    else
      var e := events[|events| - 1];
      if e.run == run && e.group == g then Some(e.kind) else KindIn(events[..|events| - 1], run, g)
  }

  /** A snapshot carries the kind of its run's event about its group. */
  ghost predicate LabelsOk(db: Db)
  {
    forall i :: 0 <= i < |db.snapshots| ==>
      db.snapshots[i].event == KindIn(db.events, db.snapshots[i].run, db.snapshots[i].group)
  }

  ghost predicate TablesOk(db: Db)
  {
    && RunsOk(db) && SnapshotsOk(db) && SnapshotKeysOk(db) && ArticlesOk(db) && RowsOk(db) && GroupsOk(db)
    && EventsOk(db) && LabelsOk(db)
  }

  /** The tables hold, for every source and group, exactly the fold over the source's history. */
  ghost predicate TracksOk(db: Db)
  {
    forall s, g :: Stored(db, s, g) == After(HistoryOf(db, s), g)
  }

  ghost predicate ClocksOk(db: Db)
  {
    forall s :: Ordered(HistoryOf(db, s))
  }

  ghost predicate Inv(db: Db)
  {
    TablesOk(db) && TracksOk(db) && ClocksOk(db)
  }

  lemma InvParts(db: Db)
    requires Inv(db)
    ensures TablesOk(db) && TracksOk(db) && ClocksOk(db)
  {
  }

  /** The payload was captured after every stored result of the source. */
  ghost predicate CapturedAfter(db: Db, source: SourceId, at: Time)
  {
    forall i :: 0 <= i < |HistoryOf(db, source)| ==> HistoryOf(db, source)[i].at < at
  }

  /* ------------------------- events of a group ------------------------- */

  lemma {:induction false} EventsOfConcat(a: seq<Event>, b: seq<Event>, runs: set<RunId>, g: GroupId)
    ensures EventsOf(a + b, runs, g) == EventsOf(a, runs, g) + EventsOf(b, runs, g)
  {
    if b == [] {
      assert a + b == a;
    } else {
      var n := |b| - 1;
      EventsOfConcat(a, b[..n], runs, g);
      assert (a + b)[..|a + b| - 1] == a + b[..n];
      assert (a + b)[|a + b| - 1] == b[n];
    }
  }

  lemma EventsOfOption(o: Option<Event>, runs: set<RunId>, g: GroupId)
    ensures EventsOf(ToSeq(o), runs, g) == if o.Some? && o.value.run in runs && o.value.group == g then ToSeq(o) else []
  {
    if o.Some? {
      assert EventsOf([], runs, g) == [];
      assert [o.value][..0] == [];
    }
  }

  /** Selection only looks at the runs of the selected events. */
  lemma {:induction false} EventsOfSame(events: seq<Event>, runs: set<RunId>, runs': set<RunId>, g: GroupId)
    requires forall i :: 0 <= i < |events| ==> (events[i].run in runs <==> events[i].run in runs')
    ensures EventsOf(events, runs, g) == EventsOf(events, runs', g)
  {
    if events != [] {
      EventsOfSame(events[..|events| - 1], runs, runs', g);
    }
  }

  /* ------------------------- candidates ------------------------- */

  lemma {:induction false} LatestAnyExists(snapshots: seq<Snapshot>, g: GroupId)
    ensures LatestAny(snapshots, g).Some? <==> exists i :: 0 <= i < |snapshots| && snapshots[i].group == g
  {
    if snapshots != [] {
      var n := |snapshots| - 1;
      LatestAnyExists(snapshots[..n], g);
      if i :| 0 <= i < |snapshots| && snapshots[i].group == g && i < n {
        assert snapshots[..n][i].group == g;
      }
    }
  }

  /** The candidates are the groups of the complex, each with its key and all its articles. */
  lemma {:induction false} CandidatesMeaning(db: Db, complexId: string, source: SourceId, current: RunId, n: nat)
    requires n <= |db.groups|
    ensures forall c :: c in Candidates(db, complexId, source, current, n) ==>
      c.group < n && db.groups[c.group] == Group(complexId, c.key) && c.input.articleIds == GroupArticles(db, c.group)
  {
    hide IdentityOf, GroupArticles, LatestComplete, LatestAny;
    if n > 0 {
      CandidatesMeaning(db, complexId, source, current, n - 1);
      CandidateAdded(db, complexId, source, current, n);
    }
  }

  lemma CandidateAdded(db: Db, complexId: string, source: SourceId, current: RunId, n: nat)
    requires 0 < n <= |db.groups|
    ensures var less := Candidates(db, complexId, source, current, n - 1);
      var all := Candidates(db, complexId, source, current, n);
      all == less || (exists c :: all == less + [c] && c.group == n - 1 && db.groups[n - 1] == Group(complexId, c.key)
                                 && c.input.articleIds == GroupArticles(db, n - 1))
  {
    var complete := LatestComplete(db, source, n - 1, current, |db.snapshots|);
    var chosen := if complete.Some? then complete else LatestAny(db.snapshots, n - 1);
    if db.groups[n - 1].complexId == complexId && chosen.Some? {
      var c := Candidate(n - 1, db.groups[n - 1].identityKey,
                         IdentityOf(complexId, chosen.value.columns, GroupArticles(db, n - 1)));
      assert Candidates(db, complexId, source, current, n) == Candidates(db, complexId, source, current, n - 1) + [c];
    }
  }

  /** Every observed group of the complex is a candidate. */
  lemma {:induction false} CandidateExists(db: Db, complexId: string, source: SourceId, current: RunId, n: nat,
                                           g: GroupId)
    requires g < n <= |db.groups| && db.groups[g].complexId == complexId && HasSnapshot(db, g)
    ensures exists c ::
      c in Candidates(db, complexId, source, current, n) && c.group == g && c.key == db.groups[g].identityKey
                        && c.input.articleIds == GroupArticles(db, g)
  {
    hide IdentityOf, GroupArticles, LatestComplete, LatestAny;
    if g == n - 1 {
      NewestCandidate(db, complexId, source, current, n);
    } else {
      CandidateExists(db, complexId, source, current, n - 1, g);
      CandidateAdded(db, complexId, source, current, n);
    }
  }

  lemma NewestCandidate(db: Db, complexId: string, source: SourceId, current: RunId, n: nat)
    requires 0 < n <= |db.groups| && db.groups[n - 1].complexId == complexId && HasSnapshot(db, n - 1)
    ensures exists c :: c in Candidates(db, complexId, source, current, n) && c.group == n - 1
                        && c.key == db.groups[n - 1].identityKey && c.input.articleIds == GroupArticles(db, n - 1)
  {
    LatestAnyExists(db.snapshots, n - 1);
    hide LatestComplete, LatestAny, GroupArticles;
    var complete := LatestComplete(db, source, n - 1, current, |db.snapshots|);
    var chosen := if complete.Some? then complete else LatestAny(db.snapshots, n - 1);
    var c := Candidate(n - 1, db.groups[n - 1].identityKey,
                       IdentityOf(complexId, chosen.value.columns, GroupArticles(db, n - 1)));
    assert Candidates(db, complexId, source, current, n) == Candidates(db, complexId, source, current, n - 1) + [c];
  }

  /** A match is an existing group of the complex. */
  lemma TargetMeaning(digest: Digest, db: Db, source: SourceId, current: RunId, complexId: string, l: Listing)
    ensures var t := Target(digest, db, source, current, complexId, l);
      t.Some? ==> t.value < |db.groups| && db.groups[t.value].complexId == complexId
  {
    var cs := Candidates(db, complexId, source, current, |db.groups|);
    var incoming := IdentityOf(complexId, l.columns, ArticleSet(l));
    hide Choose, Candidates;
    ChooseByKeys(digest, incoming, cs);
    CandidatesMeaning(db, complexId, source, current, |db.groups|);
  }

  /** If the listing has an article of some group of the complex, it is matched to such a group. */
  lemma TargetOverlaps(digest: Digest, db: Db, source: SourceId, current: RunId, complexId: string, l: Listing,
                       a: ArticleId)
    requires GroupsOk(db)
    requires a in l.articles && a in db.articles && db.articles[a] < |db.groups|
    requires db.groups[db.articles[a]].complexId == complexId
    ensures var t := Target(digest, db, source, current, complexId, l);
      t.Some? && exists b :: b in l.articles && b in db.articles && db.articles[b] == t.value
  {
    var cs := Candidates(db, complexId, source, current, |db.groups|);
    var incoming := IdentityOf(complexId, l.columns, ArticleSet(l));
    CandidateExists(db, complexId, source, current, |db.groups|, db.articles[a]);
    hide Choose, Candidates;
    var c :| c in cs && c.group == db.articles[a] && c.input.articleIds == GroupArticles(db, db.articles[a]);
    assert a in incoming.articleIds * c.input.articleIds;
    ChooseByKeys(digest, incoming, cs);
    CandidatesMeaning(db, complexId, source, current, |db.groups|);
    var r := Choose(digest, incoming, cs).value;
    var b :| b in incoming.articleIds * r.input.articleIds;
  }

  /** An identity key built for an unmatched listing is held by no group of the complex. */
  lemma FreshKey(digest: Digest, db: Db, source: SourceId, current: RunId, complexId: string, l: Listing, g: GroupId)
    requires GroupsOk(db) && g < |db.groups|
    requires Target(digest, db, source, current, complexId, l).None?
    ensures db.groups[g] != Group(complexId, IdentityKey(digest, IdentityOf(complexId, l.columns, ArticleSet(l))))
  {
    var cs := Candidates(db, complexId, source, current, |db.groups|);
    var incoming := IdentityOf(complexId, l.columns, ArticleSet(l));
    if db.groups[g] == Group(complexId, IdentityKey(digest, incoming)) {
      CandidateExists(db, complexId, source, current, |db.groups|, g);
      hide Choose, Candidates, IdentityKey;
      ChooseByKeys(digest, incoming, cs);
      assert false;
    }
  }

  lemma {:induction false} GroupWithKeyMeaning(groups: seq<Group>, complexId: string, key: nat)
    ensures var r := GroupWithKey(groups, complexId, key);
      && (r.Some? ==> r.value < |groups| && groups[r.value] == Group(complexId, key))
      && (r.None? ==> forall g :: 0 <= g < |groups| ==> groups[g] != Group(complexId, key))
  {
    if groups != [] {
      GroupWithKeyMeaning(groups[..|groups| - 1], complexId, key);
    }
  }
}
