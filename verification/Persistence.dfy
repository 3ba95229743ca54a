/** Storing one crawl payload: matching, snapshots, visibility rows and change events in one transaction. */
module Persistence {
  import opened Support
  import opened Comparator
  import opened ListingIdentity
  import opened Tables
  import opened ListingTrack

  /** The tables. `sources` maps a source to its complex, unknown before its first result;
      `sightings` is the key of `broker_article_snapshots`. */
  datatype Db = Db(
    sources: map<SourceId, Option<string>>,
    runs: seq<Run>,
    groups: seq<Group>,
    articles: map<ArticleId, GroupId>,
    snapshots: seq<Snapshot>,
    sightings: set<(RunId, ArticleId)>,
    rows: map<(SourceId, GroupId), StateRow>,
    events: seq<Event>)

  datatype Error = RunNotFound | ComplexMismatch | DuplicateGroup | ArticleGroupConflict | IntegrityConflict

  /** Database under construction and the groups matched so far by this run. */
  datatype Work = Work(db: Db, matched: set<GroupId>)

  /* ------------------------- queries on the tables ------------------------- */

  /** `_run_article_ids`. */
  function RunArticles(db: Db, run: RunId, g: GroupId): set<ArticleId>
  {
    set a | a in db.articles && db.articles[a] == g && (run, a) in db.sightings
  }

  /** `_all_article_ids`. */
  function GroupArticles(db: Db, g: GroupId): set<ArticleId>
  {
    set a | a in db.articles && db.articles[a] == g
  }

  /** `_previous_comparable` of a stored snapshot. */
  function Load(db: Db, s: Snapshot): Comparable
  {
    MakeComparable(s.columns, s.aggregate, RunArticles(db, s.run, s.group))
  }

  /** Of two optional snapshots the one captured later, the first on a tie. */
  function Later(a: Option<Snapshot>, b: Snapshot): Option<Snapshot>
  {
    if a.Some? && a.value.at >= b.at then a else Some(b)
  }

  predicate CompleteFor(db: Db, source: SourceId, g: GroupId, current: RunId, s: Snapshot)
  {
    && s.group == g && s.run != current
    && s.run < |db.runs| && db.runs[s.run].source == source && db.runs[s.run].status == Completed
  }

  /** `_latest_complete_snapshot` among the first `n` snapshots. */
  function LatestComplete(db: Db, source: SourceId, g: GroupId, current: RunId, n: nat): Option<Snapshot>
    requires n <= |db.snapshots|
  {
    if n == 0 then None
    else
      var rest := LatestComplete(db, source, g, current, n - 1);
      if CompleteFor(db, source, g, current, db.snapshots[n - 1]) then Later(rest, db.snapshots[n - 1]) else rest
  }

  /** The newest snapshot of a group under any source. */
  function LatestAny(snapshots: seq<Snapshot>, g: GroupId): Option<Snapshot>
  {
    if snapshots == [] then None
    else
      var rest := LatestAny(snapshots[..|snapshots| - 1], g);
      var s := snapshots[|snapshots| - 1];
      if s.group == g then Later(rest, s) else rest
  }

  /** The previous state of a record: its last completed snapshot as a comparable. */
  function LastOf(db: Db, source: SourceId, g: GroupId, current: RunId): Option<Last>
  {
    var s := LatestComplete(db, source, g, current, |db.snapshots|);
    if s.None? || s.value.run >= |db.runs| then None
    else Some(Last(Load(db, s.value), db.runs[s.value.run].collectDetails))
  }

  function IdentityOf(complexId: string, c: Columns, articleIds: set<ArticleId>): Identity
  {
    Identity(complexId, c.tradeType, c.building, c.exclusiveArea, c.floor, c.direction, c.price, articleIds)
  }

  /** `_existing_records`: the candidates among the first `n` groups. */
  function Candidates(db: Db, complexId: string, source: SourceId, current: RunId, n: nat): seq<Candidate>
    requires n <= |db.groups|
  {
    if n == 0 then []
    else
      var g, rest := n - 1, Candidates(db, complexId, source, current, n - 1);
      var complete := LatestComplete(db, source, g, current, |db.snapshots|);
      var chosen := if complete.Some? then complete else LatestAny(db.snapshots, g);
      if db.groups[g].complexId != complexId || chosen.None? then rest
      else rest + [Candidate(g, db.groups[g].identityKey,
                             IdentityOf(complexId, chosen.value.columns, GroupArticles(db, g)))]
  }

  /** The existing group an incoming listing is matched to, decided on the tables before the run. */
  function Target(digest: Digest, db: Db, source: SourceId, current: RunId, complexId: string,
                  l: Listing): Option<GroupId>
  {
    var m := Choose(digest, IdentityOf(complexId, l.columns, ArticleSet(l)),
                    Candidates(db, complexId, source, current, |db.groups|));
    if m.Some? then Some(m.value.group) else None
  }

  /** First group of the complex with this identity key. */
  function GroupWithKey(groups: seq<Group>, complexId: string, key: nat): Option<GroupId>
  {
    if groups == [] then None
    else
      var rest := GroupWithKey(groups[..|groups| - 1], complexId, key);
      if rest.Some? then rest
      else if groups[|groups| - 1] == Group(complexId, key) then Some(|groups| - 1)
      else None
  }

  /* ------------------------- the transaction as a function ------------------------- */

  /** `_store_brokers` for the first `k` articles of a listing. */
  function StoreBrokers(db: Db, run: RunId, g: GroupId, articles: seq<ArticleId>): Result<Db, Error>
  {
    if articles == [] then Ok(db)
    else
      var a := articles[|articles| - 1];
      match StoreBrokers(db, run, g, articles[..|articles| - 1])
      case Err(e) => Err(e)
      case Ok(d) =>
        if a in d.articles && d.articles[a] != g then Err(ArticleGroupConflict)
        else if (run, a) in d.sightings then Err(IntegrityConflict)
        else Ok(d.(articles := d.articles[a := g], sightings := d.sightings + {(run, a)}))
  }

  /** What a matched listing adds: its row, snapshot and event. `pre` is the database before the run. */
  function Record(pre: Db, db: Db, source: SourceId, run: RunId, details: bool, at: Time, l: Listing, g: GroupId): Db
  {
    var row, last := Lookup(pre.rows, (source, g)), LastOf(pre, source, g, run);
    var event := PresenceEvent(row, last, Incoming(l), details, run, g, at);
    var kind := if event.Some? then Some(event.value.kind) else None;
    db.(rows := db.rows[(source, g) := PresentRow(row, at)],
        snapshots := db.snapshots + [Snapshot(run, g, l.columns, l.aggregate, kind, at)],
        events := db.events + ToSeq(event))
  }

  /** The group of a listing: the match, a new group, or the group another insert already holds the key of. */
  function Place(digest: Digest, pre: Db, w: Work, source: SourceId, run: RunId, complexId: string, l: Listing)
    : (GroupId, seq<Group>)
  {
    match Target(digest, pre, source, run, complexId, l)
    case Some(g) => (g, w.db.groups)
    case None =>
      var key := IdentityKey(digest, IdentityOf(complexId, l.columns, ArticleSet(l)));
      match GroupWithKey(w.db.groups, complexId, key)
      case Some(g) => (g, w.db.groups)
      case None => (|w.db.groups|, w.db.groups + [Group(complexId, key)])
  }

  /** One iteration of the listing loop. */
  function StoreListing(digest: Digest, pre: Db, w: Work, source: SourceId, run: RunId, details: bool, p: Payload,
                        l: Listing): Result<Work, Error>
  {
    var (g, groups) := Place(digest, pre, w, source, run, p.complexId, l);
    if g in w.matched then Err(DuplicateGroup)
    else if Target(digest, pre, source, run, p.complexId, l).None? && (source, g) in w.db.rows
      then Err(IntegrityConflict)
    else
      match StoreBrokers(Record(pre, w.db.(groups := groups), source, run, details, p.at, l, g), run, g, l.articles)
      case Err(e) => Err(e)
      case Ok(db) => Ok(Work(db, w.matched + {g}))
  }

  /** The listing loop over the first `k` listings. */
  function StoreListings(digest: Digest, pre: Db, source: SourceId, run: RunId, details: bool, p: Payload, k: nat)
    : Result<Work, Error>
    requires k <= |p.listings|
  {
    if k == 0 then Ok(Work(pre, {}))
    else
      match StoreListings(digest, pre, source, run, details, p, k - 1)
      case Err(e) => Err(e)
      case Ok(w) => StoreListing(digest, pre, w, source, run, details, p, p.listings[k - 1])
  }

  /** Groups of the source, among the records of its complex, that the run did not match. */
  predicate IsAbsent(pre: Db, source: SourceId, complexId: string, matched: set<GroupId>, g: GroupId)
  {
    && (source, g) in pre.rows && g !in matched
    && g < |pre.groups| && pre.groups[g].complexId == complexId && LatestAny(pre.snapshots, g).Some?
  }

  /** Absence events of the groups below `n`, in group order. */
  function AbsenceEvents(pre: Db, source: SourceId, matched: set<GroupId>, run: RunId, p: Payload, n: nat): seq<Event>
  {
    if n == 0 then []
    else
      AbsenceEvents(pre, source, matched, run, p, n - 1) +
      if IsAbsent(pre, source, p.complexId, matched, n - 1)
      then ToSeq(AbsenceEvent(pre.rows[(source, n - 1)], p.completed, run, n - 1, p.at))
      else []
  }

  function StoreAbsences(pre: Db, w: Work, source: SourceId, run: RunId, p: Payload): Db
  {
    w.db.(rows := map k | k in w.db.rows ::
                    if k.0 == source && IsAbsent(pre, source, p.complexId, w.matched, k.1)
                    then AbsentRow(pre.rows[k], p.completed, p.at) else w.db.rows[k],
          events := w.db.events + AbsenceEvents(pre, source, w.matched, run, p, |pre.groups|))
  }

  function FinishRun(r: Run, p: Payload): Run
  {
    r.(status := if p.completed then Completed else Partial, progress := 100, finishedAt := Some(p.at))
  }

  /** The whole transaction: the database after it, or the reason it rolled back. */
  function Persisted(digest: Digest, db: Db, run: RunId, p: Payload): Result<Db, Error>
  {
    if run >= |db.runs| then Err(RunNotFound)
    else if IsTerminal(db.runs[run].status) then Ok(db)
    else
      var source := db.runs[run].source;
      if source !in db.sources then Err(RunNotFound)
      else if db.sources[source].Some? && db.sources[source].value != p.complexId then Err(ComplexMismatch)
      else
        match StoreListings(digest, db, source, run, db.runs[run].collectDetails, p, |p.listings|)
        case Err(e) => Err(e)
        case Ok(w) =>
          Ok(StoreAbsences(db, w, source, run, p)
             .(sources := db.sources[source := Some(p.complexId)],
               runs := db.runs[run := FinishRun(db.runs[run], p)]))
  }
}
