/** What a successful transaction adds to the tables, aspect by aspect. */
module PersistenceShape {
  import opened Support
  import opened Comparator
  import opened ListingIdentity
  import opened Tables
  import opened ListingTrack
  import opened Persistence

  /* ------------------------- brokers ------------------------- */

  /** No article of the listing is bound to another group, stored for this run already, or listed twice. */
  predicate BrokersFit(db: Db, run: RunId, g: GroupId, articles: seq<ArticleId>)
  {
    && (forall a :: a in articles ==> (a in db.articles ==> db.articles[a] == g) && (run, a) !in db.sightings)
    && Distinct(articles)
  }

  function WithBrokers(db: Db, run: RunId, g: GroupId, articles: seq<ArticleId>): Db
  {
    db.(articles := db.articles + (map a | a in articles :: g),
        sightings := db.sightings + (set a | a in articles :: (run, a)))
  }

  lemma BrokersFitSnoc(db: Db, run: RunId, g: GroupId, rest: seq<ArticleId>, a: ArticleId)
    ensures BrokersFit(db, run, g, rest + [a]) <==>
      BrokersFit(db, run, g, rest) && a !in rest && (a in db.articles ==> db.articles[a] == g)
      && (run, a) !in db.sightings
  {
    var all := rest + [a];
    assert forall x :: x in all <==> x in rest || x == a;
    if BrokersFit(db, run, g, all) {
      assert forall i :: 0 <= i < |rest| ==> rest[i] == all[i];
      assert a == all[|rest|];
    }
  }

  lemma WithBrokersSnoc(db: Db, run: RunId, g: GroupId, rest: seq<ArticleId>, a: ArticleId)
    ensures var d := WithBrokers(db, run, g, rest);
      WithBrokers(db, run, g, rest + [a]) == d.(articles := d.articles[a := g], sightings := d.sightings + {(run, a)})
  {
    var all := rest + [a];
    var d, e := WithBrokers(db, run, g, rest), WithBrokers(db, run, g, all);
    forall x ensures x in all <==> x in rest || x == a {
    }
    assert e.articles.Keys == d.articles[a := g].Keys;
    assert e.articles == d.articles[a := g];
    assert (set x | x in all :: (run, x)) == (set x | x in rest :: (run, x)) + {(run, a)};
  }

  /** Storing the brokers succeeds exactly when they fit, and then binds every article to the group. */
  lemma {:induction false} StoreBrokersMeaning(db: Db, run: RunId, g: GroupId, articles: seq<ArticleId>)
    ensures var r := StoreBrokers(db, run, g, articles);
      && (r.Ok? <==> BrokersFit(db, run, g, articles))
      && (r.Ok? ==> r.value == WithBrokers(db, run, g, articles))
  {
    if articles == [] {
      assert db.articles + map[] == db.articles;
      assert WithBrokers(db, run, g, articles).sightings == db.sightings;
    } else {
      var rest, a := articles[..|articles| - 1], articles[|articles| - 1];
      StoreBrokersMeaning(db, run, g, rest);
      assert articles == rest + [a];
      BrokersFitSnoc(db, run, g, rest, a);
      WithBrokersSnoc(db, run, g, rest, a);
      var d := WithBrokers(db, run, g, rest);
      assert (run, a) in d.sightings <==> (run, a) in db.sightings || a in rest;
      assert a in d.articles && d.articles[a] != g <==> a !in rest && a in db.articles && db.articles[a] != g;
    }
  }

  /* ------------------------- one listing ------------------------- */

  datatype Job = Job(digest: Digest, pre: Db, source: SourceId, run: RunId, p: Payload)
  {
    function Details(): bool
      requires run < |pre.runs|
    {
      pre.runs[run].collectDetails
    }

    function Stored(k: nat): Result<Work, Error>
      requires run < |pre.runs| && k <= |p.listings|
    {
      StoreListings(digest, pre, source, run, Details(), p, k)
    }
  }

  /** The event of an observed group, from the tables before the run. */
  function EventFor(j: Job, l: Listing, g: GroupId): Option<Event>
    requires j.run < |j.pre.runs|
  {
    PresenceEvent(Lookup(j.pre.rows, (j.source, g)), LastOf(j.pre, j.source, g, j.run), Incoming(l), j.Details(),
                  j.run, g, j.p.at)
  }

  function RowFor(j: Job, g: GroupId): StateRow
  {
    PresentRow(Lookup(j.pre.rows, (j.source, g)), j.p.at)
  }

  function KindOf(e: Option<Event>): Option<Kind>
  {
    if e.Some? then Some(e.value.kind) else None
  }

  /** Work `w'` is `w` after storing listing `l` under group `g`. */
  ghost predicate Grew(j: Job, w: Work, w': Work, l: Listing, g: GroupId)
    requires j.run < |j.pre.runs|
  {
    && g !in w.matched && w'.matched == w.matched + {g}
    && w'.db.sources == w.db.sources && w'.db.runs == w.db.runs
    && w'.db.rows == w.db.rows[(j.source, g) := RowFor(j, g)]
    && w'.db.snapshots
      == w.db.snapshots + [Snapshot(j.run, g, l.columns, l.aggregate, KindOf(EventFor(j, l, g)), j.p.at)]
    && w'.db.events == w.db.events + ToSeq(EventFor(j, l, g))
    && BrokersFit(w.db, j.run, g, l.articles)
    && w'.db.articles == WithBrokers(w.db, j.run, g, l.articles).articles
    && w'.db.sightings == WithBrokers(w.db, j.run, g, l.articles).sightings
  }

  /** When the iteration for `l` succeeds, and what it then does. */
  lemma StoreListingMeaning(j: Job, w: Work, l: Listing)
    requires j.run < |j.pre.runs|
    ensures var r := StoreListing(j.digest, j.pre, w, j.source, j.run, j.Details(), j.p, l);
      var (g, groups) := Place(j.digest, j.pre, w, j.source, j.run, j.p.complexId, l);
      && (r.Ok? <==> g !in w.matched
                     && (Target(j.digest, j.pre, j.source, j.run, j.p.complexId, l).None? ==>
                           (j.source, g) !in w.db.rows)
                     && BrokersFit(w.db, j.run, g, l.articles))
      && (r.Ok? ==> Grew(j, w, r.value, l, g) && r.value.db.groups == groups)
  {
    var (g, groups) := Place(j.digest, j.pre, w, j.source, j.run, j.p.complexId, l);
    var base := Record(j.pre, w.db.(groups := groups), j.source, j.run, j.Details(), j.p.at, l, g);
    StoreBrokersMeaning(base, j.run, g, l.articles);
  }

  /** The `k`-th iteration of a successful loop. */
  lemma LastIteration(j: Job, k: nat) returns (w: Work, w': Work, g: GroupId)
    requires j.run < |j.pre.runs| && 0 < k <= |j.p.listings|
    requires j.Stored(k).Ok?
    ensures j.Stored(k - 1) == Ok(w) && j.Stored(k) == Ok(w')
    ensures Grew(j, w, w', j.p.listings[k - 1], g)
    ensures Placed(j, w, w', j.p.listings[k - 1], g)
  {
    w, w' := j.Stored(k - 1).value, j.Stored(k).value;
    g := Place(j.digest, j.pre, w, j.source, j.run, j.p.complexId, j.p.listings[k - 1]).0;
    StoreListingMeaning(j, w, j.p.listings[k - 1]);
  }

  /** The successive states of the listing loop, and the group each listing went to. */
  ghost predicate Chain(j: Job, ws: seq<Work>, gs: seq<GroupId>)
  {
    && j.run < |j.pre.runs|
    && |ws| == |gs| + 1 && |gs| <= |j.p.listings|
    && ws[0] == Work(j.pre, {})
    && (forall i :: 0 <= i < |gs| ==> Grew(j, ws[i], ws[i + 1], j.p.listings[i], gs[i]))
    && (forall i :: 0 <= i < |gs| ==> Placed(j, ws[i], ws[i + 1], j.p.listings[i], gs[i]))
  }

  ghost predicate Placed(j: Job, w: Work, w': Work, l: Listing, g: GroupId)
  {
    Place(j.digest, j.pre, w, j.source, j.run, j.p.complexId, l) == (g, w'.db.groups)
  }

  /** A successful loop is a chain. */
  lemma {:induction false} MakeChain(j: Job, k: nat) returns (ws: seq<Work>, gs: seq<GroupId>)
    requires j.run < |j.pre.runs| && k <= |j.p.listings|
    requires j.Stored(k).Ok?
    ensures Chain(j, ws, gs) && |gs| == k && ws[k] == j.Stored(k).value
  {
    hide StoreListing, Grew, Placed;
    if k == 0 {
      ws, gs := [Work(j.pre, {})], [];
    } else {
      var w, w', g := LastIteration(j, k);
      ws, gs := MakeChain(j, k - 1);
      ws, gs := Extend(j, ws, gs, w', g);
    }
  }

  lemma Extend(j: Job, ws: seq<Work>, gs: seq<GroupId>, w': Work, g: GroupId)
    returns (ws': seq<Work>, gs': seq<GroupId>)
    requires Chain(j, ws, gs) && |gs| < |j.p.listings|
    requires Grew(j, ws[|gs|], w', j.p.listings[|gs|], g) && Placed(j, ws[|gs|], w', j.p.listings[|gs|], g)
    ensures Chain(j, ws', gs') && ws' == ws + [w'] && gs' == gs + [g]
  {
    hide Grew, Placed;
    ws', gs' := ws + [w'], gs + [g];
    forall i | 0 <= i < |gs'|
      ensures Grew(j, ws'[i], ws'[i + 1], j.p.listings[i], gs'[i])
      ensures Placed(j, ws'[i], ws'[i + 1], j.p.listings[i], gs'[i])
    {
      if i < |gs| {
        assert ws'[i] == ws[i] && ws'[i + 1] == ws[i + 1] && gs'[i] == gs[i];
      }
    }
  }

  /* ------------------------- groups given to the listings ------------------------- */

  /** No two listings of a run go to one group. */
  lemma {:induction false} ChainDistinct(j: Job, ws: seq<Work>, gs: seq<GroupId>, k: nat)
    requires Chain(j, ws, gs) && k <= |gs|
    ensures ws[k].matched == SetOf(gs[..k])
    ensures Distinct(gs[..k])
  {
    hide Grew, Placed;
    if k > 0 {
      ChainDistinct(j, ws, gs, k - 1);
      MatchedGrows(j, ws[k - 1], ws[k], j.p.listings[k - 1], gs[k - 1]);
      assert gs[..k] == gs[..k - 1] + [gs[k - 1]];
    }
  }

  lemma MatchedGrows(j: Job, w: Work, w': Work, l: Listing, g: GroupId)
    requires j.run < |j.pre.runs| && Grew(j, w, w', l, g)
    ensures g !in w.matched && w'.matched == w.matched + {g}
  {
  }

  /* ------------------------- snapshots ------------------------- */

  /** The snapshot of the `i`-th listing. */
  function SnapshotFor(j: Job, i: nat, g: GroupId): Snapshot
    requires j.run < |j.pre.runs| && i < |j.p.listings|
  {
    var l := j.p.listings[i];
    Snapshot(j.run, g, l.columns, l.aggregate, KindOf(EventFor(j, l, g)), j.p.at)
  }

  function SnapshotsFor(j: Job, gs: seq<GroupId>): seq<Snapshot>
    requires j.run < |j.pre.runs| && |gs| <= |j.p.listings|
  {
    seq(|gs|, i requires 0 <= i < |gs| => SnapshotFor(j, i, gs[i]))
  }

  lemma {:induction false} ChainSnapshots(j: Job, ws: seq<Work>, gs: seq<GroupId>, k: nat)
    requires Chain(j, ws, gs) && k <= |gs|
    ensures ws[k].db.snapshots == j.pre.snapshots + SnapshotsFor(j, gs[..k])
  {
    hide Grew, Placed;
    if k > 0 {
      ChainSnapshots(j, ws, gs, k - 1);
      SnapshotsGrow(j, ws[k - 1], ws[k], k, gs[k - 1]);
      hide SnapshotFor;
      assert SnapshotsFor(j, gs[..k]) == SnapshotsFor(j, gs[..k - 1]) + [SnapshotFor(j, k - 1, gs[k - 1])];
    }
  }

  lemma SnapshotsGrow(j: Job, w: Work, w': Work, k: nat, g: GroupId)
    requires j.run < |j.pre.runs| && 0 < k <= |j.p.listings|
    requires Grew(j, w, w', j.p.listings[k - 1], g)
    ensures w'.db.snapshots == w.db.snapshots + [SnapshotFor(j, k - 1, g)]
  {
    hide EventFor;
  }

  /** The groups shown, each with the comparable of its listing. */
  function ShownBy(j: Job, gs: seq<GroupId>): map<GroupId, Comparable>
    requires |gs| <= |j.p.listings|
  {
    if gs == [] then map[]
    else ShownBy(j, gs[..|gs| - 1])[gs[|gs| - 1] := Incoming(j.p.listings[|gs| - 1])]
  }

  lemma {:induction false} ShownByKeys(j: Job, gs: seq<GroupId>)
    requires |gs| <= |j.p.listings|
    ensures ShownBy(j, gs).Keys == SetOf(gs)
  {
    if gs != [] {
      ShownByKeys(j, gs[..|gs| - 1]);
      assert gs == gs[..|gs| - 1] + [gs[|gs| - 1]];
    }
  }

  lemma {:induction false} ShownByAt(j: Job, gs: seq<GroupId>, i: nat)
    requires i < |gs| <= |j.p.listings| && Distinct(gs)
    ensures gs[i] in ShownBy(j, gs) && ShownBy(j, gs)[gs[i]] == Incoming(j.p.listings[i])
  {
    hide Incoming;
    var n := |gs| - 1;
    if i < n {
      ShownByAt(j, gs[..n], i);
      assert gs[..n][i] == gs[i] != gs[n];
    }
  }

  /* ------------------------- rows ------------------------- */

  ghost predicate RowsGrown(j: Job, w: Work)
  {
    && w.db.sources == j.pre.sources && w.db.runs == j.pre.runs
    && (forall s, g :: (s, g) in w.db.rows <==> (s, g) in j.pre.rows || (s == j.source && g in w.matched))
    && (forall s, g :: (s, g) in w.db.rows ==>
          w.db.rows[(s, g)] == (if s == j.source && g in w.matched then RowFor(j, g) else j.pre.rows[(s, g)]))
  }

  lemma RowsGrow(j: Job, w: Work, w': Work, k: nat, g: GroupId)
    requires j.run < |j.pre.runs| && 0 < k <= |j.p.listings|
    requires RowsGrown(j, w) && Grew(j, w, w', j.p.listings[k - 1], g)
    ensures RowsGrown(j, w')
  {
    hide EventFor, RowFor;
  }

  lemma {:induction false} ChainRows(j: Job, ws: seq<Work>, gs: seq<GroupId>, k: nat)
    requires Chain(j, ws, gs) && k <= |gs|
    ensures RowsGrown(j, ws[k])
  {
    hide Grew, Placed;
    if k > 0 {
      ChainRows(j, ws, gs, k - 1);
      RowsGrow(j, ws[k - 1], ws[k], k, gs[k - 1]);
    }
  }

  /* ------------------------- articles ------------------------- */

  /** Bindings are only added; each listing's articles belong to its group and are sighted by this run. */
  ghost predicate ArticlesGrown(j: Job, db: Db, gs: seq<GroupId>)
    requires |gs| <= |j.p.listings|
  {
    && (forall a :: a in j.pre.articles ==> a in db.articles && db.articles[a] == j.pre.articles[a])
    && (forall i, a :: 0 <= i < |gs| && a in j.p.listings[i].articles ==>
          a in db.articles && db.articles[a] == gs[i] && (j.run, a) in db.sightings)
    && (forall i :: 0 <= i < |gs| ==> Distinct(j.p.listings[i].articles))
    && (forall a :: a in db.articles ==> a in j.pre.articles || ListedIn(j, gs, a))
    && (forall s :: s in j.pre.sightings ==> s in db.sightings)
    && (forall s :: s in db.sightings ==> s in j.pre.sightings || (s.0 == j.run && ListedIn(j, gs, s.1)))
  }

  ghost predicate ListedIn(j: Job, gs: seq<GroupId>, a: ArticleId)
    requires |gs| <= |j.p.listings|
  {
    exists i :: 0 <= i < |gs| && a in j.p.listings[i].articles
  }

  lemma ListedInSnoc(j: Job, gs: seq<GroupId>, g: GroupId, a: ArticleId)
    requires |gs| < |j.p.listings|
    ensures ListedIn(j, gs + [g], a) <==> ListedIn(j, gs, a) || a in j.p.listings[|gs|].articles
  {
    if a in j.p.listings[|gs|].articles {
      assert 0 <= |gs| < |gs + [g]|;
    }
    if ListedIn(j, gs, a) {
      var i :| 0 <= i < |gs| && a in j.p.listings[i].articles;
      assert 0 <= i < |gs + [g]|;
    }
  }

  lemma ArticlesGrow(j: Job, w: Work, w': Work, gs: seq<GroupId>, g: GroupId)
    requires j.run < |j.pre.runs| && |gs| < |j.p.listings|
    requires ArticlesGrown(j, w.db, gs) && Grew(j, w, w', j.p.listings[|gs|], g)
    ensures ArticlesGrown(j, w'.db, gs + [g])
  {
    hide EventFor, RowFor, SnapshotFor, ListedIn;
    forall a ensures ListedIn(j, gs + [g], a) <==> ListedIn(j, gs, a) || a in j.p.listings[|gs|].articles {
      ListedInSnoc(j, gs, g, a);
    }
    var l := j.p.listings[|gs|];
    assert forall a :: a in w'.db.articles <==> a in w.db.articles || a in l.articles;
    assert forall a :: a in w.db.articles ==> w'.db.articles[a] == w.db.articles[a];
  }

  lemma {:induction false} ChainArticles(j: Job, ws: seq<Work>, gs: seq<GroupId>, k: nat)
    requires Chain(j, ws, gs) && k <= |gs|
    ensures ArticlesGrown(j, ws[k].db, gs[..k])
  {
    hide ArticlesGrown, Grew, Placed;
    if k == 0 {
      NoArticles(j, ws[0], gs[..0]);
    } else {
      ChainArticles(j, ws, gs, k - 1);
      ArticlesGrow(j, ws[k - 1], ws[k], gs[..k - 1], gs[k - 1]);
      assert gs[..k] == gs[..k - 1] + [gs[k - 1]];
    }
  }

  lemma NoArticles(j: Job, w: Work, gs: seq<GroupId>)
    requires w == Work(j.pre, {}) && gs == []
    ensures ArticlesGrown(j, w.db, gs)
  {
  }

  lemma HasRow(pre: Db, source: SourceId, complexId: string, matched: set<GroupId>, g: GroupId)
    requires IsAbsent(pre, source, complexId, matched, g)
    ensures (source, g) in pre.rows
  {
  }

  /* ------------------------- events ------------------------- */

  function EventsFor(j: Job, gs: seq<GroupId>): seq<Event>
    requires j.run < |j.pre.runs| && |gs| <= |j.p.listings|
  {
    if gs == [] then []
    else EventsFor(j, gs[..|gs| - 1]) + ToSeq(EventFor(j, j.p.listings[|gs| - 1], gs[|gs| - 1]))
  }

  lemma {:induction false} ChainEvents(j: Job, ws: seq<Work>, gs: seq<GroupId>, k: nat)
    requires Chain(j, ws, gs) && k <= |gs|
    ensures ws[k].db.events == j.pre.events + EventsFor(j, gs[..k])
  {
    hide Grew, Placed, EventFor;
    if k > 0 {
      ChainEvents(j, ws, gs, k - 1);
      EventsGrow(j, ws[k - 1], ws[k], j.p.listings[k - 1], gs[k - 1]);
      assert gs[..k][..k - 1] == gs[..k - 1];
    }
  }

  lemma EventsGrow(j: Job, w: Work, w': Work, l: Listing, g: GroupId)
    requires j.run < |j.pre.runs| && Grew(j, w, w', l, g)
    ensures w'.db.events == w.db.events + ToSeq(EventFor(j, l, g))
  {
    hide EventFor, RowFor;
  }
}
