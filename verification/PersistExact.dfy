/** Exactly when a result transaction succeeds. */
module PersistExact {
  import opened Support
  import opened ListingIdentity
  import opened Tables
  import opened Persistence
  import opened PersistenceShape
  import opened SourceHistory
  import opened PersistenceRefines
  import opened Matching

  function TargetOf(j: Job, i: nat): Option<GroupId>
    requires i < |j.p.listings|
  {
    Target(j.digest, j.pre, j.source, j.run, j.p.complexId, j.p.listings[i])
  }

  function KeyOf(j: Job, i: nat): nat
    requires i < |j.p.listings|
  {
    var l := j.p.listings[i];
    IdentityKey(j.digest, IdentityOf(j.p.complexId, l.columns, ArticleSet(l)))
  }

  /** The two listings would go to one group: the same match or, if neither has one, the same key. */
  ghost predicate Collide(j: Job, i: nat, k: nat)
    requires i < |j.p.listings| && k < |j.p.listings|
  {
    if TargetOf(j, i).Some? || TargetOf(j, k).Some? then TargetOf(j, i) == TargetOf(j, k)
    else KeyOf(j, i) == KeyOf(j, k)
  }

  /** The listing names no article twice, none that is bound elsewhere, and none of the listings before it. */
  ghost predicate ArticlesFit(j: Job, k: nat)
    requires k < |j.p.listings|
  {
    var l := j.p.listings[k];
    && Distinct(l.articles)
    && (forall a :: a in l.articles && a in j.pre.articles ==> TargetOf(j, k) == Some(j.pre.articles[a]))
    && (forall i, a :: 0 <= i < k && a in l.articles ==> a !in j.p.listings[i].articles)
  }

  ghost predicate Admissible(j: Job, n: nat)
    requires n <= |j.p.listings|
  {
    && (forall i, k :: 0 <= i < k < n ==> !Collide(j, i, k))
    && (forall k :: 0 <= k < n ==> ArticlesFit(j, k))
  }

  /** What is known after the first `k` listings. */
  ghost predicate LoopAt(j: Job, w: Work, gs: seq<GroupId>)
  {
    && j.run < |j.pre.runs| && |gs| <= |j.p.listings|
    && w.matched == SetOf(gs) && GroupsGrown(j, w.db, gs) && ArticlesGrown(j, w.db, gs) && RowsGrown(j, w)
    && forall i :: 0 <= i < |gs| ==> KeyPlaced(j, w.db.groups, j.p.listings[i], gs[i])
  }

  lemma LoopFacts(j: Job, k: nat) returns (w: Work, gs: seq<GroupId>)
    requires j.run < |j.pre.runs| && k <= |j.p.listings| && j.Stored(k).Ok? && TablesOk(j.pre)
    ensures j.Stored(k) == Ok(w) && |gs| == k && LoopAt(j, w, gs)
  {
    hide StoreListings, SnapshotsFor, Grew, Placed, KeyPlaced, TablesOk, GroupsGrown, ArticlesGrown, RowsGrown;
    var ws;
    ws, gs := MakeChain(j, k);
    w := ws[k];
    assert gs[..k] == gs;
    ChainDistinct(j, ws, gs, k);
    ChainGroups(j, ws, gs, k);
    ChainArticles(j, ws, gs, k);
    ChainRows(j, ws, gs, k);
    ChainKeys(j, ws, gs, k);
  }

  /** The group a listing is placed in: its match, or the only group with its key, none of the old ones. */
  ghost predicate Slot(j: Job, groups: seq<Group>, k: nat, g: GroupId)
    requires k < |j.p.listings|
  {
    if TargetOf(j, k).Some? then TargetOf(j, k) == Some(g) && g < |j.pre.groups|
    else
      && g >= |j.pre.groups| && g <= |groups|
      && forall x :: 0 <= x < |groups| ==> (groups[x] == Group(j.p.complexId, KeyOf(j, k)) <==> x == g)
  }

  lemma PlaceSlot(j: Job, w: Work, gs: seq<GroupId>)
    requires LoopAt(j, w, gs) && |gs| < |j.p.listings| && TablesOk(j.pre)
    ensures Slot(j, w.db.groups, |gs|, Place(j.digest, j.pre, w, j.source, j.run, j.p.complexId, j.p.listings[|gs|]).0)
  {
    var k := |gs|;
    var l := j.p.listings[k];
    TargetMeaning(j.digest, j.pre, j.source, j.run, j.p.complexId, l);
    if TargetOf(j, k).None? {
      GroupWithKeyMeaning(w.db.groups, j.p.complexId, KeyOf(j, k));
      NoOldGroup(j, w.db.groups, gs, k);
    }
    hide Target, IdentityKey, IdentityOf, GroupWithKey, TablesOk, ArticlesGrown, RowsGrown, MatchedTo, KeyPlaced;
  }

  lemma NoOldGroup(j: Job, groups: seq<Group>, gs: seq<GroupId>, k: nat)
    requires TablesOk(j.pre) && k < |j.p.listings| && TargetOf(j, k).None?
    requires |j.pre.groups| <= |groups| && groups[..|j.pre.groups|] == j.pre.groups
    ensures forall x :: 0 <= x < |j.pre.groups| ==> groups[x] != Group(j.p.complexId, KeyOf(j, k))
  {
    assert GroupsOk(j.pre);
    hide TablesOk, Target, IdentityKey, IdentityOf;
    forall x | 0 <= x < |j.pre.groups| ensures groups[x] != Group(j.p.complexId, KeyOf(j, k)) {
      FreshKey(j.digest, j.pre, j.source, j.run, j.p.complexId, j.p.listings[k], x);
      assert groups[x] == groups[..|j.pre.groups|][x];
    }
  }

  /** A group given before is the slot of another listing exactly if the two collide. */
  lemma SlotTaken(j: Job, groups: seq<Group>, i: nat, h: GroupId, k: nat, g: GroupId)
    requires i < |j.p.listings| && k < |j.p.listings| && Slot(j, groups, k, g) && |j.pre.groups| <= |groups|
    requires MatchedTo(j, j.p.listings[i], h) && KeyPlaced(j, groups, j.p.listings[i], h) && h < |groups|
    requires TargetOf(j, i).Some? ==> h < |j.pre.groups|
    ensures h == g <==> Collide(j, i, k)
  {
    hide Target, IdentityKey, IdentityOf;
  }

  /** The group the next listing is placed in is taken exactly if it collides with one before. */
  lemma TakenExactly(j: Job, w: Work, gs: seq<GroupId>, g: GroupId)
    requires LoopAt(j, w, gs) && |gs| < |j.p.listings| && TablesOk(j.pre) && Slot(j, w.db.groups, |gs|, g)
    ensures g in w.matched <==> exists i :: 0 <= i < |gs| && Collide(j, i, |gs|)
  {
    assert forall i :: 0 <= i < |gs| ==> MatchedTo(j, j.p.listings[i], gs[i]) && gs[i] < |w.db.groups|;
    hide TablesOk, ArticlesGrown, RowsGrown, MatchedTo, KeyPlaced, Collide, Slot;
    forall i | 0 <= i < |gs| ensures gs[i] == g <==> Collide(j, i, |gs|) {
      TargetOld(j, i);
      SlotTaken(j, w.db.groups, i, gs[i], |gs|, g);
    }
  }

  lemma TargetOld(j: Job, i: nat)
    requires i < |j.p.listings|
    ensures forall h: GroupId :: MatchedTo(j, j.p.listings[i], h) && TargetOf(j, i).Some? ==> h < |j.pre.groups|
  {
    TargetMeaning(j.digest, j.pre, j.source, j.run, j.p.complexId, j.p.listings[i]);
    hide Target;
  }

  /** A group not taken has no row, if it is new. */
  lemma NoRow(j: Job, w: Work, gs: seq<GroupId>, g: GroupId)
    requires LoopAt(j, w, gs) && TablesOk(j.pre) && g >= |j.pre.groups| && g !in w.matched
    ensures (j.source, g) !in w.db.rows
  {
    assert RowsOk(j.pre);
    hide TablesOk, GroupsGrown, ArticlesGrown, KeyPlaced, RowFor;
  }

  /** The articles can be stored exactly if they fit. */
  lemma BrokersExactly(j: Job, w: Work, gs: seq<GroupId>, g: GroupId)
    requires LoopAt(j, w, gs) && |gs| < |j.p.listings| && TablesOk(j.pre) && !IsResult(j.pre.runs[j.run].status)
    requires Slot(j, w.db.groups, |gs|, g) && g !in w.matched
    ensures BrokersFit(w.db, j.run, g, j.p.listings[|gs|].articles) <==> ArticlesFit(j, |gs|)
  {
    var k := |gs|;
    assert ArticlesOk(j.pre);
    assert forall i :: 0 <= i < k ==> gs[i] in w.matched;
    hide TablesOk, GroupsGrown, RowsGrown, KeyPlaced, Target, KeyOf;
    forall a ensures (a in w.db.articles ==> w.db.articles[a] == g) && (j.run, a) !in w.db.sightings <==>
        (a in j.pre.articles ==> TargetOf(j, k) == Some(j.pre.articles[a]))
        && forall i :: 0 <= i < k ==> a !in j.p.listings[i].articles
    {
      OneArticle(j, w.db, gs, g, a);
    }
  }

  lemma OneArticle(j: Job, db: Db, gs: seq<GroupId>, g: GroupId, a: ArticleId)
    requires |gs| < |j.p.listings| && ArticlesGrown(j, db, gs) && ArticlesOk(j.pre) && j.run < |j.pre.runs|
    requires !IsResult(j.pre.runs[j.run].status) && g !in gs
    requires if TargetOf(j, |gs|).Some? then TargetOf(j, |gs|) == Some(g) && g < |j.pre.groups| else g >= |j.pre.groups|
    ensures (a in db.articles ==> db.articles[a] == g) && (j.run, a) !in db.sightings <==>
        (a in j.pre.articles ==> TargetOf(j, |gs|) == Some(j.pre.articles[a]))
        && forall i :: 0 <= i < |gs| ==> a !in j.p.listings[i].articles
  {
    hide Target;
    assert (j.run, a) !in j.pre.sightings;
    if i :| 0 <= i < |gs| && a in j.p.listings[i].articles {
      assert (j.run, a) in db.sightings;
    } else {
      assert !ListedIn(j, gs, a);
    }
  }

  lemma StoredStep(j: Job, k: nat)
    requires j.run < |j.pre.runs| && 0 < k <= |j.p.listings|
    ensures j.Stored(k) ==
      if j.Stored(k - 1).Err? then j.Stored(k - 1)
      else StoreListing(j.digest, j.pre, j.Stored(k - 1).value, j.source, j.run, j.Details(), j.p, j.p.listings[k - 1])
  {
    hide StoreListing;
  }

  /** One more listing can be stored exactly if it collides with none before and its articles fit. */
  lemma IterationExact(j: Job, w: Work, gs: seq<GroupId>)
    requires LoopAt(j, w, gs) && |gs| < |j.p.listings| && TablesOk(j.pre) && !IsResult(j.pre.runs[j.run].status)
    ensures StoreListing(j.digest, j.pre, w, j.source, j.run, j.Details(), j.p, j.p.listings[|gs|]).Ok? <==>
      (forall i :: 0 <= i < |gs| ==> !Collide(j, i, |gs|)) && ArticlesFit(j, |gs|)
  {
    var k := |gs|;
    var g := Place(j.digest, j.pre, w, j.source, j.run, j.p.complexId, j.p.listings[k]).0;
    StoreListingMeaning(j, w, j.p.listings[k]);
    PlaceSlot(j, w, gs);
    TakenExactly(j, w, gs, g);
    assert TargetOf(j, k).None? ==> g >= |j.pre.groups|;
    hide LoopAt, TablesOk, StoreListing, Place, BrokersFit, Grew, Slot, Collide, ArticlesFit;
    if g !in w.matched {
      BrokersExactly(j, w, gs, g);
      if TargetOf(j, k).None? {
        NoRow(j, w, gs, g);
      }
    }
  }

  lemma {:induction false} LoopExact(j: Job, k: nat)
    requires j.run < |j.pre.runs| && k <= |j.p.listings| && TablesOk(j.pre) && !IsResult(j.pre.runs[j.run].status)
    ensures j.Stored(k).Ok? <==> Admissible(j, k)
  {
    hide StoreListings, TablesOk, LoopAt, Collide, ArticlesFit, StoreListing;
    if k == 0 {
      NothingStored(j);
    } else {
      LoopExact(j, k - 1);
      StoredStep(j, k);
      if j.Stored(k - 1).Ok? {
        var w, gs := LoopFacts(j, k - 1);
        IterationExact(j, w, gs);
      }
    }
  }

  lemma NothingStored(j: Job)
    requires j.run < |j.pre.runs|
    ensures j.Stored(0).Ok?
  {
  }

  /** A result of a run that has not ended is stored exactly if its source is known and of this complex, no two listings
      would go to one group, and no article is listed twice or bound to another group. */
  lemma PersistsExactly(digest: Digest, db: Db, run: RunId, p: Payload)
    requires TablesOk(db) && run < |db.runs| && !IsTerminal(db.runs[run].status)
    ensures var source := db.runs[run].source;
      Persisted(digest, db, run, p).Ok? <==>
        && source in db.sources && (db.sources[source].None? || db.sources[source] == Some(p.complexId))
        && Admissible(Job(digest, db, source, run, p), |p.listings|)
  {
    var j := Job(digest, db, db.runs[run].source, run, p);
    LoopExact(j, |p.listings|);
    hide TablesOk, StoreListings, StoreAbsences, Admissible;
  }
}
