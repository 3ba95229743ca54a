/** Which group a listing goes to, said of the tables: the bound articles, the stored
    columns and the founding offers. */
module Matching {
  import opened Support
  import opened Text
  import opened ListingIdentity
  import opened Tables
  import opened Persistence
  import opened PersistenceShape
  import opened SourceHistory
  import opened PersistenceRefines
  import opened ChangeEvents
  import opened HistoryStep
  import opened TrackStep
  import opened Growth
  import opened System
  import opened Guarantees

  /* ------------------------- what the rules look at ------------------------- */

  predicate InComplex(db: Db, complexId: string, g: GroupId)
  {
    g < |db.groups| && db.groups[g].complexId == complexId
  }

  /** The articles of the listing that are bound to the group. */
  function SharedWith(db: Db, g: GroupId, l: Listing): set<ArticleId>
  {
    set a | a in l.articles && a in db.articles && db.articles[a] == g
  }

  /** Trade type, building, floor and direction have the same words, and the areas are equal. */
  ghost predicate SameFlat(k: Columns, c: Columns)
  {
    && Words(k.tradeType) == Words(c.tradeType) && WordsOf(k.building) == WordsOf(c.building)
    && k.exclusiveArea == c.exclusiveArea
    && WordsOf(k.floor) == WordsOf(c.floor) && WordsOf(k.direction) == WordsOf(c.direction)
  }

  /** The newest snapshot of the group, whatever its source. */
  ghost predicate Newest(db: Db, g: GroupId, m: nat)
  {
    && m < |db.snapshots| && db.snapshots[m].group == g
    && forall k :: 0 <= k < |db.snapshots| && db.snapshots[k].group == g ==> Newer(db, m, k)
  }

  /** The snapshot that describes a group to a source: its last completed one or, if it has none, the newest of all. */
  ghost predicate Describes(db: Db, source: SourceId, g: GroupId, m: nat)
  {
    LastCompleted(db, source, g, m) || (NeverCompleted(db, source, g) && Newest(db, g, m))
  }

  ghost predicate LooksLike(db: Db, source: SourceId, g: GroupId, l: Listing)
  {
    exists m: nat :: Describes(db, source, g, m) && SameFlat(db.snapshots[m].columns, l.columns)
  }

  /** The first snapshot of the group. */
  ghost predicate First(db: Db, g: GroupId, m: nat)
  {
    && m < |db.snapshots| && db.snapshots[m].group == g
    && forall k :: 0 <= k < m ==> db.snapshots[k].group != g
  }

  /** The group came into being with the same flat at the same price and with the same articles. */
  ghost predicate FoundedBy(db: Db, g: GroupId, l: Listing)
  {
    exists m: nat :: First(db, g, m) && SameFlat(db.snapshots[m].columns, l.columns)
                     && db.snapshots[m].columns.price == l.columns.price
                     && RunArticles(db, db.snapshots[m].run, g) == (set a | a in l.articles)
  }

  /** Only this group of the complex looks like the listing. */
  ghost predicate OnlyLookalike(db: Db, source: SourceId, complexId: string, g: GroupId, l: Listing)
  {
    && InComplex(db, complexId, g) && LooksLike(db, source, g, l)
    && forall x: GroupId :: InComplex(db, complexId, x) && x != g ==> !LooksLike(db, source, x, l)
  }

  /** The three rules. `target` is the group the listing is matched to, if any. */
  ghost predicate RulesTold(db: Db, source: SourceId, complexId: string, l: Listing, target: Option<GroupId>)
  {
    && (target.Some? ==> InComplex(db, complexId, target.value))
    && ((exists g: GroupId :: InComplex(db, complexId, g) && SharedWith(db, g, l) != {}) ==>
          && target.Some? && SharedWith(db, target.value, l) != {}
          && forall g: GroupId :: InComplex(db, complexId, g) ==>
               || |SharedWith(db, g, l)| < |SharedWith(db, target.value, l)|
               || (|SharedWith(db, g, l)| == |SharedWith(db, target.value, l)|
                   && db.groups[target.value].identityKey <= db.groups[g].identityKey))
    && ((forall g: GroupId :: InComplex(db, complexId, g) ==> SharedWith(db, g, l) == {}) ==>
          if exists g: GroupId :: InComplex(db, complexId, g) && FoundedBy(db, g, l)
          then target.Some? && FoundedBy(db, target.value, l)
          else && (target.Some? <==> exists g: GroupId :: OnlyLookalike(db, source, complexId, g, l))
               && (forall g: GroupId :: OnlyLookalike(db, source, complexId, g, l) ==> target == Some(g)))
  }

  /* ------------------------- founding ------------------------- */

  /** The key of a group is that of the offer it came into being with. */
  ghost predicate KeyFounded(digest: Digest, db: Db, g: GroupId, m: nat)
    requires g < |db.groups|
  {
    && First(db, g, m)
    && db.groups[g].identityKey ==
         IdentityKey(digest, IdentityOf(db.groups[g].complexId, db.snapshots[m].columns,
                                        RunArticles(db, db.snapshots[m].run, g)))
  }

  ghost predicate HasFounder(digest: Digest, db: Db, g: GroupId)
  {
    g < |db.groups| && exists m: nat :: KeyFounded(digest, db, g, m)
  }

  ghost predicate FoundedOk(digest: Digest, db: Db)
  {
    forall g: GroupId :: g < |db.groups| ==> HasFounder(digest, db, g)
  }

  /* ------------------------- candidates ------------------------- */

  /** The candidate of a group: its key, the description of its snapshot and its articles. */
  ghost predicate IsCandidate(db: Db, complexId: string, source: SourceId, c: Candidate)
  {
    && InComplex(db, complexId, c.group) && c.key == db.groups[c.group].identityKey
    && exists m: nat :: Describes(db, source, c.group, m)
                        && c.input == IdentityOf(complexId, db.snapshots[m].columns, GroupArticles(db, c.group))
  }

  lemma {:induction false} LatestAnyMeaning(db: Db, g: GroupId, n: nat)
    requires n <= |db.snapshots|
    ensures var s := LatestAny(db.snapshots[..n], g);
      && (s.None? <==> forall k :: 0 <= k < n ==> db.snapshots[k].group != g)
      && (s.Some? ==> exists m: nat :: m < n && db.snapshots[m] == s.value && s.value.group == g
                        && forall k :: 0 <= k < n && db.snapshots[k].group == g ==> Newer(db, m, k))
  {
    if n > 0 {
      LatestAnyMeaning(db, g, n - 1);
      assert db.snapshots[..n][..n - 1] == db.snapshots[..n - 1];
    }
  }

  /** The snapshot `_existing_records` takes the description from. */
  function Chosen(db: Db, source: SourceId, current: RunId, g: GroupId): Option<Snapshot>
  {
    var complete := LatestComplete(db, source, g, current, |db.snapshots|);
    if complete.Some? then complete else LatestAny(db.snapshots, g)
  }

  lemma ChosenDescribes(db: Db, source: SourceId, current: RunId, g: GroupId)
    requires current >= |db.runs| || db.runs[current].status != Completed
    ensures Chosen(db, source, current, g).None? <==> !HasSnapshot(db, g)
    ensures Chosen(db, source, current, g).Some? ==>
      exists m: nat :: Describes(db, source, g, m) && db.snapshots[m] == Chosen(db, source, current, g).value
  {
    LatestCompleteMeaning(db, source, g, current, |db.snapshots|);
    LatestAnyMeaning(db, g, |db.snapshots|);
    assert db.snapshots[..|db.snapshots|] == db.snapshots;
    hide LatestComplete, LatestAny;
    var complete := LatestComplete(db, source, g, current, |db.snapshots|);
    if complete.Some? {
      var m: nat :| m < |db.snapshots| && db.snapshots[m] == complete.value && CompletedOf(db, source, g, m)
        && forall k: nat :: k < |db.snapshots| && CompletedOf(db, source, g, k) ==> Newer(db, m, k);
      assert LastCompleted(db, source, g, m);
    } else if LatestAny(db.snapshots, g).Some? {
      var m: nat :| m < |db.snapshots| && db.snapshots[m] == LatestAny(db.snapshots, g).value
        && db.snapshots[m].group == g
        && forall k :: 0 <= k < |db.snapshots| && db.snapshots[k].group == g ==> Newer(db, m, k);
      assert Newest(db, g, m);
    }
  }

  /** One snapshot describes a group. */
  lemma DescribesOne(db: Db, source: SourceId, g: GroupId, m: nat, k: nat)
    requires Describes(db, source, g, m) && Describes(db, source, g, k)
    ensures m == k
  {
  }

  /** One more group: a candidate if it is of the complex. */
  lemma CandidatesSnoc(db: Db, complexId: string, source: SourceId, current: RunId, n: nat)
    requires 0 < n <= |db.groups| && (current >= |db.runs| || db.runs[current].status != Completed)
    requires HasSnapshot(db, n - 1)
    ensures var rest := Candidates(db, complexId, source, current, n - 1);
      var cs := Candidates(db, complexId, source, current, n);
      if InComplex(db, complexId, n - 1)
      then exists c :: cs == rest + [c] && c.group == n - 1 && IsCandidate(db, complexId, source, c)
      else cs == rest
  {
    ChosenDescribes(db, source, current, n - 1);
    hide LatestComplete, LatestAny, Describes, IdentityOf, GroupArticles, HasSnapshot;
    if InComplex(db, complexId, n - 1) {
      var c := Candidate(n - 1, db.groups[n - 1].identityKey,
                         IdentityOf(complexId, Chosen(db, source, current, n - 1).value.columns,
                                    GroupArticles(db, n - 1)));
      assert Candidates(db, complexId, source, current, n) == Candidates(db, complexId, source, current, n - 1) + [c];
    }
  }

  /** Every group of the complex has one candidate, and they come in group order. */
  ghost predicate InOrderBelow(db: Db, complexId: string, source: SourceId, cs: seq<Candidate>, n: nat)
  {
    && (forall i :: 0 <= i < |cs| ==> cs[i].group < n && IsCandidate(db, complexId, source, cs[i]))
    && (forall i, k :: 0 <= i < k < |cs| ==> cs[i].group < cs[k].group)
    && (forall g: GroupId :: g < n && InComplex(db, complexId, g) ==> exists i :: 0 <= i < |cs| && cs[i].group == g)
  }

  lemma OneMore(db: Db, complexId: string, source: SourceId, rest: seq<Candidate>, c: Candidate, n: nat)
    requires InOrderBelow(db, complexId, source, rest, n) && c.group == n && IsCandidate(db, complexId, source, c)
    ensures InOrderBelow(db, complexId, source, rest + [c], n + 1)
  {
    hide IsCandidate, InComplex;
    var cs := rest + [c];
    forall g: GroupId | g < n + 1 && InComplex(db, complexId, g) ensures exists i :: 0 <= i < |cs| && cs[i].group == g {
      if g < n {
        var i :| 0 <= i < |rest| && rest[i].group == g;
        assert cs[i].group == g;
      } else {
        assert cs[|rest|].group == g;
      }
    }
  }

  lemma {:induction false} CandidatesTold(db: Db, complexId: string, source: SourceId, current: RunId, n: nat)
    requires n <= |db.groups| && (current >= |db.runs| || db.runs[current].status != Completed)
    requires forall g :: 0 <= g < |db.groups| ==> HasSnapshot(db, g)
    ensures InOrderBelow(db, complexId, source, Candidates(db, complexId, source, current, n), n)
  {
    hide HasSnapshot, IsCandidate, InComplex;
    if n > 0 {
      CandidatesTold(db, complexId, source, current, n - 1);
      CandidatesSnoc(db, complexId, source, current, n);
      var rest, cs := Candidates(db, complexId, source, current, n - 1), Candidates(db, complexId, source, current, n);
      hide Candidates;
      if InComplex(db, complexId, n - 1) {
        var c :| cs == rest + [c] && c.group == n - 1 && IsCandidate(db, complexId, source, c);
        OneMore(db, complexId, source, rest, c, n - 1);
      }
    }
  }

  /* ------------------------- the rules ------------------------- */

  /** The offer a group was founded by. */
  ghost function Origin(digest: Digest, db: Db, g: GroupId): Option<Identity>
    requires g < |db.groups| && FoundedOk(digest, db)
  {
    assert HasFounder(digest, db, g);
    var m: nat :| KeyFounded(digest, db, g, m);
    Some(IdentityOf(db.groups[g].complexId, db.snapshots[m].columns, RunArticles(db, db.snapshots[m].run, g)))
  }

  lemma FirstOne(db: Db, g: GroupId, m: nat, k: nat)
    requires First(db, g, m) && First(db, g, k)
    ensures m == k
  {
  }

  lemma OriginTold(digest: Digest, db: Db, complexId: string, g: GroupId, l: Listing)
    requires FoundedOk(digest, db) && InComplex(db, complexId, g)
    ensures Founded(Origin(digest, db, g), IdentityOf(complexId, l.columns, ArticleSet(l))) <==> FoundedBy(db, g, l)
    ensures db.groups[g].identityKey == IdentityKey(digest, Origin(digest, db, g).value)
  {
    hide IdentityKey, RunArticles, Words;
    var o := Origin(digest, db, g);
    var m: nat :| KeyFounded(digest, db, g, m) && o ==
      Some(IdentityOf(db.groups[g].complexId, db.snapshots[m].columns, RunArticles(db, db.snapshots[m].run, g)));
    assert KeyFounded(digest, db, g, m);
    assert First(db, g, m);
    forall k: nat | First(db, g, k) ensures k == m {
      FirstOne(db, g, k, m);
    }
  }

  lemma CandidateShared(db: Db, complexId: string, source: SourceId, c: Candidate, l: Listing)
    requires IsCandidate(db, complexId, source, c)
    ensures Shared(IdentityOf(complexId, l.columns, ArticleSet(l)), c) == SharedWith(db, c.group, l)
  {
  }

  lemma CandidateLooks(db: Db, complexId: string, source: SourceId, c: Candidate, l: Listing)
    requires IsCandidate(db, complexId, source, c)
    ensures SameDescription(c.input, IdentityOf(complexId, l.columns, ArticleSet(l)))
       <==> LooksLike(db, source, c.group, l)
  {
    hide GroupArticles, Words;
    var m: nat :| Describes(db, source, c.group, m)
                  && c.input == IdentityOf(complexId, db.snapshots[m].columns, GroupArticles(db, c.group));
    forall k: nat | Describes(db, source, c.group, k) ensures k == m {
      DescribesOne(db, source, c.group, k, m);
    }
  }

  /** The groups of the candidates: all of the complex, each once. */
  ghost predicate Listed(db: Db, complexId: string, source: SourceId, cs: seq<Candidate>)
  {
    && (forall i :: 0 <= i < |cs| ==> IsCandidate(db, complexId, source, cs[i]))
    && (forall i, k :: 0 <= i < k < |cs| ==> cs[i].group != cs[k].group)
    && (forall g: GroupId :: InComplex(db, complexId, g) ==> exists i :: 0 <= i < |cs| && cs[i].group == g)
  }

  lemma OnlyLookalikes(db: Db, complexId: string, source: SourceId, cs: seq<Candidate>, l: Listing, i: nat)
    requires Listed(db, complexId, source, cs) && i < |cs|
    ensures OnlyLike(IdentityOf(complexId, l.columns, ArticleSet(l)), cs, i)
       <==> OnlyLookalike(db, source, complexId, cs[i].group, l)
  {
    hide IsCandidate, LooksLike, SameDescription, IdentityOf;
    forall k | 0 <= k < |cs|
      ensures SameDescription(cs[k].input, IdentityOf(complexId, l.columns, ArticleSet(l)))
         <==> LooksLike(db, source, cs[k].group, l)
      ensures InComplex(db, complexId, cs[k].group)
    {
      CandidateLooks(db, complexId, source, cs[k], l);
      CandidateIn(db, complexId, source, cs[k]);
    }
  }

  lemma CandidateIn(db: Db, complexId: string, source: SourceId, c: Candidate)
    requires IsCandidate(db, complexId, source, c)
    ensures InComplex(db, complexId, c.group) && c.key == db.groups[c.group].identityKey
  {
  }

  lemma BelowListed(db: Db, complexId: string, source: SourceId, cs: seq<Candidate>)
    requires InOrderBelow(db, complexId, source, cs, |db.groups|)
    ensures Listed(db, complexId, source, cs)
  {
    hide IsCandidate;
  }

  /** A candidate stands for its group. */
  ghost predicate StandsFor(db: Db, complexId: string, c: Candidate, origin: Option<Identity>, incoming: Identity,
                            l: Listing)
  {
    && InComplex(db, complexId, c.group) && c.key == db.groups[c.group].identityKey
    && Shared(incoming, c) == SharedWith(db, c.group, l)
    && (Founded(origin, incoming) <==> FoundedBy(db, c.group, l))
  }

  lemma RulesFrom(db: Db, source: SourceId, complexId: string, l: Listing, cs: seq<Candidate>, incoming: Identity,
                  origin: Candidate -> Option<Identity>, r: Option<Candidate>)
    requires FollowsRules(incoming, cs, origin, r)
    requires forall c :: c in cs ==> StandsFor(db, complexId, c, origin(c), incoming, l)
    requires forall i: nat :: i < |cs| ==>
      (OnlyLike(incoming, cs, i) <==> OnlyLookalike(db, source, complexId, cs[i].group, l))
    requires forall g: GroupId :: InComplex(db, complexId, g) ==> exists i :: 0 <= i < |cs| && cs[i].group == g
    ensures RulesTold(db, source, complexId, l, if r.Some? then Some(r.value.group) else None)
  {
    hide Shared, SharedWith, Founded, FoundedBy, LooksLike, SameDescription;
    forall g: GroupId | InComplex(db, complexId, g)
      ensures exists c :: c in cs && c.group == g && StandsFor(db, complexId, c, origin(c), incoming, l)
    {
      var i :| 0 <= i < |cs| && cs[i].group == g;
      assert cs[i] in cs;
    }
    forall g: GroupId | OnlyLookalike(db, source, complexId, g, l)
      ensures exists i: nat :: i < |cs| && cs[i].group == g && OnlyLike(incoming, cs, i)
    {
      var i :| 0 <= i < |cs| && cs[i].group == g;
    }
    forall i: nat | OnlyLike(incoming, cs, i) ensures OnlyLookalike(db, source, complexId, cs[i].group, l) {
    }
  }

  /** A matched group follows the rules. */
  lemma TargetTold(digest: Digest, db: Db, source: SourceId, current: RunId, complexId: string, l: Listing)
    requires Injective(digest) && FoundedOk(digest, db)
    requires current >= |db.runs| || db.runs[current].status != Completed
    requires forall g :: 0 <= g < |db.groups| ==> HasSnapshot(db, g)
    ensures RulesTold(db, source, complexId, l, Target(digest, db, source, current, complexId, l))
  {
    var cs := Candidates(db, complexId, source, current, |db.groups|);
    var incoming := IdentityOf(complexId, l.columns, ArticleSet(l));
    CandidatesTold(db, complexId, source, current, |db.groups|);
    BelowListed(db, complexId, source, cs);
    var origin := (c: Candidate) => if c.group < |db.groups| then Origin(digest, db, c.group) else None;
    hide IsCandidate, Candidates, InOrderBelow, FoundedOk, HasSnapshot, RulesTold, FollowsRules, Choose, IdentityOf;
    hide InComplex, OnlyLike, OnlyLookalike, Injective, Keyed, StandsFor, Origin;
    forall c | c in cs
      ensures Keyed(digest, c, origin(c)) && StandsFor(db, complexId, c, origin(c), incoming, l)
    {
      CandidateStands(digest, db, complexId, source, c, l);
    }
    forall i: nat | i < |cs|
      ensures OnlyLike(incoming, cs, i) <==> OnlyLookalike(db, source, complexId, cs[i].group, l)
    {
      OnlyLookalikes(db, complexId, source, cs, l, i);
    }
    ChooseMeaning(digest, incoming, cs, origin);
    RulesFrom(db, source, complexId, l, cs, incoming, origin, Choose(digest, incoming, cs));
  }

  lemma CandidateStands(digest: Digest, db: Db, complexId: string, source: SourceId, c: Candidate, l: Listing)
    requires FoundedOk(digest, db) && IsCandidate(db, complexId, source, c)
    ensures c.group < |db.groups| && Keyed(digest, c, Origin(digest, db, c.group))
    ensures StandsFor(db, complexId, c, Origin(digest, db, c.group), IdentityOf(complexId, l.columns, ArticleSet(l)), l)
  {
    CandidateIn(db, complexId, source, c);
    CandidateShared(db, complexId, source, c, l);
    OriginTold(digest, db, complexId, c.group, l);
    assert Origin(digest, db, c.group).Some?;
    hide IsCandidate, FoundedOk, Origin, IdentityOf, IdentityKey, Founded, FoundedBy, Shared, SharedWith;
  }

  /* ------------------------- founding along the backend ------------------------- */

  /** A listing that found no group of the tables before went to one with the key of its own offer. */
  ghost predicate KeyPlaced(j: Job, groups: seq<Group>, l: Listing, g: GroupId)
  {
    g >= |j.pre.groups| ==>
      g < |groups| && groups[g] == Group(j.p.complexId,
                                         IdentityKey(j.digest, IdentityOf(j.p.complexId, l.columns, ArticleSet(l))))
  }

  lemma PlacedKey(j: Job, w: Work, w': Work, l: Listing, g: GroupId)
    requires Placed(j, w, w', l, g)
    ensures KeyPlaced(j, w'.db.groups, l, g) && w.db.groups <= w'.db.groups
  {
    TargetMeaning(j.digest, j.pre, j.source, j.run, j.p.complexId, l);
    hide Target, IdentityKey, IdentityOf, GroupWithKey;
    GroupWithKeyMeaning(w.db.groups, j.p.complexId,
                        IdentityKey(j.digest, IdentityOf(j.p.complexId, l.columns, ArticleSet(l))));
  }

  lemma {:induction false} ChainKeys(j: Job, ws: seq<Work>, gs: seq<GroupId>, k: nat)
    requires Chain(j, ws, gs) && k <= |gs|
    ensures forall i :: 0 <= i < k ==> KeyPlaced(j, ws[k].db.groups, j.p.listings[i], gs[i])
  {
    hide Grew, Placed;
    if k > 0 {
      ChainKeys(j, ws, gs, k - 1);
      PlacedKey(j, ws[k - 1], ws[k], j.p.listings[k - 1], gs[k - 1]);
    }
  }

  ghost predicate KeysPlaced(j: Job, db: Db, gs: seq<GroupId>)
  {
    |gs| == |j.p.listings| && forall i :: 0 <= i < |gs| ==> KeyPlaced(j, db.groups, j.p.listings[i], gs[i])
  }

  lemma SameGroups(j: Job, gs: seq<GroupId>, hs: seq<GroupId>)
    requires j.run < |j.pre.runs| && |gs| == |hs| == |j.p.listings| && SnapshotsFor(j, gs) == SnapshotsFor(j, hs)
    ensures gs == hs
  {
    forall i | 0 <= i < |gs| ensures gs[i] == hs[i] {
      assert SnapshotsFor(j, gs)[i].group == gs[i] && SnapshotsFor(j, hs)[i].group == hs[i];
    }
  }

  /** What the listing loop leaves behind. */
  lemma LoopKeyed(j: Job) returns (w: Work, gs: seq<GroupId>)
    requires j.run < |j.pre.runs| && j.Stored(|j.p.listings|).Ok?
    ensures j.Stored(|j.p.listings|) == Ok(w) && |gs| == |j.p.listings|
    ensures w.db.snapshots == j.pre.snapshots + SnapshotsFor(j, gs)
    ensures forall i :: 0 <= i < |gs| ==> KeyPlaced(j, w.db.groups, j.p.listings[i], gs[i])
  {
    hide StoreListings, SnapshotsFor, Grew, Placed, KeyPlaced;
    var ws;
    ws, gs := MakeChain(j, |j.p.listings|);
    w := ws[|gs|];
    assert gs[..|gs|] == gs;
    ChainSnapshots(j, ws, gs, |gs|);
    ChainKeys(j, ws, gs, |gs|);
  }

  lemma SameTail(a: seq<Snapshot>, b: seq<Snapshot>, c: seq<Snapshot>)
    requires a + b == a + c
    ensures b == c
  {
    assert (a + b)[|a|..] == b && (a + c)[|a|..] == c;
  }

  lemma LandKeyed(digest: Digest, db: Db, run: RunId, p: Payload) returns (j: Job, gs: seq<GroupId>)
    requires TablesOk(db)
    requires run < |db.runs| && !IsTerminal(db.runs[run].status) && Persisted(digest, db, run, p).Ok?
    ensures j == Job(digest, db, db.runs[run].source, run, p)
    ensures Landed(j, gs, Persisted(digest, db, run, p).value)
    ensures KeysPlaced(j, Persisted(digest, db, run, p).value, gs)
  {
    hide *;
    j, gs := Land(digest, db, run, p);
    var db' := Persisted(digest, db, run, p).value;
    LandedAs(j, gs, db');
    LoopSucceeds(j);
    var w, hs := LoopKeyed(j);
    PersistedParts(j, w, db');
    SameTail(db.snapshots, SnapshotsFor(j, gs), SnapshotsFor(j, hs));
    SameGroups(j, gs, hs);
    AllPlaced(j, db', gs);
  }

  lemma AllPlaced(j: Job, db: Db, gs: seq<GroupId>)
    requires |gs| == |j.p.listings| && forall i :: 0 <= i < |gs| ==> KeyPlaced(j, db.groups, j.p.listings[i], gs[i])
    ensures KeysPlaced(j, db, gs)
  {
    hide KeyPlaced;
  }

  lemma OldRunArticles(j: Job, gs: seq<GroupId>, db: Db, run: RunId, g: GroupId)
    requires |gs| <= |j.p.listings| && ArticlesGrown(j, db, gs) && ArticlesOk(j.pre) && run != j.run
    ensures RunArticles(db, run, g) == RunArticles(j.pre, run, g)
  {
    hide ListedIn;
  }

  lemma OldFounder(j: Job, gs: seq<GroupId>, db: Db, g: GroupId)
    requires Started(j) && |gs| == |j.p.listings| && ArticlesGrown(j, db, gs) && GroupsGrown(j, db, gs)
    requires ArticlesOk(j.pre) && SnapshotsOk(j.pre) && g < |j.pre.groups| && HasFounder(j.digest, j.pre, g)
    requires db.snapshots == j.pre.snapshots + SnapshotsFor(j, gs)
    ensures HasFounder(j.digest, db, g)
  {
    hide ArticlesGrown, ArticlesOk, RunArticles, IdentityKey, IdentityOf, SnapshotsFor, MatchedTo;
    var m: nat :| KeyFounded(j.digest, j.pre, g, m);
    assert SnapshotOk(j.pre, j.pre.snapshots[m]);
    OldRunArticles(j, gs, db, j.pre.snapshots[m].run, g);
    assert db.groups[g] == db.groups[..|j.pre.groups|][g];
    assert KeyFounded(j.digest, db, g, m);
  }

  /** The first snapshot of a new group is the one of its listing. */
  lemma NewFirst(j: Job, gs: seq<GroupId>, db: Db, i: nat)
    requires j.run < |j.pre.runs| && |gs| == |j.p.listings| && Distinct(gs) && i < |gs|
    requires SnapshotsOk(j.pre) && |j.pre.groups| <= gs[i]
    requires db.snapshots == j.pre.snapshots + SnapshotsFor(j, gs)
    ensures var m := |j.pre.snapshots| + i;
      First(db, gs[i], m) && db.snapshots[m].run == j.run && db.snapshots[m].columns == j.p.listings[i].columns
  {
    hide EventFor;
    var g, m := gs[i], |j.pre.snapshots| + i;
    assert db.snapshots[m] == SnapshotFor(j, i, g);
    forall k | 0 <= k < m ensures db.snapshots[k].group != g {
      if k < |j.pre.snapshots| {
        assert SnapshotOk(j.pre, j.pre.snapshots[k]);
      } else {
        assert db.snapshots[k] == SnapshotFor(j, k - |j.pre.snapshots|, gs[k - |j.pre.snapshots|]);
      }
    }
  }

  lemma NewFounder(j: Job, gs: seq<GroupId>, db: Db, i: nat)
    requires Started(j) && |gs| == |j.p.listings| && Distinct(gs) && ArticlesGrown(j, db, gs) && i < |gs|
    requires ArticlesOk(j.pre) && SnapshotsOk(j.pre) && |j.pre.groups| <= gs[i] < |db.groups|
    requires db.snapshots == j.pre.snapshots + SnapshotsFor(j, gs)
    requires KeyPlaced(j, db.groups, j.p.listings[i], gs[i])
    ensures HasFounder(j.digest, db, gs[i])
  {
    NewFirst(j, gs, db, i);
    forall a ensures (j.run, a) !in j.pre.sightings {
    }
    hide Started, SnapshotsFor, SnapshotsOk, ArticlesGrown, ArticlesOk, RunArticles, IdentityKey, IdentityOf;
    hide First, Distinct;
    NewRunArticles(j, gs, db, i);
    assert KeyFounded(j.digest, db, gs[i], |j.pre.snapshots| + i);
  }

  /** A transaction founds groups by the offers it found no group for. */
  lemma FoundingKept(digest: Digest, db: Db, run: RunId, p: Payload)
    requires TablesOk(db) && FoundedOk(digest, db)
    requires run < |db.runs| && !IsTerminal(db.runs[run].status) && Persisted(digest, db, run, p).Ok?
    ensures FoundedOk(digest, Persisted(digest, db, run, p).value)
  {
    var db' := Persisted(digest, db, run, p).value;
    assert ArticlesOk(db) && SnapshotsOk(db);
    hide Persisted, TablesOk, KeyFounded, ArticlesOk, SnapshotsOk, Landed, Started;
    var j, gs := LandKeyed(digest, db, run, p);
    LandedStarted(j, gs, db');
    LandedParts(j, gs, db');
    LandedAs(j, gs, db');
    hide HasFounder, ArticlesGrown, EventsFor, AbsenceEvents, SnapshotsFor, KeyPlaced, MatchedTo;
    forall g: GroupId | g < |db'.groups| ensures HasFounder(digest, db', g) {
      if g < |db.groups| {
        OldFounder(j, gs, db', g);
      } else {
        assert g in gs;
        var i :| 0 <= i < |gs| && gs[i] == g;
        NewFounder(j, gs, db', i);
      }
    }
  }

  lemma OtherWrites(digest: Digest, s: Sys, step: Step)
    requires !step.PersistPayload?
    ensures var db := Next(digest, s, step).db;
      && db.groups == s.db.groups && db.snapshots == s.db.snapshots
      && db.articles == s.db.articles && db.sightings == s.db.sightings
  {
  }

  lemma FoundedSame(digest: Digest, db: Db, db': Db)
    requires FoundedOk(digest, db) && db'.groups == db.groups && db'.snapshots == db.snapshots
    requires db'.articles == db.articles && db'.sightings == db.sightings
    ensures FoundedOk(digest, db')
  {
    hide IdentityKey, IdentityOf, First;
    forall g: GroupId | g < |db'.groups| ensures HasFounder(digest, db', g) {
      assert HasFounder(digest, db, g);
      var m: nat :| KeyFounded(digest, db, g, m);
      FirstSame(db, db', g, m);
      assert RunArticles(db', db.snapshots[m].run, g) == RunArticles(db, db.snapshots[m].run, g);
      assert KeyFounded(digest, db', g, m);
    }
  }

  lemma FirstSame(db: Db, db': Db, g: GroupId, m: nat)
    requires db'.snapshots == db.snapshots && First(db, g, m)
    ensures m < |db.snapshots| && First(db', g, m)
  {
  }

  lemma FoundedStep(digest: Digest, s: Sys, step: Step)
    requires TablesOk(s.db) && FoundedOk(digest, s.db)
    ensures FoundedOk(digest, Next(digest, s, step).db)
  {
    hide FoundedOk, TablesOk, Persisted;
    if !step.PersistPayload? {
      OtherWrites(digest, s, step);
      FoundedSame(digest, s.db, Next(digest, s, step).db);
    } else if step.run < |s.db.runs| && !IsTerminal(s.db.runs[step.run].status)
              && Persisted(digest, s.db, step.run, step.payload).Ok? {
      FoundingKept(digest, s.db, step.run, step.payload);
    } else {
      PersistTerminal(digest, s.db, step.run, step.payload);
    }
  }

  /** Along every run of the backend that spares stored results, groups keep the key they were founded with. */
  lemma {:induction false} FoundedAlways(digest: Digest, s: Sys, steps: seq<Step>, s': Sys)
    requires SysInv(s) && FoundedOk(digest, s.db)
    requires Leads(digest, s, steps, s') && SparesResults(digest, s, steps)
    ensures FoundedOk(digest, s'.db)
    decreases |steps|
  {
    hide SysInv, FoundedOk, Next, Enabled, SparesResults, Hits;
    if steps != [] {
      var next := Next(digest, s, steps[0]);
      SparesFirst(digest, s, steps);
      StepKeepsExact(digest, s, steps[0]);
      TablesOf(s);
      FoundedStep(digest, s, steps[0]);
      FoundedAlways(digest, next, steps[1..], s');
    }
  }

  lemma TablesOf(s: Sys)
    requires SysInv(s)
    ensures TablesOk(s.db)
  {
    hide TablesOk;
  }

  /** Where a listing ended up, given the group the rules match it to. */
  ghost predicate WentTo(db: Db, target: Option<GroupId>, g: GroupId)
  {
    match target
    case Some(t) => g == t
    case None => g >= |db.groups|
  }

  /** The listing went to the group the rules match it to, or to a new one. */
  ghost predicate PlacedByRules(db: Db, source: SourceId, complexId: string, l: Listing, g: GroupId)
  {
    exists target :: RulesTold(db, source, complexId, l, target) && WentTo(db, target, g)
  }

  /** After any run of the backend that spares stored results, a transaction stores each listing in the group the three
      rules give it on the tables before, or else in a new group. */
  lemma MatchedTold(digest: Digest, steps: seq<Step>, s: Sys, run: RunId, p: Payload) returns (gs: seq<GroupId>)
    requires Injective(digest) && Leads(digest, INITIAL, steps, s) && SparesResults(digest, INITIAL, steps)
    requires run < |s.db.runs| && !IsTerminal(s.db.runs[run].status) && Persisted(digest, s.db, run, p).Ok?
    ensures var db, db' := s.db, Persisted(digest, s.db, run, p).value;
      && |gs| == |p.listings| && Distinct(gs) && |db'.snapshots| == |db.snapshots| + |gs|
      && (forall i :: 0 <= i < |gs| ==>
            SnapshotTold(db'.snapshots[|db.snapshots| + i], run, gs[i], p.listings[i], p.at))
      && (forall i :: 0 <= i < |gs| ==> PlacedByRules(db, db.runs[run].source, p.complexId, p.listings[i], gs[i]))
  {
    hide *;
    InitialOk();
    NoGroups(digest);
    AlwaysExact(digest, INITIAL, steps, s);
    FoundedAlways(digest, INITIAL, steps, s);
    TablesOf(s);
    var j;
    j, gs := Land(digest, s.db, run, p);
    var db' := Persisted(digest, s.db, run, p).value;
    LandedStarted(j, gs, db');
    StartedStatus(j);
    NewSnapshotsTold(j, gs, db');
    LandedParts(j, gs, db');
    forall i | 0 <= i < |gs|
      ensures PlacedByRules(s.db, s.db.runs[run].source, p.complexId, p.listings[i], gs[i])
    {
      ListingTold(j, gs, db', i);
    }
  }

  lemma NoGroups(digest: Digest)
    ensures FoundedOk(digest, INITIAL.db)
  {
  }

  lemma ListingTold(j: Job, gs: seq<GroupId>, db: Db, i: nat)
    requires Injective(j.digest) && FoundedOk(j.digest, j.pre) && TablesOk(j.pre)
    requires j.run < |j.pre.runs| && j.pre.runs[j.run].status != Completed
    requires i < |gs| == |j.p.listings| && GroupsGrown(j, db, gs)
    ensures PlacedByRules(j.pre, j.source, j.p.complexId, j.p.listings[i], gs[i])
  {
    assert GroupsOk(j.pre);
    assert MatchedTo(j, j.p.listings[i], gs[i]);
    hide Injective, FoundedOk, TablesOk, GroupsGrown, Target, RulesTold, HasSnapshot;
    TargetTold(j.digest, j.pre, j.source, j.run, j.p.complexId, j.p.listings[i]);
  }
}
