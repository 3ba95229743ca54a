/** What a result transaction writes to the event log, said of the tables before it and of the payload. */
module ChangeEvents {
  import opened Support
  import opened Comparator
  import opened Attributes
  import opened Tables
  import opened ListingIdentity
  import opened ListingTrack
  import opened Persistence
  import opened PersistenceShape
  import opened SourceHistory
  import opened PersistenceRefines
  import opened TrackStep
  import opened PersistKeeps

  /* ------------------------- what an event has to say ------------------------- */

  /** The compared attributes are those of the columns, the aggregate and the articles. */
  ghost predicate Copies(c: Comparable, k: Columns, g: Aggregate, articles: set<ArticleId>)
  {
    && c.price == k.price && c.deposit == k.deposit && c.monthlyRent == k.monthlyRent
    && c.building == k.building && c.floor == k.floor && c.direction == k.direction
    && c.supplyArea == k.supplyArea && c.exclusiveArea == k.exclusiveArea
    && c.managementFee == g.managementFee && c.moveInDate == g.moveIn && c.roomBathroom == g.roomBath
    && c.loan == g.loan && c.optionTags == multiset(g.optionTags) && c.registrationCount == g.sourceCount
    && c.articleIds == articles
  }

  ghost predicate IsListed(c: Comparable, l: Listing)
  {
    Copies(c, l.columns, l.aggregate, set a | a in l.articles)
  }

  /** The articles of a stored snapshot are those its run sighted among the articles of the group. */
  ghost predicate IsStored(c: Comparable, db: Db, m: nat)
    requires m < |db.snapshots|
  {
    var s := db.snapshots[m];
    Copies(c, s.columns, s.aggregate,
           set a | a in db.articles && db.articles[a] == s.group && (s.run, a) in db.sightings)
  }

  ghost predicate CompletedOf(db: Db, source: SourceId, g: GroupId, m: nat)
  {
    && m < |db.snapshots| && db.snapshots[m].group == g && db.snapshots[m].run < |db.runs|
    && var r := db.runs[db.snapshots[m].run]; r.source == source && r.status == Completed
  }

  /** The `m`-th snapshot is newer than the `k`-th; of two captured at one time the first counts as the newer. */
  predicate Newer(db: Db, m: nat, k: nat)
    requires m < |db.snapshots| && k < |db.snapshots|
  {
    db.snapshots[k].at < db.snapshots[m].at || (db.snapshots[k].at == db.snapshots[m].at && m <= k)
  }

  /** The last snapshot of the group by a completed run of the source. */
  ghost predicate LastCompleted(db: Db, source: SourceId, g: GroupId, m: nat)
  {
    CompletedOf(db, source, g, m) && forall k: nat :: CompletedOf(db, source, g, k) ==> Newer(db, m, k)
  }

  ghost predicate NeverCompleted(db: Db, source: SourceId, g: GroupId)
  {
    forall k: nat :: !CompletedOf(db, source, g, k)
  }

  /** A listing that was away comes back; the event tells what the last completed run had seen. */
  ghost predicate RestoredTold(db: Db, source: SourceId, g: GroupId, now: Comparable, own: seq<Event>, run: RunId,
                               at: Time)
  {
    || (NeverCompleted(db, source, g) && own == [Event(run, g, Restored, Observed(None, now), at)])
    || exists m: nat, was: Comparable :: LastCompleted(db, source, g, m) && IsStored(was, db, m)
                                         && own == [Event(run, g, Restored, Observed(Some(was), now), at)]
  }

  /** Nothing is written exactly when no compared attribute differs; otherwise one event naming, in the order of the
      table, exactly the attributes that differ, with their values before and after. */
  ghost predicate EditTold(was: Comparable, now: Comparable, details: bool, own: seq<Event>, run: RunId, g: GroupId,
                           at: Time)
  {
    if forall f: Field :: !AttributeDiffers(was, now, details, f) then own == []
    else exists c: Change ::
      && own == [Event(run, g, Changed, Edited(c), at)] && InOrder(c.changed, |FIELDS|)
      && forall f: Field ::
           && (f in c.changed <==> AttributeDiffers(was, now, details, f))
           && (f in c.before <==> f in c.changed) && (f in c.after <==> f in c.changed)
           && (f in c.changed ==> Reported(c.before[f], was, f) && Reported(c.after[f], now, f))
  }

  /** An active listing is compared with its last completed snapshot, on the details only if
      both runs collected them. */
  ghost predicate ActiveTold(db: Db, source: SourceId, g: GroupId, now: Comparable, details: bool, own: seq<Event>,
                             run: RunId, at: Time)
  {
    || (NeverCompleted(db, source, g) && own == [])
    || exists m: nat, was: Comparable ::
         LastCompleted(db, source, g, m) && IsStored(was, db, m)
         && EditTold(was, now, details && db.runs[db.snapshots[m].run].collectDetails, own, run, g, at)
  }

  /** The events `own` of a run about a group that it shows as `l`. */
  ghost predicate ShownTold(db: Db, source: SourceId, g: GroupId, l: Listing, details: bool, own: seq<Event>,
                            run: RunId, at: Time)
  {
    exists now: Comparable :: IsListed(now, l) &&
      match Lookup(db.rows, (source, g))
      case None => own == [Event(run, g, New, Observed(None, now), at)]
      case Some(row) =>
        if row.visibility == Active then ActiveTold(db, source, g, now, details, own, run, at)
        else RestoredTold(db, source, g, now, own, run, at)
  }

  /** Those about a group of the source that it does not show. */
  ghost predicate UnshownTold(row: Option<StateRow>, completed: bool, own: seq<Event>, run: RunId, g: GroupId, at: Time)
  {
    if row.None? || !completed || row.value.visibility == Removed then own == []
    else if row.value.visibility == Active
      then own == [Event(run, g, WentMissing, Unseen(Active, 0, Missing, 1), at)]
    else own == [Event(run, g, WentRemoved, Unseen(Missing, 1, Removed, 2), at)]
  }

  ghost predicate SnapshotTold(s: Snapshot, run: RunId, g: GroupId, l: Listing, at: Time)
  {
    s.run == run && s.group == g && s.columns == l.columns && s.aggregate == l.aggregate && s.at == at
  }

  /* ------------------------- proofs ------------------------- */

  lemma {:induction false} LatestCompleteMeaning(db: Db, source: SourceId, g: GroupId, current: RunId, n: nat)
    requires n <= |db.snapshots| && (current >= |db.runs| || db.runs[current].status != Completed)
    ensures var s := LatestComplete(db, source, g, current, n);
      && (s.None? <==> forall k: nat :: k < n ==> !CompletedOf(db, source, g, k))
      && (s.Some? ==> exists m: nat :: m < n && db.snapshots[m] == s.value && CompletedOf(db, source, g, m)
                        && forall k: nat :: k < n && CompletedOf(db, source, g, k) ==> Newer(db, m, k))
  {
    if n > 0 {
      LatestCompleteMeaning(db, source, g, current, n - 1);
      assert CompleteFor(db, source, g, current, db.snapshots[n - 1]) <==> CompletedOf(db, source, g, n - 1);
    }
  }

  lemma LastStored(db: Db, source: SourceId, g: GroupId, current: RunId)
    requires current >= |db.runs| || db.runs[current].status != Completed
    ensures var last := LastOf(db, source, g, current);
      if last.None? then NeverCompleted(db, source, g)
      else exists m: nat :: LastCompleted(db, source, g, m) && IsStored(last.value.listing, db, m)
                            && last.value.details == db.runs[db.snapshots[m].run].collectDetails
  {
    LatestCompleteMeaning(db, source, g, current, |db.snapshots|);
    hide LatestComplete;
    var s := LatestComplete(db, source, g, current, |db.snapshots|);
    if s.Some? {
      var m: nat :| m < |db.snapshots| && db.snapshots[m] == s.value && CompletedOf(db, source, g, m)
        && forall k: nat :: k < |db.snapshots| && CompletedOf(db, source, g, k) ==> Newer(db, m, k);
      assert LastCompleted(db, source, g, m) && IsStored(Load(db, s.value), db, m);
    }
  }

  /** The events a run has written about a group are those of its step. */
  lemma WrittenEvents(j: Job, gs: seq<GroupId>, db: Db, g: GroupId)
    requires Landed(j, gs, db) && TablesOk(j.pre)
    ensures j.run < |j.pre.runs| && |gs| == |j.p.listings| && Distinct(gs)
    ensures EventsOf(db.events, {j.run}, g) == ToSeq(AddedEvent(j, gs, g))
  {
    LandedStarted(j, gs, db);
    StartedStatus(j);
    hide *;
    var runs := {j.run};
    var listed, absent := EventsFor(j, gs), AbsenceEvents(j.pre, j.source, SetOf(gs), j.run, j.p, |j.pre.groups|);
    OwnEventsNew(j);
    NoneSelected(j.pre.events, j.run, g);
    AddedEvents(j, gs, g, runs);
    EventsOfThree(j.pre.events, listed, absent, runs, g);
    assert [] + ToSeq(AddedEvent(j, gs, g)) == ToSeq(AddedEvent(j, gs, g));
  }

  lemma EditFound(was: Comparable, now: Comparable, details: bool, run: RunId, g: GroupId, at: Time)
    ensures var c := Diff(was, now, details);
      EditTold(was, now, details, if c.changed == [] then [] else [Event(run, g, Changed, Edited(c), at)], run, g, at)
  {
    var c := Diff(was, now, details);
    hide Diff, AttributeDiffers, Reported;
    forall f: Field
      ensures f in c.changed <==> AttributeDiffers(was, now, details, f)
      ensures (f in c.before <==> f in c.changed) && (f in c.after <==> f in c.changed)
      ensures f in c.changed ==> Reported(c.before[f], was, f) && Reported(c.after[f], now, f)
    {
      DiffExact(was, now, details, f);
    }
    DiffOrder(was, now, details);
    if c.changed != [] {
      assert c.changed[0] in c.changed;
    }
  }

  /** Without a row nothing is known of the group, and only three states are ever stored. */
  ghost predicate Shaped(row: Option<StateRow>, last: Option<Last>)
  {
    && (row.None? ==> last.None?)
    && (row.Some? ==> (row.value.visibility, row.value.missingCount) in {(Active, 0), (Missing, 1), (Removed, 2)})
  }

  lemma RowShaped(db: Db, source: SourceId, g: GroupId)
    requires Inv(db)
    ensures Shaped(Lookup(db.rows, (source, g)), LastOf(db, source, g, |db.runs|))
  {
    var h := HistoryOf(db, source);
    assert Stored(db, source, g) == After(h, g);
    NeverShown(h, g);
    hide Inv, After, History, LastOf, EventsOf;
    if After(h, g).row.Some? {
      RowShapes(h, g);
    }
  }

  /** The event of an observed group, given what was last known of it. */
  lemma PresenceTold(db: Db, source: SourceId, g: GroupId, last: Option<Last>, now: Comparable, details: bool,
                     run: RunId, at: Time)
    requires Shaped(Lookup(db.rows, (source, g)), last)
    requires if last.None? then NeverCompleted(db, source, g)
      else exists m: nat :: LastCompleted(db, source, g, m) && IsStored(last.value.listing, db, m)
                            && last.value.details == db.runs[db.snapshots[m].run].collectDetails
    ensures var row := Lookup(db.rows, (source, g));
      var own := ToSeq(PresenceEvent(row, last, now, details, run, g, at));
      match row
      case None => own == [Event(run, g, New, Observed(None, now), at)]
      case Some(r) =>
        if r.visibility == Active then ActiveTold(db, source, g, now, details, own, run, at)
        else RestoredTold(db, source, g, now, own, run, at)
  {
    hide IsStored, LastCompleted, NeverCompleted, Diff, EditTold;
    if last.Some? {
      EditFound(last.value.listing, now, last.value.details && details, run, g, at);
    }
  }

  lemma ListedIncoming(l: Listing)
    ensures IsListed(Incoming(l), l)
  {
  }

  /** What is needed of the stored tables. */
  lemma LastKnown(j: Job, g: GroupId)
    requires Inv(j.pre) && j.run < |j.pre.runs| && j.pre.runs[j.run].status != Completed
    ensures Shaped(Lookup(j.pre.rows, (j.source, g)), LastOf(j.pre, j.source, g, j.run))
  {
    LastCurrent(j.pre, j.source, g, j.run);
    hide *;
    RowShaped(j.pre, j.source, g);
  }

  lemma ShownEvents(j: Job, l: Listing, g: GroupId)
    requires Inv(j.pre) && j.run < |j.pre.runs| && j.pre.runs[j.run].status != Completed
    ensures ShownTold(j.pre, j.source, g, l, j.Details(), ToSeq(EventFor(j, l, g)), j.run, j.p.at)
  {
    hide *;
    ListedIncoming(l);
    LastKnown(j, g);
    LastStored(j.pre, j.source, g, j.run);
    PresenceTold(j.pre, j.source, g, LastOf(j.pre, j.source, g, j.run), Incoming(l), j.Details(), j.run, j.p.at);
    ToldOf(j, l, g);
  }

  lemma ToldOf(j: Job, l: Listing, g: GroupId)
    requires j.run < |j.pre.runs| && IsListed(Incoming(l), l)
    requires var row, now := Lookup(j.pre.rows, (j.source, g)), Incoming(l);
      var own := ToSeq(PresenceEvent(row, LastOf(j.pre, j.source, g, j.run), now, j.Details(), j.run, g, j.p.at));
      match row
      case None => own == [Event(j.run, g, New, Observed(None, now), j.p.at)]
      case Some(r) =>
        if r.visibility == Active then ActiveTold(j.pre, j.source, g, now, j.Details(), own, j.run, j.p.at)
        else RestoredTold(j.pre, j.source, g, now, own, j.run, j.p.at)
    ensures ShownTold(j.pre, j.source, g, l, j.Details(), ToSeq(EventFor(j, l, g)), j.run, j.p.at)
  {
    hide IsListed, Incoming, LastOf, PresenceEvent, ActiveTold, RestoredTold;
  }

  lemma UnshownEvents(j: Job, g: GroupId)
    requires Inv(j.pre) && j.run < |j.pre.runs| && (j.source, g) in j.pre.rows
    ensures UnshownTold(Lookup(j.pre.rows, (j.source, g)), j.p.completed,
                        ToSeq(AbsenceEvent(j.pre.rows[(j.source, g)], j.p.completed, j.run, g, j.p.at)),
                        j.run, g, j.p.at)
  {
    RowShaped(j.pre, j.source, g);
    hide Inv, LastOf;
  }

  /** A successful transaction gives each listing a group of its own, and about each group of its
      source it writes exactly what the tables before it and the payload call for. */
  lemma EventsTold(digest: Digest, db: Db, run: RunId, p: Payload) returns (gs: seq<GroupId>)
    requires Inv(db) && run < |db.runs| && !IsTerminal(db.runs[run].status) && Persisted(digest, db, run, p).Ok?
    ensures var source, db' := db.runs[run].source, Persisted(digest, db, run, p).value;
      && |gs| == |p.listings| && Distinct(gs) && |db'.snapshots| == |db.snapshots| + |gs|
      && (forall i :: 0 <= i < |gs| ==>
            SnapshotTold(db'.snapshots[|db.snapshots| + i], run, gs[i], p.listings[i], p.at))
      && (forall i :: 0 <= i < |gs| ==>
            ShownTold(db, source, gs[i], p.listings[i], db.runs[run].collectDetails,
                      EventsOf(db'.events, {run}, gs[i]), run, p.at))
      && (forall g: GroupId :: g !in gs ==>
            UnshownTold(Lookup(db.rows, (source, g)), p.completed, EventsOf(db'.events, {run}, g), run, g, p.at))
  {
    hide *;
    TablesInv(db);
    var j;
    j, gs := Land(digest, db, run, p);
    var db' := Persisted(digest, db, run, p).value;
    LandedStarted(j, gs, db');
    NewSnapshotsTold(j, gs, db');
    forall i | 0 <= i < |gs|
      ensures ShownTold(db, j.source, gs[i], p.listings[i], db.runs[run].collectDetails,
                        EventsOf(db'.events, {run}, gs[i]), run, p.at)
    {
      ListedGroup(j, gs, db', i);
    }
    forall g: GroupId | g !in gs
      ensures UnshownTold(Lookup(db.rows, (j.source, g)), p.completed, EventsOf(db'.events, {run}, g), run, g, p.at)
    {
      OtherGroup(j, gs, db', g);
    }
  }

  lemma TablesInv(db: Db)
    requires Inv(db)
    ensures TablesOk(db)
  {
    hide TablesOk, TracksOk, ClocksOk;
  }

  lemma ListedGroup(j: Job, gs: seq<GroupId>, db: Db, i: nat)
    requires Inv(j.pre) && Landed(j, gs, db) && i < |gs| == |j.p.listings| && j.run < |j.pre.runs|
    ensures ShownTold(j.pre, j.source, gs[i], j.p.listings[i], j.pre.runs[j.run].collectDetails,
                      EventsOf(db.events, {j.run}, gs[i]), j.run, j.p.at)
  {
    assert j.Details() == j.pre.runs[j.run].collectDetails;
    hide *;
    TablesInv(j.pre);
    LandedStarted(j, gs, db);
    StartedStatus(j);
    WrittenEvents(j, gs, db, gs[i]);
    AddedWhenShown(j, gs, i);
    ShownEvents(j, j.p.listings[i], gs[i]);
  }

  lemma OtherGroup(j: Job, gs: seq<GroupId>, db: Db, g: GroupId)
    requires Inv(j.pre) && Landed(j, gs, db) && g !in gs
    ensures UnshownTold(Lookup(j.pre.rows, (j.source, g)), j.p.completed, EventsOf(db.events, {j.run}, g),
                        j.run, g, j.p.at)
  {
    hide *;
    TablesInv(j.pre);
    LandedStarted(j, gs, db);
    StartedStatus(j);
    WrittenEvents(j, gs, db, g);
    AddedWhenNotShown(j, gs, g);
    if (j.source, g) in j.pre.rows {
      UnshownEvents(j, g);
    } else {
      NoRowTold(j.pre, j.source, j.p.completed, j.run, g, j.p.at);
    }
  }

  lemma NewSnapshotsTold(j: Job, gs: seq<GroupId>, db: Db)
    requires Landed(j, gs, db)
    ensures |gs| == |j.p.listings| && |db.snapshots| == |j.pre.snapshots| + |gs|
    ensures forall i :: 0 <= i < |gs| ==>
      SnapshotTold(db.snapshots[|j.pre.snapshots| + i], j.run, gs[i], j.p.listings[i], j.p.at)
  {
    hide *;
    LandedAs(j, gs, db);
    SnapshotsTold(j, gs);
    var before, added := j.pre.snapshots, SnapshotsFor(j, gs);
    assert forall i :: 0 <= i < |gs| ==> (before + added)[|before| + i] == added[i];
  }

  lemma SnapshotsTold(j: Job, gs: seq<GroupId>)
    requires j.run < |j.pre.runs| && |gs| <= |j.p.listings|
    ensures |SnapshotsFor(j, gs)| == |gs|
    ensures forall i :: 0 <= i < |gs| ==> SnapshotTold(SnapshotsFor(j, gs)[i], j.run, gs[i], j.p.listings[i], j.p.at)
  {
    hide EventFor;
  }

  lemma NoRowTold(db: Db, source: SourceId, completed: bool, run: RunId, g: GroupId, at: Time)
    requires (source, g) !in db.rows
    ensures UnshownTold(Lookup(db.rows, (source, g)), completed, ToSeq<Event>(None), run, g, at)
  {
  }
}
