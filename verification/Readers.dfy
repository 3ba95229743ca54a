/** What the readers tell of every database the backend can reach, as long as its failure
    writes spare stored results. */
module Readers {
  import opened Support
  import opened Tables
  import opened ListingIdentity
  import opened ListingTrack
  import opened SourceHistory
  import opened Persistence
  import opened EventLog
  import opened Query
  import opened PastSnapshots
  import opened ListingPages
  import opened Comparison
  import opened Backfill
  import opened System
  import opened Guarantees

  /** The database of a state that a run of the backend reaches without hitting stored results. */
  ghost predicate Reached(digest: Digest, steps: seq<Step>, s: Sys, db: Db)
  {
    Leads(digest, INITIAL, steps, s) && SparesResults(digest, INITIAL, steps) && s.db == db
  }

  lemma ReachedInv(digest: Digest, steps: seq<Step>, s: Sys, db: Db)
    requires Reached(digest, steps, s, db)
    ensures Inv(db)
  {
    hide Leads, SparesResults, SysInv, Inv;
    InitialOk();
    AlwaysExact(digest, INITIAL, steps, s);
    InvOf(s);
  }

  /** The absences of a past run are those of the history through it, and it shows none of the absent groups. */
  lemma PastAbsences(digest: Digest, steps: seq<Step>, s: Sys, db: Db, selected: RunId, rows: seq<Event>, g: GroupId)
    requires Reached(digest, steps, s, db) && selected < |db.runs| && IsResult(db.runs[selected].status)
    requires EventQuery(db, RunSet(Through(db, selected)), ComplexOf(db, db.runs[selected].source), rows)
    ensures var h := Through(db, selected);
      var replayed := ReplayAbsence(EventsOf(rows, RunSet(h), g));
      && replayed == AbsenceOfRow(After(h, g).row)
      && (g in Shown(db, selected, |db.snapshots|) ==> replayed == None)
  {
    ReachedInv(digest, steps, s, db);
    SourceKnown(db, selected);
    var source := db.runs[selected].source;
    hide Inv, EventQuery, EventsOf, After, ReplayAbsence, Shown, Reached;
    AbsenceAsOfRun(db, source, selected, ComplexOf(db, source), rows, g);
  }

  lemma SourceKnown(db: Db, selected: RunId)
    requires Inv(db) && selected < |db.runs| && IsResult(db.runs[selected].status)
    ensures var source := db.runs[selected].source;
      source in db.sources && db.sources[source] == Some(ComplexOf(db, source))
  {
    assert RunsOk(db);
  }

  /** The migration would rebuild every live row up to the counter's cap and later removal times. */
  lemma MigrationTold(digest: Digest, steps: seq<Step>, s: Sys, db: Db, rows: seq<RunRow>, snapshots: seq<SnapshotRow>,
                      source: SourceId, g: GroupId, until: Time)
    requires Reached(digest, steps, s, db) && RunQuery(db, rows) && SnapshotQuery(db, snapshots)
    requires forall i :: 0 <= i < |HistoryOf(db, source)| ==> HistoryOf(db, source)[i].at <= until
    ensures Refines(Lookup(db.rows, (source, g)), Life(rows, snapshots, source, g), until)
  {
    hide *;
    ReachedInv(digest, steps, s, db);
    BackfillRefines(db, rows, snapshots, source, g, until);
  }

  /** Both pages are read and compared: nothing is unobserved, and the list of every group follows its visibility at the
      two runs. */
  method CompareRuns(ghost digest: Digest, ghost steps: seq<Step>, ghost s: Sys, db: Db, i: RunId, j: RunId,
                     earlier: seq<Event>, later: seq<Event>)
    returns (r: Buckets)
    requires Reached(digest, steps, s, db)
    requires i < j < |db.runs| && db.runs[i].source == db.runs[j].source
    requires db.runs[i].status == Completed && db.runs[j].status == Completed
    requires EventQuery(db, RunSet(Through(db, i)), ComplexOf(db, db.runs[i].source), earlier)
    requires EventQuery(db, RunSet(Through(db, j)), ComplexOf(db, db.runs[j].source), later)
    ensures r.unobserved == []
    ensures forall g :: BucketsTell(db, i, j, r, g)
  {
    hide Reached, EventQuery, Through, PageOf, IsComparison, BucketsTell, Inv;
    ReachedInv(digest, steps, s, db);
    var before := Listings(db, i, earlier);
    var after := Listings(db, j, later);
    r := CompareListingSnapshots(before, after, false);
    forall g ensures r.unobserved == [] && BucketsTell(db, i, j, r, g) {
      RunsTell(db, i, j, before, after, r, g);
    }
    RunsTell(db, i, j, before, after, r, 0);
  }

  /** The group is in the list that its visibility at the two runs calls for, and in no other; one active at both is
      changed exactly when the two runs' snapshots of it differ in something displayed. */
  ghost predicate BucketsTell(db: Db, i: RunId, j: RunId, r: Buckets, g: GroupId)
    requires i < |db.runs| && j < |db.runs|
  {
    var was, now := After(Through(db, i), g).row, After(Through(db, j), g).row;
    && (Lists(r.missing, g) <==> Belongs(was, now, ToMissing))
    && (Lists(r.removed, g) <==> Belongs(was, now, ToRemoved))
    && (Lists(r.added, g) <==> Belongs(was, now, ToAdded))
    && (Lists(AfterSides(r.changed), g) || Lists(r.steady, g) <==> Belongs(was, now, ToChanged))
    && !(Lists(AfterSides(r.changed), g) && Lists(r.steady, g))
    && (Belongs(was, now, ToChanged) ==>
          exists m: nat, k: nat :: SnapshotAt(db, m, i, g) && SnapshotAt(db, k, j, g)
            && (Lists(AfterSides(r.changed), g) <==> DisplayedDiffer(db.snapshots[m], db.snapshots[k])))
  }

  lemma RunsTell(db: Db, i: RunId, j: RunId, before: seq<Entry>, after: seq<Entry>, r: Buckets, g: GroupId)
    requires i < j < |db.runs| && db.runs[i].source == db.runs[j].source
    requires db.runs[i].status == Completed && db.runs[j].status == Completed
    requires PageOf(db, i, before) && PageOf(db, j, after) && IsComparison(before, after, false, r)
    ensures r.unobserved == [] && BucketsTell(db, i, j, r, g)
  {
    hide PageOf, IsComparison, Through, After, AfterSides, DisplayedDiffer, Lists, Belongs;
    CompareCompletedRuns(db, i, j, before, after, r, g);
    if Belongs(After(Through(db, i), g).row, After(Through(db, j), g).row, ToChanged) {
      var m, k := ChangedExactly(db, i, j, before, after, r, g);
    }
  }
}
