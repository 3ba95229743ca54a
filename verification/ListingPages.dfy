/** The page of one past run: the listings it shows and the groups absent from it. */
module ListingPages {
  import opened Support
  import opened Comparator
  import opened Tables
  import opened ListingTrack
  import opened Persistence
  import opened SourceHistory
  import opened EventLog
  import opened Query
  import opened PastSnapshots

  datatype EntryStatus = IsNew | IsChanged | IsActive | IsMissing | IsRemoved

  datatype Entry = Entry(group: GroupId, status: EntryStatus, removedAt: Option<Time>, columns: Columns,
                         sourceCount: int)

  /** The status of `_listing_summary`. */
  function SummaryStatus(event: Option<Kind>, stored: Option<Kind>, sameRun: bool): EntryStatus
  {
    match event
    case Some(Restored) => IsActive
    case Some(New) => IsNew
    case Some(Changed) => IsChanged
    case Some(WentMissing) => IsMissing
    case Some(WentRemoved) => IsRemoved
    case None =>
      if !sameRun then IsActive
      else
        match stored
        case Some(New) => IsNew
        case Some(Changed) => IsChanged
        case Some(WentRemoved) => IsRemoved
        case _ => IsActive
  }

  function VisibilityOf(s: EntryStatus): Visibility
  {
    match s
    case IsMissing => Missing
    case IsRemoved => Removed
    case _ => Active
  }

  predicate DistinctGroups(entries: seq<Entry>)
  {
    forall i, j :: 0 <= i < j < |entries| ==> entries[i].group != entries[j].group
  }

  predicate Lists(entries: seq<Entry>, g: GroupId)
  {
    exists i :: 0 <= i < |entries| && entries[i].group == g
  }

  function ComplexOf(db: Db, source: SourceId): string
  {
    if source in db.sources && db.sources[source].Some? then db.sources[source].value else ""
  }

  /** The entry shows the group with the visibility its row had when the run finished. */
  ghost predicate EntryOk(h: seq<Observation>, e: Entry)
  {
    var row := After(h, e.group).row;
    row.Some? && VisibilityOf(e.status) == row.value.visibility && e.removedAt == row.value.removedAt
  }

  predicate SnapshotAt(db: Db, m: nat, run: RunId, g: GroupId)
  {
    m < |db.snapshots| && db.snapshots[m].run == run && db.snapshots[m].group == g
  }

  /** The entry says what the snapshot of the last run showing the group says, and a group that the selected run shows
      is labelled new exactly when no earlier run shows it and changed exactly when the run finds it edited. */
  ghost predicate EntryTells(db: Db, selected: RunId, e: Entry)
    requires selected < |db.runs|
  {
    var h := Through(db, selected);
    && h != []
    && (exists j: nat, m: nat :: LastShownAt(h, e.group, j) && SnapshotAt(db, m, h[j].run, e.group)
                                 && e.columns == db.snapshots[m].columns
                                 && e.sourceCount == db.snapshots[m].aggregate.sourceCount)
    && (e.group in h[|h| - 1].shown ==>
          && (e.status == IsNew <==> !EverShown(h[..|h| - 1], e.group))
          && (e.status == IsChanged <==> Altered(h, e.group, |h| - 1)))
  }

  /** A page lists each group at most once, rightly, and lists exactly the groups that the run shows
      or that are missing or removed. */
  ghost predicate PageOf(db: Db, selected: RunId, entries: seq<Entry>)
    requires selected < |db.runs|
  {
    var h := Through(db, selected);
    && DistinctGroups(entries)
    && (forall i :: 0 <= i < |entries| ==> EntryOk(h, entries[i]) && EntryTells(db, selected, entries[i]))
    && (forall g :: Lists(entries, g) <==>
          g in Shown(db, selected, |db.snapshots|) || AbsenceOfRow(After(h, g).row).Some?)
  }

  /* ------------------------- items ------------------------- */

  function ItemEntry(db: Db, selected: RunId, s: Snapshot): Entry
  {
    Entry(s.group, SummaryStatus(KindIn(db.events, selected, s.group), s.event, s.run == selected), None,
          s.columns, s.aggregate.sourceCount)
  }

  /** A shown group is listed as present. */
  lemma ItemOk(db: Db, selected: RunId, i: nat)
    requires Inv(db) && selected < |db.runs| && IsResult(db.runs[selected].status)
    requires i < |db.snapshots| && db.snapshots[i].run == selected
    ensures EntryOk(Through(db, selected), ItemEntry(db, selected, db.snapshots[i]))
    ensures db.snapshots[i].group in Shown(db, selected, |db.snapshots|)
  {
    var g, h := db.snapshots[i].group, Through(db, selected);
    ItemShown(db, selected, i);
    KindOfRun(db, selected, g);
    hide Inv, Shown, KindIn, After, History, Through, StepEvent, LabelsOk;
    ShownKind(h, g);
    ShownIsActive(h, g);
    RowShapes(h, g);
  }

  lemma ItemShown(db: Db, selected: RunId, i: nat)
    requires Inv(db) && selected < |db.runs| && IsResult(db.runs[selected].status)
    requires i < |db.snapshots| && db.snapshots[i].run == selected
    ensures var g, h := db.snapshots[i].group, Through(db, selected);
      && g in Shown(db, selected, |db.snapshots|)
      && h != [] && h[|h| - 1].run == selected && g in h[|h| - 1].shown && LastShownAt(h, g, |h| - 1)
    ensures db.snapshots[i].event == KindIn(db.events, selected, db.snapshots[i].group)
  {
    assert LabelsOk(db);
    ShownMember(db, selected, |db.snapshots|, db.snapshots[i].group);
    ThroughEnds(db, selected);
    hide Inv, Shown, History, KindIn;
  }

  lemma ItemTells(db: Db, selected: RunId, i: nat)
    requires Inv(db) && selected < |db.runs| && IsResult(db.runs[selected].status)
    requires i < |db.snapshots| && db.snapshots[i].run == selected
    ensures EntryTells(db, selected, ItemEntry(db, selected, db.snapshots[i]))
  {
    hide Inv, Shown, KindIn, After, History, Through, StepEvent, Altered, EverShown, LastShownAt, EntryTells;
    var g, h := db.snapshots[i].group, Through(db, selected);
    ItemShown(db, selected, i);
    KindOfRun(db, selected, g);
    ShownKind(h, g);
    Tells(db, selected, ItemEntry(db, selected, db.snapshots[i]), |h| - 1, i);
  }

  /** What makes an entry tell rightly. */
  lemma Tells(db: Db, selected: RunId, e: Entry, j: nat, m: nat)
    requires selected < |db.runs| && LastShownAt(Through(db, selected), e.group, j)
    requires SnapshotAt(db, m, Through(db, selected)[j].run, e.group)
    requires e.columns == db.snapshots[m].columns && e.sourceCount == db.snapshots[m].aggregate.sourceCount
    requires var h := Through(db, selected);
      e.group in h[|h| - 1].shown ==>
        (e.status == IsNew <==> !EverShown(h[..|h| - 1], e.group))
        && (e.status == IsChanged <==> Altered(h, e.group, |h| - 1))
    ensures EntryTells(db, selected, e)
  {
    hide Through, Altered, EverShown;
  }

  /** `listings`, the items: one per snapshot of the run. */
  method Items(db: Db, selected: RunId) returns (items: seq<Entry>, actual: seq<GroupId>)
    requires selected < |db.runs| && IsResult(db.runs[selected].status) && Inv(db)
    ensures DistinctGroups(items)
    ensures forall i :: 0 <= i < |items| ==>
      EntryOk(Through(db, selected), items[i]) && EntryTells(db, selected, items[i])
    ensures forall g :: Lists(items, g) <==> g in Shown(db, selected, |db.snapshots|)
    ensures forall g :: g in actual <==> Lists(items, g)
  {
    hide EntryOk, EntryTells, KindIn, Shown, Through;
    items, actual := [], [];
    for i := 0 to |db.snapshots|
      invariant |items| == |actual| && forall k :: 0 <= k < |items| ==> items[k].group == actual[k]
      invariant DistinctGroups(items)
      invariant forall k :: 0 <= k < |items| ==>
        EntryOk(Through(db, selected), items[k]) && EntryTells(db, selected, items[k])
      invariant forall g :: Lists(items, g) <==>
        exists m :: 0 <= m < i && db.snapshots[m].run == selected && db.snapshots[m].group == g
    {
      var s := db.snapshots[i];
      if s.run == selected {
        ItemOk(db, selected, i);
        ItemTells(db, selected, i);
        NotYetListed(db, selected, items, i);
        ghost var before := items;
        items := items + [ItemEntry(db, selected, s)];
        actual := actual + [s.group];
        ListsSnoc(before, ItemEntry(db, selected, s));
      }
    }
    forall g ensures Lists(items, g) <==> g in Shown(db, selected, |db.snapshots|) {
      ShownMember(db, selected, |db.snapshots|, g);
    }
    forall g ensures g in actual <==> Lists(items, g) {
    }
  }

  lemma ListsSnoc(entries: seq<Entry>, e: Entry)
    ensures forall g :: Lists(entries + [e], g) <==> Lists(entries, g) || g == e.group
  {
    forall g ensures Lists(entries + [e], g) <==> Lists(entries, g) || g == e.group {
      assert (entries + [e])[|entries|] == e;
      if Lists(entries, g) {
        var i :| 0 <= i < |entries| && entries[i].group == g;
        assert (entries + [e])[i].group == g;
      }
    }
  }

  lemma NotYetListed(db: Db, selected: RunId, items: seq<Entry>, i: nat)
    requires Inv(db) && i < |db.snapshots| && db.snapshots[i].run == selected
    requires forall g :: Lists(items, g) ==>
      exists m :: 0 <= m < i && db.snapshots[m].run == selected && db.snapshots[m].group == g
    ensures !Lists(items, db.snapshots[i].group)
  {
    assert SnapshotKeysOk(db);
  }

  /* ------------------------- absent groups ------------------------- */

  /** The absence states of the run, as `AbsenceStates` computes them. */
  ghost predicate StatesOf(db: Db, selected: RunId, states: map<GroupId, Absence>)
    requires selected < |db.runs|
  {
    forall g :: Lookup(states, g) == AbsenceOfRow(After(Through(db, selected), g).row)
  }

  function AbsentEntry(g: GroupId, a: Absence, s: Snapshot): Entry
  {
    Entry(g, if a.visibility == Removed then IsRemoved else IsMissing, a.removedAt, s.columns, s.aggregate.sourceCount)
  }

  lemma AbsentOk(h: seq<Observation>, g: GroupId, a: Absence, s: Snapshot)
    requires AbsenceOfRow(After(h, g).row) == Some(a)
    ensures EntryOk(h, AbsentEntry(g, a, s))
  {
    hide After;
  }

  /** The entry of an absent group tells of the last run that shows the group. */
  lemma AbsentTells(db: Db, selected: RunId, g: GroupId, a: Absence)
    requires Inv(db) && selected < |db.runs| && AbsenceOfRow(After(Through(db, selected), g).row) == Some(a)
    ensures var s := LatestWithin(db.snapshots, RunSet(Through(db, selected)), g);
      s.Some? && EntryTells(db, selected, AbsentEntry(g, a, s.value))
  {
    var h := Through(db, selected);
    NeverShown(h, g);
    var j := LastShownExists(h, g);
    LatestWithinIsLast(db, selected, g, j);
    hide Inv, After, Through, LatestWithin, Altered;
    var s := LatestWithin(db.snapshots, RunSet(h), g).value;
    var m :| 0 <= m < |db.snapshots| && db.snapshots[m] == s;
    if g in h[|h| - 1].shown {
      ShownIsActive(h, g);
    }
    Tells(db, selected, AbsentEntry(g, a, s), j, m);
  }

  /** `listings`, the absent groups: each with its newest snapshot within the runs. */
  method Absents(db: Db, selected: RunId, ids: set<RunId>, states: map<GroupId, Absence>) returns (absent: seq<Entry>)
    requires selected < |db.runs| && Inv(db)
    requires ids == RunSet(Through(db, selected)) && StatesOf(db, selected, states)
    ensures DistinctGroups(absent)
    ensures forall i :: 0 <= i < |absent| ==>
      EntryOk(Through(db, selected), absent[i]) && EntryTells(db, selected, absent[i])
    ensures forall g :: Lists(absent, g) <==> g in states
  {
    hide EntryOk, EntryTells, Through, After, LatestWithin, TablesOk, Inv;
    InvParts(db);
    absent := [];
    for g := 0 to |db.groups|
      invariant DistinctGroups(absent)
      invariant forall k :: 0 <= k < |absent| ==> absent[k].group < g && EntryOk(Through(db, selected), absent[k])
      invariant forall k :: 0 <= k < |absent| ==> EntryTells(db, selected, absent[k])
      invariant forall x: GroupId :: Lists(absent, x) <==> x in states && x < g
    {
      if g in states {
        assert Lookup(states, g) == AbsenceOfRow(After(Through(db, selected), g).row);
        HasLastSnapshot(db, selected, g);
        var last := LatestWithin(db.snapshots, ids, g);
        AbsentTells(db, selected, g, states[g]);
        AbsentOk(Through(db, selected), g, states[g], last.value);
        ListsSnoc(absent, AbsentEntry(g, states[g], last.value));
        absent := absent + [AbsentEntry(g, states[g], last.value)];
      }
    }
    forall g | g in states ensures g < |db.groups| {
      assert Lookup(states, g) == AbsenceOfRow(After(Through(db, selected), g).row);
      HasLastSnapshot(db, selected, g);
    }
  }

  /* ------------------------- the page ------------------------- */

  lemma ListsConcat(a: seq<Entry>, b: seq<Entry>)
    ensures forall g :: Lists(a + b, g) <==> Lists(a, g) || Lists(b, g)
  {
    forall g ensures Lists(a + b, g) <==> Lists(a, g) || Lists(b, g) {
      if Lists(a, g) {
        var i :| 0 <= i < |a| && a[i].group == g;
        assert (a + b)[i].group == g;
      }
      if Lists(b, g) {
        var i :| 0 <= i < |b| && b[i].group == g;
        assert (a + b)[|a| + i].group == g;
      }
    }
  }

  lemma StatesRight(db: Db, selected: RunId, rows: seq<Event>, states: map<GroupId, Absence>)
    requires Inv(db) && selected < |db.runs| && IsResult(db.runs[selected].status)
    requires EventQuery(db, RunSet(Through(db, selected)), ComplexOf(db, db.runs[selected].source), rows)
    requires forall g :: Lookup(states, g) == if g in Shown(db, selected, |db.snapshots|) then None
                                               else ReplayAbsence(EventsOf(rows, RunSet(Through(db, selected)), g))
    ensures StatesOf(db, selected, states)
    ensures forall g :: g in states ==> g !in Shown(db, selected, |db.snapshots|)
  {
    var source := db.runs[selected].source;
    assert RunsOk(db);
    assert source in db.sources && db.sources[source] == Some(ComplexOf(db, source));
    hide Inv, EventsOf, Shown, After, ReplayAbsence, History, EventQuery, RunsOk;
    forall g ensures Lookup(states, g) == AbsenceOfRow(After(Through(db, selected), g).row) {
      AbsenceAsOfRun(db, source, selected, db.sources[source].value, rows, g);
    }
    forall g | g in states ensures g !in Shown(db, selected, |db.snapshots|) {
      assert Lookup(states, g).Some?;
    }
  }

  /** `listings` without filters, the items followed by the absent groups. */
  method Listings(db: Db, selected: RunId, rows: seq<Event>) returns (entries: seq<Entry>)
    requires selected < |db.runs| && IsResult(db.runs[selected].status) && Inv(db)
    requires EventQuery(db, RunSet(Through(db, selected)), ComplexOf(db, db.runs[selected].source), rows)
    ensures PageOf(db, selected, entries)
  {
    hide Inv, EventQuery, EventsOf, Shown, After, ReplayAbsence, EntryOk, EntryTells, TablesOk;
    var runIds := SourceRunIdsThrough(db, selected);
    var ids := set r | r in runIds;
    HistoryRuns(db, db.runs[selected].source, selected + 1);
    QueryRuns(db, RunSet(Through(db, selected)), ComplexOf(db, db.runs[selected].source), rows);
    var items, actual := Items(db, selected);
    var states := AbsenceStates(rows, actual, RunSet(Through(db, selected)));
    StatesRight(db, selected, rows, states);
    var absent := Absents(db, selected, ids, states);
    entries := items + absent;
    ListsConcat(items, absent);
    PageAssembled(db, selected, items, absent, states);
  }

  lemma PageAssembled(db: Db, selected: RunId, items: seq<Entry>, absent: seq<Entry>, states: map<GroupId, Absence>)
    requires selected < |db.runs|
    requires DistinctGroups(items) && DistinctGroups(absent)
    requires forall i :: 0 <= i < |items| ==>
      EntryOk(Through(db, selected), items[i]) && EntryTells(db, selected, items[i])
    requires forall i :: 0 <= i < |absent| ==>
      EntryOk(Through(db, selected), absent[i]) && EntryTells(db, selected, absent[i])
    requires forall g :: Lists(items, g) <==> g in Shown(db, selected, |db.snapshots|)
    requires forall g :: Lists(absent, g) <==> g in states
    requires StatesOf(db, selected, states)
    requires forall g :: g in states ==> g !in Shown(db, selected, |db.snapshots|)
    requires forall g :: Lists(items + absent, g) <==> Lists(items, g) || Lists(absent, g)
    ensures PageOf(db, selected, items + absent)
  {
    hide EntryOk, EntryTells, Through, After, Shown;
    forall i, k | 0 <= i < k < |items + absent| ensures (items + absent)[i].group != (items + absent)[k].group {
      if i < |items| <= k {
        assert Lists(items, items[i].group) && Lists(absent, absent[k - |items|].group);
      }
    }
    forall g ensures g in states <==> AbsenceOfRow(After(Through(db, selected), g).row).Some? {
      assert Lookup(states, g) == AbsenceOfRow(After(Through(db, selected), g).row);
    }
  }

  /** At a completed run the page lists exactly the groups the source has ever shown through it. */
  lemma CompletedPageIsComplete(db: Db, selected: RunId, entries: seq<Entry>, g: GroupId)
    requires selected < |db.runs| && db.runs[selected].status == Completed && PageOf(db, selected, entries)
    ensures Lists(entries, g) <==> EverShown(Through(db, selected), g)
  {
    var h := Through(db, selected);
    NeverShown(h, g);
    assert h[|h| - 1] == ObservationOf(db, selected);
    hide After, Shown, EntryOk, EverShown;
    if After(h, g).row.Some? && g !in Shown(db, selected, |db.snapshots|) {
      UnshownIsAbsent(h, g);
    }
    if g in Shown(db, selected, |db.snapshots|) {
      ShownIsActive(h, g);
    }
  }

  lemma UnshownIsAbsent(h: seq<Observation>, g: GroupId)
    requires h != [] && h[|h| - 1].completed && g !in h[|h| - 1].shown && After(h, g).row.Some?
    ensures After(h, g).row.value.visibility != Active
  {
    assert After(h, g) == AfterRun(After(h[..|h| - 1], g), h[|h| - 1], g);
    hide After, AbsenceEvent;
  }
}
