/** The side-by-side comparison of two past runs in the frontend. */
module Comparison {
  import opened Support
  import opened Text
  import opened Comparator
  import opened Tables
  import opened ListingTrack
  import opened Persistence
  import opened SourceHistory
  import opened Query
  import opened PastSnapshots
  import opened ListingPages

  datatype ChangePair = ChangePair(before: Entry, after: Entry, fields: seq<Field>)

  datatype Unobserved = OnlyBefore(before: Entry) | OnlyAfter(after: Entry)

  datatype Buckets = Buckets(added: seq<Entry>, missing: seq<Entry>, removed: seq<Entry>, changed: seq<ChangePair>,
                             steady: seq<Entry>, unobserved: seq<Unobserved>)

  /** Displayed text: an absent value shows as a dash; runs of spaces do not count. */
  function Shows(v: Option<string>): string
  {
    Clean(if v.None? then "-" else v.value)
  }

  /** Two pages display a field differently; option tags, fees and the like are not displayed. */
  predicate DisplaysDiffer(c: Columns, n: int, d: Columns, k: int, f: Field)
  {
    match f
    case Price => c.price != d.price
    case Deposit => c.deposit != d.deposit
    case MonthlyRent => c.monthlyRent != d.monthlyRent
    case Building => Shows(c.building) != Shows(d.building)
    case Floor => Shows(c.floor) != Shows(d.floor)
    case Direction => Shows(c.direction) != Shows(d.direction)
    case SupplyArea => c.supplyArea != d.supplyArea
    case ExclusiveArea => c.exclusiveArea != d.exclusiveArea
    case RegistrationCount => n != k
    case _ => false
  }

  /** The displayed fields, in the order they are compared. */
  const DISPLAYED: seq<Field> :=
    [Price, Deposit, MonthlyRent, Building, Floor, Direction, SupplyArea, ExclusiveArea, RegistrationCount]

  /** Those of the fields that two entries display differently, in order. */
  function DifferingIn(b: Entry, a: Entry, fields: seq<Field>): seq<Field>
  {
    if fields == [] then []
    else
      var f := fields[|fields| - 1];
      DifferingIn(b, a, fields[..|fields| - 1]) +
      if DisplaysDiffer(b.columns, b.sourceCount, a.columns, a.sourceCount, f) then [f] else []
  }

  /** `changedListingFields` for list entries, which carry no broker registrations. */
  function ChangedFields(b: Entry, a: Entry): seq<Field>
  {
    DifferingIn(b, a, DISPLAYED)
  }

  datatype Bucket = ToAdded | ToMissing | ToRemoved | ToChanged | ToUnchanged | ToUnobserved

  /** Where an entry of the later page goes, given the earlier entry of its group. */
  function BucketOf(b: Option<Entry>, a: Entry, beforePartial: bool): Bucket
  {
    if a.status == IsMissing then ToMissing
    else if a.status == IsRemoved then ToRemoved
    else if b.Some? && b.value.status in {IsMissing, IsRemoved} then ToAdded
    else if b.None? then (if a.status == IsNew || !beforePartial then ToAdded else ToUnobserved)
    else if ChangedFields(b.value, a) != [] then ToChanged
    else ToUnchanged
  }

  /** The map from group id to entry: a later entry of the same group replaces an earlier one. */
  function ById(entries: seq<Entry>): (m: map<GroupId, Entry>)
    ensures forall g :: g in m <==> Lists(entries, g)
    ensures forall g :: g in m ==> m[g] in entries && m[g].group == g
  {
    if entries == [] then map[]
    else
      var n := |entries| - 1;
      var m := ById(entries[..n])[entries[n].group := entries[n]];
      ListsSnoc(entries[..n], entries[n]);
      assert entries == entries[..n] + [entries[n]];
      m
  }

  /** The entries of `after` that go to a bucket, in order. */
  function Pick(before: map<GroupId, Entry>, after: seq<Entry>, beforePartial: bool, bucket: Bucket): seq<Entry>
  {
    if after == [] then []
    else
      var a := after[|after| - 1];
      Pick(before, after[..|after| - 1], beforePartial, bucket) +
      if BucketOf(Lookup(before, a.group), a, beforePartial) == bucket then [a] else []
  }

  function Gone(before: seq<Entry>, after: map<GroupId, Entry>, removed: bool): seq<Entry>
  {
    if before == [] then []
    else
      var b := before[|before| - 1];
      Gone(before[..|before| - 1], after, removed) +
      if b.group !in after && b.removedAt.Some? == removed then [if removed then b.(status := IsRemoved) else b] else []
  }

  function AfterSides(pairs: seq<ChangePair>): seq<Entry>
  {
    seq(|pairs|, i requires 0 <= i < |pairs| => pairs[i].after)
  }

  function Wrap(onlyAfter: seq<Entry>, onlyBefore: seq<Entry>): seq<Unobserved>
  {
    seq(|onlyAfter|, i requires 0 <= i < |onlyAfter| => OnlyAfter(onlyAfter[i])) +
    seq(|onlyBefore|, i requires 0 <= i < |onlyBefore| => OnlyBefore(onlyBefore[i]))
  }

  ghost predicate PairsOk(before: map<GroupId, Entry>, pairs: seq<ChangePair>)
  {
    forall i :: 0 <= i < |pairs| ==>
      pairs[i].after.group in before && pairs[i].before == before[pairs[i].after.group]
      && pairs[i].fields == ChangedFields(pairs[i].before, pairs[i].after)
  }

  lemma PickSnoc(before: map<GroupId, Entry>, after: seq<Entry>, beforePartial: bool, i: nat)
    requires i < |after|
    ensures var to := BucketOf(Lookup(before, after[i].group), after[i], beforePartial);
      forall bucket :: Pick(before, after[..i + 1], beforePartial, bucket)
                    == Pick(before, after[..i], beforePartial, bucket) + (if to == bucket then [after[i]] else [])
  {
    hide BucketOf;
    assert after[..i + 1][..i] == after[..i];
  }

  lemma GoneSnoc(before: seq<Entry>, after: map<GroupId, Entry>, i: nat)
    requires i < |before|
    ensures var b := before[i];
      forall removed :: Gone(before[..i + 1], after, removed)
                     == Gone(before[..i], after, removed)
                        + (if b.group !in after && b.removedAt.Some? == removed
                           then [if removed then b.(status := IsRemoved) else b] else [])
  {
    assert before[..i + 1][..i] == before[..i];
  }

  /** The first loop: every later entry goes to its bucket. */
  method SortAfter(beforeById: map<GroupId, Entry>, after: seq<Entry>, beforePartial: bool)
    returns (added: seq<Entry>, missing: seq<Entry>, removed: seq<Entry>, changed: seq<ChangePair>,
             steady: seq<Entry>, unobserved: seq<Entry>)
    ensures added == Pick(beforeById, after, beforePartial, ToAdded)
    ensures missing == Pick(beforeById, after, beforePartial, ToMissing)
    ensures removed == Pick(beforeById, after, beforePartial, ToRemoved)
    ensures AfterSides(changed) == Pick(beforeById, after, beforePartial, ToChanged) && PairsOk(beforeById, changed)
    ensures steady == Pick(beforeById, after, beforePartial, ToUnchanged)
    ensures unobserved == Pick(beforeById, after, beforePartial, ToUnobserved)
  {
    assert forall bucket :: Pick(beforeById, [], beforePartial, bucket) == [];
    hide Pick, ChangedFields, AfterSides, PairsOk;
    added, missing, removed, changed, steady, unobserved := [], [], [], [], [], [];
    NoPairs(beforeById);
    assert after[..0] == [];
    for i := 0 to |after|
      invariant added == Pick(beforeById, after[..i], beforePartial, ToAdded)
      invariant missing == Pick(beforeById, after[..i], beforePartial, ToMissing)
      invariant removed == Pick(beforeById, after[..i], beforePartial, ToRemoved)
      invariant AfterSides(changed) == Pick(beforeById, after[..i], beforePartial, ToChanged)
      invariant PairsOk(beforeById, changed)
      invariant steady == Pick(beforeById, after[..i], beforePartial, ToUnchanged)
      invariant unobserved == Pick(beforeById, after[..i], beforePartial, ToUnobserved)
    {
      var a := after[i];
      ghost var to := BucketOf(Lookup(beforeById, a.group), a, beforePartial);
      PickSnoc(beforeById, after, beforePartial, i);
      if a.status == IsMissing {
        assert to == ToMissing;
        missing := missing + [a];
      } else if a.status == IsRemoved {
        assert to == ToRemoved;
        removed := removed + [a];
      } else if a.group in beforeById && beforeById[a.group].status in {IsMissing, IsRemoved} {
        assert to == ToAdded;
        added := added + [a];
      } else if a.group !in beforeById {
        if a.status == IsNew {
          assert to == ToAdded;
          added := added + [a];
        } else if beforePartial {
          assert to == ToUnobserved;
          unobserved := unobserved + [a];
        } else {
          assert to == ToAdded;
          added := added + [a];
        }
      } else {
        var fields := ChangedFields(beforeById[a.group], a);
        if fields != [] {
          assert to == ToChanged;
          PairAdded(beforeById, changed, a);
          changed := changed + [ChangePair(beforeById[a.group], a, fields)];
        } else {
          assert to == ToUnchanged;
          steady := steady + [a];
        }
      }
    }
    assert after[..|after|] == after;
  }

  lemma NoPairs(before: map<GroupId, Entry>)
    ensures AfterSides([]) == [] && PairsOk(before, [])
  {
  }

  lemma PairAdded(before: map<GroupId, Entry>, pairs: seq<ChangePair>, a: Entry)
    requires a.group in before && PairsOk(before, pairs)
    ensures var all := pairs + [ChangePair(before[a.group], a, ChangedFields(before[a.group], a))];
      AfterSides(all) == AfterSides(pairs) + [a] && PairsOk(before, all)
  {
    hide ChangedFields;
  }

  /** The six lists: later entries by bucket, then the earlier entries whose group is gone. */
  ghost predicate IsComparison(before: seq<Entry>, after: seq<Entry>, beforePartial: bool, r: Buckets)
  {
    var was, now := ById(before), ById(after);
    && r.added == Pick(was, after, beforePartial, ToAdded)
    && r.missing == Pick(was, after, beforePartial, ToMissing)
    && r.removed == Pick(was, after, beforePartial, ToRemoved) + Gone(before, now, true)
    && AfterSides(r.changed) == Pick(was, after, beforePartial, ToChanged) && PairsOk(was, r.changed)
    && r.steady == Pick(was, after, beforePartial, ToUnchanged)
    && r.unobserved == Wrap(Pick(was, after, beforePartial, ToUnobserved), Gone(before, now, false))
  }

  /** `compareListingSnapshots`. */
  method CompareListingSnapshots(before: seq<Entry>, after: seq<Entry>, beforePartial: bool) returns (r: Buckets)
    ensures IsComparison(before, after, beforePartial, r)
  {
    assert forall m, removed :: Gone([], m, removed) == [];
    hide Pick, ChangedFields, Gone;
    var beforeById, afterById := ById(before), ById(after);
    var added, missing, removed, changed, steady, onlyAfter := SortAfter(beforeById, after, beforePartial);
    var removedNow, onlyBefore: seq<Entry> := removed, [];
    assert before[..0] == [];
    for i := 0 to |before|
      invariant removedNow == removed + Gone(before[..i], afterById, true)
      invariant onlyBefore == Gone(before[..i], afterById, false)
    {
      GoneSnoc(before, afterById, i);
      var b := before[i];
      if b.group in afterById {
        continue;
      }
      if b.removedAt.Some? {
        removedNow := removedNow + [b.(status := IsRemoved)];
      } else {
        onlyBefore := onlyBefore + [b];
      }
    }
    assert before[..|before|] == before;
    r := Buckets(added, missing, removedNow, changed, steady, Wrap(onlyAfter, onlyBefore));
  }

  /* ------------------------- any two pages ------------------------- */

  lemma {:induction false} PickMembers(before: map<GroupId, Entry>, after: seq<Entry>, beforePartial: bool,
                                       bucket: Bucket)
    requires DistinctGroups(after)
    ensures var p := Pick(before, after, beforePartial, bucket);
      && DistinctGroups(p)
      && (forall i :: 0 <= i < |p| ==>
            p[i] in after && BucketOf(Lookup(before, p[i].group), p[i], beforePartial) == bucket)
  {
    hide BucketOf;
    if after != [] {
      var n := |after| - 1;
      PickMembers(before, after[..n], beforePartial, bucket);
      var rest := Pick(before, after[..n], beforePartial, bucket);
      assert forall i :: 0 <= i < |rest| ==> rest[i] in after[..n];
    }
  }

  lemma {:induction false} Picked(before: map<GroupId, Entry>, after: seq<Entry>, beforePartial: bool, i: nat)
    requires i < |after|
    ensures var bucket := BucketOf(Lookup(before, after[i].group), after[i], beforePartial);
      Lists(Pick(before, after, beforePartial, bucket), after[i].group)
  {
    hide BucketOf;
    var n, a := |after| - 1, after[i];
    var bucket := BucketOf(Lookup(before, a.group), a, beforePartial);
    var rest := Pick(before, after[..n], beforePartial, bucket);
    if i < n {
      Picked(before, after[..n], beforePartial, i);
      assert after[..n][i] == a && rest + [] == rest;
    }
    ListsSnoc(rest, after[n]);
  }

  /** A bucket lists a group exactly when the later page does and the group's entry goes there. */
  lemma PickedGroups(before: map<GroupId, Entry>, after: seq<Entry>, beforePartial: bool, g: GroupId, k: nat,
                     bucket: Bucket)
    requires DistinctGroups(after) && k < |after| && after[k].group == g
    ensures Lists(Pick(before, after, beforePartial, bucket), g) <==>
      BucketOf(Lookup(before, g), after[k], beforePartial) == bucket
  {
    hide BucketOf;
    PickMembers(before, after, beforePartial, bucket);
    Picked(before, after, beforePartial, k);
    var p := Pick(before, after, beforePartial, bucket);
    if Lists(p, g) {
      var m :| 0 <= m < |p| && p[m].group == g;
      var x :| 0 <= x < |after| && after[x] == p[m];
      assert x == k;
    }
  }

  lemma PickedOnlyFromAfter(before: map<GroupId, Entry>, after: seq<Entry>, beforePartial: bool, g: GroupId,
                            bucket: Bucket)
    requires DistinctGroups(after) && !Lists(after, g)
    ensures !Lists(Pick(before, after, beforePartial, bucket), g)
  {
    PickMembers(before, after, beforePartial, bucket);
  }

  function Groups(entries: seq<Entry>): seq<GroupId>
  {
    seq(|entries|, i requires 0 <= i < |entries| => entries[i].group)
  }

  function UnobservedGroups(us: seq<Unobserved>): seq<GroupId>
  {
    seq(|us|, i requires 0 <= i < |us| => if us[i].OnlyBefore? then us[i].before.group else us[i].after.group)
  }

  /** The groups of each of the six lists. */
  function GroupsIn(r: Buckets, bucket: Bucket): seq<GroupId>
  {
    match bucket
    case ToAdded => Groups(r.added)
    case ToMissing => Groups(r.missing)
    case ToRemoved => Groups(r.removed)
    case ToChanged => Groups(AfterSides(r.changed))
    case ToUnchanged => Groups(r.steady)
    case ToUnobserved => UnobservedGroups(r.unobserved)
  }

  /** Where a group goes: by the later entry if there is one, else by whether the earlier entry was removed. */
  function PlaceOf(before: seq<Entry>, after: seq<Entry>, beforePartial: bool, g: GroupId): Option<Bucket>
  {
    var was, now := ById(before), ById(after);
    if g in now then Some(BucketOf(Lookup(was, g), now[g], beforePartial))
    else if g in was then Some(if was[g].removedAt.Some? then ToRemoved else ToUnobserved)
    else None
  }

  lemma GroupsMeaning(entries: seq<Entry>)
    ensures Distinct(Groups(entries)) <==> DistinctGroups(entries)
    ensures forall g :: g in Groups(entries) <==> Lists(entries, g)
  {
    var gs := Groups(entries);
    assert forall i :: 0 <= i < |entries| ==> gs[i] == entries[i].group;
  }

  lemma GroupsConcat(a: seq<Entry>, b: seq<Entry>)
    ensures Groups(a + b) == Groups(a) + Groups(b)
    ensures UnobservedGroups(Wrap(a, b)) == Groups(a) + Groups(b)
  {
  }

  lemma DistinctConcat(a: seq<GroupId>, b: seq<GroupId>)
    requires Distinct(a) && Distinct(b) && forall g :: g in a ==> g !in b
    ensures Distinct(a + b)
  {
    forall i, j | 0 <= i < j < |a + b| ensures (a + b)[i] != (a + b)[j] {
      if i < |a| <= j {
        assert a[i] in a && b[j - |a|] in b;
      }
    }
  }

  /** The earlier entries whose group is gone. */
  lemma {:induction false} GoneMembers(before: seq<Entry>, after: map<GroupId, Entry>, removed: bool)
    requires DistinctGroups(before)
    ensures var gone := Gone(before, after, removed);
      && DistinctGroups(gone)
      && forall g :: Lists(gone, g) <==>
           g !in after && exists k :: 0 <= k < |before| && before[k].group == g && before[k].removedAt.Some? == removed
  {
    if before != [] {
      var n, b := |before| - 1, before[|before| - 1];
      GoneMembers(before[..n], after, removed);
      var rest := Gone(before[..n], after, removed);
      var kept := if removed then b.(status := IsRemoved) else b;
      ListsSnoc(rest, kept);
      assert !Lists(rest, b.group);
      assert rest + [] == rest;
      if b.group !in after && b.removedAt.Some? == removed {
        assert Gone(before, after, removed) == rest + [kept];
      }
    }
  }

  lemma PickPlace(before: seq<Entry>, after: seq<Entry>, beforePartial: bool, bucket: Bucket, g: GroupId)
    requires DistinctGroups(after)
    ensures var was, now := ById(before), ById(after);
      Lists(Pick(was, after, beforePartial, bucket), g) <==>
        g in now && BucketOf(Lookup(was, g), now[g], beforePartial) == bucket
    ensures DistinctGroups(Pick(ById(before), after, beforePartial, bucket))
  {
    var was, now := ById(before), ById(after);
    hide Pick, BucketOf;
    PickMembers(was, after, beforePartial, bucket);
    if g in now {
      var k :| 0 <= k < |after| && after[k] == now[g];
      PickedGroups(was, after, beforePartial, g, k, bucket);
    } else {
      PickedOnlyFromAfter(was, after, beforePartial, g, bucket);
    }
  }

  lemma GonePlace(before: seq<Entry>, after: seq<Entry>, removed: bool, g: GroupId)
    requires DistinctGroups(before)
    ensures var was, now := ById(before), ById(after);
      Lists(Gone(before, now, removed), g) <==> g !in now && g in was && was[g].removedAt.Some? == removed
    ensures DistinctGroups(Gone(before, ById(after), removed))
  {
    var was := ById(before);
    hide Gone;
    GoneMembers(before, ById(after), removed);
    if g in was {
      var k :| 0 <= k < |before| && before[k] == was[g];
      assert forall i :: 0 <= i < |before| && before[i].group == g ==> i == k;
    }
  }

  /** Whatever the two pages are, as long as each lists its groups once: every group of either page is in exactly one
      of the six lists, once, and no other group is in any. */
  lemma EveryGroupOnce(before: seq<Entry>, after: seq<Entry>, beforePartial: bool, r: Buckets, bucket: Bucket,
                       g: GroupId)
    requires DistinctGroups(before) && DistinctGroups(after) && IsComparison(before, after, beforePartial, r)
    ensures Distinct(GroupsIn(r, bucket))
    ensures g in GroupsIn(r, bucket) <==> PlaceOf(before, after, beforePartial, g) == Some(bucket)
    ensures PlaceOf(before, after, beforePartial, g).Some? <==> Lists(before, g) || Lists(after, g)
  {
    var was, now := ById(before), ById(after);
    var picked := Pick(was, after, beforePartial, bucket);
    var gone := GoneTo(before, now, bucket);
    ListParts(before, after, beforePartial, r, bucket);
    hide Pick, Gone, BucketOf, IsComparison, GroupsIn, Groups;
    GroupsMeaning(picked);
    GroupsMeaning(gone);
    PickPlace(before, after, beforePartial, bucket, g);
    GonePlace(before, after, bucket == ToRemoved, g);
    forall x | x in Groups(picked) ensures x !in Groups(gone) {
      PickPlace(before, after, beforePartial, bucket, x);
      GonePlace(before, after, bucket == ToRemoved, x);
    }
    DistinctConcat(Groups(picked), Groups(gone));
  }

  /** The earlier entries whose group is gone, by the list they go to. */
  function GoneTo(before: seq<Entry>, now: map<GroupId, Entry>, bucket: Bucket): seq<Entry>
  {
    match bucket
    case ToRemoved => Gone(before, now, true)
    case ToUnobserved => Gone(before, now, false)
    case _ => []
  }

  lemma ListParts(before: seq<Entry>, after: seq<Entry>, beforePartial: bool, r: Buckets, bucket: Bucket)
    requires IsComparison(before, after, beforePartial, r)
    ensures var was, now := ById(before), ById(after);
      GroupsIn(r, bucket) == Groups(Pick(was, after, beforePartial, bucket)) + Groups(GoneTo(before, now, bucket))
  {
    var was, now := ById(before), ById(after);
    hide Pick, Gone, ById, AfterSides, PairsOk;
    GroupsConcat(Pick(was, after, beforePartial, ToRemoved), Gone(before, now, true));
    GroupsConcat(Pick(was, after, beforePartial, ToUnobserved), Gone(before, now, false));
    GroupsConcat(Pick(was, after, beforePartial, bucket), []);
    hide Groups, UnobservedGroups, Wrap;
    assert Pick(was, after, beforePartial, bucket) + [] == Pick(was, after, beforePartial, bucket);
  }

  /* ------------------------- two completed runs ------------------------- */

  lemma {:induction false} NoneGone(before: seq<Entry>, after: map<GroupId, Entry>, removed: bool)
    requires forall i :: 0 <= i < |before| ==> before[i].group in after
    ensures Gone(before, after, removed) == []
  {
    if before != [] {
      NoneGone(before[..|before| - 1], after, removed);
    }
  }

  /** The bucket of a group from its visibility at two completed runs. */
  predicate Belongs(was: Option<StateRow>, now: Option<StateRow>, bucket: Bucket)
  {
    && now.Some?
    && match bucket
       case ToMissing => now.value.visibility == Missing
       case ToRemoved => now.value.visibility == Removed
       case ToAdded => now.value.visibility == Active && (was.None? || was.value.visibility != Active)
       case ToUnobserved => false
       case _ => now.value.visibility == Active && was.Some? && was.value.visibility == Active
  }

  /** For a later entry and the earlier entry of its group, the bucket follows the two visibilities. */
  lemma BucketFollowsRows(was: Option<StateRow>, now: StateRow, b: Option<Entry>, a: Entry)
    requires VisibilityOf(a.status) == now.visibility
    requires b.Some? <==> was.Some?
    requires b.Some? ==> VisibilityOf(b.value.status) == was.value.visibility
    ensures Belongs(was, Some(now), BucketOf(b, a, false))
  {
    hide ChangedFields;
  }

  lemma EntryBucket(db: Db, i: RunId, before: seq<Entry>, h: seq<Observation>, a: Entry)
    requires i < |db.runs| && db.runs[i].status == Completed && PageOf(db, i, before)
    requires EntryOk(h, a)
    ensures var bucket := BucketOf(Lookup(ById(before), a.group), a, false);
      Belongs(After(Through(db, i), a.group).row, After(h, a.group).row, bucket)
  {
    var g := a.group;
    CompletedPageIsComplete(db, i, before, g);
    NeverShown(Through(db, i), g);
    hide After, ById, ChangedFields, Through;
    var b := Lookup(ById(before), g);
    if b.Some? {
      var k :| 0 <= k < |before| && before[k] == b.value;
      assert EntryOk(Through(db, i), before[k]);
    }
    BucketFollowsRows(After(Through(db, i), g).row, After(h, g).row.value, b, a);
  }

  /** Every group of an earlier completed page is on the later one. */
  lemma LaterPageContains(db: Db, i: RunId, j: RunId, before: seq<Entry>, after: seq<Entry>, g: GroupId)
    requires i < j < |db.runs| && db.runs[i].source == db.runs[j].source
    requires db.runs[i].status == Completed && db.runs[j].status == Completed
    requires PageOf(db, i, before) && PageOf(db, j, after) && Lists(before, g)
    ensures Lists(after, g)
  {
    hide PageOf, History;
    CompletedPageIsComplete(db, i, before, g);
    CompletedPageIsComplete(db, j, after, g);
    HistoryPrefix(db, db.runs[i].source, i + 1, j + 1);
    var h, all := Through(db, i), Through(db, j);
    hide Through;
    var k :| 0 <= k < |h| && g in h[k].shown;
    assert all[..|h|][k] == all[k];
  }

  lemma GroupBucket(db: Db, i: RunId, j: RunId, before: seq<Entry>, after: seq<Entry>, g: GroupId, bucket: Bucket)
    requires i < j < |db.runs|
    requires db.runs[i].status == Completed && db.runs[j].status == Completed
    requires PageOf(db, i, before) && PageOf(db, j, after)
    ensures Lists(Pick(ById(before), after, false, bucket), g) ==>
      Belongs(After(Through(db, i), g).row, After(Through(db, j), g).row, bucket)
    ensures After(Through(db, j), g).row.Some? ==> exists b :: Lists(Pick(ById(before), after, false, b), g)
    ensures Lists(Pick(ById(before), after, false, bucket), g) ==>
      forall b :: Lists(Pick(ById(before), after, false, b), g) ==> b == bucket
  {
    hide *;
    LaterPageGroups(db, j, after, g);
    if k :| 0 <= k < |after| && after[k].group == g {
      EntryBucket(db, i, before, Through(db, j), after[k]);
      ghost var to := BucketOf(Lookup(ById(before), g), after[k], false);
      forall b ensures Lists(Pick(ById(before), after, false, b), g) <==> to == b {
        PickedGroups(ById(before), after, false, g, k, b);
      }
      assert Lists(Pick(ById(before), after, false, to), g);
    } else {
      PickedOnlyFromAfter(ById(before), after, false, g, bucket);
    }
  }

  lemma LaterPageGroups(db: Db, j: RunId, after: seq<Entry>, g: GroupId)
    requires j < |db.runs| && db.runs[j].status == Completed && PageOf(db, j, after)
    ensures DistinctGroups(after)
    ensures forall k :: 0 <= k < |after| ==> EntryOk(Through(db, j), after[k])
    ensures (exists k :: 0 <= k < |after| && after[k].group == g) <==> After(Through(db, j), g).row.Some?
    ensures (exists k :: 0 <= k < |after| && after[k].group == g) <==> Lists(after, g)
  {
    CompletedPageIsComplete(db, j, after, g);
    NeverShown(Through(db, j), g);
    hide Through, After, EntryOk, EverShown;
  }

  lemma NothingGone(db: Db, i: RunId, j: RunId, before: seq<Entry>, after: seq<Entry>)
    requires i < j < |db.runs| && db.runs[i].source == db.runs[j].source
    requires db.runs[i].status == Completed && db.runs[j].status == Completed
    requires PageOf(db, i, before) && PageOf(db, j, after)
    ensures Gone(before, ById(after), true) == [] && Gone(before, ById(after), false) == []
  {
    hide PageOf, Gone;
    forall k | 0 <= k < |before| ensures before[k].group in ById(after) {
      assert Lists(before, before[k].group);
      LaterPageContains(db, i, j, before, after, before[k].group);
    }
    NoneGone(before, ById(after), true);
    NoneGone(before, ById(after), false);
  }

  lemma NoneUnobserved(db: Db, i: RunId, j: RunId, before: seq<Entry>, after: seq<Entry>)
    requires i < j < |db.runs|
    requires db.runs[i].status == Completed && db.runs[j].status == Completed
    requires PageOf(db, i, before) && PageOf(db, j, after)
    ensures Pick(ById(before), after, false, ToUnobserved) == []
  {
    hide PageOf, ById, Pick, Through, After;
    var p := Pick(ById(before), after, false, ToUnobserved);
    if p != [] {
      assert Lists(p, p[0].group);
      GroupBucket(db, i, j, before, after, p[0].group, ToUnobserved);
    }
  }

  /** Comparing two completed runs of a source leaves nothing unobserved and puts every group ever shown
      through the later run in exactly one list, once, by its visibility at the two runs. */
  lemma CompareCompletedRuns(db: Db, i: RunId, j: RunId, before: seq<Entry>, after: seq<Entry>, r: Buckets, g: GroupId)
    requires i < j < |db.runs| && db.runs[i].source == db.runs[j].source
    requires db.runs[i].status == Completed && db.runs[j].status == Completed
    requires PageOf(db, i, before) && PageOf(db, j, after) && IsComparison(before, after, false, r)
    ensures r.unobserved == []
    ensures DistinctGroups(r.added) && DistinctGroups(r.missing) && DistinctGroups(r.removed)
            && DistinctGroups(AfterSides(r.changed)) && DistinctGroups(r.steady)
    ensures var was, now := After(Through(db, i), g).row, After(Through(db, j), g).row;
      && (Lists(r.missing, g) <==> Belongs(was, now, ToMissing))
      && (Lists(r.removed, g) <==> Belongs(was, now, ToRemoved))
      && (Lists(r.added, g) <==> Belongs(was, now, ToAdded))
      && (Lists(AfterSides(r.changed), g) || Lists(r.steady, g) <==> Belongs(was, now, ToChanged))
      && !(Lists(AfterSides(r.changed), g) && Lists(r.steady, g))
  {
    hide PageOf, IsComparison, Pick, Through, After, ById, AfterSides;
    PageDistinct(db, j, after);
    NothingGone(db, i, j, before, after);
    NoneUnobserved(db, i, j, before, after);
    ComparisonLists(before, after, r);
    forall b: Bucket {
      GroupBucket(db, i, j, before, after, g, b);
    }
  }

  lemma ComparisonLists(before: seq<Entry>, after: seq<Entry>, r: Buckets)
    requires DistinctGroups(after) && IsComparison(before, after, false, r)
    requires Gone(before, ById(after), true) == [] && Gone(before, ById(after), false) == []
    requires Pick(ById(before), after, false, ToUnobserved) == []
    ensures var was := ById(before);
      && r.unobserved == []
      && r.added == Pick(was, after, false, ToAdded) && r.missing == Pick(was, after, false, ToMissing)
      && r.removed == Pick(was, after, false, ToRemoved) && AfterSides(r.changed) == Pick(was, after, false, ToChanged)
      && r.steady == Pick(was, after, false, ToUnchanged)
    ensures DistinctGroups(r.added) && DistinctGroups(r.missing) && DistinctGroups(r.removed)
            && DistinctGroups(AfterSides(r.changed)) && DistinctGroups(r.steady)
  {
    var was := ById(before);
    hide Pick, ById, AfterSides, PairsOk;
    PickMembers(was, after, false, ToAdded);
    PickMembers(was, after, false, ToMissing);
    PickMembers(was, after, false, ToRemoved);
    PickMembers(was, after, false, ToChanged);
    PickMembers(was, after, false, ToUnchanged);
    assert Pick(was, after, false, ToRemoved) + [] == Pick(was, after, false, ToRemoved);
  }

  /* ------------------------- changed or not ------------------------- */

  lemma {:induction false} DifferingMembers(b: Entry, a: Entry, fields: seq<Field>, f: Field)
    ensures f in DifferingIn(b, a, fields) <==>
      f in fields && DisplaysDiffer(b.columns, b.sourceCount, a.columns, a.sourceCount, f)
  {
    hide DisplaysDiffer;
    if fields != [] {
      DifferingMembers(b, a, fields[..|fields| - 1], f);
    }
  }

  /** The words of a displayed text: a dash if there is none. */
  function WordsShown(text: Option<string>): seq<string>
  {
    match text
    case None => ["-"]
    case Some(s) => Words(s)
  }

  /** Two pages show the field differently; what else a listing has is not compared. */
  ghost predicate LooksDifferent(b: Columns, n: int, a: Columns, k: int, f: Field)
  {
    match f
    case Price => b.price != a.price
    case Deposit => b.deposit != a.deposit
    case MonthlyRent => b.monthlyRent != a.monthlyRent
    case Building => WordsShown(b.building) != WordsShown(a.building)
    case Floor => WordsShown(b.floor) != WordsShown(a.floor)
    case Direction => WordsShown(b.direction) != WordsShown(a.direction)
    case SupplyArea => b.supplyArea != a.supplyArea
    case ExclusiveArea => b.exclusiveArea != a.exclusiveArea
    case RegistrationCount => n != k
    case _ => false
  }

  lemma ShownSame(s: Option<string>, t: Option<string>)
    ensures Shows(s) == Shows(t) <==> WordsShown(s) == WordsShown(t)
  {
    WordsCons("-", "");
    assert "-" + "" == "-" && Words("") == [];
    CleanSame(if s.None? then "-" else s.value, if t.None? then "-" else t.value);
    hide Words, Clean;
  }

  lemma LooksAsDisplayed(b: Columns, n: int, a: Columns, k: int, f: Field)
    ensures DisplaysDiffer(b, n, a, k, f) <==> LooksDifferent(b, n, a, k, f)
  {
    ShownSame(b.building, a.building);
    ShownSame(b.floor, a.floor);
    ShownSame(b.direction, a.direction);
    hide Shows, WordsShown;
  }

  /** The changed fields are exactly those shown differently. */
  lemma ChangedFieldsMeaning(b: Entry, a: Entry, f: Field)
    ensures f in ChangedFields(b, a) <==> LooksDifferent(b.columns, b.sourceCount, a.columns, a.sourceCount, f)
  {
    DifferingMembers(b, a, DISPLAYED, f);
    AllDisplayed(f);
    LooksAsDisplayed(b.columns, b.sourceCount, a.columns, a.sourceCount, f);
    hide Shows, WordsShown;
  }

  lemma AllDisplayed(f: Field)
    ensures f in DISPLAYED <==>
      f in {Price, Deposit, MonthlyRent, Building, Floor, Direction, SupplyArea, ExclusiveArea, RegistrationCount}
  {
  }

  ghost predicate DisplayedDiffer(b: Snapshot, a: Snapshot)
  {
    exists f: Field :: LooksDifferent(b.columns, b.aggregate.sourceCount, a.columns, a.aggregate.sourceCount, f)
  }

  /** A group active at a completed run is on its page as the run's own snapshot has it. */
  lemma ActiveEntry(db: Db, i: RunId, page: seq<Entry>, g: GroupId) returns (m: nat)
    requires i < |db.runs| && db.runs[i].status == Completed && PageOf(db, i, page)
    requires var row := After(Through(db, i), g).row; row.Some? && row.value.visibility == Active
    ensures g in ById(page) && SnapshotAt(db, m, i, g) && VisibilityOf(ById(page)[g].status) == Active
    ensures ById(page)[g].columns == db.snapshots[m].columns
    ensures ById(page)[g].sourceCount == db.snapshots[m].aggregate.sourceCount
  {
    var h := Through(db, i);
    NeverShown(h, g);
    CompletedPageIsComplete(db, i, page, g);
    ThroughEnds(db, i);
    hide After, ById, Through, EverShown, Altered;
    if g !in h[|h| - 1].shown {
      UnshownIsAbsent(h, g);
      assert false;
    }
    var e := ById(page)[g];
    var k :| 0 <= k < |page| && page[k] == e;
    assert EntryOk(h, page[k]) && EntryTells(db, i, page[k]);
    var j: nat, n: nat :| LastShownAt(h, g, j) && SnapshotAt(db, n, h[j].run, g) && e.columns == db.snapshots[n].columns
                          && e.sourceCount == db.snapshots[n].aggregate.sourceCount;
    assert j == |h| - 1;
    m := n;
  }

  /** Of two completed runs: a group active at both is listed as changed exactly when the two runs'
      snapshots of it differ in something displayed, and as unchanged otherwise. */
  lemma ChangedExactly(db: Db, i: RunId, j: RunId, before: seq<Entry>, after: seq<Entry>, r: Buckets, g: GroupId)
    returns (m: nat, k: nat)
    requires i < j < |db.runs| && db.runs[i].source == db.runs[j].source
    requires db.runs[i].status == Completed && db.runs[j].status == Completed
    requires PageOf(db, i, before) && PageOf(db, j, after) && IsComparison(before, after, false, r)
    requires Belongs(After(Through(db, i), g).row, After(Through(db, j), g).row, ToChanged)
    ensures SnapshotAt(db, m, i, g) && SnapshotAt(db, k, j, g)
    ensures Lists(AfterSides(r.changed), g) <==> DisplayedDiffer(db.snapshots[m], db.snapshots[k])
    ensures Lists(r.steady, g) <==> !DisplayedDiffer(db.snapshots[m], db.snapshots[k])
  {
    hide *;
    PageDistinct(db, i, before);
    PageDistinct(db, j, after);
    BothActive(After(Through(db, i), g).row, After(Through(db, j), g).row);
    m := ActiveEntry(db, i, before, g);
    k := ActiveEntry(db, j, after, g);
    ChangedOrNot(before, after, r, g);
    FieldsDiffer(ById(before)[g], ById(after)[g], db, m, i, k, j, g);
  }

  lemma PageDistinct(db: Db, i: RunId, page: seq<Entry>)
    requires i < |db.runs| && PageOf(db, i, page)
    ensures DistinctGroups(page)
  {
    hide EntryOk, EntryTells, Through, After;
  }

  lemma BothActive(was: Option<StateRow>, now: Option<StateRow>)
    requires Belongs(was, now, ToChanged)
    ensures was.Some? && was.value.visibility == Active && now.Some? && now.value.visibility == Active
  {
  }

  /** A group present on both pages is changed if a field is, and unchanged otherwise. */
  lemma ChangedOrNot(before: seq<Entry>, after: seq<Entry>, r: Buckets, g: GroupId)
    requires DistinctGroups(before) && DistinctGroups(after) && IsComparison(before, after, false, r)
    requires g in ById(before) && g in ById(after)
    requires VisibilityOf(ById(before)[g].status) == Active && VisibilityOf(ById(after)[g].status) == Active
    ensures Lists(AfterSides(r.changed), g) <==> ChangedFields(ById(before)[g], ById(after)[g]) != []
    ensures Lists(r.steady, g) <==> ChangedFields(ById(before)[g], ById(after)[g]) == []
  {
    hide IsComparison, ById, AfterSides, Groups, ChangedFields;
    EveryGroupOnce(before, after, false, r, ToChanged, g);
    EveryGroupOnce(before, after, false, r, ToUnchanged, g);
    GroupsMeaning(AfterSides(r.changed));
    GroupsMeaning(r.steady);
  }

  lemma FieldsDiffer(b: Entry, a: Entry, db: Db, m: nat, i: RunId, k: nat, j: RunId, g: GroupId)
    requires SnapshotAt(db, m, i, g) && SnapshotAt(db, k, j, g)
    requires b.columns == db.snapshots[m].columns && b.sourceCount == db.snapshots[m].aggregate.sourceCount
    requires a.columns == db.snapshots[k].columns && a.sourceCount == db.snapshots[k].aggregate.sourceCount
    ensures ChangedFields(b, a) != [] <==> DisplayedDiffer(db.snapshots[m], db.snapshots[k])
  {
    hide ChangedFields, LooksDifferent;
    forall f: Field
      ensures f in ChangedFields(b, a) <==> LooksDifferent(b.columns, b.sourceCount, a.columns, a.sourceCount, f)
    {
      ChangedFieldsMeaning(b, a, f);
    }
    if ChangedFields(b, a) != [] {
      assert ChangedFields(b, a)[0] in ChangedFields(b, a);
    }
  }
}
