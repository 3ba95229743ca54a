/**
 The life of one listing group under one source, as a fold over the source's successful runs.
 The database of module Persistence is proved to hold exactly these folds.
 */
module ListingTrack {
  import opened Support
  import opened Comparator
  import opened Tables

  /** What one successful run observed. */
  datatype Observation = Observation(run: RunId, completed: bool, at: Time, details: bool,
                                     shown: map<GroupId, Comparable>)

  /** The last completed snapshot and whether its run collected broker details. */
  datatype Last = Last(listing: Comparable, details: bool)

  datatype Track = Track(row: Option<StateRow>, last: Option<Last>, events: seq<Event>)

  /* ------------------- effects of one run on one group ------------------- */

  function PresentRow(row: Option<StateRow>, at: Time): StateRow
  {
    match row
    case None => StateRow(Active, 0, at, at, None, at)
    case Some(s) =>
      var t := TransitionPresence(s.visibility, s.missingCount);
      s.(visibility := t.state, missingCount := t.missingCount, lastSeenAt := at, removedAt := None, updatedAt := at)
  }

  /** The event of an observed group: new, restored, changed or none. */
  function PresenceEvent(row: Option<StateRow>, last: Option<Last>, current: Comparable, details: bool,
                         run: RunId, g: GroupId, at: Time): Option<Event>
  {
    var before := if last.Some? then Some(last.value.listing) else None;
    if row.None? then Some(Event(run, g, New, Observed(before, current), at))
    else
      var kind := TransitionPresence(row.value.visibility, row.value.missingCount).event;
      if kind.Some? then Some(Event(run, g, kind.value, Observed(before, current), at))
      else if last.None? then None
      else
        var change := Diff(last.value.listing, current, last.value.details && details);
        if change.changed == [] then None else Some(Event(run, g, Changed, Edited(change), at))
  }

  function AbsentRow(s: StateRow, completed: bool, at: Time): StateRow
  {
    var t := TransitionAbsence(s.visibility, s.missingCount, completed);
    if t.state == s.visibility && t.missingCount == s.missingCount then s
    else s.(visibility := t.state, missingCount := t.missingCount,
            removedAt := if t.state == Removed then Some(at) else None, updatedAt := at)
  }

  function AbsenceEvent(s: StateRow, completed: bool, run: RunId, g: GroupId, at: Time): Option<Event>
  {
    var t := TransitionAbsence(s.visibility, s.missingCount, completed);
    if t.event.None? || (t.state == s.visibility && t.missingCount == s.missingCount) then None
    else Some(Event(run, g, t.event.value, Unseen(s.visibility, s.missingCount, t.state, t.missingCount), at))
  }

  function AfterRun(t: Track, o: Observation, g: GroupId): Track
  {
    if g in o.shown then
      Track(Some(PresentRow(t.row, o.at)),
            if o.completed then Some(Last(o.shown[g], o.details)) else t.last,
            t.events + ToSeq(PresenceEvent(t.row, t.last, o.shown[g], o.details, o.run, g, o.at)))
    else if t.row.None? then t
    else Track(Some(AbsentRow(t.row.value, o.completed, o.at)), t.last,
               t.events + ToSeq(AbsenceEvent(t.row.value, o.completed, o.run, g, o.at)))
  }

  function After(h: seq<Observation>, g: GroupId): Track
  {
    if h == [] then Track(None, None, []) else AfterRun(After(h[..|h| - 1], g), h[|h| - 1], g)
  }

  /* ------------------------- closed form ------------------------- */

  /** Times of the completed runs. */
  function CompletedTimes(h: seq<Observation>): seq<Time>
  {
    if h == [] then []
    else CompletedTimes(h[..|h| - 1]) + (if h[|h| - 1].completed then [h[|h| - 1].at] else [])
  }

  /** The state `misses` completed runs after the group was last shown. */
  predicate RowIs(row: StateRow, lastSeenAt: Time, misses: seq<Time>)
  {
    && row.lastSeenAt == lastSeenAt
    && row.visibility == (if misses == [] then Active else if |misses| == 1 then Missing else Removed)
    && row.missingCount == (if |misses| < 2 then |misses| else 2)
    && row.removedAt == (if |misses| < 2 then None else Some(misses[1]))
    && row.updatedAt == (if misses == [] then lastSeenAt else if |misses| == 1 then misses[0] else misses[1])
  }

  /** Run `j` is the last one that shows the group. */
  predicate LastShownAt(h: seq<Observation>, g: GroupId, j: nat)
  {
    && j < |h|
    && g in h[j].shown
    && forall i :: j < i < |h| ==> g !in h[i].shown
  }

  predicate EverShown(h: seq<Observation>, g: GroupId)
  {
    exists i :: 0 <= i < |h| && g in h[i].shown
  }

  lemma ShownRow(t: Track, o: Observation, g: GroupId)
    requires g in o.shown
    ensures var row := AfterRun(t, o, g).row; row.Some? && RowIs(row.value, o.at, [])
  {
  }

  /** A run that does not show the group counts if it is completed. */
  lemma UnshownRow(t: Track, o: Observation, g: GroupId, lastSeenAt: Time, misses: seq<Time>)
    requires g !in o.shown && t.row.Some? && RowIs(t.row.value, lastSeenAt, misses)
    ensures var row := AfterRun(t, o, g).row;
      row.Some? && RowIs(row.value, lastSeenAt, misses + (if o.completed then [o.at] else []))
  {
    assert misses + [] == misses;
  }

  /** Removed iff at least two completed runs since the last observation, missing iff exactly one, else active. */
  lemma {:induction false} ClosedForm(h: seq<Observation>, g: GroupId, j: nat)
    requires LastShownAt(h, g, j)
    ensures var row := After(h, g).row; row.Some? && RowIs(row.value, h[j].at, CompletedTimes(h[j + 1..]))
  {
    hide RowIs, AfterRun;
    var last := |h| - 1;
    var t := After(h[..last], g);
    if j == last {
      assert h[j + 1..] == [];
      ShownRow(t, h[last], g);
    } else {
      ClosedForm(h[..last], g, j);
      assert h[j + 1..][..last - j - 1] == h[..last][j + 1..];
      UnshownRow(t, h[last], g, h[j].at, CompletedTimes(h[..last][j + 1..]));
    }
  }

  /** Run `i` is the first one that shows the group. */
  predicate FirstShownAt(h: seq<Observation>, g: GroupId, i: nat)
  {
    i < |h| && g in h[i].shown && forall k :: 0 <= k < i ==> g !in h[k].shown
  }

  /** The row remembers when the group was first seen. */
  lemma {:induction false} FirstSeen(h: seq<Observation>, g: GroupId, i: nat)
    requires FirstShownAt(h, g, i)
    ensures After(h, g).row.Some? && After(h, g).row.value.firstSeenAt == h[i].at
  {
    hide PresenceEvent, AbsenceEvent;
    var last := |h| - 1;
    if i == last {
      NeverShown(h[..last], g);
    } else {
      FirstSeen(h[..last], g, i);
    }
  }

  lemma {:induction false} NeverShown(h: seq<Observation>, g: GroupId)
    ensures After(h, g).row.None? <==> !EverShown(h, g)
    ensures !EverShown(h, g) ==> After(h, g) == Track(None, None, [])
  {
    if h != [] {
      NeverShown(h[..|h| - 1], g);
      assert EverShown(h, g) <==> EverShown(h[..|h| - 1], g) || g in h[|h| - 1].shown;
    }
  }

  lemma {:induction false} LastShownExists(h: seq<Observation>, g: GroupId) returns (j: nat)
    requires EverShown(h, g)
    ensures LastShownAt(h, g, j)
  {
    j := |h| - 1;
    if g !in h[j].shown {
      j := LastShownExists(h[..|h| - 1], g);
    }
  }

  /** Only three shapes of row are ever stored. */
  lemma RowShapes(h: seq<Observation>, g: GroupId)
    requires After(h, g).row.Some?
    ensures var row := After(h, g).row.value;
      (row.visibility, row.missingCount, row.removedAt.Some?) in
        {(Active, 0, false), (Missing, 1, false), (Removed, 2, true)}
  {
    NeverShown(h, g);
    var j := LastShownExists(h, g);
    ClosedForm(h, g, j);
  }

  /* ------------------------- replay of absences ------------------------- */

  datatype Absence = Absence(visibility: Visibility, detectedAt: Time, removedAt: Option<Time>)

  /** The effect of one event on the absence of its group. */
  function ReplayEvent(e: Event, absence: Option<Absence>): Option<Absence>
  {
    match e.kind
    case WentMissing => Some(Absence(Missing, e.at, None))
    case WentRemoved => Some(Absence(Removed, e.at, Some(e.at)))
    case _ => None
  }

  function ReplayAbsence(events: seq<Event>): Option<Absence>
  {
    if events == [] then None
    else ReplayEvent(events[|events| - 1], ReplayAbsence(events[..|events| - 1]))
  }

  /** What the query layer must report for a row. */
  function AbsenceOfRow(row: Option<StateRow>): Option<Absence>
  {
    if row.None? || row.value.visibility == Active then None
    else Some(Absence(row.value.visibility, row.value.updatedAt, row.value.removedAt))
  }

  lemma ReplayAppend(events: seq<Event>, o: Option<Event>)
    ensures ReplayAbsence(events + ToSeq(o)) ==
      if o.Some? then ReplayEvent(o.value, ReplayAbsence(events)) else ReplayAbsence(events)
  {
    if o.None? {
      assert events + [] == events;
    } else {
      assert (events + [o.value])[..|events|] == events;
    }
  }

  /** An observed group gets no event only if it was active, and never an absence event. */
  lemma PresenceEvents(row: Option<StateRow>, last: Option<Last>, current: Comparable, details: bool,
                       run: RunId, g: GroupId, at: Time)
    ensures var e := PresenceEvent(row, last, current, details, run, g, at);
      && (e.None? ==> row.Some? && row.value.visibility == Active)
      && (e.Some? ==>
            e.value.kind in {New, Restored, Changed} && (e.value.run, e.value.group, e.value.at) == (run, g, at))
      && (e.Some? && e.value.kind == Changed ==> row.Some? && row.value.visibility == Active)
  {
  }

  lemma AbsenceStep(t: Track, o: Observation, g: GroupId)
    requires ReplayAbsence(t.events) == AbsenceOfRow(t.row)
    ensures ReplayAbsence(AfterRun(t, o, g).events) == AbsenceOfRow(AfterRun(t, o, g).row)
  {
    if g in o.shown {
      PresenceEvents(t.row, t.last, o.shown[g], o.details, o.run, g, o.at);
      ReplayAppend(t.events, PresenceEvent(t.row, t.last, o.shown[g], o.details, o.run, g, o.at));
    } else if t.row.Some? {
      ReplayAppend(t.events, AbsenceEvent(t.row.value, o.completed, o.run, g, o.at));
    }
  }

  /** Replaying a group's events from nothing gives the absence its row stands for. */
  lemma {:induction false} ReplayGivesRow(h: seq<Observation>, g: GroupId)
    ensures ReplayAbsence(After(h, g).events) == AbsenceOfRow(After(h, g).row)
  {
    if h != [] {
      ReplayGivesRow(h[..|h| - 1], g);
      AbsenceStep(After(h[..|h| - 1], g), h[|h| - 1], g);
    }
  }

  /* ------------------------- replay of facts ------------------------- */

  function ReplayFact(e: Event, facts: Option<Facts>): Option<Facts>
  {
    match e.body
    case Observed(_, after) => Some(Normal(after))
    case Edited(change) => if facts.None? then None else Some(Patch(facts.value, change))
    case Unseen(_, _, _, _) => facts
  }

  function ReplayFacts(events: seq<Event>): Option<Facts>
  {
    if events == [] then None
    else ReplayFact(events[|events| - 1], ReplayFacts(events[..|events| - 1]))
  }

  lemma ReplayFactsAppend(events: seq<Event>, o: Option<Event>)
    ensures ReplayFacts(events + ToSeq(o)) ==
      if o.Some? then ReplayFact(o.value, ReplayFacts(events)) else ReplayFacts(events)
  {
    if o.None? {
      assert events + [] == events;
    } else {
      assert (events + [o.value])[..|events|] == events;
    }
  }

  predicate AllCompleted(h: seq<Observation>)
  {
    forall i :: 0 <= i < |h| ==> h[i].completed
  }

  predicate AllDetailed(h: seq<Observation>)
  {
    forall i :: 0 <= i < |h| ==> h[i].details
  }

  /** The replayed facts agree with an observation: on every non-detail field, and on all if `details`. */
  predicate Agrees(facts: Option<Facts>, c: Comparable, details: bool)
  {
    && facts.Some?
    && facts.value.Keys == Normal(c).Keys
    && forall f: Field :: Compared(f, details) ==> f in facts.value && facts.value[f] == JsonField(c, f)
  }

  /** Over completed runs the event log alone reproduces the latest snapshot of the group. */
  lemma {:induction false} ReplayGivesFacts(h: seq<Observation>, g: GroupId)
    requires AllCompleted(h)
    ensures After(h, g).row.Some? <==> After(h, g).last.Some?
    ensures After(h, g).row.Some? ==>
      Agrees(ReplayFacts(After(h, g).events), After(h, g).last.value.listing, AllDetailed(h))
    ensures AllDetailed(h) && After(h, g).last.Some? ==> After(h, g).last.value.details
  {
    if h != [] {
      var p, o := h[..|h| - 1], h[|h| - 1];
      ReplayGivesFacts(p, g);
      assert AllDetailed(h) <==> AllDetailed(p) && o.details;
      FactsStep(After(p, g), o, g, AllDetailed(p), AllDetailed(h));
    }
  }

  lemma FactsStep(t: Track, o: Observation, g: GroupId, before: bool, after: bool)
    requires o.completed
    requires after ==> before && o.details && (t.last.Some? ==> t.last.value.details)
    requires t.row.Some? <==> t.last.Some?
    requires t.row.Some? ==> Agrees(ReplayFacts(t.events), t.last.value.listing, before)
    ensures var t' := AfterRun(t, o, g);
      t'.row.Some? ==> t'.last.Some? && Agrees(ReplayFacts(t'.events), t'.last.value.listing, after)
  {
    if g in o.shown {
      var e := PresenceEvent(t.row, t.last, o.shown[g], o.details, o.run, g, o.at);
      ReplayFactsAppend(t.events, e);
      ObservedFacts(t, o, g, before, after);
    } else if t.row.Some? {
      ReplayFactsAppend(t.events, AbsenceEvent(t.row.value, o.completed, o.run, g, o.at));
    }
  }

  /** The event of an observed group, or its absence, takes the replayed facts to the observation. */
  lemma ObservedFacts(t: Track, o: Observation, g: GroupId, before: bool, after: bool)
    requires g in o.shown
    requires after ==> before && o.details && (t.last.Some? ==> t.last.value.details)
    requires t.row.Some? <==> t.last.Some?
    requires t.row.Some? ==> Agrees(ReplayFacts(t.events), t.last.value.listing, before)
    ensures var e := PresenceEvent(t.row, t.last, o.shown[g], o.details, o.run, g, o.at);
      var facts := ReplayFacts(t.events);
      Agrees(if e.Some? then ReplayFact(e.value, facts) else facts, o.shown[g], after)
  {
    hide ReplayFacts, JsonField, Diff;
    var e := PresenceEvent(t.row, t.last, o.shown[g], o.details, o.run, g, o.at);
    if t.row.Some? && (e.None? || e.value.kind == Changed) {
      PatchedFacts(ReplayFacts(t.events), t.last.value.listing, o.shown[g], t.last.value.details && o.details,
                   before, after);
    }
  }

  lemma PatchedFacts(facts: Option<Facts>, b: Comparable, a: Comparable, details: bool, before: bool, after: bool)
    requires after ==> before && details
    requires Agrees(facts, b, before)
    ensures var change := Diff(b, a, details);
      if change.changed == [] then Agrees(facts, a, after) else Agrees(Some(Patch(facts.value, change)), a, after)
  {
    DiffFields(b, a, details);
    EveryFieldListed();
    hide Differing;
    var change := Diff(b, a, details);
    forall f: Field | Compared(f, after)
      ensures if f in change.after then change.after[f] == JsonField(a, f) else JsonField(b, f) == JsonField(a, f)
      ensures Compared(f, before) && Compared(f, details)
    {
    }
  }

  lemma SameListing(a: Comparable, details: bool)
    ensures Diff(a, a, details).changed == []
  {
    DiffFields(a, a, details);
  }
}
