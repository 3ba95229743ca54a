/** Order and selection in the event log of a group. */
module EventLog {
  import opened Support
  import opened Comparator
  import opened Tables
  import opened ListingTrack
  import opened Persistence
  import opened SourceHistory

  ghost predicate RunsRise(h: seq<Observation>)
  {
    forall i, j :: 0 <= i < j < |h| ==> h[i].run < h[j].run
  }

  function RunSet(h: seq<Observation>): set<RunId>
  {
    set o | o in h :: o.run
  }

  /** The one event, if any, that an observation adds to a group's log. */
  function StepEvent(t: Track, o: Observation, g: GroupId): Option<Event>
  {
    if g in o.shown then PresenceEvent(t.row, t.last, o.shown[g], o.details, o.run, g, o.at)
    else if t.row.None? then None
    else AbsenceEvent(t.row.value, o.completed, o.run, g, o.at)
  }

  lemma StepEventMeaning(t: Track, o: Observation, g: GroupId)
    ensures AfterRun(t, o, g).events == t.events + ToSeq(StepEvent(t, o, g))
    ensures var e := StepEvent(t, o, g); e.Some? ==>
      (e.value.run, e.value.group, e.value.at) == (o.run, g, o.at)
      && e.value.kind in (if g in o.shown then {New, Changed, Restored} else {WentMissing, WentRemoved})
  {
    if g in o.shown {
      PresenceEvents(t.row, t.last, o.shown[g], o.details, o.run, g, o.at);
    }
    hide PresenceEvent;
    if g !in o.shown && t.row.None? {
      assert t.events + [] == t.events;
    }
  }

  /** Where an event of the log comes from. */
  ghost predicate FromObservation(h: seq<Observation>, g: GroupId, e: Event, i: nat)
  {
    && i < |h| && (e.run, e.group, e.at) == (h[i].run, g, h[i].at)
    && e.kind in (if g in h[i].shown then {New, Changed, Restored} else {WentMissing, WentRemoved})
  }

  lemma {:induction false} EventOrigin(h: seq<Observation>, g: GroupId, k: nat) returns (i: nat)
    requires k < |After(h, g).events|
    ensures FromObservation(h, g, After(h, g).events[k], i)
  {
    var n := |h| - 1;
    var t := After(h[..n], g);
    StepEventMeaning(t, h[n], g);
    hide AfterRun, StepEvent;
    if k < |t.events| {
      i := EventOrigin(h[..n], g, k);
    } else {
      i := n;
    }
  }

  /** A group's events come in strictly rising time: at most one per run. */
  lemma {:induction false} EventsRise(h: seq<Observation>, g: GroupId)
    requires Ordered(h)
    ensures Rising(After(h, g).events)
  {
    if h != [] {
      var n := |h| - 1;
      var t := After(h[..n], g);
      EventsRise(h[..n], g);
      StepEventMeaning(t, h[n], g);
      hide AfterRun, StepEvent;
      forall i | 0 <= i < |t.events| ensures t.events[i].at < h[n].at {
        var k := EventOrigin(h[..n], g, i);
        assert h[..n][k] == h[k];
      }
    }
  }

  /** The log through the first `k` runs is the part of the full log that those runs wrote. */
  lemma {:induction false} PrefixEvents(h: seq<Observation>, g: GroupId, k: nat)
    requires RunsRise(h) && k <= |h|
    ensures EventsOf(After(h, g).events, RunSet(h[..k]), g) == After(h[..k], g).events
  {
    if k == |h| {
      assert h[..k] == h;
      WholeLog(h, g);
    } else {
      RisePrefix(h);
      LaterNotSelected(h, g, k);
      hide *;
      PrefixEvents(h[..|h| - 1], g, k);
      assert h[..|h| - 1][..k] == h[..k];
    }
  }

  lemma RisePrefix(h: seq<Observation>)
    requires RunsRise(h) && h != []
    ensures RunsRise(h[..|h| - 1])
  {
  }

  /** The last run writes no event that belongs to earlier runs. */
  lemma LaterNotSelected(h: seq<Observation>, g: GroupId, k: nat)
    requires RunsRise(h) && k < |h|
    ensures EventsOf(After(h, g).events, RunSet(h[..k]), g)
      == EventsOf(After(h[..|h| - 1], g).events, RunSet(h[..k]), g)
  {
    var n := |h| - 1;
    var t := After(h[..n], g);
    StepEventMeaning(t, h[n], g);
    NotEarlier(h, k);
    assert After(h, g) == AfterRun(t, h[n], g);
    var e := StepEvent(t, h[n], g);
    hide AfterRun, StepEvent, After, RunsRise, RunSet, EventsOf;
    EventsOfConcat(t.events, ToSeq(e), RunSet(h[..k]), g);
    EventsOfOption(e, RunSet(h[..k]), g);
  }

  lemma NotEarlier(h: seq<Observation>, k: nat)
    requires RunsRise(h) && k < |h|
    ensures h[|h| - 1].run !in RunSet(h[..k])
  {
    forall o | o in h[..k] ensures o.run != h[|h| - 1].run {
      var i :| 0 <= i < k && h[..k][i] == o;
      assert h[i].run < h[|h| - 1].run;
    }
  }

  lemma {:induction false} WholeLog(h: seq<Observation>, g: GroupId)
    ensures EventsOf(After(h, g).events, RunSet(h), g) == After(h, g).events
  {
    var events := After(h, g).events;
    forall i | 0 <= i < |events| ensures events[i].run in RunSet(h) && events[i].group == g {
      var k := EventOrigin(h, g, i);
      assert h[k] in h;
    }
    hide After;
    AllSelected(events, RunSet(h), g);
  }

  lemma {:induction false} AllSelected(events: seq<Event>, runs: set<RunId>, g: GroupId)
    requires forall i :: 0 <= i < |events| ==> events[i].run in runs && events[i].group == g
    ensures EventsOf(events, runs, g) == events
  {
    if events != [] {
      AllSelected(events[..|events| - 1], runs, g);
    }
  }

  lemma {:induction false} SelectTwice(events: seq<Event>, outer: set<RunId>, inner: set<RunId>, g: GroupId)
    requires inner <= outer
    ensures EventsOf(EventsOf(events, outer, g), inner, g) == EventsOf(events, inner, g)
  {
    if events != [] {
      var n := |events| - 1;
      SelectTwice(events[..n], outer, inner, g);
      var e := events[n];
      var kept := if e.run in outer && e.group == g then [e] else [];
      EventsOfConcat(EventsOf(events[..n], outer, g), kept, inner, g);
      if kept != [] {
        EventsOfOption(Some(e), inner, g);
      }
    }
  }

  lemma {:induction false} SelectCount(events: seq<Event>, runs: set<RunId>, g: GroupId, e: Event)
    ensures multiset(EventsOf(events, runs, g))[e] == if e.run in runs && e.group == g then multiset(events)[e] else 0
  {
    if events != [] {
      var n := |events| - 1;
      SelectCount(events[..n], runs, g, e);
      assert events == events[..n] + [events[n]];
    }
  }

  ghost predicate Sorted(events: seq<Event>)
  {
    forall i, j :: 0 <= i < j < |events| ==> events[i].at <= events[j].at
  }

  ghost predicate Rising(events: seq<Event>)
  {
    forall i, j :: 0 <= i < j < |events| ==> events[i].at < events[j].at
  }

  lemma {:induction false} SelectSorted(events: seq<Event>, runs: set<RunId>, g: GroupId)
    requires Sorted(events)
    ensures Sorted(EventsOf(events, runs, g))
    ensures forall e :: e in EventsOf(events, runs, g) ==> e in events
  {
    if events != [] {
      var n := |events| - 1;
      SelectSorted(events[..n], runs, g);
      var s := EventsOf(events[..n], runs, g);
      forall i | 0 <= i < |s| ensures s[i].at <= events[n].at {
        assert s[i] in events[..n];
        var k :| 0 <= k < n && events[..n][k] == s[i];
        assert events[k].at <= events[n].at;
      }
    }
  }

  lemma SameLast(a: seq<Event>, b: seq<Event>)
    requires a != [] && b != [] && multiset(a) == multiset(b) && Sorted(a) && Rising(b)
    ensures a[|a| - 1] == b[|b| - 1]
  {
    assert a[|a| - 1] in multiset(b) && b[|b| - 1] in multiset(a);
    var i :| 0 <= i < |b| && b[i] == a[|a| - 1];
    var j :| 0 <= j < |a| && a[j] == b[|b| - 1];
    assert b[i].at <= b[|b| - 1].at && a[j].at <= a[|a| - 1].at;
  }

  lemma DropLast(a: seq<Event>)
    requires a != []
    ensures multiset(a[..|a| - 1]) == multiset(a) - multiset{a[|a| - 1]}
  {
    assert a == a[..|a| - 1] + [a[|a| - 1]];
  }

  /** Sorting by time leaves one order only when the times are distinct. */
  lemma {:induction false} SortedUnique(a: seq<Event>, b: seq<Event>)
    requires multiset(a) == multiset(b) && Sorted(a) && Rising(b)
    ensures a == b
  {
    SameLength(a, b);
    if a != [] {
      SameLast(a, b);
      PrefixSorted(a, b);
      SamePrefix(a, b);
      hide *;
      SortedUnique(a[..|a| - 1], b[..|b| - 1]);
      assert a == a[..|a| - 1] + [a[|a| - 1]] && b == b[..|b| - 1] + [b[|b| - 1]];
    }
  }

  lemma SameLength(a: seq<Event>, b: seq<Event>)
    requires multiset(a) == multiset(b)
    ensures |a| == |b|
  {
    assert |a| == |multiset(a)| && |b| == |multiset(b)|;
  }

  lemma SamePrefix(a: seq<Event>, b: seq<Event>)
    requires a != [] && b != [] && multiset(a) == multiset(b) && a[|a| - 1] == b[|b| - 1]
    ensures multiset(a[..|a| - 1]) == multiset(b[..|b| - 1])
  {
    DropLast(a);
    DropLast(b);
  }

  lemma PrefixSorted(a: seq<Event>, b: seq<Event>)
    requires a != [] && b != [] && Sorted(a) && Rising(b)
    ensures Sorted(a[..|a| - 1]) && Rising(b[..|b| - 1])
  {
  }
}
