/** What the event log of a group says about its listing, after every sequence of completed and partial runs. */
module ReplayedFacts {
  import opened Support
  import opened Text
  import opened Comparator
  import opened Tables
  import opened ListingTrack

  /* ------------------------- which run reports a field ------------------------- */

  /** Run `m` is the last completed one before run `i` that shows the group. */
  ghost predicate BaseOf(h: seq<Observation>, g: GroupId, i: nat, m: nat)
  {
    && m < i <= |h| && h[m].completed && g in h[m].shown
    && forall c :: m < c < i ==> !(h[c].completed && g in h[c].shown)
  }

  ghost predicate MissedBetween(h: seq<Observation>, g: GroupId, m: int, i: nat)
  {
    exists c: nat :: m < c < i && c < |h| && h[c].completed && g !in h[c].shown
  }

  /** Before run `i` the group is new or away: each run that shows it was followed by a completed one that does not. */
  ghost predicate Away(h: seq<Observation>, g: GroupId, i: nat)
  {
    i <= |h| && forall m: nat :: m < i && g in h[m].shown ==> MissedBetween(h, g, m, i)
  }

  /** Run `i` reports the field: it shows the group for the first time or again, or the field differs from the last
      completed run that shows the group. */
  ghost predicate Reports(h: seq<Observation>, g: GroupId, i: nat, f: Field)
  {
    && i < |h| && g in h[i].shown
    && (Away(h, g, i)
        || exists m: nat ::
          BaseOf(h, g, i, m) && Differs(h[m].shown[g], h[i].shown[g], h[m].details && h[i].details, f))
  }

  /** Run `k` is the last one that reports the field. */
  ghost predicate LastReport(h: seq<Observation>, g: GroupId, f: Field, k: nat)
  {
    && k < |h| && g in h[k].shown
    && Reports(h, g, k, f) && forall i: nat :: k < i < |h| ==> !Reports(h, g, i, f)
  }

  /* ------------------------- the same, as the fold sees it ------------------------- */

  lemma MissedPrefix(h: seq<Observation>, g: GroupId, m: nat, i: nat)
    requires h != [] && i < |h|
    ensures MissedBetween(h[..|h| - 1], g, m, i) <==> MissedBetween(h, g, m, i)
  {
    if MissedBetween(h, g, m, i) {
      var c: nat :| m < c < i && c < |h| && h[c].completed && g !in h[c].shown;
      assert h[..|h| - 1][c] == h[c];
    }
  }

  lemma AwayPrefix(h: seq<Observation>, g: GroupId, i: nat)
    requires h != [] && i < |h|
    ensures Away(h[..|h| - 1], g, i) <==> Away(h, g, i)
  {
    hide MissedBetween;
    forall m: nat | m < i
      ensures h[..|h| - 1][m] == h[m] && (MissedBetween(h[..|h| - 1], g, m, i) <==> MissedBetween(h, g, m, i))
    {
      MissedPrefix(h, g, m, i);
    }
  }

  lemma BasePrefix(h: seq<Observation>, g: GroupId, i: nat, m: nat)
    requires h != [] && i < |h|
    ensures BaseOf(h[..|h| - 1], g, i, m) <==> BaseOf(h, g, i, m)
  {
    assert forall c :: 0 <= c < |h| - 1 ==> h[..|h| - 1][c] == h[c];
  }

  /** One more run: it brings the group back, or takes it away if it is completed. */
  lemma AwaySnoc(h: seq<Observation>, g: GroupId)
    requires h != []
    ensures Away(h, g, |h|) <==>
      g !in h[|h| - 1].shown && (h[|h| - 1].completed || Away(h[..|h| - 1], g, |h| - 1))
  {
    var n, p := |h| - 1, h[..|h| - 1];
    if g in h[n].shown {
      assert !MissedBetween(h, g, n, |h|);
    } else if h[n].completed {
      forall m: nat | m < |h| && g in h[m].shown ensures MissedBetween(h, g, m, |h|) {
      }
    } else {
      forall m: nat | m < n ensures MissedBetween(h, g, m, |h|) <==> MissedBetween(p, g, m, n) {
        MissedPrefix(h, g, m, n);
      }
      hide MissedBetween;
      assert forall m: nat :: m < n ==> p[m] == h[m];
    }
  }

  /** A group is away exactly when it has no row or an inactive one. */
  lemma {:induction false} AwayIsInactive(h: seq<Observation>, g: GroupId)
    ensures Away(h, g, |h|) <==> After(h, g).row.None? || After(h, g).row.value.visibility != Active
  {
    if h != [] {
      AwayIsInactive(h[..|h| - 1], g);
      AwaySnoc(h, g);
      RowStep(After(h[..|h| - 1], g), h[|h| - 1], g);
      assert After(h, g) == AfterRun(After(h[..|h| - 1], g), h[|h| - 1], g);
      hide AfterRun, After, Away;
    }
  }

  lemma RowStep(t: Track, o: Observation, g: GroupId)
    ensures var row := AfterRun(t, o, g).row;
      (row.None? || row.value.visibility != Active) <==>
        g !in o.shown && (o.completed || t.row.None? || t.row.value.visibility != Active)
  {
  }

  /** The base of the next comparison is the last completed observation. */
  lemma {:induction false} BaseIsLast(h: seq<Observation>, g: GroupId)
    ensures forall m: nat :: BaseOf(h, g, |h|, m) ==> After(h, g).last == Some(Last(h[m].shown[g], h[m].details))
    ensures After(h, g).last.Some? ==> exists m: nat :: BaseOf(h, g, |h|, m)
  {
    if h != [] {
      var n, p := |h| - 1, h[..|h| - 1];
      BaseIsLast(p, g);
      LastStep(After(p, g), h[n], g);
      assert After(h, g) == AfterRun(After(p, g), h[n], g);
      hide AfterRun, After;
      if h[n].completed && g in h[n].shown {
        assert BaseOf(h, g, |h|, n);
        assert forall m: nat :: BaseOf(h, g, |h|, m) ==> m == n;
      } else {
        forall m: nat ensures BaseOf(h, g, |h|, m) <==> BaseOf(p, g, n, m) {
          BasePrefix(h, g, n, m);
        }
      }
    }
  }

  lemma LastStep(t: Track, o: Observation, g: GroupId)
    ensures AfterRun(t, o, g).last == if g in o.shown && o.completed then Some(Last(o.shown[g], o.details)) else t.last
  {
  }

  /** Whether the fold reports the field when it takes the observation in. */
  predicate StepReports(t: Track, o: Observation, g: GroupId, f: Field)
  {
    && g in o.shown
    && (t.row.None? || t.row.value.visibility != Active
        || (t.last.Some? && Differs(t.last.value.listing, o.shown[g], t.last.value.details && o.details, f)))
  }

  lemma ReportsIsStep(h: seq<Observation>, g: GroupId, f: Field)
    requires h != []
    ensures Reports(h, g, |h| - 1, f) <==> StepReports(After(h[..|h| - 1], g), h[|h| - 1], g, f)
  {
    var n, p := |h| - 1, h[..|h| - 1];
    AwayIsInactive(p, g);
    BaseIsLast(p, g);
    AwayPrefix(h, g, n);
    forall m: nat ensures BaseOf(h, g, n, m) <==> BaseOf(p, g, n, m) {
      BasePrefix(h, g, n, m);
    }
    hide After, Away, BaseOf, Differs;
  }

  lemma ReportsPrefix(h: seq<Observation>, g: GroupId, i: nat, f: Field)
    requires h != [] && i < |h| - 1
    ensures Reports(h[..|h| - 1], g, i, f) <==> Reports(h, g, i, f)
  {
    AwayPrefix(h, g, i);
    forall m: nat ensures BaseOf(h[..|h| - 1], g, i, m) <==> BaseOf(h, g, i, m) {
      BasePrefix(h, g, i, m);
    }
    assert h[..|h| - 1][i] == h[i];
    hide Away, BaseOf, Differs;
  }

  /* ------------------------- the replayed facts ------------------------- */

  /** Every field has a value. */
  ghost predicate Whole(facts: Option<Facts>)
  {
    facts.Some? && forall f: Field :: f in facts.value
  }

  /** A new or returning group is reported whole. */
  lemma BackStep(t: Track, o: Observation, g: GroupId)
    requires g in o.shown && (t.row.None? || t.row.value.visibility != Active)
    ensures ReplayFacts(AfterRun(t, o, g).events) == Some(Normal(o.shown[g])) && AfterRun(t, o, g).row.Some?
  {
    ReplayFactsAppend(t.events, PresenceEvent(t.row, t.last, o.shown[g], o.details, o.run, g, o.at));
    hide ReplayFacts, Diff;
  }

  /** Nothing is said of a group that is not shown, nor of an active one without a base. */
  lemma SilentStep(t: Track, o: Observation, g: GroupId)
    requires if g in o.shown then t.row.Some? && t.row.value.visibility == Active && t.last.None? else true
    ensures ReplayFacts(AfterRun(t, o, g).events) == ReplayFacts(t.events)
  {
    if g !in o.shown && t.row.Some? {
      ReplayFactsAppend(t.events, AbsenceEvent(t.row.value, o.completed, o.run, g, o.at));
    }
    hide ReplayFacts, Diff;
    assert t.events + [] == t.events;
  }

  /** What one observation of an active group with a last snapshot does to its replayed facts. */
  lemma ActiveStep(t: Track, o: Observation, g: GroupId)
    requires g in o.shown && t.row.Some? && t.row.value.visibility == Active && t.last.Some?
    requires ReplayFacts(t.events).Some?
    ensures var change := Diff(t.last.value.listing, o.shown[g], t.last.value.details && o.details);
      ReplayFacts(AfterRun(t, o, g).events) ==
        if change.changed == [] then ReplayFacts(t.events) else Some(Patch(ReplayFacts(t.events).value, change))
  {
    ReplayFactsAppend(t.events, PresenceEvent(t.row, t.last, o.shown[g], o.details, o.run, g, o.at));
    hide Diff, ReplayFacts;
  }

  lemma DiffMember(b: Comparable, a: Comparable, details: bool, f: Field)
    ensures var change := Diff(b, a, details);
      && (f in change.after <==> Differs(b, a, details, f))
      && (f in change.after ==> change.after[f] == JsonField(a, f) && change.changed != [])
  {
    DiffFields(b, a, details);
    FieldsComplete(f);
    hide JsonField, Differing;
  }

  /** An active group with a base: the event patches exactly the fields that differ from it. */
  lemma ActiveReplays(t: Track, o: Observation, g: GroupId, f: Field)
    requires g in o.shown && t.row.Some? && t.row.value.visibility == Active && t.last.Some?
    requires Whole(ReplayFacts(t.events))
    ensures var facts, facts' := ReplayFacts(t.events), ReplayFacts(AfterRun(t, o, g).events);
      && Whole(facts')
      && facts'.value[f] ==
           if Differs(t.last.value.listing, o.shown[g], t.last.value.details && o.details, f)
           then JsonField(o.shown[g], f)
           else facts.value[f]
  {
    hide ReplayFacts, JsonField, Diff, AfterRun, Differs, Patch;
    var change := Diff(t.last.value.listing, o.shown[g], t.last.value.details && o.details);
    DiffMember(t.last.value.listing, o.shown[g], t.last.value.details && o.details, f);
    ActiveStep(t, o, g);
    PatchField(ReplayFacts(t.events).value, change, f);
  }

  lemma PatchField(facts: Facts, change: Change, f: Field)
    requires forall x: Field :: x in facts
    ensures forall x: Field :: x in Patch(facts, change)
    ensures Patch(facts, change)[f] == if f in change.after then change.after[f] else facts[f]
  {
  }

  lemma RowStays(t: Track, o: Observation, g: GroupId)
    ensures AfterRun(t, o, g).row.Some? <==> g in o.shown || t.row.Some?
  {
  }

  /** What one observation does to a replayed field: it sets the fields it reports and leaves the others. */
  lemma StepReplays(t: Track, o: Observation, g: GroupId, f: Field)
    requires t.row.Some? ==> Whole(ReplayFacts(t.events))
    ensures AfterRun(t, o, g).row.Some? <==> g in o.shown || t.row.Some?
    ensures AfterRun(t, o, g).row.Some? ==> Whole(ReplayFacts(AfterRun(t, o, g).events))
    ensures var facts, facts' := ReplayFacts(t.events), ReplayFacts(AfterRun(t, o, g).events);
      && (StepReports(t, o, g, f) ==> facts'.Some? && f in facts'.value && facts'.value[f] == JsonField(o.shown[g], f))
      && (!StepReports(t, o, g, f) && t.row.Some? ==>
            facts.Some? && facts'.Some? && f in facts.value && f in facts'.value && facts'.value[f] == facts.value[f])
  {
    RowStays(t, o, g);
    hide ReplayFacts, JsonField, AfterRun, Differs;
    if g in o.shown && (t.row.None? || t.row.value.visibility != Active) {
      BackStep(t, o, g);
    } else if g in o.shown && t.last.Some? {
      ActiveReplays(t, o, g, f);
    } else {
      SilentStep(t, o, g);
    }
  }

  /** A shown group has replayed facts with every field. */
  lemma {:induction false} FactsWhole(h: seq<Observation>, g: GroupId)
    ensures After(h, g).row.Some? ==> Whole(ReplayFacts(After(h, g).events))
  {
    if h != [] {
      var p := h[..|h| - 1];
      FactsWhole(p, g);
      NeverShown(p, g);
      StepReplays(After(p, g), h[|h| - 1], g, Price);
      hide ReplayFacts, AfterRun, Whole;
    }
  }

  /** The log says of a field what the last run that reported it showed: over every sequence of runs. */
  lemma {:induction false} ReplayedField(h: seq<Observation>, g: GroupId, f: Field, k: nat)
    requires LastReport(h, g, f, k)
    ensures var facts := ReplayFacts(After(h, g).events);
      facts.Some? && f in facts.value && facts.value[f] == JsonField(h[k].shown[g], f)
  {
    var n, p := |h| - 1, h[..|h| - 1];
    FactsWhole(p, g);
    NeverShown(p, g);
    StepReplays(After(p, g), h[n], g, f);
    ReportsIsStep(h, g, f);
    assert After(h, g) == AfterRun(After(p, g), h[n], g);
    hide ReplayFacts, AfterRun, StepReports, After, Reports, Whole, JsonField;
    if k < n {
      PrefixReport(h, g, f, k);
      ReplayedField(p, g, f, k);
      assert g in p[k].shown;
    }
  }

  lemma PrefixReport(h: seq<Observation>, g: GroupId, f: Field, k: nat)
    requires k < |h| - 1
    ensures LastReport(h, g, f, k) <==> LastReport(h[..|h| - 1], g, f, k) && !Reports(h, g, |h| - 1, f)
    ensures h[..|h| - 1][k] == h[k]
  {
    var p := h[..|h| - 1];
    ReportsPrefix(h, g, k, f);
    if LastReport(h, g, f, k) {
      forall i: nat | k < i < |p| ensures !Reports(p, g, i, f) {
        ReportsPrefix(h, g, i, f);
      }
    }
    if LastReport(p, g, f, k) && !Reports(h, g, |h| - 1, f) {
      forall i: nat | k < i < |h| ensures !Reports(h, g, i, f) {
        if i < |p| {
          ReportsPrefix(h, g, i, f);
        }
      }
    }
    hide Reports;
  }

  /** Of a group that was ever shown every field was reported. */
  lemma {:induction false} ReportExists(h: seq<Observation>, g: GroupId, f: Field) returns (k: nat)
    requires EverShown(h, g)
    ensures LastReport(h, g, f, k)
  {
    var n, p := |h| - 1, h[..|h| - 1];
    ReportsIsStep(h, g, f);
    NeverShown(p, g);
    assert EverShown(h, g) <==> EverShown(p, g) || g in h[n].shown;
    hide Reports, After, EverShown;
    if Reports(h, g, n, f) {
      k := n;
    } else {
      k := ReportExists(p, g, f);
      PrefixReport(h, g, f, k);
    }
  }

  /** Exactly when the log gives a listing back, whatever runs there were: every field was
      last reported as it is there. */
  lemma LogExact(h: seq<Observation>, g: GroupId, c: Comparable)
    requires EverShown(h, g)
    ensures ReplayFacts(After(h, g).events) == Some(Normal(c)) <==>
      forall f: Field, k: nat :: LastReport(h, g, f, k) ==> JsonField(h[k].shown[g], f) == JsonField(c, f)
  {
    var facts := ReplayFacts(After(h, g).events);
    NeverShown(h, g);
    FactsWhole(h, g);
    hide ReplayFacts, After, Reports, JsonField, EverShown;
    forall f: Field
      ensures f in facts.value
      ensures facts.value[f] == JsonField(c, f) <==>
        forall k: nat :: LastReport(h, g, f, k) ==> JsonField(h[k].shown[g], f) == JsonField(c, f)
    {
      var j := ReportExists(h, g, f);
      forall k: nat | LastReport(h, g, f, k) ensures facts.value[f] == JsonField(h[k].shown[g], f) {
        ReplayedField(h, g, f, k);
      }
    }
    if forall f: Field :: facts.value[f] == JsonField(c, f) {
      assert facts.value == Normal(c);
    }
  }

  /* ------------------------- a partial run in between ------------------------- */

  /** Who reports what when all three runs show the group and only the second is partial. */
  lemma ThreeReports(o0: Observation, o1: Observation, o2: Observation, g: GroupId, f: Field)
    requires o0.completed && !o1.completed && o2.completed && o0.details && o1.details && o2.details
    requires g in o0.shown && g in o1.shown && g in o2.shown && o2.shown[g] == o0.shown[g]
    ensures var h := [o0, o1, o2];
      && Reports(h, g, 0, f) && !Reports(h, g, 2, f)
      && (Reports(h, g, 1, f) <==> JsonField(o0.shown[g], f) != JsonField(o1.shown[g], f))
  {
    var h := [o0, o1, o2];
    assert Away(h, g, 0);
    assert !MissedBetween(h, g, 0, 1) && !MissedBetween(h, g, 1, 2);
    assert !Away(h, g, 1) && !Away(h, g, 2);
    assert BaseOf(h, g, 1, 0) && BaseOf(h, g, 2, 0);
    hide JsonField, MissedBetween, Away;
    assert forall m: nat :: BaseOf(h, g, 1, m) || BaseOf(h, g, 2, m) ==> m == 0;
  }

  /** A partial run between two equal completed ones: the partial observation is reported against the last completed
      one and the next completed run compares with the completed one again, so the log alone gives the listing back
      exactly when the partial run had shown no difference. */
  lemma PartialRunExact(o0: Observation, o1: Observation, o2: Observation, g: GroupId)
    requires o0.completed && !o1.completed && o2.completed && o0.details && o1.details && o2.details
    requires g in o0.shown && g in o1.shown && g in o2.shown && o2.shown[g] == o0.shown[g]
    ensures ReplayFacts(After([o0, o1, o2], g).events) == Some(Normal(o2.shown[g]))
      <==> forall f: Field :: JsonField(o0.shown[g], f) == JsonField(o1.shown[g], f)
  {
    var h := [o0, o1, o2];
    assert g in h[0].shown;
    LogExact(h, g, o2.shown[g]);
    hide ReplayFacts, After, JsonField, Reports;
    forall f: Field
      ensures LastReport(h, g, f, if JsonField(o0.shown[g], f) == JsonField(o1.shown[g], f) then 0 else 1) {
      ThreeReports(o0, o1, o2, g, f);
    }
  }

  function Priced(price: int): Comparable
  {
    Comparable(Some(price), None, None, None, None, None, None, None, "", "", "", "", multiset{}, 1, {})
  }

  /** A price of 100, then 200 in a partial run, then 100 again: the log ends with a price of 200. */
  lemma PartialRunMisleads(g: GroupId)
    ensures var h := [Observation(0, true, 10, true, map[g := Priced(100)]),
                      Observation(1, false, 20, true, map[g := Priced(200)]),
                      Observation(2, true, 30, true, map[g := Priced(100)])];
      var facts := ReplayFacts(After(h, g).events);
      && facts.Some? && Price in facts.value && facts.value[Price] == Num(200)
      && After(h, g).last == Some(Last(Priced(100), true)) && JsonField(Priced(100), Price) == Num(100)
  {
    var o0 := Observation(0, true, 10, true, map[g := Priced(100)]);
    var o1 := Observation(1, false, 20, true, map[g := Priced(200)]);
    var o2 := Observation(2, true, 30, true, map[g := Priced(100)]);
    var h := [o0, o1, o2];
    assert JsonField(Priced(200), Price) == Num(200) && JsonField(Priced(100), Price) == Num(100);
    hide ReplayFacts, After, JsonField, Reports;
    ThreeReports(o0, o1, o2, g, Price);
    assert LastReport(h, g, Price, 1);
    ReplayedField(h, g, Price, 1);
    assert BaseOf(h, g, 3, 2);
    BaseIsLast(h, g);
  }

  /* ------------------------- a run without details in between ------------------------- */

  /** Who reports what when three completed runs show the group: each is compared with the one before. */
  lemma CompletedReports(o0: Observation, o1: Observation, o2: Observation, g: GroupId, f: Field)
    requires o0.completed && o1.completed && o2.completed && g in o0.shown && g in o1.shown && g in o2.shown
    ensures var h := [o0, o1, o2];
      && Reports(h, g, 0, f)
      && (Reports(h, g, 1, f) <==> Differs(o0.shown[g], o1.shown[g], o0.details && o1.details, f))
      && (Reports(h, g, 2, f) <==> Differs(o1.shown[g], o2.shown[g], o1.details && o2.details, f))
  {
    var h := [o0, o1, o2];
    assert Away(h, g, 0);
    assert !MissedBetween(h, g, 0, 1) && !MissedBetween(h, g, 1, 2);
    assert !Away(h, g, 1) && !Away(h, g, 2);
    assert BaseOf(h, g, 1, 0) && BaseOf(h, g, 2, 1);
    hide Differs, MissedBetween, Away;
    assert forall m: nat :: BaseOf(h, g, 1, m) ==> m == 0;
    assert forall m: nat :: BaseOf(h, g, 2, m) ==> m == 1;
  }

  /** Broker details switched off for one of three completed runs: the detail fields are compared with neither
      neighbour, so the log gives the last snapshot back exactly when they are as they were before the switch. */
  lemma DetailSwitchExact(o0: Observation, o1: Observation, o2: Observation, g: GroupId)
    requires o0.completed && o1.completed && o2.completed && g in o0.shown && g in o1.shown && g in o2.shown
    requires o0.details && !o1.details && o2.details
    ensures ReplayFacts(After([o0, o1, o2], g).events) == Some(Normal(o2.shown[g]))
      <==> forall f: Field :: f in DETAIL_FIELDS ==> JsonField(o0.shown[g], f) == JsonField(o2.shown[g], f)
  {
    var h := [o0, o1, o2];
    assert g in h[0].shown;
    LogExact(h, g, o2.shown[g]);
    hide ReplayFacts, After, JsonField, Reports;
    forall f: Field
      ensures f in DETAIL_FIELDS ==> LastReport(h, g, f, 0)
      ensures f !in DETAIL_FIELDS ==>
        forall k: nat :: LastReport(h, g, f, k) ==> JsonField(h[k].shown[g], f) == JsonField(o2.shown[g], f)
    {
      CompletedReports(o0, o1, o2, g, f);
    }
  }

  function Charged(fee: string): Comparable
  {
    Priced(100).(managementFee := fee)
  }

  /** A management fee of 1, then a run without details, then a fee of 2: every run is completed and the log ends with a
      fee of 1. */
  lemma DetailSwitchMisleads(g: GroupId)
    ensures var h := [Observation(0, true, 10, true, map[g := Charged("1")]),
                      Observation(1, true, 20, false, map[g := Charged("")]),
                      Observation(2, true, 30, true, map[g := Charged("2")])];
      var facts := ReplayFacts(After(h, g).events);
      && AllCompleted(h)
      && facts.Some? && ManagementFee in facts.value && facts.value[ManagementFee] == Str("1")
      && After(h, g).last == Some(Last(Charged("2"), true)) && JsonField(Charged("2"), ManagementFee) == Str("2")
  {
    var o0 := Observation(0, true, 10, true, map[g := Charged("1")]);
    var o1 := Observation(1, true, 20, false, map[g := Charged("")]);
    var o2 := Observation(2, true, 30, true, map[g := Charged("2")]);
    var h := [o0, o1, o2];
    FeeOf("1");
    FeeOf("2");
    hide ReplayFacts, After, JsonField, Reports;
    CompletedReports(o0, o1, o2, g, ManagementFee);
    assert LastReport(h, g, ManagementFee, 0);
    ReplayedField(h, g, ManagementFee, 0);
    assert BaseOf(h, g, 3, 2);
    BaseIsLast(h, g);
  }

  lemma FeeOf(fee: string)
    requires |fee| == 1 && !IsSpace(fee[0])
    ensures JsonField(Charged(fee), ManagementFee) == Str(fee)
  {
    WordsCons(fee, "");
    assert fee + "" == fee;
    assert Words("") == [];
    assert Clean(fee) == Join([fee]);
    hide Words, Clean;
    assert Join([fee]) == fee;
  }
}
