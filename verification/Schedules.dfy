/** Recurring schedules: the next occurrence of a rule, the schedule table and the runner's cycle over it. */
module Schedules {
  import opened Support
  import Tables

  type ScheduleId = nat
  type SourceId = Tables.SourceId

  /** Instants and times of day are whole microseconds. */
  const DAY: int := 86_400_000_000

  type TimeOfDay = t: int | 0 <= t < DAY

  datatype Cadence = Daily | Weekdays | Weekly

  datatype Rule = Rule(cadence: Cadence, timeOfDay: TimeOfDay, weekday: Option<int>)

  datatype Error = WeekdayRequired | NoOccurrence | ScheduleExists | ScheduleNotFound | StillEnabled

  /** Days are counted from a Monday. */
  predicate OnDay(rule: Rule, day: int)
  {
    match rule.cadence
    case Daily => true
    case Weekdays => day % 7 < 5
    case Weekly => rule.weekday == Some(day % 7)
  }

  /** The instant is an occurrence of the rule in the zone `zone` ahead of UTC. */
  predicate Occurs(rule: Rule, zone: int, t: int)
  {
    (t + zone) % DAY == rule.timeOfDay && OnDay(rule, (t + zone) / DAY)
  }

  function Candidate(rule: Rule, zone: int, after: int, offset: nat): int
  {
    ((after + zone) / DAY + offset) * DAY + rule.timeOfDay - zone
  }

  predicate Hit(rule: Rule, zone: int, after: int, offset: nat)
  {
    OnDay(rule, (after + zone) / DAY + offset) && Candidate(rule, zone, after, offset) > after
  }

  /** The first hit from an offset on, among the eight days the search looks at. */
  function NextFrom(rule: Rule, zone: int, after: int, offset: nat): Option<int>
    decreases 8 - offset
  {
    if offset >= 8 then None
    else if Hit(rule, zone, after, offset) then Some(Candidate(rule, zone, after, offset))
    else NextFrom(rule, zone, after, offset + 1)
  }

  /** `calculate_next_run`, for an aware `after` and a known cadence. */
  function NextRun(rule: Rule, zone: int, after: int): Result<int, Error>
  {
    if rule.cadence == Weekly && rule.weekday.None? then Err(WeekdayRequired)
    else
      match NextFrom(rule, zone, after, 0)
      case Some(t) => Ok(t)
      case None => Err(NoOccurrence)
  }

  method CalculateNextRun(rule: Rule, zone: int, after: int) returns (r: Result<int, Error>)
    ensures r == NextRun(rule, zone, after)
  {
    if rule.cadence == Weekly && rule.weekday.None? {
      return Err(WeekdayRequired);
    }
    var local := after + zone;
    for offset := 0 to 8
      invariant NextFrom(rule, zone, after, 0) == NextFrom(rule, zone, after, offset)
    {
      var date := local / DAY + offset;
      if rule.cadence == Weekdays && date % 7 >= 5 {
        continue;
      }
      if rule.cadence == Weekly && rule.weekday != Some(date % 7) {
        continue;
      }
      var candidate := date * DAY + rule.timeOfDay;
      if candidate > local {
        return Ok(candidate - zone);
      }
    }
    return Err(NoOccurrence);
  }

  /* ------------------------- the least occurrence ------------------------- */

  lemma {:induction false} NextFromFirst(rule: Rule, zone: int, after: int, offset: nat) returns (k: nat)
    ensures offset < 8 && NextFrom(rule, zone, after, offset).Some? ==>
      offset <= k < 8 && Hit(rule, zone, after, k)
      && NextFrom(rule, zone, after, offset).value == Candidate(rule, zone, after, k)
      && forall o :: offset <= o < k ==> !Hit(rule, zone, after, o)
    ensures NextFrom(rule, zone, after, offset).None? ==> forall o :: offset <= o < 8 ==> !Hit(rule, zone, after, o)
    decreases 8 - offset
  {
    hide Hit;
    k := offset;
    if offset < 8 && !Hit(rule, zone, after, offset) {
      k := NextFromFirst(rule, zone, after, offset + 1);
    }
  }

  lemma CandidateOccurs(rule: Rule, zone: int, after: int, k: nat)
    requires Hit(rule, zone, after, k)
    ensures Occurs(rule, zone, Candidate(rule, zone, after, k)) && Candidate(rule, zone, after, k) > after
  {
  }

  /** Every later occurrence is a candidate of its day, so not before the first hit. */
  lemma OccurrenceIsCandidate(rule: Rule, zone: int, after: int, k: nat, t: int)
    requires Occurs(rule, zone, t) && t > after
    requires forall o :: 0 <= o < k ==> !Hit(rule, zone, after, o)
    ensures t >= Candidate(rule, zone, after, k)
  {
    var day, first := (t + zone) / DAY, (after + zone) / DAY;
    assert day >= first;
    if day < first + k {
      assert t == Candidate(rule, zone, after, day - first);
      assert Hit(rule, zone, after, day - first);
    }
  }

  predicate Legal(rule: Rule)
  {
    rule.cadence == Weekly ==> rule.weekday.Some? && 0 <= rule.weekday.value <= 6
  }

  function LongestWait(cadence: Cadence): int
  {
    match cadence
    case Daily => DAY
    case Weekdays => 3 * DAY
    case Weekly => 7 * DAY
  }

  /** The wait for the candidate `k` days ahead: more than `k - 1` days, less than `k + 1`,
      and at most `k` days once today's time has passed. */
  lemma CandidateWait(rule: Rule, zone: int, after: int, k: nat)
    ensures var wait := Candidate(rule, zone, after, k) - after;
      && (k - 1) * DAY < wait < (k + 1) * DAY
      && (Candidate(rule, zone, after, 0) <= after ==> wait <= k * DAY)
  {
    var local := after + zone;
    assert local == local / DAY * DAY + local % DAY;
  }

  lemma OnDayAhead(rule: Rule, today: int) returns (k: nat)
    requires Legal(rule)
    ensures OnDay(rule, today + k) && (!OnDay(rule, today) ==> (k + 1) * DAY <= LongestWait(rule.cadence))
    ensures OnDay(rule, today) ==> 0 < k && k * DAY <= LongestWait(rule.cadence)
  {
    match rule.cadence
    case Daily => k := 1;
    case Weekdays =>
      k := if today % 7 < 4 || today % 7 == 6 then 1 else if today % 7 == 5 then 2 else 3;
      WeekdayAhead(today, k);
    case Weekly => k := DaysUntil(today, rule.weekday.value);
  }

  lemma WeekdayAhead(today: int, k: nat)
    requires k == if today % 7 < 4 || today % 7 == 6 then 1 else if today % 7 == 5 then 2 else 3
    ensures (today + k) % 7 < 5 && 0 < k <= 3 && (today % 7 >= 5 ==> k <= 2)
  {
  }

  lemma DaysUntil(today: int, weekday: int) returns (k: nat)
    requires 0 <= weekday <= 6
    ensures 0 < k <= 7 && (today + k) % 7 == weekday && (today % 7 != weekday ==> k <= 6)
  {
    var ahead := (weekday - today) % 7;
    k := if ahead == 0 then 7 else ahead;
  }

  /** A day of the rule comes within the longest wait after today. */
  lemma DayAhead(rule: Rule, zone: int, after: int) returns (k: nat)
    requires Legal(rule)
    ensures k < 8 && Hit(rule, zone, after, k) && Candidate(rule, zone, after, k) - after <= LongestWait(rule.cadence)
  {
    var today := (after + zone) / DAY;
    if Hit(rule, zone, after, 0) {
      k := 0;
    } else {
      k := OnDayAhead(rule, today);
    }
    CandidateWait(rule, zone, after, 0);
    CandidateWait(rule, zone, after, k);
    hide OnDay, Candidate, Legal;
  }

  /** For every legal rule the search succeeds: the result is the least occurrence after `after`,
      at most a day, three days or a week away. */
  lemma NextRunIsLeast(rule: Rule, zone: int, after: int)
    requires Legal(rule)
    ensures var r := NextRun(rule, zone, after);
      && r.Ok? && r.value > after && Occurs(rule, zone, r.value)
      && r.value - after <= LongestWait(rule.cadence)
      && forall t :: Occurs(rule, zone, t) && t > after ==> t >= r.value
  {
    var near := DayAhead(rule, zone, after);
    var k := NextFromFirst(rule, zone, after, 0);
    assert NextFrom(rule, zone, after, 0).Some?;
    CandidateOccurs(rule, zone, after, k);
    assert k <= near;
    hide Occurs, Hit, NextFrom;
    forall t | Occurs(rule, zone, t) && t > after ensures t >= Candidate(rule, zone, after, k) {
      OccurrenceIsCandidate(rule, zone, after, k, t);
    }
  }

  /** The day is one of the rule's: any day, any but Saturday and Sunday, or a whole number
      of weeks from its weekday. */
  predicate RuleDay(rule: Rule, day: int)
  {
    && (rule.cadence == Weekdays ==> day % 7 != 5 && day % 7 != 6)
    && (rule.cadence == Weekly ==>
          rule.weekday.Some? && 0 <= rule.weekday.value <= 6 && (day - rule.weekday.value) % 7 == 0)
  }

  /** An instant is an occurrence exactly if it is the rule's time of day, in its zone, on one of its days. */
  lemma OccursExactly(rule: Rule, zone: int, t: int)
    ensures Occurs(rule, zone, t) <==>
      exists day :: RuleDay(rule, day) && t == day * 86_400_000_000 + rule.timeOfDay - zone
  {
    var today := (t + zone) / DAY;
    if Occurs(rule, zone, t) {
      WeekdayOf(rule, today);
      assert RuleDay(rule, today) && t == today * 86_400_000_000 + rule.timeOfDay - zone;
    }
    if day :| RuleDay(rule, day) && t == day * 86_400_000_000 + rule.timeOfDay - zone {
      assert (t + zone) / DAY == day;
      WeekdayOf(rule, day);
    }
  }

  lemma WeekdayOf(rule: Rule, day: int)
    ensures OnDay(rule, day) <==> RuleDay(rule, day)
  {
    if rule.cadence == Weekly && rule.weekday.Some? {
      var w := rule.weekday.value;
      assert day == 7 * (day / 7) + day % 7;
      if 0 <= w <= 6 && (day - w) % 7 == 0 {
        assert day - w == 7 * ((day - w) / 7);
      }
    }
  }

  /** The search fails exactly for a weekly rule without a real weekday. */
  lemma NextRunFailsExactly(rule: Rule, zone: int, after: int)
    ensures NextRun(rule, zone, after).Err? <==> !Legal(rule)
  {
    if Legal(rule) {
      NextRunIsLeast(rule, zone, after);
    } else if rule.weekday.Some? {
      var k := NextFromFirst(rule, zone, after, 0);
    }
  }

  /* ------------------------- the table ------------------------- */

  type Weekday = w: int | 0 <= w <= 6

  datatype Schedule = Schedule(source: SourceId, rule: Rule, zone: int, enabled: bool, details: bool, preset: nat,
                               nextRunAt: int)

  /** A field of a patch: not sent, sent as null, or sent with a value. */
  datatype Sent<+T> = Omitted | Null | Given(value: T)

  datatype Patch = Patch(cadence: Sent<Cadence>, timeOfDay: Sent<TimeOfDay>, zone: Sent<int>, weekday: Sent<Weekday>,
                         enabled: Sent<bool>, details: Sent<bool>, preset: Sent<nat>)

  function Or<T>(sent: Sent<T>, current: T): T
  {
    if sent.Given? then sent.value else current
  }

  /** A weekday goes with weekly schedules and no others, and the next run is an occurrence
      of the schedule's own rule. */
  predicate ScheduleOk(s: Schedule)
  {
    && (s.rule.weekday.Some? <==> s.rule.cadence == Weekly)
    && Legal(s.rule)
    && Occurs(s.rule, s.zone, s.nextRunAt)
  }

  /** What became of a due schedule: the browser was unavailable or the dispatch raised, its source was locked,
      a run was created, or an active run was found. */
  datatype Dispatch = Failed | Locked | Enqueued | Deduplicated

  datatype Counts = Counts(due: nat, enqueued: nat, deduplicated: nat, locked: nat, failed: nat)

  function CountOf(rows: seq<ScheduleId>, dispatch: ScheduleId -> Dispatch, d: Dispatch): nat
  {
    if rows == [] then 0
    else CountOf(rows[..|rows| - 1], dispatch, d) + if dispatch(rows[|rows| - 1]) == d then 1 else 0
  }

  lemma {:induction false} CountsAddUp(rows: seq<ScheduleId>, dispatch: ScheduleId -> Dispatch)
    ensures |rows| == CountOf(rows, dispatch, Enqueued) + CountOf(rows, dispatch, Deduplicated)
                      + CountOf(rows, dispatch, Locked) + CountOf(rows, dispatch, Failed)
  {
    if rows != [] {
      CountsAddUp(rows[..|rows| - 1], dispatch);
    }
  }

  /** Without repetitions the count is the number of schedules with that outcome. */
  lemma {:induction false} CountOfDistinct(rows: seq<ScheduleId>, dispatch: ScheduleId -> Dispatch, d: Dispatch)
    requires Distinct(rows)
    ensures CountOf(rows, dispatch, d) == |set id | id in rows && dispatch(id) == d|
  {
    if rows != [] {
      var n := |rows| - 1;
      CountOfDistinct(rows[..n], dispatch, d);
      AlikeSnoc(rows[..n], rows[n], dispatch, d);
      assert rows == rows[..n] + [rows[n]] && rows[n] !in rows[..n];
    }
  }

  lemma AlikeSnoc(rows: seq<ScheduleId>, last: ScheduleId, dispatch: ScheduleId -> Dispatch, d: Dispatch)
    requires last !in rows
    ensures |set id | id in rows + [last] && dispatch(id) == d|
         == |set id | id in rows && dispatch(id) == d| + if dispatch(last) == d then 1 else 0
  {
    var less, all := set id | id in rows && dispatch(id) == d, set id | id in rows + [last] && dispatch(id) == d;
    assert all == if dispatch(last) == d then less + {last} else less;
  }

  /** A due schedule after its turn. */
  function Rescheduled(s: Schedule, d: Dispatch, now: int): Schedule
    requires Legal(s.rule)
  {
    if d == Locked then s
    else
      NextRunIsLeast(s.rule, s.zone, now);
      s.(nextRunAt := NextRun(s.rule, s.zone, now).value)
  }

  /** A schedule found locked stays as it is; any other waits for the first occurrence after now. */
  lemma RescheduledOk(s: Schedule, d: Dispatch, now: int)
    requires ScheduleOk(s)
    ensures var s' := Rescheduled(s, d, now);
      && ScheduleOk(s') && s' == s.(nextRunAt := s'.nextRunAt)
      && (if d == Locked then s'.nextRunAt == s.nextRunAt
          else s'.nextRunAt > now && Occurs(s.rule, s.zone, s'.nextRunAt)
               && forall t :: Occurs(s.rule, s.zone, t) && t > now ==> t >= s'.nextRunAt)
  {
    NextRunIsLeast(s.rule, s.zone, now);
    hide Occurs, NextRun;
  }

  /** The edited schedule would be weekly without a weekday. */
  predicate LacksWeekday(was: Schedule, patch: Patch)
  {
    Or(patch.cadence, was.rule.cadence) == Weekly
    && (patch.weekday.Null? || (patch.weekday.Omitted? && was.rule.weekday.None?))
  }

  /** A patch that names a scheduling field, even as null, or enables the schedule, starts its wait anew. */
  predicate Reschedules(patch: Patch)
  {
    !patch.cadence.Omitted? || !patch.timeOfDay.Omitted? || !patch.zone.Omitted? || !patch.weekday.Omitted?
    || patch.enabled == Given(true)
  }

  /** `s` is `was` with the given fields; a weekday stays only with a weekly cadence. */
  ghost predicate EditedBy(was: Schedule, patch: Patch, s: Schedule, now: int)
  {
    && s.source == was.source
    && s.rule.cadence == Or(patch.cadence, was.rule.cadence)
    && s.rule.timeOfDay == Or(patch.timeOfDay, was.rule.timeOfDay)
    && (s.rule.cadence == Weekly ==>
          s.rule.weekday == if patch.weekday.Given? then Some(patch.weekday.value) else was.rule.weekday)
    && s.zone == Or(patch.zone, was.zone) && s.enabled == Or(patch.enabled, was.enabled)
    && s.details == Or(patch.details, was.details) && s.preset == Or(patch.preset, was.preset)
    && (if Reschedules(patch) then NextRun(s.rule, s.zone, now) == Ok(s.nextRunAt)
        else s.rule == was.rule && s.zone == was.zone && s.nextRunAt == was.nextRunAt)
  }

  /** A patch that sends none of cadence, time of day, zone and weekday and does not enable the
      schedule leaves its next run alone; any other puts it at the first occurrence after now. */
  lemma EditWaits(was: Schedule, patch: Patch, s: Schedule, now: int)
    requires EditedBy(was, patch, s, now) && Legal(s.rule)
    ensures if patch.cadence.Omitted? && patch.timeOfDay.Omitted? && patch.zone.Omitted? && patch.weekday.Omitted?
               && patch.enabled != Given(true)
            then s.nextRunAt == was.nextRunAt && s.rule == was.rule && s.zone == was.zone
            else s.nextRunAt > now && Occurs(s.rule, s.zone, s.nextRunAt)
                 && forall t :: Occurs(s.rule, s.zone, t) && t > now ==> t >= s.nextRunAt
  {
    NextRunIsLeast(s.rule, s.zone, now);
    hide Occurs, NextRun;
  }

  class ScheduleTable {
    var schedules: map<ScheduleId, Schedule>
    var nextId: ScheduleId

    predicate Valid()
      reads this
    {
      && (forall id :: id in schedules ==> id < nextId && ScheduleOk(schedules[id]))
      && (forall id, other :: id in schedules && other in schedules && id != other ==>
            schedules[id].source != schedules[other].source)
    }

    constructor ()
      ensures Valid() && schedules == map[]
    {
      schedules, nextId := map[], 0;
    }

    /** `create`, for a source that was found and is active. */
    method Create(source: SourceId, rule: Rule, zone: int, enabled: bool, details: bool, preset: nat, now: int)
      returns (r: Result<ScheduleId, Error>)
      requires Valid() && (rule.weekday.Some? ==> 0 <= rule.weekday.value <= 6)
      modifies this
      ensures Valid()
      ensures r == Err(ScheduleExists) <==> exists id :: id in old(schedules) && old(schedules)[id].source == source
      ensures r.Err? ==>
        schedules == old(schedules) && (r.error == ScheduleExists || (rule.cadence == Weekly && rule.weekday.None?))
      ensures r.Ok? ==>
        && r.value !in old(schedules)
        && NextRun(rule, zone, now).Ok?
        && var own := rule.(weekday := if rule.cadence == Weekly then rule.weekday else None);
           schedules == old(schedules)[r.value := Schedule(source, own, zone, enabled, details, preset,
                                                           NextRun(rule, zone, now).value)]
    {
      if exists id :: id in schedules && schedules[id].source == source {
        return Err(ScheduleExists);
      }
      var next := CalculateNextRun(rule, zone, now);
      NextRunFailsExactly(rule, zone, now);
      if next.Err? {
        return Err(next.error);
      }
      NextRunIsLeast(rule, zone, now);
      hide NextRun, OnDay;
      var weekday := if rule.cadence == Weekly then rule.weekday else None;
      OnlyWeeklyReadsWeekday(rule, weekday, zone, next.value);
      schedules :=
        schedules[nextId := Schedule(source, rule.(weekday := weekday), zone, enabled, details, preset, next.value)];
      r := Ok(nextId);
      nextId := nextId + 1;
    }

    /** `patch`. */
    method Edit(id: ScheduleId, patch: Patch, now: int) returns (r: Result<(), Error>)
      requires Valid()
      modifies `schedules
      ensures Valid()
      ensures id !in old(schedules) ==> r == Err(ScheduleNotFound)
      ensures r.Err? ==> schedules == old(schedules)
      ensures id in old(schedules) ==>
        && (r.Ok? <==> !LacksWeekday(old(schedules)[id], patch))
        && (r.Ok? ==> id in schedules && schedules == old(schedules)[id := schedules[id]]
                      && EditedBy(old(schedules)[id], patch, schedules[id], now))
    {
      hide NextRun, Occurs, OnDay;
      if id !in schedules {
        return Err(ScheduleNotFound);
      }
      var s := schedules[id];
      var cadence := Or(patch.cadence, s.rule.cadence);
      var weekday := match patch.weekday
        case Omitted => s.rule.weekday
        case Null => None
        case Given(w) => Some(w as int);
      if cadence == Weekly && weekday.None? {
        return Err(WeekdayRequired);
      }
      if cadence != Weekly {
        weekday := None;
      }
      ghost var was := s;
      s := s.(rule := Rule(cadence, Or(patch.timeOfDay, s.rule.timeOfDay), weekday));
      s := s.(zone := Or(patch.zone, s.zone), enabled := Or(patch.enabled, s.enabled));
      s := s.(details := Or(patch.details, s.details), preset := Or(patch.preset, s.preset));
      if Reschedules(patch) {
        var next := CalculateNextRun(s.rule, s.zone, now);
        NextRunIsLeast(s.rule, s.zone, now);
        s := s.(nextRunAt := next.value);
      }
      assert EditedBy(was, patch, s, now) && ScheduleOk(s);
      hide ScheduleOk, EditedBy;
      schedules := schedules[id := s];
      r := Ok(());
    }

    /** `delete`. */
    method Delete(id: ScheduleId, hard: bool) returns (r: Result<(), Error>)
      requires Valid()
      modifies `schedules
      ensures Valid()
      ensures r == (if id !in old(schedules) then Err(ScheduleNotFound)
                    else if hard && old(schedules)[id].enabled then Err(StillEnabled) else Ok(()))
      ensures schedules == (if r.Err? then old(schedules)
                            else if hard then old(schedules) - {id}
                            else old(schedules)[id := old(schedules)[id].(enabled := false)])
    {
      hide Occurs, OnDay;
      if id !in schedules {
        return Err(ScheduleNotFound);
      }
      if hard {
        if schedules[id].enabled {
          return Err(StillEnabled);
        }
        schedules := schedules - {id};
      } else {
        schedules := schedules[id := schedules[id].(enabled := false)];
      }
      r := Ok(());
    }

    predicate IsDue(id: ScheduleId, sources: set<SourceId>, now: int)
      reads this
    {
      id in schedules && schedules[id].enabled && schedules[id].nextRunAt <= now && schedules[id].source in sources
    }

    /** `enqueue_due`: `rows` are the due schedules in any order; `sources` are the active ones. */
    method EnqueueDue(rows: seq<ScheduleId>, sources: set<SourceId>, dispatch: ScheduleId -> Dispatch, now: int)
      returns (counts: Counts)
      requires Valid() && Distinct(rows) && forall id :: id in rows <==> IsDue(id, sources, now)
      modifies `schedules
      ensures Valid()
      ensures counts == Counts(|rows|, CountOf(rows, dispatch, Enqueued), CountOf(rows, dispatch, Deduplicated),
                               CountOf(rows, dispatch, Locked), CountOf(rows, dispatch, Failed))
      ensures counts.due == counts.enqueued + counts.deduplicated + counts.locked + counts.failed
      ensures schedules.Keys == old(schedules).Keys
      ensures forall id :: id in schedules && id !in rows ==> schedules[id] == old(schedules)[id]
      ensures forall id :: id in rows ==>
        id in old(schedules) && Legal(old(schedules)[id].rule)
        && schedules[id] == Rescheduled(old(schedules)[id], dispatch(id), now)
      ensures forall id :: id in schedules && IsDue(id, sources, now) ==> dispatch(id) == Locked
    {
      hide NextRun, ScheduleOk, Rescheduled, Legal, CountOf, Cycled;
      counts := Counts(|rows|, 0, 0, 0, 0);
      ghost var start := schedules;
      assert forall id :: id in rows ==> id in start;
      NothingCycled(start, dispatch, now);
      assert rows[..0] == [];
      for i := 0 to |rows|
        invariant schedules.Keys == start.Keys && Cycled(start, schedules, rows[..i], dispatch, now)
        invariant counts == CountsOf(|rows|, rows[..i], dispatch)
      {
        var id := rows[i];
        assert rows[..i + 1] == rows[..i] + [id];
        assert id !in rows[..i];
        CountSnoc(|rows|, rows[..i], id, dispatch);
        CycleStep(start, schedules, rows[..i], id, dispatch, now);
        var s := schedules[id];
        if dispatch(id) == Locked {
          counts := counts.(locked := counts.locked + 1);
          continue;
        }
        match dispatch(id) {
          case Failed => counts := counts.(failed := counts.failed + 1);
          case Enqueued => counts := counts.(enqueued := counts.enqueued + 1);
          case Deduplicated => counts := counts.(deduplicated := counts.deduplicated + 1);
        }
        var next := CalculateNextRun(s.rule, s.zone, now);
        schedules := schedules[id := s.(nextRunAt := next.value)];
      }
      assert rows[..|rows|] == rows;
      CountsAddUp(rows, dispatch);
      CycleDone(start, schedules, rows, dispatch, now);
    }
  }

  /** `current` is `start` after the turns of `turned`. */
  ghost predicate Cycled(start: map<ScheduleId, Schedule>, current: map<ScheduleId, Schedule>, turned: seq<ScheduleId>,
                         dispatch: ScheduleId -> Dispatch, now: int)
  {
    && current.Keys == start.Keys
    && forall id :: id in start ==>
         if id in turned then Legal(start[id].rule) && current[id] == Rescheduled(start[id], dispatch(id), now)
         else current[id] == start[id]
  }

  lemma NothingCycled(start: map<ScheduleId, Schedule>, dispatch: ScheduleId -> Dispatch, now: int)
    ensures Cycled(start, start, [], dispatch, now)
    ensures CountsOf(0, [], dispatch) == Counts(0, 0, 0, 0, 0)
  {
  }

  function CountsOf(due: nat, turned: seq<ScheduleId>, dispatch: ScheduleId -> Dispatch): Counts
  {
    Counts(due, CountOf(turned, dispatch, Enqueued), CountOf(turned, dispatch, Deduplicated),
           CountOf(turned, dispatch, Locked), CountOf(turned, dispatch, Failed))
  }

  lemma CountSnoc(due: nat, turned: seq<ScheduleId>, id: ScheduleId, dispatch: ScheduleId -> Dispatch)
    ensures var c, next := CountsOf(due, turned, dispatch), CountsOf(due, turned + [id], dispatch);
      next == match dispatch(id)
              case Failed => c.(failed := c.failed + 1)
              case Locked => c.(locked := c.locked + 1)
              case Enqueued => c.(enqueued := c.enqueued + 1)
              case Deduplicated => c.(deduplicated := c.deduplicated + 1)
  {
    assert (turned + [id])[..|turned|] == turned;
  }

  lemma CycleStep(start: map<ScheduleId, Schedule>, current: map<ScheduleId, Schedule>, turned: seq<ScheduleId>,
                  id: ScheduleId, dispatch: ScheduleId -> Dispatch, now: int)
    requires Cycled(start, current, turned, dispatch, now) && id in start && id !in turned && ScheduleOk(start[id])
    ensures id in current && current[id] == start[id]
    ensures var next := NextRun(start[id].rule, start[id].zone, now);
      && next.Ok?
      && Cycled(start, if dispatch(id) == Locked then current else current[id := start[id].(nextRunAt := next.value)],
                turned + [id], dispatch, now)
  {
    NextRunIsLeast(start[id].rule, start[id].zone, now);
    hide NextRun, ScheduleOk, Legal;
  }

  lemma CycleDone(start: map<ScheduleId, Schedule>, current: map<ScheduleId, Schedule>, turned: seq<ScheduleId>,
                  dispatch: ScheduleId -> Dispatch, now: int)
    requires Cycled(start, current, turned, dispatch, now) && forall id :: id in start ==> ScheduleOk(start[id])
    ensures forall id :: id in current ==>
      && ScheduleOk(current[id]) && current[id].source == start[id].source && current[id].enabled == start[id].enabled
      && (id !in turned ==> current[id] == start[id])
      && (id in turned ==> Legal(start[id].rule) && current[id] == Rescheduled(start[id], dispatch(id), now)
                           && (dispatch(id) != Locked ==> current[id].nextRunAt > now))
  {
    hide ScheduleOk, Legal;
    forall id | id in start && id in turned
      ensures Legal(start[id].rule) && ScheduleOk(Rescheduled(start[id], dispatch(id), now))
      ensures dispatch(id) != Locked ==> Rescheduled(start[id], dispatch(id), now).nextRunAt > now
    {
      RescheduledOk(start[id], dispatch(id), now);
    }
  }

  /** The weekday matters to weekly rules only. */
  lemma OnlyWeeklyReadsWeekday(rule: Rule, weekday: Option<int>, zone: int, t: int)
    requires Occurs(rule, zone, t) && (rule.cadence == Weekly ==> weekday == rule.weekday)
    ensures Occurs(rule.(weekday := weekday), zone, t)
  {
  }
}
