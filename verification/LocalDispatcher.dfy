/** The in-process task queue: one worker thread, a future per enqueued run, and callbacks that may come late. */
module LocalDispatcher {
  import opened Tables

  type FutureId = nat

  datatype Progress = Waiting | Executing | Done

  /** A submitted execution of a run; `announced`: its done callback has run. */
  datatype Future = Future(run: RunId, progress: Progress, announced: bool)

  /** `latest`, the source's `_futures`: the latest future of each run that is not discarded. */
  datatype Queue = Queue(latest: map<RunId, FutureId>, submitted: seq<Future>)

  /** The run has a future that has not finished. */
  ghost predicate Unfinished(q: Queue, run: RunId)
  {
    exists f :: 0 <= f < |q.submitted| && q.submitted[f].run == run && q.submitted[f].progress != Done
  }

  predicate Idle(q: Queue)
  {
    forall f :: 0 <= f < |q.submitted| ==> q.submitted[f].progress != Executing
  }

  /** Every unfinished future is the one registered for its run, so a run has at most one; at most one is executing;
      and what is registered has not been announced. */
  ghost predicate QueueOk(q: Queue)
  {
    && (forall r :: r in q.latest ==>
          && q.latest[r] < |q.submitted| && q.submitted[q.latest[r]].run == r
          && !q.submitted[q.latest[r]].announced)
    && (forall f :: 0 <= f < |q.submitted| && q.submitted[f].progress != Done ==>
          q.submitted[f].run in q.latest && q.latest[q.submitted[f].run] == f)
    && (forall f, g :: 0 <= f < g < |q.submitted| ==>
          !(q.submitted[f].progress == Executing && q.submitted[g].progress == Executing))
  }

  ghost function Enqueued(q: Queue, run: RunId): Queue
  {
    if Unfinished(q, run) then q
    else Queue(q.latest[run := |q.submitted|], q.submitted + [Future(run, Waiting, false)])
  }

  function Moved(q: Queue, f: FutureId, progress: Progress): Queue
    requires f < |q.submitted|
  {
    q.(submitted := q.submitted[f := q.submitted[f].(progress := progress)])
  }

  function Discarded(q: Queue, f: FutureId): Queue
    requires f < |q.submitted|
  {
    var run := q.submitted[f].run;
    Queue(if run in q.latest && q.latest[run] == f then q.latest - {run} else q.latest,
          q.submitted[f := q.submitted[f].(announced := true)])
  }

  function Withdrawn(q: Queue, run: RunId): Queue
  {
    if run in q.latest && q.latest[run] < |q.submitted| && q.submitted[q.latest[run]].progress == Waiting
    then Moved(q, q.latest[run], Done) else q
  }

  lemma SameUnfinished(q: Queue, q': Queue, run: RunId)
    requires |q.submitted| == |q'.submitted|
    requires forall f :: 0 <= f < |q.submitted| ==>
      q'.submitted[f].run == q.submitted[f].run && q'.submitted[f].progress == q.submitted[f].progress
    ensures Unfinished(q', run) <==> Unfinished(q, run)
  {
    if f :| 0 <= f < |q.submitted| && q.submitted[f].run == run && q.submitted[f].progress != Done {
      assert q'.submitted[f].progress != Done;
    }
    if f :| 0 <= f < |q'.submitted| && q'.submitted[f].run == run && q'.submitted[f].progress != Done {
      assert q.submitted[f].progress != Done;
    }
  }

  /** The queue stays in order, and no run but `run` gets an unfinished future. */
  ghost predicate Kept(q: Queue, q': Queue, run: RunId)
  {
    QueueOk(q') && forall r :: Unfinished(q', r) ==> Unfinished(q, r) || r == run
  }

  lemma EnqueuedKept(q: Queue, run: RunId)
    requires QueueOk(q)
    ensures Kept(q, Enqueued(q, run), run)
  {
    var q' := Enqueued(q, run);
    forall r | Unfinished(q', r) ensures Unfinished(q, r) || r == run {
      var f :| 0 <= f < |q'.submitted| && q'.submitted[f].run == r && q'.submitted[f].progress != Done;
      assert f < |q.submitted| ==> q.submitted[f] == q'.submitted[f];
    }
  }

  /** Starting a waiting future of an idle queue, and finishing a future. */
  lemma MovedKept(q: Queue, f: FutureId, progress: Progress)
    requires QueueOk(q) && f < |q.submitted|
    requires progress == Done || (progress == Executing && q.submitted[f].progress == Waiting && Idle(q))
    ensures Kept(q, Moved(q, f, progress), q.submitted[f].run)
  {
    var q' := Moved(q, f, progress);
    forall r | Unfinished(q', r) ensures Unfinished(q, r) || r == q.submitted[f].run {
      var k :| 0 <= k < |q'.submitted| && q'.submitted[k].run == r && q'.submitted[k].progress != Done;
      assert k != f ==> q.submitted[k] == q'.submitted[k];
    }
  }

  lemma DiscardedKept(q: Queue, f: FutureId)
    requires QueueOk(q) && f < |q.submitted| && q.submitted[f].progress == Done
    ensures QueueOk(Discarded(q, f)) && forall r :: Unfinished(Discarded(q, f), r) <==> Unfinished(q, r)
  {
    forall r ensures Unfinished(Discarded(q, f), r) <==> Unfinished(q, r) {
      SameUnfinished(q, Discarded(q, f), r);
    }
  }

  lemma WithdrawnKept(q: Queue, run: RunId)
    requires QueueOk(q)
    ensures QueueOk(Withdrawn(q, run)) && forall r :: Unfinished(Withdrawn(q, run), r) ==> Unfinished(q, r)
  {
    if run in q.latest && q.submitted[q.latest[run]].progress == Waiting {
      MovedKept(q, q.latest[run], Done);
      assert Unfinished(q, run);
    }
  }

  class Dispatcher {
    var latest: map<RunId, FutureId>
    var submitted: seq<Future>

    ghost predicate Valid()
      reads this
    {
      QueueOk(View())
    }

    function View(): Queue
      reads this
    {
      Queue(latest, submitted)
    }

    constructor ()
      ensures Valid() && View() == Queue(map[], [])
    {
      latest, submitted := map[], [];
    }

    /** `enqueue`: a run with an unfinished future is not submitted again. */
    method Enqueue(run: RunId) returns (created: bool)
      requires Valid()
      modifies this
      ensures Valid()
      ensures created <==> !Unfinished(old(View()), run)
      ensures View() == Enqueued(old(View()), run)
    {
      if run in latest && submitted[latest[run]].progress != Done {
        return false;
      }
      latest := latest[run := |submitted|];
      submitted := submitted + [Future(run, Waiting, false)];
      created := true;
    }

    /** The worker thread takes a waiting future when it is idle. */
    method Start(f: FutureId) returns (started: bool)
      requires Valid() && f < |submitted|
      modifies `submitted
      ensures Valid()
      ensures started <==> old(submitted)[f].progress == Waiting && Idle(old(View()))
      ensures View() == if started then Moved(old(View()), f, Executing) else old(View())
    {
      started := submitted[f].progress == Waiting && Idle(View());
      if started {
        submitted := submitted[f := submitted[f].(progress := Executing)];
      }
    }

    /** The execution returns or raises. */
    method Finish(f: FutureId)
      requires Valid() && f < |submitted| && submitted[f].progress == Executing
      modifies `submitted
      ensures Valid() && View() == Moved(old(View()), f, Done)
    {
      submitted := submitted[f := submitted[f].(progress := Done)];
    }

    /** `_discard`, the done callback: it only removes its own future, never one enqueued since. */
    method Discard(f: FutureId)
      requires Valid() && f < |submitted| && submitted[f].progress == Done && !submitted[f].announced
      modifies this
      ensures Valid() && View() == Discarded(old(View()), f)
      ensures forall r :: Unfinished(View(), r) <==> Unfinished(old(View()), r)
    {
      var run := submitted[f].run;
      DiscardedKept(View(), f);
      submitted := submitted[f := submitted[f].(announced := true)];
      if run in latest && latest[run] == f {
        latest := latest - {run};
      }
    }

    /** `cancel`: a future that is waiting is done at once, an executing one goes on. */
    method Cancel(run: RunId)
      requires Valid()
      modifies `submitted
      ensures Valid() && View() == Withdrawn(old(View()), run)
    {
      if run in latest && submitted[latest[run]].progress == Waiting {
        submitted := submitted[latest[run] := submitted[latest[run]].(progress := Done)];
      }
    }
  }
}
