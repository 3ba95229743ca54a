/** The backend with the in-process queue: each of its runs is a run of the backend with the abstract queue. */
module LocalBackend {
  import opened Tables
  import opened ListingIdentity
  import opened Persistence
  import opened System
  import L = LocalDispatcher

  datatype LocalSys = LocalSys(queue: L.Queue, sys: Sys)

  /** Requests, workers and the result transaction step as before; only the queue is another. An execution may go on
      after its run was stored, failed or never claimed, and a done callback may come at any later time. */
  datatype LocalStep =
    | Backend(step: Step)
    | Submit(run: RunId)
    | StartFuture(f: L.FutureId)
    | FinishFuture(f: L.FutureId)
    | DiscardFuture(f: L.FutureId)
    | CancelFuture(run: RunId)

  ghost predicate LocalEnabled(l: LocalSys, step: LocalStep)
  {
    match step
    case Backend(b) => Enabled(l.sys, b) && !b.EnqueueAccepted? && !b.Deliver? && (b.EnqueueRaised? ==> !b.delivered)
    case Submit(run) => run in l.sys.creating
    case StartFuture(f) => f < |l.queue.submitted| && l.queue.submitted[f].progress == L.Waiting && L.Idle(l.queue)
    case FinishFuture(f) => f < |l.queue.submitted| && l.queue.submitted[f].progress == L.Executing
    case DiscardFuture(f) =>
      f < |l.queue.submitted| && l.queue.submitted[f].progress == L.Done && !l.queue.submitted[f].announced
    case CancelFuture(_) => true
  }

  /** The step of the abstract backend, if it is one. */
  function Seen(l: LocalSys, step: LocalStep): seq<Step>
  {
    match step
    case Backend(b) => [b]
    case Submit(run) => [EnqueueAccepted(run)]
    case StartFuture(f) => if f < |l.queue.submitted| then [Deliver(l.queue.submitted[f].run)] else []
    case _ => []
  }

  ghost function LocalNext(digest: Digest, l: LocalSys, step: LocalStep): LocalSys
  {
    var sys := if Seen(l, step) == [] then l.sys else Next(digest, l.sys, Seen(l, step)[0]);
    match step
    case Backend(_) => LocalSys(l.queue, sys)
    case Submit(run) => LocalSys(L.Enqueued(l.queue, run), sys)
    case StartFuture(f) => if f < |l.queue.submitted| then LocalSys(L.Moved(l.queue, f, L.Executing), sys) else l
    case FinishFuture(f) => if f < |l.queue.submitted| then LocalSys(L.Moved(l.queue, f, L.Done), sys) else l
    case DiscardFuture(f) => if f < |l.queue.submitted| then LocalSys(L.Discarded(l.queue, f), sys) else l
    case CancelFuture(run) => LocalSys(L.Withdrawn(l.queue, run), sys)
  }

  ghost predicate LocalLeads(digest: Digest, l: LocalSys, steps: seq<LocalStep>, l': LocalSys)
    decreases |steps|
  {
    if steps == [] then l == l'
    else LocalEnabled(l, steps[0]) && LocalLeads(digest, LocalNext(digest, l, steps[0]), steps[1..], l')
  }

  /** The queue is in order, and what it may still deliver the abstract queue may deliver too. */
  ghost predicate Coupled(l: LocalSys)
  {
    L.QueueOk(l.queue) && forall r: RunId :: L.Unfinished(l.queue, r) ==> r in l.sys.pending
  }

  lemma PendingGrows(digest: Digest, s: Sys, step: Step)
    ensures s.pending <= Next(digest, s, step).pending
    ensures step.EnqueueAccepted? ==> step.run in Next(digest, s, step).pending
  {
    hide Persisted;
  }

  lemma CoupledStep(digest: Digest, l: LocalSys, step: LocalStep)
    requires Coupled(l) && LocalEnabled(l, step)
    ensures Coupled(LocalNext(digest, l, step))
    ensures forall b :: b in Seen(l, step) ==> Enabled(l.sys, b)
  {
    hide Next, L.QueueOk, L.Enqueued, L.Discarded;
    if Seen(l, step) != [] {
      PendingGrows(digest, l.sys, Seen(l, step)[0]);
    }
    match step
    case Backend(_) =>
    case Submit(run) => L.EnqueuedKept(l.queue, run);
    case StartFuture(f) =>
      assert L.Unfinished(l.queue, l.queue.submitted[f].run);
      L.MovedKept(l.queue, f, L.Executing);
    case FinishFuture(f) =>
      assert L.Unfinished(l.queue, l.queue.submitted[f].run);
      L.MovedKept(l.queue, f, L.Done);
    case DiscardFuture(f) => L.DiscardedKept(l.queue, f);
    case CancelFuture(run) => L.WithdrawnKept(l.queue, run);
  }

  /** What the abstract backend sees of a run with the in-process queue. */
  ghost function SeenAll(digest: Digest, l: LocalSys, steps: seq<LocalStep>): seq<Step>
    decreases |steps|
  {
    if steps == [] then [] else Seen(l, steps[0]) + SeenAll(digest, LocalNext(digest, l, steps[0]), steps[1..])
  }

  /** Every run with the in-process queue is a run of the backend, so all its guarantees hold; and along it the queue
      stays in order: at most one execution at a time, and at most one unfinished execution of a run. */
  lemma {:induction false} LocalRefines(digest: Digest, l: LocalSys, steps: seq<LocalStep>, l': LocalSys)
    requires Coupled(l) && LocalLeads(digest, l, steps, l')
    ensures Leads(digest, l.sys, SeenAll(digest, l, steps), l'.sys)
    ensures Coupled(l')
    decreases |steps|
  {
    if steps != [] {
      var m := LocalNext(digest, l, steps[0]);
      CoupledStep(digest, l, steps[0]);
      LocalRefines(digest, m, steps[1..], l');
      assert |Seen(l, steps[0])| <= 1;
      hide Coupled, LocalEnabled, Next, Enabled;
      var rest := SeenAll(digest, m, steps[1..]);
      if Seen(l, steps[0]) == [] {
        assert [] + rest == rest;
      } else {
        assert (Seen(l, steps[0]) + rest)[1..] == rest;
      }
    }
  }
}
