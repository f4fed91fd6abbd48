/** The executor on its own.  `shutdown()` releases the mutex between `drain()` and setting
    `shutdown_`, and the reaper leaves on `shutdown_` without looking at `pending_`.  This module
    says exactly when an invocation can be stranded by that; the server never lets it happen
    (ServerGuarantees.ShutdownStrandsNothing). */
module Stranding {
  import opened Prelude
  import opened Executor
  import opened ExecutorProgress
  import opened ExecutorRuns

  /** The reaper has collected the invocation and is about to finish it. */
  predicate Collected(e: Exec, id: Id) {
    (e.reaper.Reading? || e.reaper.Finishing?) && e.reaper.id == id
  }

  /** Pending, waiting for a collection that has not happened yet. */
  predicate Awaiting(e: Exec, id: Id) {
    Holds(e, id) && e.invocations[id].hasSend && !e.invocations[id].complete && !Collected(e, id)
  }

  // ----- No awaiting invocation when shutdown_ is set: nothing is stranded -----

  lemma NoneAwaitingStays(e: Exec, step: Step)
    requires Valid(e) && Enabled(e, step) && Internal(step)
    requires forall id :: id in e.pending ==> !Awaiting(e, id)
    ensures forall id :: id in Apply(e, step).pending ==> !Awaiting(Apply(e, step), id)
  {
    var f := Apply(e, step);
    if step.EraseReturned? {
      WorkerOwns(e, step.w);
      EraseDistinct(e.pending, e.workers[step.w].id);
    } else if step.Release? {
      EraseDistinct(e.pending, e.reaper.id);
    }
    forall id | id in f.pending ensures id in e.pending && !Awaiting(f, id) {
      assert !Awaiting(e, id);
    }
  }

  lemma LeftoversAreAwaiting(e: Exec)
    requires Valid(e) && AllExited(e) && e.width > 0
    ensures forall id :: id in e.pending ==> Awaiting(e, id)
  {
    assert WorkerOk(e, e.workers[0]);
    forall id | id in e.pending ensures Awaiting(e, id) {
      assert Located(e, id);
    }
  }

  lemma {:induction false} NoneAwaitingDrains(e: Exec, steps: seq<Step>)
    requires Valid(e) && e.shutdown && Legal(e, steps) && AllInternal(steps) && AllExited(After(e, steps)) && e.width > 0
    requires forall id :: id in e.pending ==> !Awaiting(e, id)
    ensures After(e, steps).pending == []
    decreases |steps|
  {
    if steps != [] {
      StepKeepsValid(e, steps[0]);
      NoneAwaitingStays(e, steps[0]);
      NoneAwaitingDrains(Apply(e, steps[0]), steps[1..]);
    } else {
      LeftoversAreAwaiting(e);
      SomeElement(e.pending, []);
    }
  }

  // ----- An awaiting invocation can be stranded -----

  predicate Doomed(e: Exec, id: Id) {
    e.shutdown && Awaiting(e, id)
  }

  /** Steps of the others keep the invocation waiting. */
  lemma StaysDoomed(e: Exec, step: Step, id: Id)
    requires Valid(e) && Doomed(e, id) && Enabled(e, step) && Internal(step)
    requires step.Poll? ==> step.collected.NotReady?
    ensures Doomed(Apply(e, step), id)
  {
    if step.EraseReturned? {
      WorkerOwns(e, step.w);
      assert WorkerOk(e, e.workers[step.w]);
      EraseDistinct(e.pending, e.workers[step.w].id);
    } else if step.Release? {
      EraseDistinct(e.pending, e.reaper.id);
    } else if step.MarkReturned? {
      assert WorkerOk(e, e.workers[step.w]);
    }
  }

  lemma {:induction false} LeaveReaper(e: Exec, id: Id) returns (steps: seq<Step>)
    requires Valid(e) && Doomed(e, id)
    ensures Legal(e, steps) && AllInternal(steps)
    ensures var f := After(e, steps); Valid(f) && Doomed(f, id) && f.reaper.ReaperExited?
    decreases ReaperRank(e)
  {
    steps := [];
    if !e.reaper.ReaperExited? {
      var step := ReaperNext(e);
      ReaperRankDrops(e);
      StepKeepsValid(e, step);
      StaysDoomed(e, step, id);
      if !Apply(e, step).reaper.ReaperExited? {
        steps := LeaveReaper(Apply(e, step), id);
      }
      Prepend(e, step, steps);
      steps := [step] + steps;
    }
  }

  lemma {:induction false} LeaveWorkers(e: Exec, id: Id) returns (steps: seq<Step>)
    requires Valid(e) && Doomed(e, id) && e.reaper.ReaperExited?
    ensures Legal(e, steps) && AllInternal(steps)
    ensures var f := After(e, steps); Doomed(f, id) && AllExited(f)
    decreases 6 * |e.queue| + Total(e.workers)
  {
    steps := [];
    if w: nat :| w < |e.workers| && !e.workers[w].Exited? {
      var step := WorkerNext(e, w);
      WorkerRankDrops(e, w);
      StepKeepsValid(e, step);
      StaysDoomed(e, step, id);
      steps := LeaveWorkers(Apply(e, step), id);
      Prepend(e, step, steps);
      steps := [step] + steps;
    }
  }

  /** Some continuation ends with all threads gone and an invocation still pending. */
  ghost predicate CanStrand(e: Exec) {
    exists steps :: Strands(e, steps)
  }

  ghost predicate Strands(e: Exec, steps: seq<Step>) {
    Legal(e, steps) && AllInternal(steps) && AllExited(After(e, steps)) && After(e, steps).pending != []
  }

  lemma AwaitingStrands(e: Exec, id: Id)
    requires Valid(e) && Doomed(e, id)
    ensures CanStrand(e)
  {
    var steps := LeaveReaper(e, id);
    var more := LeaveWorkers(After(e, steps), id);
    Compose(e, steps, more);
    assert Strands(e, steps + more);
  }

  /** With `shutdown_` set, an invocation can be stranded if and only if one is waiting to be
      collected at that moment. */
  lemma StrandsIffAwaiting(e: Exec)
    requires Valid(e) && e.shutdown && e.width > 0
    ensures CanStrand(e) <==> exists id :: Awaiting(e, id)
  {
    if id :| Awaiting(e, id) {
      AwaitingStrands(e, id);
    } else {
      forall steps | Legal(e, steps) && AllInternal(steps) && AllExited(After(e, steps)) ensures !Strands(e, steps) {
        NoneAwaitingDrains(e, steps);
      }
    }
  }

  /** The window: `drain()` may return, an operation is admitted, and only then is `shutdown_`
      set.  The invocation is then waiting, so it can be stranded. */
  lemma WindowStrands(width: nat, id: Id)
    requires width > 0
    ensures var e, admit := New(width), Admit(id, true, 1);
      e.pending == [] && Enabled(e, admit) && CanStrand(Apply(Apply(e, admit), SetShutdown))
  {
    var e, admit := New(width), Admit(id, true, 1);
    NewIsValid(width);
    StepKeepsValid(e, admit);
    StepKeepsValid(Apply(e, admit), SetShutdown);
    AwaitingStrands(Apply(Apply(e, admit), SetShutdown), id);
  }
}
