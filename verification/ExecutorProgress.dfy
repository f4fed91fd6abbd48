/** What an executor's own threads can always still do: finish everything pending while it is open,
    and leave once it is shut down with nothing pending. */
module ExecutorProgress {
  import opened Prelude
  import opened Executor
  import opened ExecutorRuns

  /** All threads have left. */
  predicate AllExited(e: Exec) {
    (forall w :: 0 <= w < |e.workers| ==> e.workers[w].Exited?) && e.reaper.ReaperExited?
  }

  // ----- Draining -----

  predicate AllIdle(e: Exec) {
    forall w :: 0 <= w < |e.workers| ==> e.workers[w].Idle?
  }

  lemma OpenMeansNoneExited(e: Exec)
    requires Valid(e) && !e.shutdown
    ensures forall w :: 0 <= w < |e.workers| ==> !e.workers[w].Exited?
    ensures !e.reaper.ReaperExited?
  {
    forall w | 0 <= w < |e.workers| ensures !e.workers[w].Exited? {
      assert WorkerOk(e, e.workers[w]);
    }
  }

  /** With all workers idle and nothing queued, what is pending is the reaper's business. */
  lemma LeftToTheReaper(e: Exec)
    requires Valid(e) && AllIdle(e) && e.queue == []
    ensures forall id :: id in e.pending ==>
      id in e.invocations && (Parked(e.invocations[id]) || e.reaper == Erasing(id, if e.reaper.Erasing? then e.reaper.index else 0))
  {
    forall id | id in e.pending
      ensures Parked(e.invocations[id]) || e.reaper == Erasing(id, if e.reaper.Erasing? then e.reaper.index else 0)
    {
      assert Located(e, id);
    }
  }

  /** The reaper's next step, finding what it polls ready. */
  function ReaperGo(e: Exec): Step
    requires !e.reaper.ReaperExited?
  {
    match e.reaper
    case Picking(_) => Pick
    case Checking(_, _) => Check
    case Polling(_, _) => Poll(Success)
    case Reading(_, _, _) => Read
    case Finishing(_, _, _) => Finish
    case Erasing(_, _) => Release
    case PassDone => EndPass
  }

  /** How many steps the reaper is from its next erasure. */
  function ReaperWait(e: Exec): nat {
    match e.reaper
    case Erasing(_, _) => 0
    case Finishing(_, _, _) => 1
    case Reading(_, _, _) => 2
    case Polling(_, _) => 3
    case Checking(id, _) => if id in e.invocations && Parked(e.invocations[id]) then 4 else 9
    case Picking(i) => if i < |e.pending| then 5 else 8
    case _ => 7
  }

  lemma ReaperGoesOn(e: Exec)
    requires Valid(e) && !e.shutdown && AllIdle(e) && e.queue == [] && e.pending != []
    ensures !e.reaper.ReaperExited? && Enabled(e, ReaperGo(e))
    ensures var f := Apply(e, ReaperGo(e));
      && f.queue == [] && f.workers == e.workers && f.shutdown == e.shutdown && f.width == e.width
      && (|f.pending| < |e.pending| || (f.pending == e.pending && ReaperWait(f) < ReaperWait(e)))
  {
    OpenMeansNoneExited(e);
    LeftToTheReaper(e);
    if e.reaper.Erasing? {
      EraseDistinct(e.pending, e.reaper.id);
    } else if e.reaper.Picking? && e.reaper.index < |e.pending| {
      assert e.pending[e.reaper.index] in e.pending;
    } else if e.reaper.PassDone? {
      assert e.pending[0] in e.pending;
    }
  }

  /** A step that brings the pending list nearer to being empty. */
  lemma DrainStep(e: Exec) returns (step: Step)
    requires Valid(e) && !e.shutdown && e.width > 0 && e.pending != []
    ensures Enabled(e, step) && Internal(step)
    ensures var f := Apply(e, step);
      && !f.shutdown && f.width == e.width
      && (|f.queue| < |e.queue|
          || (f.queue == e.queue
              && (Total(f.workers) < Total(e.workers)
                  || (f.workers == e.workers
                      && (|f.pending| < |e.pending| || (f.pending == e.pending && ReaperWait(f) < ReaperWait(e)))))))
  {
    OpenMeansNoneExited(e);
    if w: nat :| w < |e.workers| && Job(e.workers[w]).Some? {
      step := WorkerNext(e, w);
      BusyWorkerGoesOn(e, w);
    } else {
      assert AllIdle(e);
      if e.queue != [] {
        step := Take(0);
      } else {
        ReaperGoesOn(e);
        step := ReaperGo(e);
      }
    }
  }

  /** An open executor can always finish everything pending. */
  lemma {:induction false} Drains(e: Exec) returns (steps: seq<Step>)
    requires Valid(e) && !e.shutdown && e.width > 0
    ensures Legal(e, steps) && AllInternal(steps)
    ensures After(e, steps).pending == [] && !After(e, steps).shutdown
    decreases |e.queue|, Total(e.workers), |e.pending|, ReaperWait(e)
  {
    steps := [];
    if e.pending != [] {
      var step := DrainStep(e);
      StepKeepsValid(e, step);
      var rest := Drains(Apply(e, step));
      Prepend(e, step, rest);
      steps := [step] + rest;
    }
  }

  // ----- Leaving -----

  function Remaining(e: Exec, index: nat): nat {
    if index < |e.pending| then |e.pending| - index else 0
  }

  function ReaperRank(e: Exec): nat {
    match e.reaper
    case Picking(i) => 8 * Remaining(e, i) + 1
    case Checking(_, i) => 8 * Remaining(e, i) + 7
    case Polling(_, i) => 8 * Remaining(e, i) + 6
    case Reading(_, _, i) => 8 * Remaining(e, i) + 5
    case Finishing(_, _, i) => 8 * Remaining(e, i) + 4
    case Erasing(_, i) => 8 * Remaining(e, i) + 3
    case _ => 0
  }

  /** The reaper's next step, finding nothing ready. */
  function ReaperNext(e: Exec): Step
    requires !e.reaper.ReaperExited?
  {
    match e.reaper
    case Picking(_) => Pick
    case Checking(_, _) => Check
    case Polling(_, _) => Poll(NotReady)
    case Reading(_, _, _) => Read
    case Finishing(_, _, _) => Finish
    case Erasing(_, _) => Release
    case PassDone => EndPass
  }

  lemma ReaperRankDrops(e: Exec)
    requires Valid(e) && e.shutdown && !e.reaper.ReaperExited?
    ensures Enabled(e, ReaperNext(e))
    ensures var f := Apply(e, ReaperNext(e)); f.reaper.ReaperExited? || ReaperRank(f) < ReaperRank(e)
  {
    if e.reaper.Erasing? {
      EraseDistinct(e.pending, e.reaper.id);
    }
  }

  lemma WorkerRankDrops(e: Exec, w: nat)
    requires Valid(e) && e.shutdown && w < |e.workers| && !e.workers[w].Exited?
    ensures var step := WorkerNext(e, w);
      && Enabled(e, step) && Internal(step) && !step.Poll?
      && 6 * |Apply(e, step).queue| + Total(Apply(e, step).workers) < 6 * |e.queue| + Total(e.workers)
      && Apply(e, step).reaper == e.reaper
  {
    assert WorkerOk(e, e.workers[w]);
    TotalUpdate(e.workers, w, Apply(e, WorkerNext(e, w)).workers[w]);
  }

  /** Nothing pending stays nothing pending, and what is shut down stays so. */
  lemma EmptyStays(e: Exec, step: Step)
    requires Valid(e) && Enabled(e, step) && Internal(step) && e.pending == []
    ensures Apply(e, step).pending == [] && Apply(e, step).shutdown == e.shutdown
  {
    if step.EraseReturned? {
      WorkerOwns(e, step.w);
    }
  }

  lemma {:induction false} ReaperLeaves(e: Exec) returns (steps: seq<Step>)
    requires Valid(e) && e.shutdown && e.pending == []
    ensures Legal(e, steps) && AllInternal(steps)
    ensures var f := After(e, steps); Valid(f) && f.shutdown && f.pending == [] && f.reaper.ReaperExited?
    decreases ReaperRank(e)
  {
    steps := [];
    if !e.reaper.ReaperExited? {
      var step := ReaperNext(e);
      ReaperRankDrops(e);
      StepKeepsValid(e, step);
      EmptyStays(e, step);
      if !Apply(e, step).reaper.ReaperExited? {
        steps := ReaperLeaves(Apply(e, step));
      }
      Prepend(e, step, steps);
      steps := [step] + steps;
    }
  }

  lemma {:induction false} WorkersLeave(e: Exec) returns (steps: seq<Step>)
    requires Valid(e) && e.shutdown && e.pending == [] && e.reaper.ReaperExited?
    ensures Legal(e, steps) && AllInternal(steps)
    ensures AllExited(After(e, steps)) && After(e, steps).pending == []
    decreases 6 * |e.queue| + Total(e.workers)
  {
    steps := [];
    if w: nat :| w < |e.workers| && !e.workers[w].Exited? {
      var step := WorkerNext(e, w);
      WorkerRankDrops(e, w);
      StepKeepsValid(e, step);
      EmptyStays(e, step);
      steps := WorkersLeave(Apply(e, step));
      Prepend(e, step, steps);
      steps := [step] + steps;
    }
  }

  /** A drained executor that is shut down can always be joined. */
  lemma Exits(e: Exec) returns (steps: seq<Step>)
    requires Valid(e) && e.shutdown && e.pending == []
    ensures Legal(e, steps) && AllInternal(steps)
    ensures AllExited(After(e, steps)) && After(e, steps).pending == []
  {
    var first := ReaperLeaves(e);
    var more := WorkersLeave(After(e, first));
    Compose(e, first, more);
    steps := first + more;
  }
}
