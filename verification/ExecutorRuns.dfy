/** Runs of the executor's step system. */
module ExecutorRuns {
  import opened Prelude
  import opened Executor

  /** A run: every step happens when it is enabled. */
  ghost predicate Legal(e: Exec, steps: seq<Step>)
    decreases |steps|
  {
    steps == [] || (Enabled(e, steps[0]) && Legal(Apply(e, steps[0]), steps[1..]))
  }

  ghost function After(e: Exec, steps: seq<Step>): Exec
    requires Legal(e, steps)
    decreases |steps|
  {
    if steps == [] then e else After(Apply(e, steps[0]), steps[1..])
  }

  /** A step of the executor's own threads. */
  predicate Internal(step: Step) {
    !step.Admit? && !step.SetShutdown?
  }

  ghost predicate AllInternal(steps: seq<Step>) {
    forall step :: step in steps ==> Internal(step)
  }

  lemma {:induction false} RunKeepsValid(e: Exec, steps: seq<Step>)
    requires Valid(e) && Legal(e, steps)
    ensures Valid(After(e, steps))
    decreases |steps|
  {
    if steps != [] {
      StepKeepsValid(e, steps[0]);
      RunKeepsValid(Apply(e, steps[0]), steps[1..]);
    }
  }

  lemma {:induction false} Compose(e: Exec, steps: seq<Step>, more: seq<Step>)
    requires Legal(e, steps) && Legal(After(e, steps), more)
    ensures Legal(e, steps + more) && After(e, steps + more) == After(After(e, steps), more)
    decreases |steps|
  {
    if steps == [] {
      assert steps + more == more;
    } else {
      TailOfAppend(steps, more);
      Compose(Apply(e, steps[0]), steps[1..], more);
    }
  }

  /** A step, then a run. */
  lemma Prepend(e: Exec, step: Step, rest: seq<Step>)
    requires Enabled(e, step) && Legal(Apply(e, step), rest)
    ensures Legal(e, [step] + rest) && After(e, [step] + rest) == After(Apply(e, step), rest)
    ensures Internal(step) && AllInternal(rest) ==> AllInternal([step] + rest)
  {
    assert ([step] + rest)[1..] == rest;
  }

  // ----- Letting one worker go on -----

  function Rank(w: Worker): nat {
    match w
    case Idle => 1
    case Taken(_) => 5
    case Returned(_, _) => 4
    case Marked(_) => 3
    case Threw(_) => 3
    case Evaluated(_) => 2
    case Exited => 0
  }

  function Total(ws: seq<Worker>): nat {
    if ws == [] then 0 else Rank(ws[0]) + Total(ws[1..])
  }

  lemma {:induction false} TotalUpdate(ws: seq<Worker>, w: nat, to: Worker)
    requires w < |ws|
    ensures Total(ws[w := to]) == Total(ws) - Rank(ws[w]) + Rank(to)
  {
    if w == 0 {
      assert ws[0 := to][1..] == ws[1..];
    } else {
      assert ws[w := to][1..] == ws[1..][w - 1 := to];
      TotalUpdate(ws[1..], w - 1, to);
    }
  }

  function WorkerNext(e: Exec, w: nat): Step
    requires Valid(e) && w < |e.workers| && !e.workers[w].Exited?
  {
    match e.workers[w]
    case Idle => if e.queue != [] then Take(w) else Leave(w)
    case Taken(id) =>
      assert WorkerOk(e, e.workers[w]);
      if e.invocations[id].hasSend then Evaluate(w, false) else Call(w, CallReturned(true))
    case Returned(_, _) => MarkReturned(w)
    case Marked(_) => EraseReturned(w)
    case Threw(_) => RecordThrow(w)
    case Evaluated(_) => MarkSent(w)
  }

  /** A busy worker can go on, and comes nearer to being idle. */
  lemma BusyWorkerGoesOn(e: Exec, w: nat)
    requires Valid(e) && w < |e.workers| && Job(e.workers[w]).Some?
    ensures var step := WorkerNext(e, w);
      && Enabled(e, step) && Internal(step)
      && var f := Apply(e, step);
         && f.queue == e.queue && Total(f.workers) < Total(e.workers)
         && f.shutdown == e.shutdown && f.width == e.width && f.reaper == e.reaper
  {
    assert WorkerOk(e, e.workers[w]);
    TotalUpdate(e.workers, w, Apply(e, WorkerNext(e, w)).workers[w]);
  }
}
