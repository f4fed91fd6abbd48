/** The operation executor as an interleaving step system: one step per critical section or
    per call into RTT.  `invocations` holds every invocation ever admitted, together with a
    history of how often it was dispatched and finished, so that the guarantees over whole
    runs are plain invariants of the reachable states. */
module Executor {
  import opened Prelude

  type Id = nat

  /** The flags of `Invocation`, and its history. `hasSend` is the presence of `send`. */
  datatype Invocation = Invocation(
    hasSend: bool, sent: bool, complete: bool, status: int,
    dispatches: nat, workerFinishes: nat, reaperFinishes: nat)

  /** Where a worker thread is: between critical sections it owns at most one invocation. */
  datatype Worker =
    | Idle                             // about to wait for `queue_` or `shutdown_`
    | Taken(id: Id)                    // popped, not yet given to RTT
    | Returned(id: Id, result: int)    // `call()` came back
    | Marked(id: Id)                   // `complete` set, not yet erased from `pending_`
    | Threw(id: Id)                    // `evaluate()` threw
    | Evaluated(id: Id)                // dispatch done, `sent` not yet set
    | Exited

  datatype Reaper =
    | Picking(index: nat)
    | Checking(id: Id, index: nat)
    | Polling(id: Id, index: nat)
    | Reading(id: Id, success: bool, index: nat)
    | Finishing(id: Id, result: int, index: nat)
    | Erasing(id: Id, index: nat)
    | PassDone
    | ReaperExited

  /** What `collectIfDone` did. */
  datatype Collected = NotReady | Success | Failure | Exception

  /** What RTT did when it was called: `call()` returned or threw (a SendStatus or anything else),
      `evaluate()` returned or threw, `collectIfDone()` reported a final status or threw. */
  datatype Answer =
    | CallReturned(ok: bool)
    | CallThrew(sendStatus: bool)
    | SendReturned
    | SendThrew
    | CollectReported(ok: bool)
    | CollectThrew

  /** `released`, `admitted` (all invocations ever, in order) and `heard` (what RTT answered for each)
      are the history of the executor. */
  datatype Exec = Exec(
    width: nat, queue: seq<Id>, pending: seq<Id>, shutdown: bool,
    workers: seq<Worker>, reaper: Reaper,
    invocations: map<Id, Invocation>, released: nat,
    admitted: seq<Id>, heard: map<Id, seq<Answer>>)

  datatype Step =
    | Admit(id: Id, hasSend: bool, cap: nat)
    | Take(w: nat)
    | Leave(w: nat)
    | Call(w: nat, answer: Answer)
    | MarkReturned(w: nat)
    | EraseReturned(w: nat)
    | Evaluate(w: nat, threw: bool)
    | RecordThrow(w: nat)
    | MarkSent(w: nat)
    | Pick
    | Check
    | Poll(collected: Collected)
    | Read
    | Finish
    | Release
    | EndPass
    | SetShutdown

  function NewInvocation(hasSend: bool): Invocation {
    Invocation(hasSend, false, false, 200, 0, 0, 0)
  }

  function New(width: nat): Exec {
    Exec(width, [], [], false, seq(width, i => Idle), Picking(0), map[], 0, [], map[])
  }

  /** The admission test of `admit`. */
  predicate Accepts(e: Exec, cap: nat) {
    !e.shutdown && |e.pending| < cap
  }

  function Job(w: Worker): Option<Id> {
    match w
    case Idle => None
    case Exited => None
    case _ => Some(w.id)
  }

  /** The reaper's claim: it read `sent && !complete` for this invocation. */
  function ReaperJob(r: Reaper): Option<Id> {
    match r
    case Polling(id, _) => Some(id)
    case Reading(id, _, _) => Some(id)
    case Finishing(id, _, _) => Some(id)
    case Erasing(id, _) => Some(id)
    case _ => None
  }

  ghost predicate WorkerAt(e: Exec, w: nat) {
    w < |e.workers| && (Job(e.workers[w]).Some? ==> e.workers[w].id in e.invocations)
  }

  /** Guards: a blocking wait is a step that is not enabled. */
  ghost predicate Enabled(e: Exec, step: Step) {
    match step
    case Admit(id, _, cap) => Accepts(e, cap) && id !in e.invocations
    case Take(w) => WorkerAt(e, w) && e.workers[w].Idle? && e.queue != []
    case Leave(w) => WorkerAt(e, w) && e.workers[w].Idle? && e.shutdown && e.queue == []
    case Call(w, answer) =>
      && WorkerAt(e, w) && e.workers[w].Taken? && !e.invocations[e.workers[w].id].hasSend
      && (answer.CallReturned? || answer.CallThrew?)
    case MarkReturned(w) => WorkerAt(e, w) && e.workers[w].Returned?
    case EraseReturned(w) => WorkerAt(e, w) && e.workers[w].Marked?
    case Evaluate(w, _) =>
      WorkerAt(e, w) && e.workers[w].Taken? && e.invocations[e.workers[w].id].hasSend
    case RecordThrow(w) => WorkerAt(e, w) && e.workers[w].Threw?
    case MarkSent(w) => WorkerAt(e, w) && e.workers[w].Evaluated?
    case Pick => e.reaper.Picking?
    case Check => e.reaper.Checking? && e.reaper.id in e.invocations
    case Poll(_) => e.reaper.Polling?
    case Read => e.reaper.Reading? && e.reaper.id in e.invocations
    case Finish => e.reaper.Finishing? && e.reaper.id in e.invocations
    case Release => e.reaper.Erasing?
    case EndPass => e.reaper.PassDone?
    case SetShutdown => true
  }

  function SetWorker(e: Exec, w: nat, to: Worker): Exec
    requires w < |e.workers|
  {
    e.(workers := e.workers[w := to])
  }

  function SetInvocation(e: Exec, id: Id, to: Invocation): Exec {
    e.(invocations := e.invocations[id := to])
  }

  /** RTT has answered; part of the history. */
  function Hear(e: Exec, id: Id, answer: Answer): Exec {
    e.(heard := e.heard[id := (if id in e.heard then e.heard[id] else []) + [answer]])
  }

  /** The status that a worker finishes with. */
  function CallStatus(answer: Answer): int {
    match answer
    case CallReturned(ok) => if ok then 200 else 503
    case CallThrew(sendStatus) => if sendStatus then 503 else 500
    case _ => 500
  }

  function CollectAnswer(collected: Collected): Answer {
    if collected.Exception? then CollectThrew else CollectReported(collected.Success?)
  }

  function EraseFrom(e: Exec, id: Id): Exec {
    e.(pending := Erase(e.pending, id), released := e.released + 1)
  }

  ghost function Apply(e: Exec, step: Step): Exec
    requires Enabled(e, step)
  {
    match step
    case Admit(id, hasSend, _) =>
      e.(pending := e.pending + [id], queue := e.queue + [id],
         invocations := e.invocations[id := NewInvocation(hasSend)],
         admitted := e.admitted + [id], heard := e.heard[id := []])
    case Take(w) => SetWorker(e.(queue := e.queue[1..]), w, Taken(e.queue[0]))
    case Leave(w) => SetWorker(e, w, Exited)
    case Call(w, answer) =>
      var id := e.workers[w].id;
      Hear(SetWorker(SetInvocation(e, id, Dispatch(e.invocations[id])), w, Returned(id, CallStatus(answer))), id, answer)
    case MarkReturned(w) =>
      var id := e.workers[w].id;
      SetWorker(SetInvocation(e, id, FinishByWorker(e.invocations[id], e.workers[w].result)), w, Marked(id))
    case EraseReturned(w) => SetWorker(EraseFrom(e, e.workers[w].id), w, Idle)
    case Evaluate(w, threw) =>
      var id := e.workers[w].id;
      Hear(SetWorker(SetInvocation(e, id, Dispatch(e.invocations[id])), w, if threw then Threw(id) else Evaluated(id)),
           id, if threw then SendThrew else SendReturned)
    case RecordThrow(w) =>
      var id := e.workers[w].id;
      SetWorker(SetInvocation(e, id, e.invocations[id].(status := 500)), w, Evaluated(id))
    case MarkSent(w) =>
      var id := e.workers[w].id;
      SetWorker(SetInvocation(e, id, e.invocations[id].(sent := true)), w, Idle)
    case Pick =>
      var i := e.reaper.index;
      e.(reaper := if i >= |e.pending| then PassDone else Checking(e.pending[i], i + 1))
    case Check =>
      var v := e.invocations[e.reaper.id];
      e.(reaper := if v.sent && !v.complete then Polling(e.reaper.id, e.reaper.index) else Picking(e.reaper.index))
    case Poll(collected) =>
      if collected.NotReady? then e.(reaper := Picking(e.reaper.index))
      else Hear(e, e.reaper.id, CollectAnswer(collected)).(reaper :=
        if collected.Exception? then Finishing(e.reaper.id, 500, e.reaper.index)
        else Reading(e.reaper.id, collected.Success?, e.reaper.index))
    case Read =>
      e.(reaper := Finishing(e.reaper.id,
           if e.invocations[e.reaper.id].status == 500 then 500 else if e.reaper.success then 200 else 503,
           e.reaper.index))
    case Finish =>
      SetInvocation(e, e.reaper.id, FinishByReaper(e.invocations[e.reaper.id], e.reaper.result))
        .(reaper := Erasing(e.reaper.id, e.reaper.index))
    case Release => EraseFrom(e, e.reaper.id).(reaper := Picking(e.reaper.index))
    case EndPass => e.(reaper := if e.shutdown then ReaperExited else Picking(0))
    case SetShutdown => e.(shutdown := true)
  }

  function Dispatch(v: Invocation): Invocation {
    v.(dispatches := v.dispatches + 1)
  }

  function FinishByWorker(v: Invocation, result: int): Invocation {
    v.(status := result, complete := true, workerFinishes := v.workerFinishes + 1)
  }

  function FinishByReaper(v: Invocation, result: int): Invocation {
    v.(status := result, complete := true, reaperFinishes := v.reaperFinishes + 1)
  }

  // ----- The inductive invariant -----

  predicate Untouched(v: Invocation) {
    !v.sent && !v.complete && v.dispatches == 0 && v.workerFinishes == 0 && v.reaperFinishes == 0
  }

  predicate InFlight(v: Invocation) {
    !v.complete && v.dispatches == 1 && v.workerFinishes == 0 && v.reaperFinishes == 0
  }

  /** Dispatched once and finished once, by the thread its kind prescribes. */
  predicate Settled(v: Invocation) {
    && v.complete && v.dispatches == 1 && v.sent == v.hasSend
    && v.workerFinishes == (if v.hasSend then 0 else 1)
    && v.reaperFinishes == (if v.hasSend then 1 else 0)
  }

  predicate Parked(v: Invocation) {
    InFlight(v) && v.hasSend && v.sent
  }

  predicate Holds(e: Exec, id: Id) {
    id in e.pending && id in e.invocations
  }

  ghost predicate WorkerOk(e: Exec, w: Worker) {
    match w
    case Idle => true
    case Exited => e.shutdown && e.queue == []
    case Taken(id) => Holds(e, id) && id !in e.queue && Untouched(e.invocations[id])
    case Returned(id, _) =>
      Holds(e, id) && InFlight(e.invocations[id]) && !e.invocations[id].hasSend && !e.invocations[id].sent
    case Marked(id) => Holds(e, id) && Settled(e.invocations[id]) && !e.invocations[id].hasSend
    case Threw(id) =>
      Holds(e, id) && InFlight(e.invocations[id]) && e.invocations[id].hasSend && !e.invocations[id].sent
    case Evaluated(id) =>
      Holds(e, id) && InFlight(e.invocations[id]) && e.invocations[id].hasSend && !e.invocations[id].sent
  }

  ghost predicate ReaperOk(e: Exec) {
    match e.reaper
    case Checking(id, _) => id in e.invocations
    case Polling(id, _) => Holds(e, id) && Parked(e.invocations[id])
    case Reading(id, _, _) => Holds(e, id) && Parked(e.invocations[id])
    case Finishing(id, _, _) => Holds(e, id) && Parked(e.invocations[id])
    case Erasing(id, _) => Holds(e, id) && Settled(e.invocations[id]) && e.invocations[id].hasSend
    case ReaperExited => e.shutdown
    case _ => true
  }

  /** Every pending invocation is in exactly one hand: the queue, a worker, or the reaper's list. */
  ghost predicate Located(e: Exec, id: Id)
    requires id in e.invocations
  {
    || id in e.queue
    || (exists w :: 0 <= w < |e.workers| && Job(e.workers[w]) == Some(id))
    || Parked(e.invocations[id])
    || (e.reaper.Erasing? && e.reaper.id == id)
  }

  ghost predicate Valid(e: Exec) {
    && |e.workers| == e.width
    && Distinct(e.queue) && Distinct(e.pending)
    && (forall id :: id in e.queue ==> id in e.pending)
    && (forall id :: id in e.pending ==> id in e.invocations)
    && (forall id :: id in e.queue ==> Untouched(e.invocations[id]))
    && (forall w :: 0 <= w < |e.workers| ==> WorkerOk(e, e.workers[w]))
    && (forall v, w :: 0 <= v < w < |e.workers| && Job(e.workers[v]).Some? ==> Job(e.workers[v]) != Job(e.workers[w]))
    && ReaperOk(e)
    && (forall id :: id in e.pending ==> Located(e, id))
    && (forall id :: id in e.invocations && id !in e.pending ==> Settled(e.invocations[id]))
    && |e.invocations| == e.released + |e.pending|
  }

  lemma NewIsValid(width: nat)
    ensures Valid(New(width))
  {}

  /** Erasing a settled invocation that no other thread holds. */
  lemma EraseKeepsValid(e: Exec, id: Id)
    requires Valid(e) && Holds(e, id) && Settled(e.invocations[id])
    ensures var f := EraseFrom(e, id);
      && Distinct(f.pending)
      && |f.pending| == |e.pending| - 1
      && (forall other :: other in f.pending <==> other in e.pending && other != id)
      && (forall other :: other in f.queue ==> other in f.pending)
      && |f.invocations| == f.released + |f.pending|
  {
    EraseDistinct(e.pending, id);
  }

  lemma AdmitKeepsLists(e: Exec, step: Step)
    requires Valid(e) && step.Admit? && Enabled(e, step)
    ensures var f := Apply(e, step);
      && step.id !in e.pending && Distinct(f.queue) && Distinct(f.pending)
      && (forall id :: id in f.pending <==> id in e.pending || id == step.id)
      && (forall id :: id in f.queue <==> id in e.queue || id == step.id)
      && |f.invocations| == f.released + |f.pending|
  {
    assert Apply(e, step).invocations.Keys == e.invocations.Keys + {step.id};
  }

  lemma AdmitKeepsThreads(e: Exec, step: Step)
    requires Valid(e) && step.Admit? && Enabled(e, step) && step.id !in e.pending
    ensures var f := Apply(e, step);
      (forall w :: 0 <= w < |f.workers| ==> WorkerOk(f, f.workers[w])) && ReaperOk(f)
  {
    var f := Apply(e, step);
    forall w | 0 <= w < |f.workers| ensures WorkerOk(f, f.workers[w]) {
      assert WorkerOk(e, e.workers[w]);
    }
  }

  lemma AdmitKeepsPlaces(e: Exec, step: Step)
    requires Valid(e) && step.Admit? && Enabled(e, step)
    ensures var f := Apply(e, step);
      forall id :: id in f.pending ==> id in f.invocations && Located(f, id)
  {
    var f := Apply(e, step);
    forall id | id in f.pending ensures id in f.invocations && Located(f, id) {
      if id != step.id {
        assert Located(e, id);
      }
    }
  }

  lemma AdmitKeepsValid(e: Exec, step: Step)
    requires Valid(e) && step.Admit? && Enabled(e, step)
    ensures Valid(Apply(e, step))
  {
    AdmitKeepsLists(e, step);
    AdmitKeepsThreads(e, step);
    AdmitKeepsPlaces(e, step);
  }

  /** A worker updates the invocation it holds, keeping it or parking it for the reaper. */
  lemma UpdateKeepsValid(e: Exec, w: nat, id: Id, v: Invocation, to: Worker)
    requires Valid(e) && w < |e.workers| && Job(e.workers[w]) == Some(id)
    requires id !in e.queue && ReaperJob(e.reaper) != Some(id)
    requires WorkerOk(SetWorker(SetInvocation(e, id, v), w, to), to)
    requires Job(to) == Some(id) || (to == Idle && Parked(v))
    ensures Valid(SetWorker(SetInvocation(e, id, v), w, to))
  {
    var f := SetWorker(SetInvocation(e, id, v), w, to);
    assert f.invocations.Keys == e.invocations.Keys;
    forall k | 0 <= k < |f.workers| ensures WorkerOk(f, f.workers[k]) {
      assert WorkerOk(e, e.workers[k]);
    }
    forall other | other in f.pending ensures Located(f, other) {
      assert Located(e, other);
      if k :| 0 <= k < |e.workers| && Job(e.workers[k]) == Some(other) {
        assert k != w ==> Job(f.workers[k]) == Some(other);
        assert k == w && Job(to).Some? ==> Job(f.workers[w]) == Some(other);
      }
    }
  }

  /** What a worker holds is neither queued nor claimed by the reaper. */
  lemma WorkerOwns(e: Exec, w: nat)
    requires Valid(e) && w < |e.workers| && Job(e.workers[w]).Some?
    ensures var id := e.workers[w].id; id !in e.queue && ReaperJob(e.reaper) != Some(id) && Holds(e, id)
  {
    assert WorkerOk(e, e.workers[w]);
  }

  lemma TakeKeepsValid(e: Exec, step: Step)
    requires Valid(e) && step.Take? && Enabled(e, step)
    ensures Valid(Apply(e, step))
  {
    var f := Apply(e, step);
    var taken := e.queue[0];
    forall k | 0 <= k < |e.workers| && Job(e.workers[k]).Some? ensures e.workers[k].id != taken {
      WorkerOwns(e, k);
    }
    forall k | 0 <= k < |f.workers| ensures WorkerOk(f, f.workers[k]) {
      assert WorkerOk(e, e.workers[k]);
    }
    forall id | id in f.pending ensures Located(f, id) {
      assert Located(e, id);
      assert Job(f.workers[step.w]) == Some(taken);
      if k :| 0 <= k < |e.workers| && Job(e.workers[k]) == Some(id) {
        assert Job(f.workers[k]) == Some(id);
      }
    }
  }

  lemma LeaveKeepsValid(e: Exec, step: Step)
    requires Valid(e) && step.Leave? && Enabled(e, step)
    ensures Valid(Apply(e, step))
  {
    var f := Apply(e, step);
    forall id | id in f.pending ensures Located(f, id) {
      assert Located(e, id);
      if k :| 0 <= k < |e.workers| && Job(e.workers[k]) == Some(id) {
        assert Job(f.workers[k]) == Some(id);
      }
    }
  }

  lemma WorkerKeepsValid(e: Exec, step: Step)
    requires Valid(e) && Enabled(e, step)
    requires step.Call? || step.MarkReturned? || step.Evaluate? || step.RecordThrow? || step.MarkSent?
    ensures Valid(Apply(e, step))
  {
    var w := step.w;
    WorkerOwns(e, w);
    assert WorkerOk(e, e.workers[w]);
    var f := Apply(e, step);
    var id := e.workers[w].id;
    UpdateKeepsValid(e, w, id, f.invocations[id], f.workers[w]);
    HistoryIsApart(SetWorker(SetInvocation(e, id, f.invocations[id]), w, f.workers[w]), f);
  }

  /** The invariant does not depend on what RTT answered. */
  lemma HistoryIsApart(e: Exec, f: Exec)
    requires Valid(e) && f == e.(heard := f.heard)
    ensures Valid(f)
  {
    forall w | 0 <= w < |f.workers| ensures WorkerOk(f, f.workers[w]) {
      assert WorkerOk(e, e.workers[w]);
    }
    forall id | id in f.pending ensures Located(f, id) {
      assert Located(e, id);
    }
  }

  lemma EraseReturnedKeepsValid(e: Exec, step: Step)
    requires Valid(e) && step.EraseReturned? && Enabled(e, step)
    ensures Valid(Apply(e, step))
  {
    var f := Apply(e, step);
    var id := e.workers[step.w].id;
    WorkerOwns(e, step.w);
    EraseKeepsValid(e, id);
    forall k | 0 <= k < |f.workers| ensures WorkerOk(f, f.workers[k]) {
      assert WorkerOk(e, e.workers[k]);
    }
    forall other | other in f.pending ensures Located(f, other) {
      assert Located(e, other);
      if k :| 0 <= k < |e.workers| && Job(e.workers[k]) == Some(other) {
        assert k != step.w;
        assert Job(f.workers[k]) == Some(other);
      }
    }
  }

  /** What the reaper has claimed is in no other hand. */
  lemma ReaperOwns(e: Exec)
    requires Valid(e) && ReaperJob(e.reaper).Some?
    ensures var id := e.reaper.id;
      && Holds(e, id) && id !in e.queue
      && forall k :: 0 <= k < |e.workers| ==> Job(e.workers[k]) != Some(id)
  {
    forall k | 0 <= k < |e.workers| ensures Job(e.workers[k]) != Some(e.reaper.id) {
      assert WorkerOk(e, e.workers[k]);
    }
  }

  predicate Scans(step: Step) {
    step.Pick? || step.Check? || step.Poll? || step.Read? || step.EndPass? || step.SetShutdown?
  }

  lemma ScanKeepsReaper(e: Exec, step: Step)
    requires Valid(e) && Enabled(e, step) && Scans(step)
    ensures ReaperOk(Apply(e, step))
  {
    if step.Check? && e.reaper.id !in e.pending {
      assert Settled(e.invocations[e.reaper.id]);
    }
  }

  lemma ScanKeepsOthers(e: Exec, step: Step)
    requires Valid(e) && Enabled(e, step) && Scans(step)
    ensures var f := Apply(e, step);
      && (forall id :: id in f.pending ==> Located(f, id))
      && (forall k :: 0 <= k < |f.workers| ==> WorkerOk(f, f.workers[k]))
  {
    var f := Apply(e, step);
    forall id | id in f.pending ensures Located(f, id) {
      assert Located(e, id);
    }
    forall k | 0 <= k < |f.workers| ensures WorkerOk(f, f.workers[k]) {
      assert WorkerOk(e, e.workers[k]);
    }
  }

  lemma ReaperKeepsValid(e: Exec, step: Step)
    requires Valid(e) && Enabled(e, step) && Scans(step)
    ensures Valid(Apply(e, step))
  {
    ScanKeepsReaper(e, step);
    ScanKeepsOthers(e, step);
  }

  lemma FinishKeepsValid(e: Exec, step: Step)
    requires Valid(e) && Enabled(e, step) && (step.Finish? || step.Release?)
    ensures Valid(Apply(e, step))
  {
    var f := Apply(e, step);
    var id := e.reaper.id;
    ReaperOwns(e);
    EraseDistinct(e.pending, id);
    assert step.Finish? ==> f.invocations.Keys == e.invocations.Keys;
    forall k | 0 <= k < |f.workers| ensures WorkerOk(f, f.workers[k]) {
      assert WorkerOk(e, e.workers[k]);
    }
    forall other | other in f.pending ensures Located(f, other) {
      assert Located(e, other);
    }
  }

  /** The invariant is inductive: it survives every step of every thread. */
  lemma StepKeepsValid(e: Exec, step: Step)
    requires Valid(e) && Enabled(e, step)
    ensures Valid(Apply(e, step))
  {
    match step
    case Admit(_, _, _) => AdmitKeepsValid(e, step);
    case Take(_) => TakeKeepsValid(e, step);
    case Leave(_) => LeaveKeepsValid(e, step);
    case EraseReturned(_) => EraseReturnedKeepsValid(e, step);
    case Finish => FinishKeepsValid(e, step);
    case Release => FinishKeepsValid(e, step);
    case Call(_, _) => WorkerKeepsValid(e, step);
    case MarkReturned(_) => WorkerKeepsValid(e, step);
    case Evaluate(_, _) => WorkerKeepsValid(e, step);
    case RecordThrow(_) => WorkerKeepsValid(e, step);
    case MarkSent(_) => WorkerKeepsValid(e, step);
    case _ => ReaperKeepsValid(e, step);
  }
}
