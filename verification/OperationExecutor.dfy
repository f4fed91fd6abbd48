/** `OperationExecutor` with its fields.  Each method is one critical section (or one call into
    RTT), performs exactly one step of the system in module Executor and keeps its invariant; any
    interleaving of the methods is a run of that system (`Interleave`). */
module OperationExecutors {
  import opened Prelude
  import opened Executor
  import opened ExecutorRuns
  import opened Verdicts

  datatype AdmitResult = Admitted | Refused | PushFailed

  class OperationExecutor {
    const width: nat
    var queue: seq<Id>
    var pending: seq<Id>
    var shutdown: bool
    var workers: seq<Worker>
    var reaper: Reaper
    var invocations: map<Id, Invocation>
    ghost var released: nat
    ghost var admitted: seq<Id>
    ghost var heard: map<Id, seq<Answer>>

    ghost function State(): Exec
      reads this
    {
      Exec(width, queue, pending, shutdown, workers, reaper, invocations, released, admitted, heard)
    }

    /** The state is one that the step system reaches, so everything said of its runs holds. */
    ghost predicate Valid()
      reads this
    {
      Reached(State())
    }

    constructor (w: nat)
      ensures Valid() && State() == New(w)
    {
      width, queue, pending, shutdown := w, [], [], false;
      workers, reaper := seq(w, i => Idle), Picking(0);
      invocations, released, admitted, heard := map[], 0, [], map[];
      new;
      NewIsReached(w);
    }

    /** `queue_.push_back` throws: what was pushed to `pending_` is taken back. */
    method PushAndRollBack(id: Id)
      modifies this`pending
      ensures pending == old(pending)
    {
      pending := pending + [id];
      DropLast(old(pending), id);
      pending := pending[..|pending| - 1];
    }

    method Push(id: Id, hasSend: bool, ghost cap: nat)
      requires Valid() && Enabled(State(), Step.Admit(id, hasSend, cap))
      modifies this
      ensures Valid() && State() == Apply(old(State()), Step.Admit(id, hasSend, cap))
    {
      StepReaches(State(), Step.Admit(id, hasSend, cap));
      pending := pending + [id];
      queue := queue + [id];
      invocations := invocations[id := NewInvocation(hasSend)];
      admitted, heard := admitted + [id], heard[id := []];
    }

    /** `pushFails` is `queue_.push_back` throwing. */
    method Admit(id: Id, hasSend: bool, cap: nat, pushFails: bool) returns (r: AdmitResult)
      requires Valid() && id !in invocations
      modifies this
      ensures Valid()
      ensures r.Refused? <==> old(shutdown) || |old(pending)| >= cap
      ensures r.PushFailed? <==> Accepts(old(State()), cap) && pushFails
      ensures State() == if r.Admitted? then Apply(old(State()), Step.Admit(id, hasSend, cap)) else old(State())
      ensures r.Admitted? ==>
        && pending == old(pending) + [id] && queue == old(queue) + [id]
        && id in invocations && Untouched(invocations[id]) && (invocations[id].hasSend <==> hasSend)
    {
      if shutdown || |pending| >= cap {
        return Refused;
      }
      if pushFails {
        PushAndRollBack(id);
        assert State() == old(State());
        return PushFailed;
      }
      Push(id, hasSend, cap);
      return Admitted;
    }

    /** The worker's wait: pops an invocation, or leaves once shut down with nothing queued.  What
        it pops was never dispatched and is now in this worker's hand alone. */
    method TakeNext(w: nat) returns (more: bool)
      requires Valid() && w < |workers| && workers[w].Idle? && (shutdown || queue != [])
      modifies this
      ensures Valid() && more == (old(queue) != [])
      ensures State() == Apply(old(State()), if more then Take(w) else Leave(w))
      ensures more ==> InHandOf(State(), w, old(queue)[0]) && Untouched(invocations[old(queue)[0]])
    {
      more := queue != [];
      StepReaches(State(), if more then Take(w) else Leave(w));
      if !more {
        workers := workers[w := Exited];
        return;
      }
      workers := workers[w := Taken(queue[0])];
      queue := queue[1..];
      HeldAlone(State(), w);
    }

    /** RTT's answer becomes part of the history. */
    ghost method Note(id: Id, answer: Answer)
      modifies this`heard
      ensures State() == Hear(old(State()), id, answer)
    {
      heard := heard[id := (if id in heard then heard[id] else []) + [answer]];
    }

    /** Runs a client-thread operation, for the first time. */
    method RunCall(w: nat, answer: Answer)
      requires Valid() && Enabled(State(), Call(w, answer))
      modifies this
      ensures Valid() && State() == Apply(old(State()), Call(w, answer))
      ensures InFlight(invocations[workers[w].id]) && InHandOf(State(), w, workers[w].id)
      ensures workers[w].Returned? && Means(State(), workers[w].id, workers[w].result)
    {
      StepReaches(State(), Call(w, answer));
      var id := workers[w].id;
      var result := 500;
      if answer.CallReturned? {
        result := if answer.ok then 200 else 503;
      } else if answer.sendStatus {
        result := 503;
      }
      invocations := invocations[id := Dispatch(invocations[id])];
      workers := workers[w := Returned(id, result)];
      Note(id, answer);
      HeldAlone(State(), w);
      ReturnedMeans(State(), w);
    }

    /** Sends an own-thread operation, for the first time; after an exception the status is set
        before `sent`. */
    method RunSend(w: nat, threw: bool)
      requires Valid() && Enabled(State(), Evaluate(w, threw))
      modifies this
      ensures Valid() && State() == Apply(old(State()), Evaluate(w, threw))
      ensures InFlight(invocations[workers[w].id]) && !invocations[workers[w].id].sent
      ensures InHandOf(State(), w, workers[w].id)
    {
      StepReaches(State(), Evaluate(w, threw));
      var id := workers[w].id;
      invocations := invocations[id := Dispatch(invocations[id])];
      workers := workers[w := if threw then Threw(id) else Evaluated(id)];
      Note(id, if threw then SendThrew else SendReturned);
      HeldAlone(State(), w);
    }

    /** The failure is on record before anybody else can see the invocation. */
    method RecordFailure(w: nat)
      requires Valid() && Enabled(State(), RecordThrow(w))
      modifies this
      ensures Valid() && State() == Apply(old(State()), RecordThrow(w))
      ensures invocations[workers[w].id].status == 500 && InHandOf(State(), w, workers[w].id)
    {
      StepReaches(State(), RecordThrow(w));
      var id := workers[w].id;
      invocations := invocations[id := invocations[id].(status := 500)];
      workers := workers[w := Evaluated(id)];
      HeldAlone(State(), w);
    }

    /** Lets go of an invocation that is dispatched: from now on it waits for the reaper. */
    method PublishSent(w: nat)
      requires Valid() && Enabled(State(), MarkSent(w))
      modifies this
      ensures Valid() && State() == Apply(old(State()), MarkSent(w))
      ensures var id := old(workers[w].id);
        id in pending && Parked(invocations[id]) && forall k :: 0 <= k < |workers| ==> Job(workers[k]) != Some(id)
    {
      HeldAlone(State(), w);
      StepReaches(State(), MarkSent(w));
      var id := workers[w].id;
      invocations := invocations[id := invocations[id].(sent := true)];
      workers := workers[w := Idle];
    }

    /** `finish`, called by a worker: first the invocation's own critical section.  It is settled,
        and still pending. */
    method FinishMark(w: nat)
      requires Valid() && Enabled(State(), MarkReturned(w))
      modifies this
      ensures Valid() && State() == Apply(old(State()), MarkReturned(w))
      ensures var id := old(workers[w].id); id in pending && Settled(invocations[id]) && pending == old(pending)
      ensures var id := old(workers[w].id); Means(State(), id, invocations[id].status)
    {
      StepReaches(State(), MarkReturned(w));
      var id := workers[w].id;
      invocations := invocations[id := FinishByWorker(invocations[id], workers[w].result)];
      workers := workers[w := Marked(id)];
      HeldAlone(State(), w);
      CompleteMeans(State(), id);
    }

    /** Then the executor's critical section: exactly this settled invocation leaves. */
    method FinishErase(w: nat)
      requires Valid() && Enabled(State(), EraseReturned(w))
      modifies this
      ensures Valid() && State() == Apply(old(State()), EraseReturned(w))
      ensures var id := old(workers[w].id); Left(old(State()), State(), id)
    {
      EraseLeaves(State(), w);
      StepReaches(State(), EraseReturned(w));
      pending, released := Erase(pending, workers[w].id), released + 1;
      workers := workers[w := Idle];
      assert State() == Apply(old(State()), EraseReturned(w));
    }

    /** The reaper looks at the entry under its index. */
    method PickCandidate()
      requires Valid() && reaper.Picking?
      modifies this
      ensures Valid() && State() == Apply(old(State()), Pick)
    {
      StepReaches(State(), Pick);
      var index := reaper.index;
      if index >= |pending| {
        reaper := PassDone;
      } else {
        reaper := Checking(pending[index], index + 1);
      }
    }

    /** The reaper claims an entry exactly when it is parked; then it holds it alone. */
    method CheckCandidate()
      requires Valid() && Enabled(State(), Check)
      modifies this
      ensures Valid() && State() == Apply(old(State()), Check)
      ensures reaper.Polling? <==> old(reaper.id in pending && Parked(invocations[reaper.id]))
      ensures reaper.Polling? ==> ClaimedAlone(State())
    {
      StepReaches(State(), Check);
      SentMeansParked(State(), reaper.id);
      var v := invocations[reaper.id];
      if v.sent && !v.complete {
        reaper := Polling(reaper.id, reaper.index);
        ClaimHolds(State());
      } else {
        reaper := Picking(reaper.index);
      }
    }

    method Collect(collected: Collected)
      requires Valid() && reaper.Polling?
      modifies this
      ensures Valid() && State() == Apply(old(State()), Poll(collected))
    {
      StepReaches(State(), Poll(collected));
      if !collected.NotReady? {
        Note(reaper.id, CollectAnswer(collected));
      }
      match collected
      case NotReady => reaper := Picking(reaper.index);
      case Success => reaper := Reading(reaper.id, true, reaper.index);
      case Failure => reaper := Reading(reaper.id, false, reaper.index);
      case Exception => reaper := Finishing(reaper.id, 500, reaper.index);
    }

    /** Decides the status: it tells what RTT answered to the send and to its collection. */
    method ReadStatus()
      requires Valid() && Enabled(State(), Read)
      modifies this
      ensures Valid() && State() == Apply(old(State()), Read)
      ensures reaper.Finishing? && Means(State(), reaper.id, reaper.result)
    {
      StepReaches(State(), Read);
      var result := invocations[reaper.id].status;
      reaper := Finishing(reaper.id, if result == 500 then 500 else if reaper.success then 200 else 503, reaper.index);
      DecidedMeans(State());
    }

    /** `finish`, called by the reaper. */
    method ReaperMark()
      requires Valid() && Enabled(State(), Finish)
      modifies this
      ensures Valid() && State() == Apply(old(State()), Finish)
      ensures reaper.Erasing? && reaper.id in pending && Settled(invocations[reaper.id]) && pending == old(pending)
      ensures Means(State(), reaper.id, invocations[reaper.id].status)
    {
      StepReaches(State(), Finish);
      invocations := invocations[reaper.id := FinishByReaper(invocations[reaper.id], reaper.result)];
      reaper := Erasing(reaper.id, reaper.index);
      ClaimHolds(State());
      CompleteMeans(State(), reaper.id);
    }

    method ReaperErase()
      requires Valid() && reaper.Erasing?
      modifies this
      ensures Valid() && State() == Apply(old(State()), Release)
      ensures Left(old(State()), State(), old(reaper.id))
    {
      ReleaseLeaves(State());
      StepReaches(State(), Release);
      pending, released := Erase(pending, reaper.id), released + 1;
      reaper := Picking(reaper.index);
    }

    method EndOfPass()
      requires Valid() && reaper.PassDone?
      modifies this
      ensures Valid() && State() == Apply(old(State()), EndPass)
    {
      StepReaches(State(), EndPass);
      reaper := if shutdown then ReaperExited else Picking(0);
    }

    method BeginShutdown()
      requires Valid()
      modifies this
      ensures Valid() && State() == Apply(old(State()), SetShutdown)
    {
      StepReaches(State(), SetShutdown);
      shutdown := true;
    }

    // ----- Any interleaving of the critical sections -----

    method WorkerStep(step: Step)
      requires Valid() && Enabled(State(), step)
      requires step.Take? || step.Leave? || step.Call? || step.MarkReturned? || step.EraseReturned? || step.Evaluate?
            || step.RecordThrow? || step.MarkSent?
      modifies this
      ensures Valid() && State() == Apply(old(State()), step)
    {
      if step.Call? {
        RunCall(step.w, step.answer);
      } else if step.MarkReturned? {
        FinishMark(step.w);
      } else if step.EraseReturned? {
        FinishErase(step.w);
      } else if step.Evaluate? {
        RunSend(step.w, step.threw);
      } else if step.RecordThrow? {
        RecordFailure(step.w);
      } else if step.MarkSent? {
        PublishSent(step.w);
      } else {
        var _ := TakeNext(step.w);
      }
    }

    method Perform(step: Step)
      requires Valid() && Enabled(State(), step)
      modifies this
      ensures Valid() && State() == Apply(old(State()), step)
    {
      match step
      case Admit(id, hasSend, cap) => var _ := Admit(id, hasSend, cap, false);
      case Pick => PickCandidate();
      case Check => CheckCandidate();
      case Poll(collected) => Collect(collected);
      case Read => ReadStatus();
      case Finish => ReaperMark();
      case Release => ReaperErase();
      case EndPass => EndOfPass();
      case SetShutdown => BeginShutdown();
      case _ => WorkerStep(step);
    }

    /** The methods, called in any order that their guards allow, perform a run of the step system,
        and every run can be performed by them. */
    method Interleave(steps: seq<Step>)
      requires Valid() && Legal(State(), steps)
      modifies this
      ensures Valid() && State() == After(old(State()), steps)
    {
      for n := 0 to |steps|
        invariant Valid() && Legal(State(), steps[n..]) && After(State(), steps[n..]) == After(old(State()), steps)
      {
        assert steps[n..][1..] == steps[n + 1..];
        Perform(steps[n]);
      }
      assert steps[|steps|..] == [];
    }

    // ----- The reaper on its own -----

    /** The rest of a turn, once the reaper has claimed an entry. */
    method FinishCandidate(collected: Collected)
      requires Valid() && reaper.Polling?
      modifies this
      ensures Valid() && old(reaper.id) in old(invocations) && State() == Settle(old(State()), collected)
    {
      ReachedIsScannable(State());
      Collect(collected);
      if reaper.Reading? {
        ReadStatus();
      }
      if reaper.Finishing? {
        ReaperMark();
        ReaperErase();
      }
    }

    /** One turn of the reaper's scan, from its index to the next, with no other thread running. */
    method ServeCandidate(collect: Id -> Collected)
      requires Valid() && reaper.Picking? && reaper.index < |pending|
      modifies this
      ensures Valid() && Scannable(old(State())) && State() == Turn(old(State()), collect)
    {
      ReachedIsScannable(State());
      PickCandidate();
      CheckCandidate();
      if reaper.Polling? {
        FinishCandidate(collect(reaper.id));
      }
    }

    method ServeNext(collect: Id -> Collected, ghost start: Exec, ghost head: seq<Id>, ghost tail: seq<Id>)
      returns (ghost nextHead: seq<Id>, ghost nextTail: seq<Id>)
      requires Valid() && Passing(start, State(), collect, head, tail) && reaper.index < |pending|
      modifies this
      ensures Valid() && Passing(start, State(), collect, nextHead, nextTail) && |nextTail| < |tail|
    {
      ghost var ready := Ready(start, collect, tail[0]);
      PassStep(start, State(), collect, head, tail);
      ServeCandidate(collect);
      nextHead, nextTail := NextHead(head, tail, ready), NextTail(tail, ready);
    }

    /** One pass of the reaper during which no other thread runs. */
    method ReapPass(collect: Id -> Collected)
      requires Valid() && reaper == Picking(0)
      modifies this
      ensures Valid() && reaper == PassDone && shutdown == old(shutdown)
      ensures pending == AfterPass(old(State()), collect, old(pending))
      ensures released == old(released) + |old(pending)| - |pending|
      ensures Survivors(old(State()), State())
    {
      ghost var start := State();
      ghost var head, tail := [], pending;
      ReachedIsScannable(start);
      PassBegins(start, collect);
      while reaper.index < |pending|
        invariant Valid() && Passing(start, State(), collect, head, tail)
        decreases |tail|
      {
        head, tail := ServeNext(collect, start, head, tail);
      }
      PassEnds(start, State(), collect, head, tail);
      PickCandidate();
    }

    /** The reaper is about to begin a pass, and would finish everything it comes to. */
    ghost predicate AllReady(collect: Id -> Collected)
      reads this
    {
      Valid() && reaper == Picking(0) && !shutdown && forall id :: id in pending ==> Ready(State(), collect, id)
    }

    /** A pass over entries that are all ready, and the pause after it. */
    method PassOverReady(collect: Id -> Collected)
      requires Valid() && reaper == Picking(0) && !shutdown
      requires forall id :: id in pending ==> Ready(State(), collect, id)
      modifies this
      ensures Valid() && reaper == Picking(0) && !shutdown && |pending| == |old(pending)| / 2
      ensures released == old(released) + |old(pending)| - |pending|
      ensures forall id :: id in pending ==> Ready(State(), collect, id)
    {
      ghost var start := State();
      PassHalves(start, collect, pending);
      ReapPass(collect);
      SurvivorsReady(start, State(), collect);
      EndOfPass();
    }

    /** Fewer than 2^k entries become fewer than 2^(k-1). */
    method HalvePending(collect: Id -> Collected, ghost k: nat)
      requires AllReady(collect) && pending != [] && |pending| < Power2(k)
      modifies this
      ensures AllReady(collect) && k > 0 && |pending| < Power2(k - 1) && |pending| < |old(pending)|
      ensures released + |pending| == old(released) + |old(pending)|
    {
      Halves(|pending|, k);
      PassOverReady(collect);
    }

    /** Passes repeated over entries that are all ready: the list is empty after no more passes than
        it takes to halve its length away. */
    method DrainByPasses(collect: Id -> Collected, bound: nat) returns (passes: nat)
      requires AllReady(collect) && |pending| < Power2(bound)
      modifies this
      ensures AllReady(collect) && pending == [] && passes <= bound
      ensures released == old(released) + |old(pending)|
    {
      passes := 0;
      ghost var left, total := bound, released + |pending|;
      while pending != []
        invariant AllReady(collect) && passes + left == bound
        invariant |pending| < Power2(left) && released + |pending| == total
        decreases |pending|
      {
        HalvePending(collect, left);
        passes, left := passes + 1, left - 1;
      }
    }
  }

  lemma Halves(n: nat, k: nat)
    requires 0 < n < Power2(k)
    ensures k > 0 && n / 2 < Power2(k - 1) && n / 2 < n
  {}

  /** This worker, and nobody else, has the invocation. */
  ghost predicate InHandOf(e: Exec, w: nat, id: Id) {
    && w < |e.workers| && Job(e.workers[w]) == Some(id) && Holds(e, id) && id !in e.queue
    && ReaperJob(e.reaper) != Some(id)
    && forall k :: 0 <= k < |e.workers| && k != w ==> Job(e.workers[k]) != Some(id)
  }

  lemma HeldAlone(e: Exec, w: nat)
    requires Reached(e) && w < |e.workers| && Job(e.workers[w]).Some?
    ensures InHandOf(e, w, e.workers[w].id) && WorkerOk(e, e.workers[w])
  {
    ReachedIsSound(e);
    WorkerOwns(e, w);
  }

  ghost predicate ClaimedAlone(e: Exec) {
    ReaperJob(e.reaper).Some? && Holds(e, e.reaper.id) && e.reaper.id !in e.queue
    && forall k :: 0 <= k < |e.workers| ==> Job(e.workers[k]) != Some(e.reaper.id)
  }

  /** Exactly this invocation has left `pending_`, and it is settled. */
  ghost predicate Left(e: Exec, f: Exec, id: Id) {
    && id in e.pending && id in f.invocations && Settled(f.invocations[id]) && f.invocations == e.invocations
    && |f.pending| == |e.pending| - 1 && forall other :: other in f.pending <==> other in e.pending && other != id
  }

  lemma EraseLeaves(e: Exec, w: nat)
    requires Reached(e) && Enabled(e, EraseReturned(w))
    ensures Left(e, Apply(e, EraseReturned(w)), e.workers[w].id)
  {
    ReachedIsSound(e);
    assert WorkerOk(e, e.workers[w]);
    EraseDistinct(e.pending, e.workers[w].id);
  }

  lemma ReleaseLeaves(e: Exec)
    requires Reached(e) && e.reaper.Erasing?
    ensures Left(e, Apply(e, Release), e.reaper.id)
  {
    ClaimHolds(e);
    ReachedIsScannable(e);
    EraseDistinct(e.pending, e.reaper.id);
  }

  lemma ClaimHolds(e: Exec)
    requires Reached(e) && ReaperJob(e.reaper).Some?
    ensures ClaimedAlone(e) && ReaperOk(e)
  {
    ReachedIsSound(e);
    ReaperOwns(e);
  }

  /** RTT was asked what this invocation's kind prescribes, and the status says what it answered. */
  ghost predicate Means(e: Exec, id: Id, status: int) {
    && id in e.invocations && id in e.heard
    && Asked(e.invocations[id].hasSend, e.heard[id]) && Verdict(e.heard[id], status)
  }

  lemma ReturnedMeans(e: Exec, w: nat)
    requires Reached(e) && w < |e.workers| && e.workers[w].Returned?
    ensures Means(e, e.workers[w].id, e.workers[w].result)
  {
    ReachedIsSound(e);
    assert WorkerTold(e, e.workers[w]) && WorkerOk(e, e.workers[w]);
  }

  lemma DecidedMeans(e: Exec)
    requires Reached(e) && e.reaper.Finishing?
    ensures Means(e, e.reaper.id, e.reaper.result)
  {
    ReachedIsSound(e);
    assert ReaperTold(e);
  }

  lemma CompleteMeans(e: Exec, id: Id)
    requires Reached(e) && id in e.invocations && e.invocations[id].complete
    ensures Means(e, id, e.invocations[id].status)
  {
    ReachedIsSound(e);
    assert InvocationTold(e.invocations[id], e.heard[id]);
  }

  /** What is sent and not complete is parked in the list. */
  lemma SentMeansParked(e: Exec, id: Id)
    requires Reached(e) && id in e.invocations
    ensures e.invocations[id].sent && !e.invocations[id].complete <==> id in e.pending && Parked(e.invocations[id])
  {
    ReachedIsSound(e);
    if id in e.pending {
      assert Located(e, id);
      if w :| 0 <= w < |e.workers| && Job(e.workers[w]) == Some(id) {
        assert WorkerOk(e, e.workers[w]);
      }
    } else {
      assert Settled(e.invocations[id]);
    }
  }

  /** Half way through a pass: what the index has passed, and what is still ahead of it. */
  ghost predicate Passing(start: Exec, e: Exec, collect: Id -> Collected, head: seq<Id>, tail: seq<Id>) {
    && Scannable(e) && e.reaper.Picking? && e.pending == head + tail
    && (e.reaper.index == |head| || (tail == [] && e.reaper.index > |head|))
    && AfterPass(start, collect, start.pending) == head + AfterPass(start, collect, tail)
    && e.invocations.Keys == start.invocations.Keys
    && Survivors(start, e)
    && e.released == start.released + |start.pending| - |e.pending| && e.shutdown == start.shutdown
  }

  lemma PassEnds(start: Exec, e: Exec, collect: Id -> Collected, head: seq<Id>, tail: seq<Id>)
    requires Passing(start, e, collect, head, tail) && e.reaper.index >= |e.pending|
    ensures e.pending == AfterPass(start, collect, start.pending)
  {
    assert tail == [];
    assert head + [] == head;
  }

  lemma PassBegins(e: Exec, collect: Id -> Collected)
    requires Scannable(e) && e.reaper == Picking(0)
    ensures Passing(e, e, collect, [], e.pending)
  {
    assert [] + e.pending == e.pending;
    assert [] + AfterPass(e, collect, e.pending) == AfterPass(e, collect, e.pending);
  }

  /** What is in the list was there at the start and has not been touched since. */
  ghost predicate Survivors(start: Exec, e: Exec) {
    forall id :: id in e.pending ==>
      id in start.pending && id in start.invocations && id in e.invocations && e.invocations[id] == start.invocations[id]
  }

  lemma SurvivorsReady(start: Exec, e: Exec, collect: Id -> Collected)
    requires Survivors(start, e) && forall id :: id in start.pending ==> Ready(start, collect, id)
    ensures forall id :: id in e.pending ==> Ready(e, collect, id)
  {}

  lemma TurnLeaves(start: Exec, e: Exec, collect: Id -> Collected)
    requires Scannable(e) && e.reaper.Picking? && e.reaper.index < |e.pending|
    requires Survivors(start, e)
    ensures Survivors(start, Turn(e, collect))
  {
    TurnFacts(e, collect);
    var f, here := Turn(e, collect), e.pending[e.reaper.index];
    if Ready(e, collect, here) {
      EraseAt(e.pending, e.reaper.index);
      EraseDistinct(e.pending, here);
    }
  }

  lemma PassStep(start: Exec, e: Exec, collect: Id -> Collected, head: seq<Id>, tail: seq<Id>)
    requires Passing(start, e, collect, head, tail) && e.reaper.index < |e.pending|
    ensures tail != []
    ensures var ready := Ready(start, collect, tail[0]);
      Passing(start, Turn(e, collect), collect, NextHead(head, tail, ready), NextTail(tail, ready))
  {
    var ready := Ready(start, collect, tail[0]);
    PassAdvances(start, collect, head, tail);
    SplitAdvances(head, tail, ready);
    assert e.pending[e.reaper.index] == tail[0];
    TurnLeaves(start, e, collect);
    TurnFacts(e, collect);
  }

  /** The part of `Valid` that a scan relies on. */
  ghost predicate Scannable(e: Exec) {
    Distinct(e.pending) && forall id :: id in e.pending ==> id in e.invocations
  }

  lemma ReachedIsScannable(e: Exec)
    requires Reached(e)
    ensures Scannable(e) && (ReaperJob(e.reaper).Some? ==> e.reaper.id in e.invocations)
  {
    ReachedIsSound(e);
  }

  /** From a claimed entry to the next pick. */
  ghost function Settle(e: Exec, collected: Collected): Exec
    requires e.reaper.Polling? && e.reaper.id in e.invocations
  {
    var polled := Apply(e, Poll(collected));
    if polled.reaper.Picking? then polled
    else
      var decided := if polled.reaper.Reading? then Apply(polled, Read) else polled;
      Apply(Apply(decided, Finish), Release)
  }

  ghost function Turn(e: Exec, collect: Id -> Collected): Exec
    requires Scannable(e) && e.reaper.Picking? && e.reaper.index < |e.pending|
  {
    var checked := Apply(Apply(e, Pick), Check);
    if checked.reaper.Polling? then Settle(checked, collect(checked.reaper.id)) else checked
  }

  lemma SettleFacts(e: Exec, collected: Collected)
    requires e.reaper.Polling? && e.reaper.id in e.invocations
    ensures var f := Settle(e, collected);
      && f.reaper == Picking(e.reaper.index)
      && f.pending == (if collected.NotReady? then e.pending else Erase(e.pending, e.reaper.id))
      && f.released == e.released + (if collected.NotReady? then 0 else 1)
      && f.invocations.Keys == e.invocations.Keys && f.shutdown == e.shutdown
      && (collected.NotReady? ==> f.invocations == e.invocations)
      && forall id :: id in f.invocations && id != e.reaper.id ==> f.invocations[id] == e.invocations[id]
   {
    if !collected.NotReady? {
      CollectedSettles(e, collected);
    }
  }

  lemma CollectedSettles(e: Exec, collected: Collected)
    requires e.reaper.Polling? && e.reaper.id in e.invocations && !collected.NotReady?
    ensures var f, id := Settle(e, collected), e.reaper.id;
      && f.reaper == Picking(e.reaper.index) && f.pending == Erase(e.pending, id) && f.released == e.released + 1
      && f.shutdown == e.shutdown && id in f.invocations && f.invocations == e.invocations[id := f.invocations[id]]
  {
    var polled := Apply(e, Poll(collected));
    var decided := if polled.reaper.Reading? then Apply(polled, Read) else polled;
    assert decided.reaper.Finishing? && decided.reaper.id == e.reaper.id && decided.reaper.index == e.reaper.index;
    assert decided.invocations == e.invocations && decided.pending == e.pending && decided.shutdown == e.shutdown;
    assert decided.released == e.released;
  }

  /** A turn drops the entry under the index if it is ready, and touches no other. */
  lemma TurnFacts(e: Exec, collect: Id -> Collected)
    requires Scannable(e) && e.reaper.Picking? && e.reaper.index < |e.pending|
    ensures var f, here := Turn(e, collect), e.pending[e.reaper.index];
      && Scannable(f) && f.reaper == Picking(e.reaper.index + 1)
      && f.pending == Without(e.pending, e.reaper.index, Ready(e, collect, here))
      && f.released == e.released + |e.pending| - |f.pending| && f.shutdown == e.shutdown
      && f.invocations.Keys == e.invocations.Keys && (!Ready(e, collect, here) ==> f.invocations == e.invocations)
      && forall id :: id in f.invocations && id != here ==> f.invocations[id] == e.invocations[id]
  {
    EraseAt(e.pending, e.reaper.index);
    EraseDistinct(e.pending, e.pending[e.reaper.index]);
    var checked := Apply(Apply(e, Pick), Check);
    if checked.reaper.Polling? {
      SettleFacts(checked, collect(checked.reaper.id));
    }
  }

  function Without(s: seq<Id>, i: nat, drop: bool): seq<Id>
    requires i < |s|
  {
    if drop then s[..i] + s[i + 1..] else s
  }

  /** The part of the list the reaper's index has passed, after a turn on tail[0]. */
  function NextHead(head: seq<Id>, tail: seq<Id>, ready: bool): seq<Id>
    requires tail != []
  {
    if !ready then head + [tail[0]] else if |tail| == 1 then head else head + [tail[1]]
  }

  function NextTail(tail: seq<Id>, ready: bool): seq<Id>
    requires tail != []
  {
    if ready && |tail| > 1 then tail[2..] else tail[1..]
  }

  lemma SplitAdvances(head: seq<Id>, tail: seq<Id>, ready: bool)
    requires tail != []
    ensures (head + tail)[|head|] == tail[0]
    ensures NextHead(head, tail, ready) + NextTail(tail, ready) == Without(head + tail, |head|, ready)
  {
    if ready && |tail| > 1 {
      assert tail[1..] == [tail[1]] + tail[2..];
    }
  }

  lemma PassAdvances(e: Exec, collect: Id -> Collected, head: seq<Id>, tail: seq<Id>)
    requires tail != []
    ensures var ready := Ready(e, collect, tail[0]);
      head + AfterPass(e, collect, tail) == NextHead(head, tail, ready) + AfterPass(e, collect, NextTail(tail, ready))
  {
    if !Ready(e, collect, tail[0]) {
      Associate(head, [tail[0]], AfterPass(e, collect, tail[1..]));
    } else if |tail| > 1 {
      Associate(head, [tail[1]], AfterPass(e, collect, tail[2..]));
    }
  }

  /** The reaper would finish this entry when it reaches it. */
  ghost predicate Ready(e: Exec, collect: Id -> Collected, id: Id) {
    id in e.invocations && e.invocations[id].sent && !e.invocations[id].complete && !collect(id).NotReady?
  }

  /** The list left by an undisturbed pass: finishing an entry shifts its successor under the
      index just left behind, so the successor is skipped. */
  ghost function AfterPass(e: Exec, collect: Id -> Collected, s: seq<Id>): (r: seq<Id>) {
    if s == [] then []
    else if !Ready(e, collect, s[0]) then [s[0]] + AfterPass(e, collect, s[1..])
    else if |s| == 1 then []
    else [s[1]] + AfterPass(e, collect, s[2..])
  }

  // ----- How much a pass finishes -----

  /** A pass over n entries that are all ready finishes ceil(n/2) of them: every other one. */
  lemma {:induction false} PassHalves(e: Exec, collect: Id -> Collected, s: seq<Id>)
    requires forall id :: id in s ==> Ready(e, collect, id)
    ensures |AfterPass(e, collect, s)| == |s| / 2
    ensures forall i :: 0 <= i < |s| / 2 ==> AfterPass(e, collect, s)[i] == s[2 * i + 1]
  {
    if |s| > 1 {
      PassHalves(e, collect, s[2..]);
    }
  }

  function Power2(n: nat): nat {
    if n == 0 then 1 else 2 * Power2(n - 1)
  }
}
