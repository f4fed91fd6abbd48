/** What the final status of an invocation says about what RTT answered, and in which order
    invocations are served. */
module Verdicts {
  import opened Prelude
  import opened Executor
  import opened ExecutorRuns

  // ----- What a status means -----

  /** RTT threw, and not just a SendStatus, its way of reporting failure. */
  predicate Threw(a: Answer) {
    a.SendThrew? || a.CollectThrew? || (a.CallThrew? && !a.sendStatus)
  }

  predicate ReportedSuccess(a: Answer) {
    (a.CallReturned? || a.CollectReported?) && a.ok
  }

  /** 500 if and only if RTT threw, 200 if and only if it reported success and nothing threw, 503
      otherwise. */
  ghost predicate Verdict(heard: seq<Answer>, status: int) {
    var thrown := exists a :: a in heard && Threw(a);
    var success := exists a :: a in heard && ReportedSuccess(a);
    && (status == 500 <==> thrown)
    && (status == 200 <==> success && !thrown)
    && (status == 503 <==> !success && !thrown)
  }

  /** RTT was asked everything it had to be asked, once: a call, or a send and then its collection. */
  predicate Asked(hasSend: bool, heard: seq<Answer>) {
    if hasSend then |heard| == 2 && (heard[0].SendReturned? || heard[0].SendThrew?)
                    && (heard[1].CollectReported? || heard[1].CollectThrew?)
    else |heard| == 1 && (heard[0].CallReturned? || heard[0].CallThrew?)
  }

  /** Sent, and what the send did is on record. */
  predicate SendTold(v: Invocation, heard: seq<Answer>) {
    (heard == [SendReturned] && v.status == 200) || (heard == [SendThrew] && v.status == 500)
  }

  /** The send is on record, and its collection has been answered. */
  predicate CollectHeard(v: Invocation, heard: seq<Answer>) {
    |heard| == 2 && SendTold(v, [heard[0]]) && (heard[1].CollectReported? || heard[1].CollectThrew?)
  }

  ghost predicate InvocationTold(v: Invocation, heard: seq<Answer>) {
    && (v.complete ==> Asked(v.hasSend, heard) && Verdict(heard, v.status))
    && (Untouched(v) ==> heard == [] && v.status == 200)
  }

  ghost predicate WorkerTold(e: Exec, w: Worker) {
    match w
    case Returned(id, result) => id in e.heard && Asked(false, e.heard[id]) && Verdict(e.heard[id], result)
    case Threw(id) => id in e.heard && e.heard[id] == [SendThrew]
    case Evaluated(id) => id in e.heard && id in e.invocations && SendTold(e.invocations[id], e.heard[id])
    case _ => true
  }

  /** The reaper has an answer for this invocation. */
  predicate Answered(r: Reaper, id: Id) {
    (r.Reading? || r.Finishing?) && r.id == id
  }

  ghost predicate ReaperTold(e: Exec) {
    match e.reaper
    case Reading(id, success, _) =>
      id in e.heard && id in e.invocations && CollectHeard(e.invocations[id], e.heard[id])
      && e.heard[id][1] == CollectReported(success)
    case Finishing(id, result, _) =>
      id in e.heard && Asked(true, e.heard[id]) && Verdict(e.heard[id], result)
    case _ => true
  }

  ghost predicate ParkedTold(e: Exec, id: Id)
    requires id in e.invocations && id in e.heard
  {
    Parked(e.invocations[id]) && !Answered(e.reaper, id) ==> SendTold(e.invocations[id], e.heard[id])
  }

  ghost predicate Told(e: Exec) {
    && e.heard.Keys == e.invocations.Keys
    && (forall id :: id in e.invocations ==> InvocationTold(e.invocations[id], e.heard[id]) && ParkedTold(e, id))
    && (forall w :: 0 <= w < |e.workers| ==> WorkerTold(e, e.workers[w]))
    && ReaperTold(e)
  }

  lemma NewIsTold(width: nat)
    ensures Told(New(width)) && InTurn(New(width))
  {}

  // ----- One answer -----

  lemma CallVerdict(answer: Answer)
    requires answer.CallReturned? || answer.CallThrew?
    ensures Verdict([answer], CallStatus(answer)) && Asked(false, [answer])
  {
    assert answer in [answer];
  }

  /** The reaper reads the recorded status together with what the collection reported. */
  lemma ReadVerdict(v: Invocation, heard: seq<Answer>, success: bool)
    requires CollectHeard(v, heard) && heard[1] == CollectReported(success)
    ensures Verdict(heard, if v.status == 500 then 500 else if success then 200 else 503) && Asked(true, heard)
  {
    assert heard[0] in heard && heard[1] in heard;
  }

  lemma ThrownVerdict(v: Invocation, heard: seq<Answer>)
    requires CollectHeard(v, heard) && heard[1].CollectThrew?
    ensures Verdict(heard, 500) && Asked(true, heard)
  {
    assert heard[1] in heard;
  }

  // ----- Every step keeps the record -----

  /** One invocation changes, in the hand of one worker. */
  lemma WorkerStepTold(e: Exec, f: Exec, w: nat, id: Id)
    requires Valid(e) && Told(e) && w < |e.workers| && Job(e.workers[w]) == Some(id)
    requires w < |f.workers| && f.workers == e.workers[w := f.workers[w]] && f.reaper == e.reaper
    requires id in f.invocations && f.invocations == e.invocations[id := f.invocations[id]]
    requires id in f.heard && f.heard == e.heard[id := f.heard[id]]
    requires InvocationTold(f.invocations[id], f.heard[id])
    requires Parked(f.invocations[id]) ==> SendTold(f.invocations[id], f.heard[id])
    requires WorkerTold(f, f.workers[w])
    ensures Told(f)
  {
    WorkerOwns(e, w);
    assert f.heard.Keys == e.heard.Keys && f.invocations.Keys == e.invocations.Keys;
    forall k | 0 <= k < |f.workers| ensures WorkerTold(f, f.workers[k]) {
      if k != w {
        assert WorkerTold(e, e.workers[k]);
        assert Job(e.workers[k]).Some? ==> Job(e.workers[k]) != Some(id);
      }
    }
    assert ReaperTold(e);
    forall other | other in f.invocations
      ensures InvocationTold(f.invocations[other], f.heard[other]) && ParkedTold(f, other)
    {
      assert other != id ==> InvocationTold(e.invocations[other], e.heard[other]) && ParkedTold(e, other);
    }
  }

  lemma CallTold(e: Exec, step: Step)
    requires Valid(e) && Told(e) && Enabled(e, step) && step.Call?
    ensures Told(Apply(e, step))
  {
    var id, f := e.workers[step.w].id, Apply(e, step);
    assert WorkerOk(e, e.workers[step.w]) && InvocationTold(e.invocations[id], e.heard[id]);
    assert [] + [step.answer] == [step.answer];
    CallVerdict(step.answer);
    WorkerStepTold(e, f, step.w, id);
  }

  lemma EvaluateTold(e: Exec, step: Step)
    requires Valid(e) && Told(e) && Enabled(e, step) && step.Evaluate?
    ensures Told(Apply(e, step))
  {
    var id, f := e.workers[step.w].id, Apply(e, step);
    assert WorkerOk(e, e.workers[step.w]) && InvocationTold(e.invocations[id], e.heard[id]);
    assert forall a: Answer :: [] + [a] == [a];
    WorkerStepTold(e, f, step.w, id);
  }

  lemma MarkTold(e: Exec, step: Step)
    requires Valid(e) && Told(e) && Enabled(e, step) && step.MarkReturned?
    ensures Told(Apply(e, step))
  {
    var id, f := e.workers[step.w].id, Apply(e, step);
    assert WorkerOk(e, e.workers[step.w]) && WorkerTold(e, e.workers[step.w]);
    SameEntry(e.heard, id);
    WorkerStepTold(e, f, step.w, id);
  }

  lemma SentTold(e: Exec, step: Step)
    requires Valid(e) && Told(e) && Enabled(e, step) && (step.RecordThrow? || step.MarkSent?)
    ensures Told(Apply(e, step))
  {
    var id, f := e.workers[step.w].id, Apply(e, step);
    assert WorkerOk(e, e.workers[step.w]) && WorkerTold(e, e.workers[step.w]);
    SameEntry(e.heard, id);
    WorkerStepTold(e, f, step.w, id);
  }

  lemma SameEntry<V>(m: map<Id, V>, id: Id)
    requires id in m
    ensures m == m[id := m[id]]
  {}

  /** A worker takes, leaves or erases: nothing is heard, no invocation changes. */
  lemma HandsTold(e: Exec, f: Exec)
    requires Told(e) && f.invocations == e.invocations && f.heard == e.heard && f.reaper == e.reaper
    requires |f.workers| == |e.workers|
    requires forall k :: 0 <= k < |f.workers| ==>
      f.workers[k] == e.workers[k] || f.workers[k].Idle? || f.workers[k].Taken? || f.workers[k].Exited?
    ensures Told(f)
  {
    forall k | 0 <= k < |f.workers| ensures WorkerTold(f, f.workers[k]) {
      assert WorkerTold(e, e.workers[k]);
    }
    forall id | id in f.invocations ensures InvocationTold(f.invocations[id], f.heard[id]) && ParkedTold(f, id) {
      assert InvocationTold(e.invocations[id], e.heard[id]) && ParkedTold(e, id);
    }
  }

  lemma AdmitTold(e: Exec, step: Step)
    requires Valid(e) && Told(e) && Enabled(e, step) && step.Admit?
    ensures Told(Apply(e, step))
  {
    var f := Apply(e, step);
    assert f.heard.Keys == f.invocations.Keys;
    forall k | 0 <= k < |f.workers| ensures WorkerTold(f, f.workers[k]) {
      assert WorkerOk(e, e.workers[k]) && WorkerTold(e, e.workers[k]);
    }
    forall id | id in f.invocations ensures InvocationTold(f.invocations[id], f.heard[id]) && ParkedTold(f, id) {
      assert id != step.id ==> InvocationTold(e.invocations[id], e.heard[id]) && ParkedTold(e, id);
    }
    assert ReaperTold(e);
  }

  /** The reaper moves; at most the one invocation it holds changes. */
  lemma ReaperStepTold(e: Exec, f: Exec, id: Id)
    requires Valid(e) && Told(e) && ReaperJob(e.reaper) == Some(id)
    requires f.workers == e.workers && id in f.invocations && id in f.heard
    requires f.invocations == e.invocations[id := f.invocations[id]] && f.heard == e.heard[id := f.heard[id]]
    requires f.reaper.Picking? || (ReaperJob(f.reaper) == Some(id))
    requires InvocationTold(f.invocations[id], f.heard[id]) && ParkedTold(f, id) && ReaperTold(f)
    ensures Told(f)
  {
    ReaperOwns(e);
    assert f.heard.Keys == e.heard.Keys && f.invocations.Keys == e.invocations.Keys;
    forall k | 0 <= k < |f.workers| ensures WorkerTold(f, f.workers[k]) {
      assert WorkerTold(e, e.workers[k]) && Job(e.workers[k]) != Some(id);
    }
    forall other | other in f.invocations
      ensures InvocationTold(f.invocations[other], f.heard[other]) && ParkedTold(f, other)
    {
      assert other != id ==> InvocationTold(e.invocations[other], e.heard[other]) && ParkedTold(e, other);
    }
  }

  lemma PollTold(e: Exec, step: Step)
    requires Valid(e) && Told(e) && Enabled(e, step) && step.Poll?
    ensures Told(Apply(e, step))
  {
    var id, f := e.reaper.id, Apply(e, step);
    ReaperOwns(e);
    assert InvocationTold(e.invocations[id], e.heard[id]) && ParkedTold(e, id);
    if step.collected.NotReady? {
      assert f.heard == e.heard[id := e.heard[id]] && f.invocations == e.invocations[id := e.invocations[id]];
    } else {
      assert SendTold(e.invocations[id], e.heard[id]);
      assert [f.heard[id][0]] == e.heard[id];
      assert CollectHeard(f.invocations[id], f.heard[id]);
      if step.collected.Exception? {
        ThrownVerdict(f.invocations[id], f.heard[id]);
      }
      assert f.invocations == e.invocations[id := e.invocations[id]];
    }
    ReaperStepTold(e, f, id);
  }

  lemma ReadTold(e: Exec)
    requires Valid(e) && Told(e) && Enabled(e, Read)
    ensures Told(Apply(e, Read))
  {
    var id := e.reaper.id;
    ReaperOwns(e);
    assert InvocationTold(e.invocations[id], e.heard[id]) && ReaperTold(e);
    ReadVerdict(e.invocations[id], e.heard[id], e.reaper.success);
    SameEntry(e.heard, id);
    SameEntry(e.invocations, id);
    ReaperStepTold(e, Apply(e, Read), id);
  }

  lemma FinishTold(e: Exec, step: Step)
    requires Valid(e) && Told(e) && Enabled(e, step) && (step.Finish? || step.Release?)
    ensures Told(Apply(e, step))
  {
    var id := e.reaper.id;
    ReaperOwns(e);
    assert InvocationTold(e.invocations[id], e.heard[id]) && ReaperTold(e);
    SameEntry(e.heard, id);
    SameEntry(e.invocations, id);
    ReaperStepTold(e, Apply(e, step), id);
  }

  /** The reaper scans on, or `shutdown_` is set. */
  lemma ScanTold(e: Exec, step: Step)
    requires Valid(e) && Told(e) && Enabled(e, step)
    requires step.Pick? || step.Check? || step.EndPass? || step.SetShutdown?
    ensures Told(Apply(e, step))
  {
    var f := Apply(e, step);
    forall k | 0 <= k < |f.workers| ensures WorkerTold(f, f.workers[k]) {
      assert WorkerTold(e, e.workers[k]);
    }
    forall id | id in f.invocations ensures InvocationTold(f.invocations[id], f.heard[id]) && ParkedTold(f, id) {
      assert InvocationTold(e.invocations[id], e.heard[id]) && ParkedTold(e, id);
    }
    assert ReaperTold(e);
  }

  lemma WorkerStepKeepsTold(e: Exec, step: Step)
    requires Valid(e) && Told(e) && Enabled(e, step)
    requires step.Call? || step.Evaluate? || step.MarkReturned? || step.RecordThrow? || step.MarkSent?
    ensures Told(Apply(e, step))
  {
    if step.Call? {
      CallTold(e, step);
    } else if step.Evaluate? {
      EvaluateTold(e, step);
    } else if step.MarkReturned? {
      MarkTold(e, step);
    } else {
      SentTold(e, step);
    }
  }

  lemma StepKeepsTold(e: Exec, step: Step)
    requires Valid(e) && Told(e) && Enabled(e, step)
    ensures Told(Apply(e, step))
  {
    if step.Admit? {
      AdmitTold(e, step);
    } else if step.Take? || step.Leave? || step.EraseReturned? {
      HandsTold(e, Apply(e, step));
    } else if step.Poll? {
      PollTold(e, step);
    } else if step.Read? {
      ReadTold(e);
    } else if step.Finish? || step.Release? {
      FinishTold(e, step);
    } else if step.Pick? || step.Check? || step.EndPass? || step.SetShutdown? {
      ScanTold(e, step);
    } else {
      WorkerStepKeepsTold(e, step);
    }
  }

  /** What is on record is what RTT did. */
  lemma WorkersAnswersAreRecorded(e: Exec, step: Step)
    requires Valid(e) && Told(e) && Enabled(e, step) && (step.Call? || step.Evaluate?)
    ensures var id := e.workers[step.w].id;
      id in e.heard && Apply(e, step).heard == e.heard[id := e.heard[id] +
        [if step.Call? then step.answer else if step.threw then SendThrew else SendReturned]]
  {
    assert WorkerOk(e, e.workers[step.w]);
  }

  lemma CollectionsAreRecorded(e: Exec, collected: Collected)
    requires Valid(e) && Told(e) && Enabled(e, Poll(collected))
    ensures var id, f := e.reaper.id, Apply(e, Poll(collected));
      && id in e.heard
      && (collected.NotReady? ==> f.heard == e.heard)
      && (collected.Success? ==> f.heard == e.heard[id := e.heard[id] + [CollectReported(true)]])
      && (collected.Failure? ==> f.heard == e.heard[id := e.heard[id] + [CollectReported(false)]])
      && (collected.Exception? ==> f.heard == e.heard[id := e.heard[id] + [CollectThrew]])
  {
    ReaperOwns(e);
  }

  lemma NothingElseIsRecorded(e: Exec, step: Step)
    requires Enabled(e, step) && !step.Call? && !step.Evaluate? && !step.Poll? && !step.Admit?
    ensures Apply(e, step).heard == e.heard
  {}

  // ----- First come, first served -----

  /** `p` is what is left of `q` after dropping some elements. */
  predicate Sparser(p: seq<Id>, q: seq<Id>) {
    p == [] || (q != [] && if p[0] == q[0] then Sparser(p[1..], q[1..]) else Sparser(p, q[1..]))
  }

  /** The queue holds the last ones admitted, in order, and the list the admitted ones in order. */
  ghost predicate InTurn(e: Exec) {
    && |e.queue| <= |e.admitted| && e.queue == e.admitted[|e.admitted| - |e.queue|..]
    && Sparser(e.pending, e.admitted)
  }

  lemma {:induction false} SparserAppend(p: seq<Id>, q: seq<Id>, id: Id)
    requires Sparser(p, q)
    ensures Sparser(p + [id], q + [id])
    decreases |q|
  {
    if p == [] {
      assert p + [id] == [id];
      SparserLast(q, id);
    } else {
      TailOfAppend(q, [id]);
      TailOfAppend(p, [id]);
      if p[0] == q[0] {
        SparserAppend(p[1..], q[1..], id);
      } else {
        SparserAppend(p, q[1..], id);
      }
    }
  }

  lemma {:induction false} SparserLast(q: seq<Id>, id: Id)
    ensures Sparser([id], q + [id])
  {
    if q == [] {
      assert q + [id] == [id];
      assert [id][1..] == [];
    } else {
      TailOfAppend(q, [id]);
      SparserLast(q[1..], id);
      assert [id][1..] == [];
    }
  }

  lemma {:induction false} SparserErase(p: seq<Id>, q: seq<Id>, id: Id)
    requires Sparser(p, q)
    ensures Sparser(Erase(p, id), q)
    decreases |q|
  {
    if p != [] {
      if p[0] == q[0] {
        SparserErase(p[1..], q[1..], id);
        if p[0] == id {
          SparserWeaken(Erase(p[1..], id), q);
        } else {
          assert Erase(p, id)[1..] == Erase(p[1..], id);
        }
      } else {
        SparserErase(p, q[1..], id);
        SparserWeaken(Erase(p, id), q);
      }
    }
  }

  /** Another one in front of those chosen from changes nothing. */
  lemma {:induction false} SparserWeaken(p: seq<Id>, q: seq<Id>)
    requires q != [] && Sparser(p, q[1..])
    ensures Sparser(p, q)
    decreases |q|, 0
  {
    if p != [] && p[0] == q[0] {
      SparserTail(p, q[1..]);
    }
  }

  lemma {:induction false} SparserTail(p: seq<Id>, q: seq<Id>)
    requires p != [] && Sparser(p, q)
    ensures Sparser(p[1..], q)
    decreases |q|, 1
  {
    if p[0] == q[0] {
      SparserWeaken(p[1..], q);
    } else {
      SparserTail(p, q[1..]);
      SparserWeaken(p[1..], q);
    }
  }

  lemma StepKeepsTurn(e: Exec, step: Step)
    requires InTurn(e) && Enabled(e, step)
    ensures InTurn(Apply(e, step))
  {
    var f := Apply(e, step);
    if step.Admit? {
      SparserAppend(e.pending, e.admitted, step.id);
    } else if step.EraseReturned? {
      SparserErase(e.pending, e.admitted, e.workers[step.w].id);
    } else if step.Release? {
      SparserErase(e.pending, e.admitted, e.reaper.id);
    }
  }

  /** A worker takes the one admitted first among those not yet taken. */
  lemma TakesInTurn(e: Exec, w: nat)
    requires InTurn(e) && Enabled(e, Take(w))
    ensures var k := |e.admitted| - |e.queue|;
      && Apply(e, Take(w)).workers[w] == Taken(e.admitted[k])
      && Apply(e, Take(w)).queue == e.admitted[k + 1..]
  {}

  // ----- Every executor there can be -----

  /** The executor was constructed and has made steps since. */
  ghost predicate Reached(e: Exec) {
    exists width, steps :: Legal(New(width), steps) && After(New(width), steps) == e
  }

  lemma NewIsReached(width: nat)
    ensures Reached(New(width))
  {
    assert Legal(New(width), []) && After(New(width), []) == New(width);
  }

  lemma StepReaches(e: Exec, step: Step)
    requires Reached(e) && Enabled(e, step)
    ensures Reached(Apply(e, step))
  {
    var width, steps :| Legal(New(width), steps) && After(New(width), steps) == e;
    assert [step][1..] == [];
    Compose(New(width), steps, [step]);
  }

  lemma {:induction false} RunKeepsTold(e: Exec, steps: seq<Step>)
    requires Valid(e) && Told(e) && InTurn(e) && Legal(e, steps)
    ensures var f := After(e, steps); Valid(f) && Told(f) && InTurn(f)
    decreases |steps|
  {
    if steps != [] {
      StepKeepsValid(e, steps[0]);
      StepKeepsTold(e, steps[0]);
      StepKeepsTurn(e, steps[0]);
      RunKeepsTold(Apply(e, steps[0]), steps[1..]);
    }
  }

  lemma ReachedIsSound(e: Exec)
    requires Reached(e)
    ensures Valid(e) && Told(e) && InTurn(e)
  {
    var width, steps :| Legal(New(width), steps) && After(New(width), steps) == e;
    NewIsValid(width);
    NewIsTold(width);
    RunKeepsTold(New(width), steps);
  }

  /** In every reached state, what a worker takes is the one admitted first among those not yet taken,
      and the list keeps the order of admission. */
  lemma ReachedTakesInTurn(e: Exec, w: nat)
    requires Reached(e) && Enabled(e, Take(w))
    ensures Sparser(e.pending, e.admitted) && |e.queue| <= |e.admitted|
    ensures var k := |e.admitted| - |e.queue|;
      && k < |e.admitted| && Apply(e, Take(w)).workers[w] == Taken(e.admitted[k])
      && Apply(e, Take(w)).queue == e.admitted[k + 1..]
  {
    ReachedIsSound(e);
    TakesInTurn(e, w);
  }

  /** In every reached state, a complete invocation has a status that says what RTT answered. */
  lemma ReachedSaysVerdict(e: Exec, id: Id)
    requires Reached(e) && id in e.invocations && e.invocations[id].complete
    ensures id in e.heard && Asked(e.invocations[id].hasSend, e.heard[id]) && Verdict(e.heard[id], e.invocations[id].status)
  {
    ReachedIsSound(e);
    assert InvocationTold(e.invocations[id], e.heard[id]);
  }
}
