/** Whole runs of the server: the combined invariant and what it guarantees. */
module ServerRuns {
  import opened Prelude
  import opened Server
  import opened Lifecycle
  import opened Admission
  import E = Executor

  /** What a handler knows about the invocation it admitted, and about the code it answered. */
  ghost predicate HandlerOk(xs: seq<E.Exec>, h: Handler) {
    match h
    case Arrived => true
    case Admitted(x, id) => x < |xs| && id in xs[x].invocations
    case Replied(x, id, code, encoded, done) =>
      && x < |xs| && id in xs[x].invocations
      && if done then xs[x].invocations[id].complete && Says(code, xs[x].invocations[id].status, encoded)
         else code == 504
  }

  /** The code is the final status of the invocation, but 500 when its result cannot be encoded. */
  predicate Says(code: int, status: int, encoded: bool) {
    && (status == 200 && encoded ==> code == 200) && (status == 200 && !encoded ==> code == 500)
    && (status != 200 ==> code == status)
  }

  ghost predicate HandlersOk(s: Sys) {
    forall h :: h in s.handlers ==> HandlerOk(s.executors, s.handlers[h])
  }

  ghost predicate Inv(s: Sys) {
    LifeOk(s) && ExecutorsOk(s) && HandlersOk(s)
  }

  /** A run: every event happens when it is enabled. */
  ghost predicate Legal(s: Sys, run: seq<Event>)
    decreases |run|
  {
    run == [] || (Enabled(s, run[0]) && Legal(Apply(s, run[0]), run[1..]))
  }

  ghost function After(s: Sys, run: seq<Event>): Sys
    requires Legal(s, run)
    decreases |run|
  {
    if run == [] then s else After(Apply(s, run[0]), run[1..])
  }

  /** A complete invocation is frozen: no later step touches its flags, status or history. */
  lemma CompleteIsFinal(e: E.Exec, step: E.Step, id: E.Id)
    requires E.Valid(e) && E.Enabled(e, step) && id in e.invocations
    ensures id in E.Apply(e, step).invocations
    ensures e.invocations[id].complete ==> E.Apply(e, step).invocations[id] == e.invocations[id]
  {
    if step.MarkReturned? || step.RecordThrow? || step.MarkSent? || step.Call? || step.Evaluate? {
      assert E.WorkerOk(e, e.workers[step.w]);
    }
  }

  /** An executor changes by one step, or is new: handlers keep what they know. */
  lemma StepKeepsHandler(xs: seq<E.Exec>, x: nat, step: E.Step, h: Handler)
    requires x < |xs| && E.Valid(xs[x]) && E.Enabled(xs[x], step) && HandlerOk(xs, h)
    ensures HandlerOk(xs[x := E.Apply(xs[x], step)], h)
  {
    if !h.Arrived? && h.x == x {
      CompleteIsFinal(xs[x], step, h.id);
    }
  }

  lemma StepKeepsHandlers(s: Sys, x: nat, step: E.Step)
    requires HandlersOk(s) && x < |s.executors| && E.Valid(s.executors[x]) && E.Enabled(s.executors[x], step)
    ensures HandlersOk(s.(executors := s.executors[x := E.Apply(s.executors[x], step)]))
  {
    forall h | h in s.handlers ensures HandlerOk(s.executors[x := E.Apply(s.executors[x], step)], s.handlers[h]) {
      StepKeepsHandler(s.executors, x, step, s.handlers[h]);
    }
  }

  lemma GateKeepsHandlers(s: Sys, h: nat, admit: E.Step)
    requires HandlersOk(s) && ExecutorsOk(s) && admit.Admit?
    ensures HandlersOk(AdmitAt(s, h, admit))
  {
    if Open(s.impl) && Current(s) && E.Enabled(CurrentExec(s).value, admit) {
      StepKeepsHandlers(s, s.impl.executor.value, admit);
    }
  }

  lemma HandlerKeepsHandlers(s: Sys, ev: Event)
    requires HandlersOk(s) && ExecutorsOk(s) && HandlerEnabled(s, ev)
    ensures HandlersOk(AdvanceHandler(s, ev))
  {
    if ev.Gate? {
      GateKeepsHandlers(s, ev.h, E.Admit(ev.id, ev.hasSend, s.impl.options.maxPending));
    }
  }

  /** Clients never touch a handler, and only `Close` changes an existing executor. */
  lemma StartExtends(s: Sys, c: nat, outcome: Outcome)
    ensures AdvanceEntry(s, c).handlers == s.handlers && AdvanceEntry(s, c).executors == s.executors
    ensures AdvanceStart(s, c, outcome).handlers == AdvanceLaunch(s, c, outcome).handlers == s.handlers
    ensures AdvanceStop(s, c).handlers == s.handlers && AdvanceStop(s, c).executors == s.executors
    ensures AdvanceLaunch(s, c, outcome).executors == s.executors
    ensures s.executors <= AdvanceStart(s, c, outcome).executors
  {}

  lemma ExtendKeepsHandlers(s: Sys, t: Sys)
    requires HandlersOk(s) && t.handlers == s.handlers && s.executors <= t.executors
    ensures HandlersOk(t)
  {
    forall h | h in s.handlers ensures HandlerOk(t.executors, s.handlers[h]) {
      assert HandlerOk(s.executors, s.handlers[h]);
    }
  }

  lemma AdvanceKeepsHandlers(s: Sys, c: nat, outcome: Outcome)
    requires HandlersOk(s) && PoolOk(s.impl, s.executors, Holder(s)) && AdvanceEnabled(s, c)
    ensures HandlersOk(AdvanceClient(s, c, outcome))
  {
    if PartOf(ClientAt(s, c)).Shuts? {
      if ClientAt(s, c).Close? {
        StepKeepsHandlers(s, ClientAt(s, c).x, E.SetShutdown);
      }
    } else {
      StartExtends(s, c, outcome);
      ExtendKeepsHandlers(s, AdvanceClient(s, c, outcome));
    }
  }

  lemma EntryKeepsExecutors(s: Sys, c: nat)
    requires LifeOk(s) && ExecutorsOk(s) && AdvanceEnabled(s, c) && PartOf(ClientAt(s, c)).Enters?
    ensures ExecutorsOk(AdvanceEntry(s, c))
  {
    EntryShape(s, c);
    var t := AdvanceEntry(s, c);
    ShapeKeepsControl(s, c, t);
    PoolFrame(s.impl, s.executors, Holder(s), t.impl, Holder(t));
  }

  lemma StartKeepsExecutors(s: Sys, c: nat, outcome: Outcome)
    requires LifeOk(s) && ExecutorsOk(s) && AdvanceEnabled(s, c) && PartOf(ClientAt(s, c)).Starts?
    ensures ExecutorsOk(AdvanceStart(s, c, outcome))
  {
    OwnerIsHolder(s, c);
    StartShape(s, c, outcome);
    ShapeKeepsControl(s, c, AdvanceStart(s, c, outcome));
    if ClientAt(s, c).Accept? {
      if Acceptable(ClientAt(s, c).o, CurrentExec(s)) {
        AcceptKeepsExecutors(s, ClientAt(s, c).o);
      } else {
        PoolFrame(s.impl, s.executors, ClientAt(s, c), s.impl, Outside);
      }
    } else {
      StartKeepsRoles(s, c, outcome);
      StartKeepsPool(s, c, outcome);
    }
  }

  lemma LaunchKeepsExecutors(s: Sys, c: nat, outcome: Outcome)
    requires LifeOk(s) && ExecutorsOk(s) && AdvanceEnabled(s, c) && PartOf(ClientAt(s, c)).Launches?
    ensures ExecutorsOk(AdvanceLaunch(s, c, outcome))
  {
    OwnerIsHolder(s, c);
    LaunchShape(s, c, outcome);
    var t := AdvanceLaunch(s, c, outcome);
    ShapeKeepsControl(s, c, t);
    LaunchKeepsRoles(s, c, outcome);
    PoolFrame(s.impl, s.executors, Holder(s), t.impl, Holder(t));
  }

  lemma ShutdownKeepsExecutors(s: Sys, c: nat)
    requires LifeOk(s) && ExecutorsOk(s) && AdvanceEnabled(s, c) && PartOf(ClientAt(s, c)).Shuts?
    ensures ExecutorsOk(AdvanceShutdown(s, c))
  {
    OwnerIsHolder(s, c);
    ShutdownShape(s, c);
    ShapeKeepsControl(s, c, AdvanceShutdown(s, c));
    ShutdownKeepsRoles(s, c);
    ShutdownKeepsPool(s, c);
  }

  lemma HaltKeepsExecutors(s: Sys, c: nat)
    requires LifeOk(s) && ExecutorsOk(s) && AdvanceEnabled(s, c) && PartOf(ClientAt(s, c)).Stops?
    ensures ExecutorsOk(AdvanceStop(s, c))
  {
    if HoldsControl(ClientAt(s, c)) {
      OwnerIsHolder(s, c);
    }
    HaltShape(s, c);
    var t := AdvanceStop(s, c);
    ShapeKeepsControl(s, c, t);
    if ClientAt(s, c).FinishBegun? {
      PoolFrame(s.impl, s.executors, Holder(s), t.impl, Holder(t));
    } else {
      HaltKeepsRoles(s, c, Holder(s));
      HaltKeepsPool(s, c, Holder(s));
    }
  }

  lemma AdvanceKeepsExecutors(s: Sys, c: nat, outcome: Outcome)
    requires LifeOk(s) && ExecutorsOk(s) && AdvanceEnabled(s, c)
    ensures ExecutorsOk(AdvanceClient(s, c, outcome))
  {
    match PartOf(ClientAt(s, c))
    case Enters => EntryKeepsExecutors(s, c);
    case Starts => StartKeepsExecutors(s, c, outcome);
    case Launches => LaunchKeepsExecutors(s, c, outcome);
    case Shuts => ShutdownKeepsExecutors(s, c);
    case Stops => HaltKeepsExecutors(s, c);
  }

  /** The fields of Impl that executors depend on are untouched. */
  lemma ImplFrame(s: Sys, t: Sys)
    requires ExecutorsOk(s) && Holder(t) == Holder(s) && t.executors == s.executors
    requires t.impl.options == s.impl.options && t.impl.executor == s.impl.executor
    requires !t.net.NoThread? ==> !s.net.NoThread?
    ensures ExecutorsOk(t)
  {
    PoolFrame(s.impl, s.executors, Holder(s), t.impl, Holder(t));
  }

  lemma CallKeepsExecutors(s: Sys, ev: Event)
    requires LifeOk(s) && ExecutorsOk(s) && Enabled(s, ev) && (ev.CallStart? || ev.CallStop? || ev.CallFinish?)
    ensures ExecutorsOk(Apply(s, ev))
  {
    ImplFrame(s, Apply(s, ev));
  }

  lemma ServiceKeepsExecutors(s: Sys, ev: Event)
    requires LifeOk(s) && ExecutorsOk(s) && Enabled(s, ev)
    requires ev.Network? || ev.StartHandler? || ev.Watchdog? || ev.RequestStop? || ev.BeginShutdown?
    ensures ExecutorsOk(Apply(s, ev)) && Apply(s, ev).handlers == s.handlers && Apply(s, ev).executors == s.executors
  {
    ImplFrame(s, Apply(s, ev));
  }

  lemma HandlerKeepsExecutors(s: Sys, ev: Event)
    requires LifeOk(s) && ExecutorsOk(s) && HandlerEnabled(s, ev)
    ensures ExecutorsOk(AdvanceHandler(s, ev))
  {
    if ev.Gate? {
      GateKeepsExecutors(s, ev.h, E.Admit(ev.id, ev.hasSend, s.impl.options.maxPending));
    } else {
      ImplFrame(s, AdvanceHandler(s, ev));
    }
  }

  lemma EventKeepsExecutors(s: Sys, ev: Event)
    requires Inv(s) && Enabled(s, ev)
    ensures ExecutorsOk(Apply(s, ev))
  {
    match ev
    case Advance(c, outcome) => AdvanceKeepsExecutors(s, c, outcome);
    case Work(x, step) => WorkKeepsExecutors(s, x, step);
    case CallStart(_, _) => CallKeepsExecutors(s, ev);
    case CallStop(_) => CallKeepsExecutors(s, ev);
    case CallFinish(_) => CallKeepsExecutors(s, ev);
    case Request(_) => HandlerKeepsExecutors(s, ev);
    case Gate(_, _, _) => HandlerKeepsExecutors(s, ev);
    case Reply(_, _, _) => HandlerKeepsExecutors(s, ev);
    case Hangup(_) => HandlerKeepsExecutors(s, ev);
    case _ => ServiceKeepsExecutors(s, ev);
  }

  lemma EventKeepsHandlers(s: Sys, ev: Event)
    requires Inv(s) && Enabled(s, ev)
    ensures HandlersOk(Apply(s, ev))
  {
    match ev
    case Advance(c, outcome) => AdvanceKeepsHandlers(s, c, outcome);
    case Work(x, step) => StepKeepsHandlers(s, x, step);
    case CallStart(_, _) =>
    case CallStop(_) =>
    case CallFinish(_) =>
    case Request(_) => HandlerKeepsHandlers(s, ev);
    case Gate(_, _, _) => HandlerKeepsHandlers(s, ev);
    case Reply(_, _, _) => HandlerKeepsHandlers(s, ev);
    case Hangup(_) => HandlerKeepsHandlers(s, ev);
    case _ => ServiceKeepsExecutors(s, ev);
  }

  /** The combined invariant is inductive over every event of every thread. */
  lemma EventKeepsInv(s: Sys, ev: Event)
    requires Inv(s) && Enabled(s, ev)
    ensures Inv(Apply(s, ev))
  {
    EventKeepsLife(s, ev);
    EventKeepsExecutors(s, ev);
    EventKeepsHandlers(s, ev);
  }

  lemma {:induction false} RunKeepsInv(s: Sys, run: seq<Event>)
    requires Inv(s) && Legal(s, run)
    ensures Inv(After(s, run))
    decreases |run|
  {
    if run != [] {
      EventKeepsInv(s, run[0]);
      RunKeepsInv(Apply(s, run[0]), run[1..]);
    }
  }

  /** One more event at the end of a run. */
  lemma {:induction false} Extend(s: Sys, run: seq<Event>, ev: Event)
    requires Legal(s, run) && Enabled(After(s, run), ev)
    ensures Legal(s, run + [ev]) && After(s, run + [ev]) == Apply(After(s, run), ev)
    decreases |run|
  {
    if run == [] {
      assert run + [ev] == [ev];
      assert [ev][1..] == [];
    } else {
      TailOfAppend(run, [ev]);
      Extend(Apply(s, run[0]), run[1..], ev);
    }
  }
}
