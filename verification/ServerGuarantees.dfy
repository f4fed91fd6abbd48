/** What every run of the server guarantees, from its first state on. */
module ServerGuarantees {
  import opened Prelude
  import opened Server
  import opened Lifecycle
  import opened Admission
  import opened ServerRuns
  import E = Executor

  /** Every state of every run satisfies the invariant. */
  lemma ReachableInv(o: Options, run: seq<Event>)
    requires Legal(Initial(o), run)
    ensures Inv(After(Initial(o), run))
  {
    InitialLife(o);
    RunKeepsInv(Initial(o), run);
  }

  /** At most one dispatch and one finish per admitted invocation, by the prescribed thread, and
      nothing leaves `pending_` unfinished; admitted = released + pending. */
  ghost predicate ExactlyOnce(e: E.Exec) {
    && Distinct(e.queue) && Distinct(e.pending)
    && (forall id :: id in e.queue ==> id in e.pending)
    && (forall id :: id in e.pending ==> id in e.invocations)
    && |e.invocations| == e.released + |e.pending|
    && (forall id :: id in e.invocations ==>
          var v := e.invocations[id];
          && v.dispatches <= 1 && v.workerFinishes + v.reaperFinishes <= v.dispatches
          && (v.complete <==> v.workerFinishes + v.reaperFinishes == 1)
          && (v.hasSend ==> v.workerFinishes == 0) && (!v.hasSend ==> v.reaperFinishes == 0)
          && (v.reaperFinishes == 1 ==> v.sent)
          && (id !in e.pending ==> v.complete))
  }

  lemma ValidExactlyOnce(e: E.Exec)
    requires E.Valid(e)
    ensures ExactlyOnce(e)
  {
    forall id | id in e.pending
      ensures var v := e.invocations[id]; E.Untouched(v) || E.InFlight(v) || E.Settled(v)
    {
      assert E.Located(e, id);
      if w :| 0 <= w < |e.workers| && E.Job(e.workers[w]) == Some(id) {
        assert E.WorkerOk(e, e.workers[w]);
      }
    }
    forall id | id in e.invocations && e.invocations[id].reaperFinishes == 1
      ensures e.invocations[id].sent
    {
      assert id in e.pending ==> E.Untouched(e.invocations[id]) || E.InFlight(e.invocations[id]) || E.Settled(e.invocations[id]);
    }
  }

  lemma EveryInvocationAtMostOnce(o: Options, run: seq<Event>, x: nat)
    requires Legal(Initial(o), run) && x < |After(Initial(o), run).executors|
    ensures ExactlyOnce(After(Initial(o), run).executors[x])
  {
    ReachableInv(o, run);
    ValidExactlyOnce(After(Initial(o), run).executors[x]);
  }

  /** Once `shutdown_` is set, in any run, every invocation ever admitted was dispatched exactly
      once and finished exactly once: none is stranded by the exit of the reaper. */
  lemma ShutdownStrandsNothing(o: Options, run: seq<Event>, x: nat)
    requires Legal(Initial(o), run) && x < |After(Initial(o), run).executors|
    requires After(Initial(o), run).executors[x].shutdown
    ensures var e := After(Initial(o), run).executors[x];
      && e.pending == [] && e.queue == [] && |e.invocations| == e.released
      && forall id :: id in e.invocations ==> E.Settled(e.invocations[id])
  {
    ReachableInv(o, run);
    var s := After(Initial(o), run);
    var e := s.executors[x];
    assert E.Valid(e);
    assert e.pending == [];
    SomeElement(e.queue, e.pending);
  }

  /** While `start` or `finishShutdown` shuts an executor down, no event of any thread admits
      into it; in particular none does between its last look at `pending_` and `shutdown_`. */
  lemma NoAdmissionDuringShutdown(o: Options, run: seq<Event>, ev: Event)
    requires Legal(Initial(o), run) && Enabled(After(Initial(o), run), ev)
    requires var p := Holder(After(Initial(o), run)); p.Drain? || p.Close? || p.JoinThreads?
    ensures var s := After(Initial(o), run);
      var x := Holder(s).x;
      && !Open(s.impl) && s.impl.executor.None? && x < |s.executors|
      && x < |Apply(s, ev).executors|
      && Apply(s, ev).executors[x].invocations.Keys == s.executors[x].invocations.Keys
      && (Holder(s).Close? ==> s.executors[x].pending == [] && Apply(s, ev).executors[x].pending == [])
  {
    ReachableInv(o, run);
    var s := After(Initial(o), run);
    AdmittingEventsAreGates(s, ev, Holder(s).x);
  }

  ghost predicate NoneAdmitted(s: Sys, t: Sys, x: nat)
    requires x < |s.executors|
  {
    && x < |t.executors|
    && t.executors[x].invocations.Keys == s.executors[x].invocations.Keys
    && |t.executors[x].pending| <= |s.executors[x].pending|
  }

  lemma GateAdmitsIntoCurrent(s: Sys, ev: Event, x: nat)
    requires HandlerEnabled(s, ev) && x < |s.executors| && s.impl.executor != Some(x)
    ensures NoneAdmitted(s, AdvanceHandler(s, ev), x)
  {}

  lemma ClientsAdmitNobody(s: Sys, c: nat, outcome: Outcome, x: nat)
    requires AdvanceEnabled(s, c) && x < |s.executors|
    ensures NoneAdmitted(s, AdvanceClient(s, c, outcome), x)
  {
    if !PartOf(ClientAt(s, c)).Shuts? {
      StartExtends(s, c, outcome);
    }
  }

  lemma WorkAdmitsNobody(s: Sys, y: nat, step: E.Step, x: nat)
    requires Inv(s) && Enabled(s, Work(y, step)) && x < |s.executors|
    ensures NoneAdmitted(s, Apply(s, Work(y, step)), x)
  {
    assert E.Valid(s.executors[y]);
    WorkShrinks(s.executors[y], step);
  }

  lemma ServiceAdmitsNobody(s: Sys, ev: Event)
    requires Enabled(s, ev) && (ev.Network? || ev.StartHandler? || ev.Watchdog? || ev.RequestStop?
          || ev.BeginShutdown? || ev.CallStart? || ev.CallStop? || ev.CallFinish?)
    ensures Apply(s, ev).executors == s.executors
  {}

  /** Only the gate admits, and only into the current executor. */
  lemma AdmittingEventsAreGates(s: Sys, ev: Event, x: nat)
    requires Inv(s) && Enabled(s, ev) && x < |s.executors| && s.impl.executor != Some(x)
    ensures NoneAdmitted(s, Apply(s, ev), x)
  {
    match ev
    case Work(y, step) => WorkAdmitsNobody(s, y, step, x);
    case Advance(c, outcome) => ClientsAdmitNobody(s, c, outcome, x);
    case Request(_) => GateAdmitsIntoCurrent(s, ev, x);
    case Gate(_, _, _) => GateAdmitsIntoCurrent(s, ev, x);
    case Reply(_, _, _) => GateAdmitsIntoCurrent(s, ev, x);
    case Hangup(_) => GateAdmitsIntoCurrent(s, ev, x);
    case _ => ServiceAdmitsNobody(s, ev);
  }

  /** A shut-down executor that nobody holds is over: joined, drained, and no step of it is enabled. */
  lemma JoinedMeansOver(o: Options, run: seq<Event>, x: nat, step: E.Step)
    requires Legal(Initial(o), run)
    requires var s := After(Initial(o), run);
      x < |s.executors| && s.impl.executor != Some(x) && Held(Holder(s)) != Some(x)
    ensures var e := After(Initial(o), run).executors[x];
      Gone(e) && (!step.Admit? && !step.SetShutdown? ==> !E.Enabled(e, step))
  {
    ReachableInv(o, run);
    var e := After(Initial(o), run).executors[x];
    assert E.Valid(e) && Gone(e);
    if E.Enabled(e, step) && !step.Admit? && !step.SetShutdown? {
      WorkShrinks(e, step);
    }
  }

  /** Bounded admission through stops and restarts with new options. */
  lemma CapacityIsKept(o: Options, run: seq<Event>)
    requires Legal(Initial(o), run)
    ensures var s := After(Initial(o), run);
      && (forall x :: 0 <= x < |s.executors| ==> |s.executors[x].pending| <= s.impl.options.maxPending)
      && (s.impl.executor.Some? ==> Current(s))
      && (Current(s) && CurrentExec(s).value.width != s.impl.options.workers ==> CurrentExec(s).value.pending == [])
      && (s.impl.phase.Running? ==>
            Current(s) && !CurrentExec(s).value.shutdown && CurrentExec(s).value.width == s.impl.options.workers)
  {
    ReachableInv(o, run);
  }

  /** Whoever waits to accept options has had them validated, and so has a server that is not stopped. */
  ghost predicate Validated(s: Sys) {
    && (s.impl.phase.Stopped? || Sensible(s.impl.options))
    && forall c :: c in s.clients && s.clients[c].Accept? ==> Sensible(s.clients[c].o)
  }

  predicate Sensible(o: Options) {
    o.maxPending >= 1 && 1 <= o.workers <= 1024
  }

  /** One client has moved. */
  predicate MoveValidated(t: Sys, c: nat) {
    && (t.impl.phase.Stopped? || Sensible(t.impl.options))
    && (ClientAt(t, c).Accept? ==> Sensible(ClientAt(t, c).o))
  }

  lemma StartsValidated(s: Sys, c: nat, outcome: Outcome)
    requires Validated(s) && PartOf(ClientAt(s, c)).Starts?
    ensures MoveValidated(AdvanceStart(s, c, outcome), c)
  {}

  lemma LaunchesValidated(s: Sys, c: nat, outcome: Outcome)
    requires Validated(s) && PartOf(ClientAt(s, c)).Launches?
    ensures MoveValidated(AdvanceLaunch(s, c, outcome), c)
  {}

  lemma StopsValidated(s: Sys, c: nat)
    requires Validated(s) && PartOf(ClientAt(s, c)).Stops?
    ensures MoveValidated(AdvanceStop(s, c), c)
  {}

  lemma ShutsValidated(s: Sys, c: nat)
    requires Validated(s) && AdvanceEnabled(s, c) && PartOf(ClientAt(s, c)).Shuts?
    ensures MoveValidated(AdvanceShutdown(s, c), c)
  {}

  lemma ClientsKeepValidated(s: Sys, c: nat, outcome: Outcome)
    requires LifeOk(s) && Validated(s) && AdvanceEnabled(s, c)
    ensures Validated(AdvanceClient(s, c, outcome))
  {
    var t := AdvanceClient(s, c, outcome);
    AdvanceShape(s, c, outcome);
    if PartOf(ClientAt(s, c)).Starts? {
      StartsValidated(s, c, outcome);
    } else if PartOf(ClientAt(s, c)).Launches? {
      LaunchesValidated(s, c, outcome);
    } else if PartOf(ClientAt(s, c)).Stops? {
      StopsValidated(s, c);
    } else if PartOf(ClientAt(s, c)).Shuts? {
      ShutsValidated(s, c);
    }
    forall d | d in t.clients && t.clients[d].Accept? ensures Sensible(t.clients[d].o) {
      assert d != c ==> d in s.clients && t.clients[d] == s.clients[d];
    }
  }

  lemma EventKeepsValidated(s: Sys, ev: Event)
    requires LifeOk(s) && Validated(s) && Enabled(s, ev)
    ensures Validated(Apply(s, ev))
  {
    if ev.Advance? {
      ClientsKeepValidated(s, ev.c, ev.outcome);
    }
  }

  lemma {:induction false} RunKeepsValidated(s: Sys, run: seq<Event>)
    requires Inv(s) && Validated(s) && Legal(s, run)
    ensures Validated(After(s, run))
    decreases |run|
  {
    if run != [] {
      EventKeepsInv(s, run[0]);
      EventKeepsValidated(s, run[0]);
      RunKeepsValidated(Apply(s, run[0]), run[1..]);
    }
  }

  /** Whatever options were passed: a server that starts, runs or stops has at least one worker, no
      more than 1024, and room for at least one operation. */
  lemma RunsOnValidOptions(o: Options, run: seq<Event>)
    requires Legal(Initial(o), run)
    ensures var s := After(Initial(o), run);
      && (!s.impl.phase.Stopped? ==> s.impl.options.maxPending >= 1 && 1 <= s.impl.options.workers <= 1024)
      && (s.impl.phase.Running? ==> Current(s) && 1 <= |CurrentExec(s).value.workers| <= 1024)
  {
    ReachableInv(o, run);
    InitialLife(o);
    assert Inv(Initial(o));
    RunKeepsValidated(Initial(o), run);
  }

  /** A restart never waits for operations: what it drains is already empty. */
  lemma RestartNeverWaits(o: Options, run: seq<Event>)
    requires Legal(Initial(o), run)
    requires var p := Holder(After(Initial(o), run)); p.Drain? && p.next.ThenConstruct?
    ensures var s := After(Initial(o), run); AdvanceEnabled(s, s.control.value)
  {
    ReachableInv(o, run);
  }

  /** While any handler is in flight the model is present, and an open gate always finds an
      executor. */
  lemma HandlersFindTheirModel(o: Options, run: seq<Event>)
    requires Legal(Initial(o), run)
    ensures var s := After(Initial(o), run);
      && (s.handlers != map[] ==> s.impl.model)
      && (Open(s.impl) ==> Current(s))
  {
    ReachableInv(o, run);
  }

  // ----- Stopping -----

  lemma {:induction false} RunsCompose(s: Sys, run: seq<Event>, more: seq<Event>)
    requires Legal(s, run + more)
    ensures Legal(s, run) && Legal(After(s, run), more) && After(s, run + more) == After(After(s, run), more)
    decreases |run|
  {
    if run == [] {
      assert run + more == more;
    } else {
      assert (run + more)[1..] == run[1..] + more;
      RunsCompose(Apply(s, run[0]), run[1..], more);
    }
  }

  lemma ClientsKeepFinal(s: Sys, c: nat, outcome: Outcome)
    requires LifeOk(s) && AdvanceEnabled(s, c)
    ensures AdvanceClient(s, c, outcome).impl.finalShutdown == s.impl.finalShutdown
  {
    AdvanceShape(s, c, outcome);
  }

  lemma FinalIsSticky(s: Sys, ev: Event)
    requires Inv(s) && Enabled(s, ev) && s.impl.finalShutdown
    ensures Apply(s, ev).impl.finalShutdown
  {
    if ev.Advance? {
      ClientsKeepFinal(s, ev.c, ev.outcome);
    }
  }

  lemma {:induction false} FinalStays(s: Sys, run: seq<Event>)
    requires Inv(s) && Legal(s, run) && s.impl.finalShutdown
    ensures After(s, run).impl.finalShutdown
    decreases |run|
  {
    if run != [] {
      EventKeepsInv(s, run[0]);
      FinalIsSticky(s, run[0]);
      FinalStays(Apply(s, run[0]), run[1..]);
    }
  }

  /** After `beginShutdown`, the server never runs again, whatever happens. */
  lemma FinalShutdownNeverRunsAgain(o: Options, run: seq<Event>, more: seq<Event>)
    requires Legal(Initial(o), run + more)
    requires Legal(Initial(o), run) && After(Initial(o), run).impl.finalShutdown
    ensures !After(Initial(o), run + more).impl.phase.Running? && !Open(After(Initial(o), run + more).impl)
  {
    RunsCompose(Initial(o), run, more);
    ReachableInv(o, run);
    FinalStays(After(Initial(o), run), more);
    ReachableInv(o, run + more);
  }

  /** `stop()` has joined and still holds `control`: the server is stopped and has no thread. */
  lemma StopHeldMeansStopped(o: Options, run: seq<Event>)
    requires Legal(Initial(o), run) && Holder(After(Initial(o), run)).StopHeld?
    ensures var s := After(Initial(o), run); s.impl.phase.Stopped? && s.net.NoThread? && s.handlers == map[]
  {
    ReachableInv(o, run);
  }

  /** `finishShutdown` drains only after the network has gone for good. */
  lemma FinalDrainIsAlone(o: Options, run: seq<Event>)
    requires Legal(Initial(o), run) && Retiring(Holder(After(Initial(o), run)))
    ensures var s := After(Initial(o), run);
      s.impl.finalShutdown && s.impl.phase.Stopped? && s.net.NoThread? && s.handlers == map[]
  {
    ReachableInv(o, run);
    var s := After(Initial(o), run);
    assert s.control.value in s.clients;
  }

  /** The two ways a stopping server becomes stopped. */
  predicate StopTakesEffect(s: Sys, ev: Event) {
    || (ev.Network? && s.net.Closing?)             // the network thread ends, listener withdrawn
    || (ev.Advance? && s.control == Some(ev.c) && s.net.NoThread?
        && (Holder(s).Prepare? || Holder(s).Failing?))  // start gives up before binding
  }

  /** A stop request is not lost: a stopping server stays so, never runs, has told its listener
      to stop as soon as there is one, and ends only by giving up the launch or the listener. */
  lemma StoppingIsSteady(s: Sys, ev: Event)
    requires Inv(s) && Enabled(s, ev) && s.impl.phase.Stopping?
    ensures Apply(s, ev).impl.phase.Stopping? || (Apply(s, ev).impl.phase.Stopped? && StopTakesEffect(s, ev))
    ensures ListenerExpected(s.net) ==> s.impl.listener.StopCalled?
  {
    if ev.Advance? {
      StoppingClients(s, ev.c, ev.outcome);
    }
  }

  lemma StoppingClients(s: Sys, c: nat, outcome: Outcome)
    requires Inv(s) && AdvanceEnabled(s, c) && s.impl.phase.Stopping?
    ensures var t := AdvanceClient(s, c, outcome);
      t.impl.phase.Stopping? || (t.impl.phase.Stopped? && StopTakesEffect(s, Advance(c, outcome)))
  {
    if HoldsControl(ClientAt(s, c)) {
      OwnerIsHolder(s, c);
    }
    match PartOf(ClientAt(s, c))
    case Enters =>
    case Starts => StoppingStart(s, c, outcome);
    case Launches =>
    case Shuts =>
    case Stops => StoppingStop(s, c);
  }

  lemma StoppingStart(s: Sys, c: nat, outcome: Outcome)
    requires s.impl.phase.Stopping? && !ClientAt(s, c).Accept?
    ensures AdvanceStart(s, c, outcome).impl.phase.Stopping?
  {}

  lemma StoppingStop(s: Sys, c: nat)
    requires s.impl.phase.Stopping?
    ensures AdvanceStop(s, c).impl.phase.Stopping?
  {}

  /** A request made while starting or running decides the rest of the run: until the server is
      stopped it is stopping, and any listener it has was told to stop. */
  lemma {:induction false} RequestedStopIsNotLost(s: Sys, run: seq<Event>)
    requires Inv(s) && !s.impl.phase.Stopped? && Legal(Apply(s, RequestStop), run)
    ensures
      var t := After(Apply(s, RequestStop), run);
      || (t.impl.phase.Stopping? && !Open(t.impl) && (ListenerExpected(t.net) ==> t.impl.listener.StopCalled?))
      || exists k :: 0 <= k < |run| && Legal(Apply(s, RequestStop), run[..k])
           && StopTakesEffect(After(Apply(s, RequestStop), run[..k]), run[k])
  {
    EventKeepsInv(s, RequestStop);
    StoppingUntilStopped(Apply(s, RequestStop), run);
  }

  lemma {:induction false} StoppingUntilStopped(s: Sys, run: seq<Event>)
    requires Inv(s) && s.impl.phase.Stopping? && Legal(s, run)
    ensures
      || (After(s, run).impl.phase.Stopping? && !Open(After(s, run).impl)
          && (ListenerExpected(After(s, run).net) ==> After(s, run).impl.listener.StopCalled?))
      || exists k :: 0 <= k < |run| && Legal(s, run[..k]) && StopTakesEffect(After(s, run[..k]), run[k])
    decreases |run|
  {
    if run != [] {
      StoppingIsSteady(s, run[0]);
      var t := Apply(s, run[0]);
      if !t.impl.phase.Stopping? {
        assert run[..0] == [];
        assert StopTakesEffect(After(s, run[..0]), run[0]);
      } else {
        EventKeepsInv(s, run[0]);
        StoppingUntilStopped(t, run[1..]);
        if k :| 0 <= k < |run[1..]| && Legal(t, run[1..][..k]) && StopTakesEffect(After(t, run[1..][..k]), run[1..][k]) {
          assert run[..k + 1][1..] == run[1..][..k];
          assert Legal(s, run[..k + 1]) && After(s, run[..k + 1]) == After(t, run[1..][..k]);
          assert run[k + 1] == run[1..][k];
        }
      }
    }
  }
}
