/** `Server::Impl` with its fields.  Each method is the body of one critical section under the
    server's mutex, run by a thread at the program point that its precondition names.  `sys` is the
    whole system of module Server around these fields; every section performs exactly one event of
    it, so it stays reachable and whatever is said of every run holds of every object. */
module ServerImpls {
  import opened Prelude
  import opened Server
  import opened Lifecycle
  import opened Admission
  import opened ServerRuns
  import opened ServerProgress
  import E = Executor
  import G = ServerGuarantees
  import R = Verdicts
  import ServerVerdicts
  import X = OperationExecutors

  datatype Verdict = Accepted | Unavailable | Exhausted | Failed

  class ServerImpl {
    var phase: Phase
    var finalShutdown: bool
    var networkDone: bool
    var graceExpired: bool
    var options: Options
    var model: bool
    var listener: Listener
    /** The executor in use, as an entry of the executors constructed so far. */
    var executor: Option<nat>
    var executors: seq<X.OperationExecutor>

    ghost var sys: Sys

    ghost function View(): Impl
      reads this
    {
      Impl(phase, finalShutdown, networkDone, graceExpired, options, executor, model, listener)
    }

    ghost predicate Mirrors(xs: seq<E.Exec>)
      reads this`executors, executors
    {
      && |executors| == |xs|
      && (forall i, j :: 0 <= i < j < |executors| ==> executors[i] != executors[j])
      && (forall x :: 0 <= x < |executors| ==> executors[x].State() == xs[x])
    }

    ghost predicate Valid()
      reads this, executors
    {
      View() == sys.impl && Mirrors(sys.executors) && Reachable(sys)
    }

    constructor (o: Options)
      ensures Valid() && sys == Initial(o) && executors == []
    {
      phase, finalShutdown, networkDone, graceExpired := Stopped, false, true, false;
      options, model, listener, executor, executors := o, false, NoListener, None, [];
      sys := Initial(o);
      new;
      InitialIsReachable(o);
    }

    /** The fields are as the event leaves them. */
    ghost method Record(ev: Event)
      requires Reachable(sys) && Enabled(sys, ev)
      requires View() == Apply(sys, ev).impl && Mirrors(Apply(sys, ev).executors)
      modifies this`sys
      ensures Valid() && sys == Apply(old(sys), ev)
    {
      ReachesOn(sys, ev);
      sys := Apply(sys, ev);
    }

    /** An event of a thread that touches none of these fields. */
    ghost method Observe(ev: Event)
      requires Valid() && Enabled(sys, ev)
      requires Apply(sys, ev).impl == sys.impl && Apply(sys, ev).executors == sys.executors
      modifies this`sys
      ensures Valid() && sys == Apply(old(sys), ev)
    {
      Record(ev);
    }

    /** One executor takes a step, and the others stay as they are. */
    method PerformAt(x: nat, step: E.Step, ghost xs: seq<E.Exec>)
      requires Mirrors(xs) && x < |executors| && R.Reached(xs[x]) && E.Enabled(xs[x], step)
      modifies executors
      ensures Mirrors(xs[x := E.Apply(xs[x], step)])
    {
      executors[x].Perform(step);
    }

    method AdmitAt(x: nat, admit: E.Step, pushFails: bool, ghost xs: seq<E.Exec>) returns (r: X.AdmitResult)
      requires Mirrors(xs) && x < |executors| && R.Reached(xs[x]) && admit.Admit? && admit.id !in xs[x].invocations
      modifies executors
      ensures r.Refused? <==> !E.Accepts(xs[x], admit.cap)
      ensures r.PushFailed? <==> E.Accepts(xs[x], admit.cap) && pushFails
      ensures Mirrors(if r.Admitted? then xs[x := E.Apply(xs[x], admit)] else xs)
    {
      r := executors[x].Admit(admit.id, admit.hasSend, admit.cap, pushFails);
    }

    method AddExecutor(width: nat, ghost xs: seq<E.Exec>)
      requires Mirrors(xs)
      modifies this`executors
      ensures |executors| == |old(executors)| + 1 && Mirrors(xs + [E.New(width)])
    {
      var created := new X.OperationExecutor(width);
      executors := executors + [created];
    }

    /** A step of a worker or a reaper. */
    method Work(x: nat, step: E.Step)
      requires Valid() && Enabled(sys, Event.Work(x, step))
      modifies this`sys, executors
      ensures Valid() && sys == Apply(old(sys), Event.Work(x, step)) && executors == old(executors)
    {
      ExecutorIsReached(sys, x);
      PerformAt(x, step, sys.executors);
      Record(Event.Work(x, step));
    }

    /** Whatever was called before: an executor that is shut down has stranded nothing. */
    lemma NothingIsStranded(x: nat)
      requires Valid() && x < |executors| && executors[x].shutdown
      ensures executors[x].pending == [] && executors[x].queue == []
      ensures forall id :: id in executors[x].invocations ==> E.Settled(executors[x].invocations[id])
    {
      assert sys.executors[x] == executors[x].State();
      var o, run :| Legal(Initial(o), run) && After(Initial(o), run) == sys;
      G.ShutdownStrandsNothing(o, run, x);
    }

    // ----- Stopping -----

    /** `requestStopLocked`; the fields only. */
    method StopLocked()
      modifies this`phase, this`listener
      ensures View() == Stop(old(View()))
    {
      if phase.Stopped? || phase.Stopping? {
        return;
      }
      phase := Stopping;
      if !listener.NoListener? {
        listener := StopCalled;
      }
    }

    /** After the request nothing runs, and any listener there is has been told. */
    method RequestStop()
      requires Valid()
      modifies this`phase, this`listener, this`sys
      ensures Valid() && sys == Apply(old(sys), Event.RequestStop)
      ensures Requested(sys)
    {
      StopLocked();
      Record(Event.RequestStop);
      Told(sys);
    }

    /** After it the server cannot come to run any more. */
    method BeginShutdown()
      requires Valid()
      modifies this`phase, this`listener, this`finalShutdown, this`sys
      ensures Valid() && sys == Apply(old(sys), Event.BeginShutdown)
      ensures Requested(sys) && finalShutdown
    {
      finalShutdown := true;
      StopLocked();
      Record(Event.BeginShutdown);
      Told(sys);
    }

    /** `stop` and `finishShutdown`: the requests made inside them. */
    method StopAgain(c: nat)
      requires Valid() && (ClientAt(sys, c).StopAgain? || ClientAt(sys, c).FinishBegun?)
      modifies this`phase, this`listener, this`sys
      ensures Valid() && sys == Apply(old(sys), Advance(c, Proceeds))
      ensures Requested(sys)
    {
      StopPoint(sys, c);
      StopLocked();
      Record(Advance(c, Proceeds));
      Told(sys);
    }

    /** The first request of `stop`, and of `finishShutdown` when `finishing`. */
    method Call(c: nat, finishing: bool)
      requires Valid() && ClientAt(sys, c).Outside?
      modifies this`phase, this`listener, this`finalShutdown, this`sys
      ensures Valid() && sys == Apply(old(sys), if finishing then CallFinish(c) else CallStop(c))
      ensures Requested(sys) && (finishing ==> finalShutdown)
    {
      finalShutdown := finalShutdown || finishing;
      StopLocked();
      Record(if finishing then CallFinish(c) else CallStop(c));
      Told(sys);
    }

    // ----- start -----

    /** The first section: proceed, report success at once, or fail.  Who proceeds finds the server
        stopped, with no request in flight and nothing but an ended network thread to join. */
    method TestState(c: nat) returns (proceed: bool, running: bool)
      requires Valid() && ClientAt(sys, c).Check?
      modifies this`sys
      ensures Valid() && sys == Apply(old(sys), Advance(c, Proceeds)) && View() == old(View())
      ensures proceed <==> ClientAt(sys, c).JoinOld?
      ensures proceed ==> phase.Stopped? && Joinable(sys.net) && sys.handlers == map[]
      ensures !proceed ==> ClientAt(sys, c).Outside? && sys.control.None?
      ensures running <==> !finalShutdown && phase.Running?
      ensures proceed <==> !finalShutdown && phase.Stopped?
    {
      CheckPoint(sys, c);
      Record(Advance(c, Proceeds));
      if finalShutdown {
        return false, false;
      }
      if phase.Running? {
        return false, true;
      }
      return phase.Stopped?, false;
    }

    /** The retained-operation tests. */
    method TestOptions(o: Options) returns (ok: bool)
      requires Mirrors(sys.executors) && executor == sys.impl.executor
      requires executor.Some? ==> executor.value < |executors|
      ensures ok <==> Acceptable(o, CurrentExec(sys))
    {
      if executor.Some? {
        var count := |executors[executor.value].pending|;
        if o.maxPending < count {
          return false;
        }
        if count != 0 && o.workers != executors[executor.value].width {
          return false;
        }
      }
      return true;
    }

    /** Accepted options bound what every executor retains, and fit the executor there is. */
    method AcceptOptions(c: nat, o: Options) returns (ok: bool)
      requires Valid() && ClientAt(sys, c) == Accept(o)
      modifies this`options, this`phase, this`graceExpired, this`sys
      ensures Valid() && sys == Apply(old(sys), Advance(c, Proceeds))
      ensures ok <==> ClientAt(sys, c).BuildModel?
      ensures ok <==> (executor.Some? ==>
        && executor.value < |executors|
        && |executors[executor.value].pending| <= o.maxPending
        && (executors[executor.value].pending == [] || executors[executor.value].width == o.workers))
      ensures !ok ==> View() == old(View()) && ClientAt(sys, c).Outside?
      ensures ok ==> phase.Starting? && Bounded(sys)
    {
      CurrentExists(sys);
      ok := TestOptions(o);
      AcceptPoint(sys, c);
      if ok {
        options, phase, graceExpired := o, Starting, false;
      }
      Record(Advance(c, Proceeds));
      IsBounded(sys);
    }

    /** Past the section that sets the model there is one. */
    method SetModel(c: nat, built: bool)
      requires Valid() && ClientAt(sys, c).BuildModel?
      modifies this`model, this`sys
      ensures Valid() && sys == Apply(old(sys), Advance(c, if built then Proceeds else Throws))
      ensures model <==> ClientAt(sys, c).Compare?
      ensures !model <==> ClientAt(sys, c).Failing?
    {
      ModelPoint(sys, c, if built then Proceeds else Throws);
      model := model || built;
      Record(Advance(c, if built then Proceeds else Throws));
    }

    /** The model is dropped when nobody can ask for it any more, and for good. */
    method DropModel(c: nat)
      requires Valid() && ClientAt(sys, c).DropModel?
      modifies this`model, this`sys
      ensures Valid() && sys == Apply(old(sys), Advance(c, Proceeds))
      ensures !model && finalShutdown && phase.Stopped? && sys.net.NoThread? && sys.handlers == map[]
      ensures forall x :: 0 <= x < |sys.executors| ==> Gone(sys.executors[x])
    {
      DropPoint(sys, c);
      model := false;
      Record(Advance(c, Proceeds));
    }

    /** The executor taken out of use is open; when `start` replaces it, it has nothing pending. */
    method DetachExecutor(c: nat) returns (detached: Option<nat>)
      requires Valid() && (ClientAt(sys, c).Detach? || ClientAt(sys, c).FinishDetach?)
      modifies this`executor, this`sys
      ensures Valid() && sys == Apply(old(sys), Advance(c, Proceeds))
      ensures executor.None? && detached == old(executor)
      ensures detached.Some? ==>
        && ClientAt(sys, c).Drain? && ClientAt(sys, c).x == detached.value < |sys.executors|
        && var e := sys.executors[detached.value]; !e.shutdown && (old(ClientAt(sys, c)).Detach? ==> e.pending == [])
    {
      DetachPoint(sys, c);
      detached, executor := executor, None;
      Record(Advance(c, Proceeds));
      DrainPoint(sys, c);
    }

    /** `shutdown` once nothing is pending: setting `shutdown_` strands nothing. */
    method CloseExecutor(c: nat, x: nat)
      requires Valid() && ClientAt(sys, c).Close? && ClientAt(sys, c).x == x < |executors|
      modifies this`sys, executors
      ensures Valid() && sys == Apply(old(sys), Advance(c, Proceeds)) && executors == old(executors)
      ensures sys.executors[x].shutdown && sys.executors[x].pending == [] && executor != Some(x)
    {
      ClosePoint(sys, c);
      PerformAt(x, E.SetShutdown, sys.executors);
      Record(Advance(c, Proceeds));
    }

    method ConstructExecutor(c: nat, o: Options)
      requires Valid() && ClientAt(sys, c) == Construct(o)
      modifies this`executors, this`sys
      ensures Valid() && sys == Apply(old(sys), Advance(c, Proceeds))
      ensures ClientAt(sys, c) == Install(o, |old(executors)|) && |executors| == |old(executors)| + 1
    {
      ConstructPoint(sys, c);
      AddExecutor(o.workers, sys.executors);
      Record(Advance(c, Proceeds));
    }

    /** The new executor is the only one with anything left to do. */
    method InstallExecutor(c: nat, o: Options, x: nat)
      requires Valid() && ClientAt(sys, c) == Install(o, x)
      modifies this`executor, this`sys
      ensures Valid() && sys == Apply(old(sys), Advance(c, Proceeds))
      ensures executor == Some(x) && Fresh(sys, x)
    {
      InstallPoint(sys, c);
      executor := Some(x);
      Record(Advance(c, Proceeds));
    }

    /** The last test before binding.  Who goes on has an open executor of the configured width, a
        model, and the network to itself. */
    method Prepare(c: nat, reserves: bool) returns (ok: bool)
      requires Valid() && ClientAt(sys, c).Prepare?
      modifies this`phase, this`networkDone, this`sys
      ensures Valid() && sys == Apply(old(sys), Advance(c, if reserves then Proceeds else Throws))
      ensures ok <==> old(phase).Starting? && !finalShutdown && reserves
      ensures ok ==> Ready(sys) && sys.net.NoThread?
      ensures !ok && !ClientAt(sys, c).Failing? ==> phase.Stopped? && ClientAt(sys, c).Outside?
    {
      PreparePoint(sys, c, if reserves then Proceeds else Throws);
      ok := phase.Starting? && !finalShutdown && reserves;
      if !phase.Starting? || finalShutdown {
        phase := Stopped;
      } else if reserves {
        networkDone := false;
      }
      Record(Advance(c, if reserves then Proceeds else Throws));
    }

    /** The handler of exceptions leaves a stopped server without a network thread. */
    method AbandonStart(c: nat)
      requires Valid() && ClientAt(sys, c).Failing?
      modifies this`phase, this`networkDone, this`sys
      ensures Valid() && sys == Apply(old(sys), Advance(c, Proceeds))
      ensures phase.Stopped? && networkDone && sys.net.NoThread? && sys.control.None?
    {
      FailPoint(sys, c);
      phase, networkDone := Stopped, true;
      Record(Advance(c, Proceeds));
    }

    // ----- run and watchGrace -----

    /** A listener that is not to serve has been told so before it is entered. */
    method ListenerBound()
      requires Valid() && sys.net.Bound?
      modifies this`listener, this`sys
      ensures Valid() && sys == Apply(old(sys), Network(Proceeds))
      ensures listener.Listening? <==> phase.Starting? && !finalShutdown
      ensures phase.Stopping? ==> listener.StopCalled?
    {
      listener := Listening;
      if !phase.Starting? || finalShutdown {
        listener := StopCalled;
      }
      Record(Network(Proceeds));
      NetworkPoint(sys);
    }

    /** The server begins to run with everything in place, or its listener has been told to stop. */
    method StartHandler()
      requires Valid() && sys.net == Serving(false)
      modifies this`phase, this`listener, this`sys
      ensures Valid() && sys == Apply(old(sys), Event.StartHandler)
      ensures phase.Running? ==> !finalShutdown && Ready(sys)
      ensures !phase.Running? ==> listener.StopCalled?
    {
      NetworkPoint(sys);
      if phase.Starting? && !finalShutdown {
        phase := Running;
      } else if !listener.NoListener? {
        listener := StopCalled;
      }
      Record(Event.StartHandler);
      RunningIsReady(sys);
    }

    /** The accept loop has ended, or setting up has failed: that counts as a request to stop. */
    method LoopEnds()
      requires Valid() && (sys.net.Serving? || sys.net.Caught?)
      modifies this`phase, this`listener, this`sys
      ensures Valid() && sys == Apply(old(sys), Network(Proceeds))
      ensures Requested(sys) && phase.Stopping?
    {
      NetworkPoint(sys);
      StopLocked();
      Record(Network(Proceeds));
      Told(sys);
    }

    /** The end of `run`: nobody is left who could use the listener. */
    method NetworkEnds()
      requires Valid() && sys.net.Cleanup?
      modifies this`listener, this`networkDone, this`sys
      ensures Valid() && sys == Apply(old(sys), Network(Proceeds))
      ensures sys.handlers == map[] && !phase.Running?
    {
      listener, networkDone := NoListener, true;
      Record(Network(Proceeds));
      NetworkPoint(sys);
    }

    method NetworkClosed()
      requires Valid() && sys.net.Closing?
      modifies this`phase, this`sys
      ensures Valid() && sys == Apply(old(sys), Network(Proceeds))
      ensures phase.Stopped? && sys.handlers == map[] && listener.NoListener? && (sys.watch.NoWatch? || sys.watch.Ended?)
    {
      phase := Stopped;
      Record(Network(Proceeds));
      NetworkPoint(sys);
    }

    /** The end of the grace period cuts requests off only while the network is not done. */
    method GraceEnds()
      requires Valid() && sys.watch.Grace?
      modifies this`graceExpired, this`sys
      ensures Valid() && sys == Apply(old(sys), Watchdog(true)) && sys.watch.Ended?
      ensures graceExpired && !old(graceExpired) ==> !networkDone && !sys.net.Closing? && !sys.net.Finished?
    {
      if !networkDone {
        graceExpired := true;
      }
      Record(Watchdog(true));
      DoneBeforeClosing(sys);
    }

    // ----- handle -----

    /** The admission gate: the phase is tested and the invocation admitted in one critical
        section, so nothing is admitted unless the server runs and is not being shut down.  When
        the push fails, the handler ends with an error and nothing has been admitted. */
    method Gate(h: nat, id: E.Id, hasSend: bool, pushFails: bool) returns (r: Verdict)
      requires Valid() && Enabled(sys, Event.Gate(h, id, hasSend))
      modifies this`sys, executors
      ensures Valid() && View() == old(View()) && executors == old(executors)
      ensures sys == Apply(old(sys), if r.Failed? then Hangup(h) else Event.Gate(h, id, hasSend))
      ensures r.Unavailable? <==> !(phase.Running? && !finalShutdown)
      ensures !r.Unavailable? ==> executor.Some? && executor.value < |executors|
      ensures !r.Unavailable? ==>
        (r.Exhausted? <==> old(executors[executor.value].shutdown || |executors[executor.value].pending| >= options.maxPending))
      ensures r.Failed? ==> pushFails
      ensures r.Accepted? <==> h in sys.handlers
      ensures r.Accepted? ==>
        Current(sys) && id in CurrentExec(sys).value.pending && sys.handlers[h] == Admitted(executor.value, id)
      ensures !r.Accepted? ==> sys.executors == old(sys).executors
    {
      GatePoint(sys, h, id, hasSend);
      if !phase.Running? || finalShutdown {
        Record(Event.Gate(h, id, hasSend));
        return Unavailable;
      }
      ExecutorIsReached(sys, executor.value);
      var result := AdmitAt(executor.value, E.Admit(id, hasSend, options.maxPending), pushFails, sys.executors);
      match result
      case Admitted =>
        Record(Event.Gate(h, id, hasSend));
        return Accepted;
      case Refused =>
        Record(Event.Gate(h, id, hasSend));
        return Exhausted;
      case PushFailed =>
        Record(Hangup(h));
        return Failed;
    }
  }

  // ----- What the events are -----

  /** Nothing runs or starts, and any listener there is has been told to stop. */
  predicate Requested(s: Sys) {
    && !Open(s.impl) && !s.impl.phase.Running? && !s.impl.phase.Starting?
    && (s.impl.phase.Stopping? && ListenerExpected(s.net) ==> s.impl.listener.StopCalled?)
  }

  /** Every executor retains no more than the options allow, and the current one is open and has
      the configured width or nothing pending. */
  ghost predicate Bounded(s: Sys) {
    && (forall x :: 0 <= x < |s.executors| ==> |s.executors[x].pending| <= s.impl.options.maxPending)
    && (s.impl.executor.Some? ==>
          && s.impl.executor.value < |s.executors|
          && var e := s.executors[s.impl.executor.value];
             !e.shutdown && (e.pending == [] || e.width == s.impl.options.workers))
  }

  /** The current executor is open, empty and of the configured width; all others are over. */
  ghost predicate Fresh(s: Sys, x: nat) {
    && x < |s.executors| && s.executors[x].width == s.impl.options.workers
    && !s.executors[x].shutdown && s.executors[x].pending == []
    && forall y :: 0 <= y < |s.executors| && y != x ==> Gone(s.executors[y])
  }

  /** What a running server needs. */
  predicate Ready(s: Sys) {
    && s.impl.model && Current(s)
    && !CurrentExec(s).value.shutdown && CurrentExec(s).value.width == s.impl.options.workers
  }

  // `Reachable` stands for the invariant, which only these lemmas look into.

  ghost predicate Reachable(s: Sys) {
    exists o, run :: Legal(Initial(o), run) && After(Initial(o), run) == s
  }

  lemma InitialIsReachable(o: Options)
    ensures Reachable(Initial(o))
  {
    assert Legal(Initial(o), []) && After(Initial(o), []) == Initial(o);
  }

  lemma ReachesOn(s: Sys, ev: Event)
    requires Reachable(s) && Enabled(s, ev)
    ensures Reachable(Apply(s, ev))
  {
    var o, run :| Legal(Initial(o), run) && After(Initial(o), run) == s;
    Extend(Initial(o), run, ev);
  }

  lemma ReachableIsGood(s: Sys)
    requires Reachable(s)
    ensures Good(s)
  {
    var o, run :| Legal(Initial(o), run) && After(Initial(o), run) == s;
    ReachableGood(o, run);
  }

  lemma ExecutorIsReached(s: Sys, x: nat)
    requires Reachable(s) && x < |s.executors|
    ensures R.Reached(s.executors[x])
  {
    var o, run :| Legal(Initial(o), run) && After(Initial(o), run) == s;
    ServerVerdicts.RunReaches(o, run);
  }

  lemma Told(s: Sys)
    requires Reachable(s) && !s.impl.phase.Running? && !s.impl.phase.Starting?
    ensures Requested(s)
  {
    ReachableIsGood(s);
  }

  lemma IsBounded(s: Sys)
    requires Reachable(s)
    ensures Bounded(s)
  {
    ReachableIsGood(s);
  }

  lemma CurrentExists(s: Sys)
    requires Reachable(s)
    ensures s.impl.executor.Some? ==> s.impl.executor.value < |s.executors|
  {
    ReachableIsGood(s);
  }

  lemma RunningIsReady(s: Sys)
    requires Reachable(s)
    ensures s.impl.phase.Running? ==> !s.impl.finalShutdown && Ready(s)
  {
    ReachableIsGood(s);
  }

  lemma DoneBeforeClosing(s: Sys)
    requires Reachable(s)
    ensures s.net.Closing? || s.net.Finished? || s.net.JoinWatch? ==> s.impl.networkDone
  {
    ReachableIsGood(s);
  }

  lemma StopPoint(s: Sys, c: nat)
    requires ClientAt(s, c).StopAgain? || ClientAt(s, c).FinishBegun?
    ensures var t := Apply(s, Advance(c, Proceeds)); t.impl == Stop(s.impl) && t.executors == s.executors
  {}

  lemma CheckPoint(s: Sys, c: nat)
    requires Reachable(s) && ClientAt(s, c).Check?
    ensures var t := Apply(s, Advance(c, Proceeds));
      && t.impl == s.impl && t.executors == s.executors && t.handlers == s.handlers && t.net == s.net
      && if s.impl.finalShutdown || !s.impl.phase.Stopped? then ClientAt(t, c).Outside? && t.control.None?
         else ClientAt(t, c).JoinOld? && Joinable(s.net) && s.handlers == map[]
  {
    ReachableIsGood(s);
    OwnerIsHolder(s, c);
  }

  lemma AcceptPoint(s: Sys, c: nat)
    requires ClientAt(s, c).Accept?
    ensures var t, o := Apply(s, Advance(c, Proceeds)), ClientAt(s, c).o;
      && t.executors == s.executors
      && if Acceptable(o, CurrentExec(s))
         then ClientAt(t, c).BuildModel? && t.impl == s.impl.(options := o, phase := Starting, graceExpired := false)
         else ClientAt(t, c).Outside? && t.impl == s.impl
  {}

  lemma ModelPoint(s: Sys, c: nat, outcome: Outcome)
    requires ClientAt(s, c).BuildModel?
    ensures var t := Apply(s, Advance(c, outcome));
      && t.executors == s.executors && t.impl == s.impl.(model := s.impl.model || outcome.Proceeds?)
      && (if t.impl.model then ClientAt(t, c).Compare? else ClientAt(t, c).Failing?)
  {}

  lemma DropPoint(s: Sys, c: nat)
    requires Reachable(s) && ClientAt(s, c).DropModel?
    ensures var t := Apply(s, Advance(c, Proceeds));
      && t.executors == s.executors && t.impl == s.impl.(model := false) && t.handlers == s.handlers == map[]
      && t.net == s.net && t.net.NoThread? && t.impl.finalShutdown && t.impl.phase.Stopped?
      && (forall x :: 0 <= x < |t.executors| ==> Gone(t.executors[x]))
  {
    ReachableIsGood(s);
    OwnerIsHolder(s, c);
  }

  lemma DetachPoint(s: Sys, c: nat)
    requires ClientAt(s, c).Detach? || ClientAt(s, c).FinishDetach?
    ensures var t := Apply(s, Advance(c, Proceeds));
      && t.executors == s.executors && t.impl == s.impl.(executor := None)
      && (s.impl.executor.Some? ==>
            ClientAt(t, c).Drain? && ClientAt(t, c).x == s.impl.executor.value
            && (ClientAt(s, c).Detach? <==> ClientAt(t, c).next.ThenConstruct?))
  {}

  lemma DrainPoint(s: Sys, c: nat)
    requires Reachable(s)
    ensures ClientAt(s, c).Drain? ==>
      && ClientAt(s, c).x < |s.executors|
      && var e := s.executors[ClientAt(s, c).x]; !e.shutdown && (ClientAt(s, c).next.ThenConstruct? ==> e.pending == [])
  {
    ReachableIsGood(s);
    if ClientAt(s, c).Drain? {
      HeldExecutor(s, c);
    }
  }

  lemma ClosePoint(s: Sys, c: nat)
    requires Reachable(s) && ClientAt(s, c).Close?
    ensures var x := ClientAt(s, c).x;
      && x < |s.executors| && R.Reached(s.executors[x]) && s.executors[x].pending == [] && s.impl.executor != Some(x)
      && Enabled(s, Advance(c, Proceeds))
      && Apply(s, Advance(c, Proceeds)).impl == s.impl
      && Apply(s, Advance(c, Proceeds)).executors == s.executors[x := E.Apply(s.executors[x], E.SetShutdown)]
  {
    ReachableIsGood(s);
    HeldExecutor(s, c);
    OwnerIsHolder(s, c);
    ExecutorIsReached(s, ClientAt(s, c).x);
  }

  lemma ConstructPoint(s: Sys, c: nat)
    requires ClientAt(s, c).Construct?
    ensures var t, o := Apply(s, Advance(c, Proceeds)), ClientAt(s, c).o;
      && t.impl == s.impl && t.executors == s.executors + [E.New(o.workers)] && ClientAt(t, c) == Install(o, |s.executors|)
  {}

  lemma InstallPoint(s: Sys, c: nat)
    requires Reachable(s) && ClientAt(s, c).Install?
    ensures var t, x := Apply(s, Advance(c, Proceeds)), ClientAt(s, c).x;
      t.executors == s.executors && t.impl == s.impl.(executor := Some(x)) && Fresh(t, x)
  {
    ReachableIsGood(s);
    HeldExecutor(s, c);
    OwnerIsHolder(s, c);
  }

  lemma PreparePoint(s: Sys, c: nat, outcome: Outcome)
    requires Reachable(s) && ClientAt(s, c).Prepare?
    ensures var t := Apply(s, Advance(c, outcome));
      && t.executors == s.executors && t.net == s.net && t.net.NoThread?
      && if !s.impl.phase.Starting? || s.impl.finalShutdown
         then t.impl == s.impl.(phase := Stopped) && ClientAt(t, c).Outside?
         else if outcome.Proceeds? then t.impl == s.impl.(networkDone := false) && Ready(t)
         else t.impl == s.impl && ClientAt(t, c).Failing?
  {
    ReachableIsGood(s);
    OwnerIsHolder(s, c);
  }

  lemma FailPoint(s: Sys, c: nat)
    requires Reachable(s) && ClientAt(s, c).Failing?
    ensures var t := Apply(s, Advance(c, Proceeds));
      && t.impl == s.impl.(phase := Stopped, networkDone := true) && t.executors == s.executors
      && t.net.NoThread? && t.control.None?
  {
    ReachableIsGood(s);
    OwnerIsHolder(s, c);
  }

  lemma NetworkPoint(s: Sys)
    requires Reachable(s)
    ensures s.net.JoinWatch? ==> s.handlers == map[] && !s.impl.phase.Running?
    ensures s.net.Finished? ==>
      s.handlers == map[] && s.impl.listener.NoListener? && (s.watch.NoWatch? || s.watch.Ended?)
    ensures s.net.Armed? && s.impl.phase.Stopping? ==> s.impl.listener.StopCalled?
    ensures s.net.Serving? ==> !s.impl.listener.NoListener?
    ensures s.net.Serving? || s.net.Caught? ==> !s.impl.phase.Stopped?
  {
    ReachableIsGood(s);
  }

  lemma GatePoint(s: Sys, h: nat, id: E.Id, hasSend: bool)
    requires Reachable(s) && Enabled(s, Gate(h, id, hasSend))
    ensures var t, m := Apply(s, Gate(h, id, hasSend)), s.impl;
      && t.impl == m && Enabled(s, Hangup(h)) && Apply(s, Hangup(h)) == s.(handlers := s.handlers - {h})
      && (Open(m) ==> Current(s) && id !in CurrentExec(s).value.invocations)
      && (Open(m) && E.Accepts(CurrentExec(s).value, m.options.maxPending) ==>
            var x := m.executor.value;
            && t.executors == s.executors[x := E.Apply(s.executors[x], E.Admit(id, hasSend, m.options.maxPending))]
            && t.handlers == s.handlers[h := Admitted(x, id)])
      && (!Open(m) || !E.Accepts(CurrentExec(s).value, m.options.maxPending) ==> t == s.(handlers := s.handlers - {h}))
  {
    ReachableIsGood(s);

  }
}
