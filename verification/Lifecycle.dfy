/** Lifecycle invariants of the server: phases, threads, listener and `control`. */
module Lifecycle {
  import opened Prelude
  import opened Server
  import E = Executor

  /** The program of the thread that owns `control`. */
  function Holder(s: Sys): Client {
    if s.control.Some? then ClientAt(s, s.control.value) else Outside
  }

  /** `start` has accepted its options and not yet spawned the network thread. */
  predicate Launching(p: Client) {
    match p
    case BuildModel(_) => true
    case Compare(_) => true
    case Detach(_) => true
    case Construct(_) => true
    case Install(_, _) => true
    case Prepare(_) => true
    case Spawn(_) => true
    case Failing => true
    case Drain(_, next) => next.ThenConstruct?
    case Close(_, next) => next.ThenConstruct?
    case JoinThreads(_, next) => next.ThenConstruct?
    case _ => false
  }

  /** `start` between its first test and acceptance. */
  predicate Approaching(p: Client) {
    p.JoinOld? || p.Accept?
  }

  /** `finishShutdown` after it took `control` for the second time. */
  predicate Retiring(p: Client) {
    match p
    case FinishDetach => true
    case DropModel => true
    case Drain(_, next) => next.ThenDropModel?
    case Close(_, next) => next.ThenDropModel?
    case JoinThreads(_, next) => next.ThenDropModel?
    case _ => false
  }

  predicate Finishing(p: Client) {
    || p.FinishBegun? || p.FinishWaiting? || Retiring(p)
    || (p.StopWaiting? && p.finishing) || (p.StopAgain? && p.finishing)
    || (p.StopJoin? && p.finishing) || (p.StopHeld? && p.finishing)
  }

  predicate ListenerExpected(n: Net) {
    n.Armed? || n.Entering? || n.Serving? || n.Draining?
  }

  ghost predicate ControlOk(s: Sys) {
    && (s.control.Some? ==> HoldsControl(Holder(s)))
    && (forall c :: c in s.clients && HoldsControl(s.clients[c]) ==> s.control == Some(c))
    && (forall c :: c in s.clients && Finishing(s.clients[c]) ==> s.impl.finalShutdown)
    && (forall c :: c in s.clients && (s.clients[c].FinishWaiting? || Retiring(s.clients[c])) ==> s.retired)
  }

  predicate PhaseOk(m: Impl, net: Net, p: Client, retired: bool) {
    && (Launching(p) ==> net.NoThread? && (m.phase.Starting? || m.phase.Stopping?))
    && (net.NoThread? && !Launching(p) ==> m.phase.Stopped?)
    && (net.Finished? ==> m.phase.Stopped?)
    && (!Joinable(net) ==> !m.phase.Stopped?)
    && (m.phase.Running? ==> net == Serving(true))
    && (net == Serving(true) ==> !m.phase.Starting?)
    && (m.finalShutdown ==> !m.phase.Running?)
    && (m.finalShutdown && m.phase.Starting? ==> Launching(p) && !p.Spawn?)
    && (Approaching(p) ==> m.phase.Stopped? && Joinable(net))
    && (p.Accept? ==> net.NoThread?)
    && (p.Await? ==> !net.NoThread?)
    && (p.StopJoin? ==> m.phase.Stopping? || m.phase.Stopped?)
    && (p.StopHeld? ==> net.NoThread?)
    && (retired ==> m.finalShutdown && net.NoThread? && m.phase.Stopped? && !Approaching(p) && !Launching(p))
  }

  predicate NeedsModel(p: Client) {
    Launching(p) && !p.BuildModel? && !p.Failing?
  }

  predicate ThreadsOk(m: Impl, net: Net, watch: Watch, idle: bool, p: Client) {
    && (ListenerExpected(net) ==> !m.listener.NoListener?)
    && (net.NoThread? || net.Setup? || net.Bound? || net.JoinWatch? || net.Closing? || net.Finished?
        ==> m.listener.NoListener?)
    && (m.phase.Stopping? && ListenerExpected(net) ==> m.listener.StopCalled?)
    && (net.NoThread? || net.Setup? || net.Bound? || net.Armed? ==> watch.NoWatch?)
    && (net.Closing? || net.Finished? ==> watch.NoWatch? || watch.Ended?)
    && (net.JoinWatch? || net.Closing? || net.Finished? ==> m.networkDone)
    && (!idle ==> net.Serving? || net.Draining?)
    && (watch.Grace? ==> m.phase.Stopping? || m.networkDone)
    && (m.graceExpired ==> m.phase.Stopping? || m.phase.Stopped?)
    && (!net.NoThread? || NeedsModel(p) ==> m.model)
  }

  predicate Core(m: Impl, net: Net, watch: Watch, idle: bool, p: Client, retired: bool) {
    PhaseOk(m, net, p, retired) && ThreadsOk(m, net, watch, idle, p)
  }

  ghost predicate CoreOk(s: Sys, p: Client) {
    Core(s.impl, s.net, s.watch, s.handlers == map[], p, s.retired)
  }

  ghost predicate LifeOk(s: Sys) {
    ControlOk(s) && CoreOk(s, Holder(s))
  }

  lemma InitialLife(o: Options)
    ensures LifeOk(Initial(o))
  {}

  /** Stopping and beginning shutdown are safe at any point of any program. */
  lemma StopKeepsCore(s: Sys, p: Client)
    requires CoreOk(s, p)
    ensures CoreOk(s.(impl := Stop(s.impl)), p) && CoreOk(s.(impl := Begin(s.impl)), p)
  {}

  /** The network thread until it listens, and from there on. */
  predicate SettingUp(n: Net) {
    n.Setup? || n.Bound? || n.Armed? || n.Entering?
  }

  lemma SetupKeepsCore(s: Sys, p: Client, outcome: Outcome)
    requires CoreOk(s, p) && SettingUp(s.net)
    ensures CoreOk(AdvanceNetwork(s, outcome), p)
  {}

  lemma ServiceKeepsCore(s: Sys, p: Client, outcome: Outcome)
    requires CoreOk(s, p) && NetworkEnabled(s) && !SettingUp(s.net)
    ensures CoreOk(AdvanceNetwork(s, outcome), p)
  {}

  lemma NetworkKeepsCore(s: Sys, p: Client, outcome: Outcome)
    requires CoreOk(s, p) && NetworkEnabled(s)
    ensures CoreOk(AdvanceNetwork(s, outcome), p)
  {
    if SettingUp(s.net) {
      SetupKeepsCore(s, p, outcome);
    } else {
      ServiceKeepsCore(s, p, outcome);
    }
  }

  /** Only the owner of `control` is past its first critical section. */
  lemma OwnerIsHolder(s: Sys, c: nat)
    requires ControlOk(s) && HoldsControl(ClientAt(s, c))
    ensures s.control == Some(c) && Holder(s) == ClientAt(s, c)
  {}

  /** What a critical section of a client does to the clients and to `control`. */
  ghost predicate Shape(s: Sys, c: nat, t: Sys) {
    var p, to := ClientAt(s, c), ClientAt(t, c);
    && t.clients == s.clients[c := to]
    && t.impl.finalShutdown == s.impl.finalShutdown
    && t.retired == (s.retired || p == StopHeld(true))
    && t.control == (if HoldsControl(to) then Some(c) else if HoldsControl(p) then None else s.control)
    && (HoldsControl(to) && !HoldsControl(p) ==> s.control.None?)
    && (Finishing(to) ==> Finishing(p))
    && (to.FinishWaiting? || Retiring(to) ==> p.FinishWaiting? || Retiring(p) || p == StopHeld(true))
  }

  lemma ShapeKeepsControl(s: Sys, c: nat, t: Sys)
    requires ControlOk(s) && Shape(s, c, t)
    ensures ControlOk(t)
    ensures Holder(t) ==
      if HoldsControl(ClientAt(t, c)) then ClientAt(t, c)
      else if HoldsControl(ClientAt(s, c)) then Outside else Holder(s)
  {
    assert forall d :: d in t.clients && d != c ==> d in s.clients && t.clients[d] == s.clients[d];
  }

  lemma EntryShape(s: Sys, c: nat)
    requires AdvanceEnabled(s, c) && PartOf(ClientAt(s, c)).Enters?
    ensures Shape(s, c, AdvanceEntry(s, c))
  {}

  lemma StartShape(s: Sys, c: nat, outcome: Outcome)
    requires AdvanceEnabled(s, c) && PartOf(ClientAt(s, c)).Starts? && s.control == Some(c)
    ensures Shape(s, c, AdvanceStart(s, c, outcome))
  {}

  lemma LaunchShape(s: Sys, c: nat, outcome: Outcome)
    requires PartOf(ClientAt(s, c)).Launches? && s.control == Some(c)
    ensures Shape(s, c, AdvanceLaunch(s, c, outcome))
  {}

  lemma ShutdownShape(s: Sys, c: nat)
    requires AdvanceEnabled(s, c) && PartOf(ClientAt(s, c)).Shuts? && s.control == Some(c)
    ensures Shape(s, c, AdvanceShutdown(s, c))
  {}

  lemma HaltShape(s: Sys, c: nat)
    requires AdvanceEnabled(s, c) && PartOf(ClientAt(s, c)).Stops?
    requires HoldsControl(ClientAt(s, c)) ==> s.control == Some(c)
    ensures Shape(s, c, AdvanceStop(s, c))
  {}

  /** Whatever a client does, it moves itself only, and takes and leaves `control` in turn. */
  lemma AdvanceShape(s: Sys, c: nat, outcome: Outcome)
    requires LifeOk(s) && AdvanceEnabled(s, c)
    ensures Shape(s, c, AdvanceClient(s, c, outcome))
  {
    if HoldsControl(ClientAt(s, c)) {
      OwnerIsHolder(s, c);
    }
    match PartOf(ClientAt(s, c))
    case Enters => EntryShape(s, c);
    case Starts => StartShape(s, c, outcome);
    case Launches => LaunchShape(s, c, outcome);
    case Shuts => ShutdownShape(s, c);
    case Stops => HaltShape(s, c);
  }

  lemma StartKeepsCore(s: Sys, c: nat, outcome: Outcome)
    requires CoreOk(s, ClientAt(s, c)) && AdvanceEnabled(s, c) && PartOf(ClientAt(s, c)).Starts?
    ensures CoreOk(AdvanceStart(s, c, outcome), ClientAt(AdvanceStart(s, c, outcome), c))
  {}

  lemma LaunchKeepsCore(s: Sys, c: nat, outcome: Outcome)
    requires CoreOk(s, ClientAt(s, c)) && AdvanceEnabled(s, c) && PartOf(ClientAt(s, c)).Launches?
    ensures CoreOk(AdvanceLaunch(s, c, outcome), ClientAt(AdvanceLaunch(s, c, outcome), c))
  {}

  lemma ShutdownKeepsCore(s: Sys, c: nat)
    requires CoreOk(s, ClientAt(s, c)) && AdvanceEnabled(s, c) && PartOf(ClientAt(s, c)).Shuts?
    ensures CoreOk(AdvanceShutdown(s, c), ClientAt(AdvanceShutdown(s, c), c))
  {}

  lemma HaltKeepsCore(s: Sys, c: nat)
    requires AdvanceEnabled(s, c) && PartOf(ClientAt(s, c)).Stops? && !ClientAt(s, c).FinishBegun?
    requires CoreOk(s, if HoldsControl(ClientAt(s, c)) then ClientAt(s, c) else Outside)
    requires ClientAt(s, c).FinishWaiting? || Retiring(ClientAt(s, c)) ==> s.retired
    requires Finishing(ClientAt(s, c)) ==> s.impl.finalShutdown
    ensures var t := AdvanceStop(s, c); CoreOk(t, if HoldsControl(ClientAt(t, c)) then ClientAt(t, c) else Outside)
  {}

  lemma EntryKeepsLife(s: Sys, c: nat)
    requires LifeOk(s) && AdvanceEnabled(s, c) && PartOf(ClientAt(s, c)).Enters?
    ensures LifeOk(AdvanceEntry(s, c))
  {
    EntryShape(s, c);
    ShapeKeepsControl(s, c, AdvanceEntry(s, c));
  }

  lemma StartKeepsLife(s: Sys, c: nat, outcome: Outcome)
    requires LifeOk(s) && AdvanceEnabled(s, c) && PartOf(ClientAt(s, c)).Starts?
    ensures LifeOk(AdvanceClient(s, c, outcome))
  {
    OwnerIsHolder(s, c);
    StartShape(s, c, outcome);
    ShapeKeepsControl(s, c, AdvanceStart(s, c, outcome));
    StartKeepsCore(s, c, outcome);
  }

  lemma LaunchKeepsLife(s: Sys, c: nat, outcome: Outcome)
    requires LifeOk(s) && AdvanceEnabled(s, c) && PartOf(ClientAt(s, c)).Launches?
    ensures LifeOk(AdvanceClient(s, c, outcome))
  {
    OwnerIsHolder(s, c);
    LaunchShape(s, c, outcome);
    ShapeKeepsControl(s, c, AdvanceLaunch(s, c, outcome));
    LaunchKeepsCore(s, c, outcome);
  }

  lemma ShutdownKeepsLife(s: Sys, c: nat)
    requires LifeOk(s) && AdvanceEnabled(s, c) && PartOf(ClientAt(s, c)).Shuts?
    ensures LifeOk(AdvanceShutdown(s, c))
  {
    OwnerIsHolder(s, c);
    ShutdownShape(s, c);
    ShapeKeepsControl(s, c, AdvanceShutdown(s, c));
    ShutdownKeepsCore(s, c);
  }

  lemma HaltKeepsLife(s: Sys, c: nat)
    requires LifeOk(s) && AdvanceEnabled(s, c) && PartOf(ClientAt(s, c)).Stops?
    ensures LifeOk(AdvanceStop(s, c))
  {
    if HoldsControl(ClientAt(s, c)) {
      OwnerIsHolder(s, c);
    }
    HaltShape(s, c);
    ShapeKeepsControl(s, c, AdvanceStop(s, c));
    if ClientAt(s, c).FinishBegun? {
      StopKeepsCore(s, Holder(s));
    } else {
      HaltKeepsCore(s, c);
    }
  }

  lemma AdvanceKeepsLife(s: Sys, c: nat, outcome: Outcome)
    requires LifeOk(s) && AdvanceEnabled(s, c)
    ensures LifeOk(AdvanceClient(s, c, outcome))
  {
    match PartOf(ClientAt(s, c))
    case Enters => EntryKeepsLife(s, c);
    case Starts => StartKeepsLife(s, c, outcome);
    case Launches => LaunchKeepsLife(s, c, outcome);
    case Shuts => ShutdownKeepsLife(s, c);
    case Stops => HaltKeepsLife(s, c);
  }

  lemma HandlerKeepsCore(s: Sys, ev: Event, p: Client)
    requires CoreOk(s, p) && HandlerEnabled(s, ev)
    ensures CoreOk(AdvanceHandler(s, ev), p)
  {
    assert !ev.Request? ==> s.handlers != map[];
  }

  lemma WatchKeepsCore(s: Sys, p: Client, expires: bool)
    requires CoreOk(s, p)
    ensures WatchEnabled(s, expires) ==> CoreOk(AdvanceWatch(s), p)
    ensures s.net == Serving(false) ==> CoreOk(s.(impl := Announce(s.impl), net := Serving(true)), p)
  {}

  /** A thread outside any critical section makes a call. */
  lemma CallKeepsControl(s: Sys, c: nat, p: Client)
    requires ControlOk(s) && ClientAt(s, c).Outside?
    requires p.StartWaiting? || p == StopWaiting(false) || (p == FinishBegun && s.impl.finalShutdown)
    ensures ControlOk(Move(s, c, p)) && Holder(Move(s, c, p)) == Holder(s)
  {
    var t := Move(s, c, p);
    assert forall d :: d in t.clients && d != c ==> d in s.clients && t.clients[d] == s.clients[d];
  }

  lemma CallKeepsLife(s: Sys, ev: Event)
    requires LifeOk(s) && Enabled(s, ev) && (ev.CallStart? || ev.CallStop? || ev.CallFinish?)
    ensures LifeOk(Apply(s, ev))
  {
    StopKeepsCore(s, Holder(s));
    match ev
    case CallStart(c, o) => CallKeepsControl(s, c, StartWaiting(o));
    case CallStop(c) => CallKeepsControl(s.(impl := Stop(s.impl)), c, StopWaiting(false));
    case CallFinish(c) => CallKeepsControl(s.(impl := Begin(s.impl)), c, FinishBegun);
  }

  /** Events that move no client. */
  lemma NonClientKeepsLife(s: Sys, t: Sys)
    requires LifeOk(s) && CoreOk(t, Holder(s)) && (s.impl.finalShutdown ==> t.impl.finalShutdown)
    requires t.clients == s.clients && t.control == s.control && t.retired == s.retired
    ensures LifeOk(t)
  {}

  lemma ServiceKeepsLife(s: Sys, ev: Event)
    requires LifeOk(s) && Enabled(s, ev)
    requires ev.Network? || ev.StartHandler? || ev.Watchdog? || ev.RequestStop? || ev.BeginShutdown? || ev.Work?
    ensures LifeOk(Apply(s, ev))
  {
    var p, t := Holder(s), Apply(s, ev);
    if ev.Network? {
      NetworkKeepsCore(s, p, ev.outcome);
      assert CoreOk(t, p);
    } else if ev.StartHandler? || ev.Watchdog? {
      WatchKeepsCore(s, p, true);
    } else if !ev.Work? {
      StopKeepsCore(s, p);
    }
    NonClientKeepsLife(s, t);
  }

  lemma HandlerKeepsLife(s: Sys, ev: Event)
    requires LifeOk(s) && HandlerEnabled(s, ev)
    ensures LifeOk(AdvanceHandler(s, ev))
  {
    HandlerKeepsCore(s, ev, Holder(s));
    NonClientKeepsLife(s, AdvanceHandler(s, ev));
  }

  /** Every event of every thread keeps the lifecycle invariant. */
  lemma EventKeepsLife(s: Sys, ev: Event)
    requires LifeOk(s) && Enabled(s, ev)
    ensures LifeOk(Apply(s, ev))
  {
    match ev
    case Advance(c, outcome) => AdvanceKeepsLife(s, c, outcome);
    case CallStart(_, _) => CallKeepsLife(s, ev);
    case CallStop(_) => CallKeepsLife(s, ev);
    case CallFinish(_) => CallKeepsLife(s, ev);
    case Request(_) => HandlerKeepsLife(s, ev);
    case Gate(_, _, _) => HandlerKeepsLife(s, ev);
    case Reply(_, _, _) => HandlerKeepsLife(s, ev);
    case Hangup(_) => HandlerKeepsLife(s, ev);
    case _ => ServiceKeepsLife(s, ev);
  }
}
