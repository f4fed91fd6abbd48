/** The server lifecycle composed with its executors, as one interleaving step system.
    Any number of client threads call the public API; the network thread, the watchdog, the
    request handlers and every executor thread take turns, one critical section at a time. */
module Server {
  import opened Prelude
  import E = Executor

  datatype Phase = Stopped | Starting | Running | Stopping

  /** The options that matter here: `maxPendingOperations` and `workerThreads`. */
  datatype Options = Options(maxPending: nat, workers: nat)

  /** The `listener` pointer, and whether `stop()` was called on it. */
  datatype Listener = NoListener | Listening | StopCalled

  /** The fields of `Server::Impl` guarded by its mutex; `executor` names an entry of `executors`. */
  datatype Impl = Impl(
    phase: Phase, finalShutdown: bool, networkDone: bool, graceExpired: bool,
    options: Options, executor: Option<nat>, model: bool, listener: Listener)

  /** The network thread, `run`. */
  datatype Net =
    | NoThread                   // not joinable
    | Setup | Bound | Armed | Entering
    | Serving(announced: bool)   // inside `listen_after_bind`; has the start handler run?
    | Draining                   // accept loop over, pool threads being joined
    | Caught | Cleanup | JoinWatch | Closing
    | Finished                   // joinable, but over

  datatype Watch = NoWatch | Waiting | Grace | Ended

  /** What follows once an executor has been shut down. */
  datatype Next = ThenConstruct(options: Options) | ThenDropModel

  datatype Client =
    | Outside
    // Server::start, awaiting and then holding `control`
    | StartWaiting(o: Options)
    | Check(o: Options) | JoinOld(o: Options) | Accept(o: Options) | BuildModel(o: Options)
    | Compare(o: Options) | Detach(o: Options) | Construct(o: Options) | Install(o: Options, x: nat)
    | Prepare(o: Options) | Spawn(o: Options) | Await | Failing
    // OperationExecutor::shutdown, holding `control`
    | Drain(x: nat, next: Next) | Close(x: nat, next: Next) | JoinThreads(x: nat, next: Next)
    // Server::stop; `finishing` when called by finishShutdown
    | StopWaiting(finishing: bool)
    | StopAgain(finishing: bool) | StopJoin(finishing: bool) | StopHeld(finishing: bool)
    // Server::finishShutdown
    | FinishBegun | FinishWaiting
    | FinishDetach | DropModel

  datatype Handler =
    | Arrived
    | Admitted(x: nat, id: E.Id)
    | Replied(x: nat, id: E.Id, code: int, encoded: bool, done: bool)  // did its values encode, was it complete

  datatype Sys = Sys(
    impl: Impl, executors: seq<E.Exec>, net: Net, watch: Watch,
    control: Option<nat>, clients: map<nat, Client>, handlers: map<nat, Handler>,
    retired: bool)  // some finishShutdown has joined the network for good

  /** How a call that may fail went. */
  datatype Outcome = Proceeds | Fails | Throws

  datatype Event =
    | Work(x: nat, step: E.Step)
    | RequestStop
    | BeginShutdown
    | CallStart(c: nat, o: Options)
    | CallStop(c: nat)
    | CallFinish(c: nat)
    | Advance(c: nat, outcome: Outcome)
    | Network(outcome: Outcome)
    | StartHandler
    | Watchdog(expires: bool)
    | Request(h: nat)
    | Gate(h: nat, id: E.Id, hasSend: bool)
    | Reply(h: nat, encodes: bool, gaveUp: bool)  // gaveUp: the deadline has passed or the client has gone
    | Hangup(h: nat)

  // ----- Critical sections on the fields of Impl -----

  /** `requestStopLocked`. */
  function Stop(m: Impl): Impl {
    if m.phase.Stopped? || m.phase.Stopping? then m
    else m.(phase := Stopping, listener := if m.listener.NoListener? then NoListener else StopCalled)
  }

  /** `beginShutdown`. */
  function Begin(m: Impl): Impl {
    Stop(m.(finalShutdown := true))
  }

  /** The listener pointer is set after binding (src/server.cpp:719-725). */
  function SetListener(m: Impl): Impl {
    m.(listener := if m.phase.Starting? && !m.finalShutdown then Listening else StopCalled)
  }

  /** The start handler. */
  function Announce(m: Impl): Impl {
    if m.phase.Starting? && !m.finalShutdown then m.(phase := Running)
    else if m.listener.NoListener? then m
    else m.(listener := StopCalled)
  }

  /** The end of `run`, before the watchdog is joined. */
  function Retract(m: Impl): Impl {
    m.(listener := NoListener, networkDone := true)
  }

  /** The admission gate of `handle`. */
  predicate Open(m: Impl) {
    m.phase.Running? && !m.finalShutdown
  }

  /** The retained-operation tests of `start`; `current` is the executor, if any. */
  predicate Acceptable(o: Options, current: Option<E.Exec>) {
    current.Some? ==>
      && |current.value.pending| <= o.maxPending
      && (current.value.pending == [] || o.workers == current.value.width)
  }

  /** What `validateOptions` asks of these two options. */
  predicate ValidOptions(o: Options) {
    0 < o.maxPending && 0 < o.workers <= 1024
  }

  // ----- The composed system -----

  function Initial(o: Options): Sys {
    Sys(Impl(Stopped, false, true, false, o, None, false, NoListener),
        [], NoThread, NoWatch, None, map[], map[], false)
  }

  function ClientAt(s: Sys, c: nat): Client {
    if c in s.clients then s.clients[c] else Outside
  }

  /** Client program points at which the thread owns `control`. */
  predicate HoldsControl(p: Client) {
    match p
    case Outside => false
    case StartWaiting(_) => false
    case StopWaiting(_) => false
    case FinishBegun => false
    case FinishWaiting => false
    case _ => true
  }

  predicate Current(s: Sys) {
    s.impl.executor.Some? && s.impl.executor.value < |s.executors|
  }

  function CurrentExec(s: Sys): Option<E.Exec> {
    if Current(s) then Some(s.executors[s.impl.executor.value]) else None
  }

  /** All threads of an executor have been joined. */
  predicate ThreadsGone(e: E.Exec) {
    (forall w :: 0 <= w < |e.workers| ==> e.workers[w].Exited?) && e.reaper.ReaperExited?
  }

  predicate Joinable(n: Net) {
    n.NoThread? || n.Finished?
  }

  ghost predicate AdvanceEnabled(s: Sys, c: nat) {
    match ClientAt(s, c)
    case Outside => false
    case JoinOld(_) => Joinable(s.net)
    case StopJoin(_) => Joinable(s.net)
    case Drain(x, _) => x < |s.executors| && s.executors[x].pending == []
    case Close(x, _) => x < |s.executors|
    case JoinThreads(x, _) => x < |s.executors| && ThreadsGone(s.executors[x])
    case Await => s.impl.phase.Running? || s.impl.phase.Stopped?
    case StartWaiting(_) => s.control.None?
    case StopWaiting(_) => s.control.None?
    case FinishWaiting => s.control.None?
    case _ => true
  }

  predicate NetworkEnabled(s: Sys) {
    match s.net
    case NoThread => false
    case Finished => false
    case Draining => s.handlers == map[]
    case JoinWatch => s.watch.NoWatch? || s.watch.Ended?
    case _ => true
  }

  predicate WatchEnabled(s: Sys, expires: bool) {
    || (s.watch.Waiting? && (s.impl.networkDone || s.impl.phase.Stopping?))
    || (s.watch.Grace? && (s.impl.networkDone || expires))
  }

  predicate HandlerEnabled(s: Sys, ev: Event) {
    match ev
    case Request(h) => h !in s.handlers && (s.net.Serving? || s.net.Draining?)
    case Gate(h, id, _) =>
      h in s.handlers && s.handlers[h].Arrived? && (Current(s) ==> id !in CurrentExec(s).value.invocations)
    case Reply(h, _, gaveUp) =>
      && h in s.handlers && s.handlers[h].Admitted? && s.handlers[h].x < |s.executors|
      && s.handlers[h].id in s.executors[s.handlers[h].x].invocations
      && (s.executors[s.handlers[h].x].invocations[s.handlers[h].id].complete || s.impl.graceExpired || gaveUp)
    case Hangup(h) => h in s.handlers && !s.handlers[h].Admitted?
    case _ => false
  }

  ghost predicate Enabled(s: Sys, ev: Event) {
    match ev
    case Work(x, step) =>
      x < |s.executors| && !step.Admit? && !step.SetShutdown? && E.Enabled(s.executors[x], step)
    case RequestStop => true
    case BeginShutdown => true
    case CallStart(c, _) => ClientAt(s, c).Outside?
    case CallStop(c) => ClientAt(s, c).Outside?
    case CallFinish(c) => ClientAt(s, c).Outside?
    case Advance(c, _) => AdvanceEnabled(s, c)
    case Network(_) => NetworkEnabled(s)
    case StartHandler => s.net == Serving(false)
    case Watchdog(expires) => WatchEnabled(s, expires)
    case _ => HandlerEnabled(s, ev)
  }

  function Move(s: Sys, c: nat, to: Client): Sys {
    s.(clients := s.clients[c := to])
  }

  /** The end of an API call that held `control`. */
  function Return(s: Sys, c: nat): Sys {
    Move(s, c, Outside).(control := None)
  }

  function Take(s: Sys, c: nat, to: Client): Sys {
    Move(s, c, to).(control := Some(c))
  }

  function AfterShutdown(next: Next): Client {
    match next
    case ThenConstruct(o) => Construct(o)
    case ThenDropModel => DropModel
  }

  function DetachExecutor(s: Sys, c: nat, next: Next): Sys {
    var t := s.(impl := s.impl.(executor := None));
    Move(t, c, if s.impl.executor.Some? then Drain(s.impl.executor.value, next) else AfterShutdown(next))
  }

  /** `start` obtains `control`. */
  function AdvanceEntry(s: Sys, c: nat): Sys {
    match ClientAt(s, c)
    case StartWaiting(o) => Take(s, c, Check(o))
    case _ => s
  }

  /** `start`, up to the point where an executor of the right width is installed. */
  function AdvanceStart(s: Sys, c: nat, outcome: Outcome): Sys {
    var m := s.impl;
    match ClientAt(s, c)
    case Check(o) =>
      if m.finalShutdown || !m.phase.Stopped? then Return(s, c) else Move(s, c, JoinOld(o))
    case JoinOld(o) =>
      var t := s.(net := NoThread, watch := NoWatch);
      if ValidOptions(o) && outcome.Proceeds? then Move(t, c, Accept(o)) else Return(t, c)
    case Accept(o) =>
      if Acceptable(o, CurrentExec(s))
      then Move(s.(impl := m.(options := o, phase := Starting, graceExpired := false)), c, BuildModel(o))
      else Return(s, c)
    case BuildModel(o) =>
      if m.model || outcome.Proceeds? then Move(s.(impl := m.(model := true)), c, Compare(o))
      else Move(s, c, Failing)
    case Compare(o) =>
      var e := CurrentExec(s);
      Move(s, c, if e.None? || e.value.width != o.workers then Detach(o) else Prepare(o))
    case Detach(o) => DetachExecutor(s, c, ThenConstruct(o))
    case Construct(o) =>
      if outcome.Proceeds? then Move(s.(executors := s.executors + [E.New(o.workers)]), c, Install(o, |s.executors|))
      else Move(s, c, Failing)
    case Install(o, x) => Move(s.(impl := m.(executor := Some(x))), c, Prepare(o))
    case _ => s
  }

  /** `start`, from the last test before binding. */
  function AdvanceLaunch(s: Sys, c: nat, outcome: Outcome): Sys {
    var m := s.impl;
    match ClientAt(s, c)
    case Prepare(o) =>
      if !m.phase.Starting? || m.finalShutdown then Return(s.(impl := m.(phase := Stopped)), c)
      else if outcome.Proceeds? then Move(s.(impl := m.(networkDone := false)), c, Spawn(o))
      else Move(s, c, Failing)
    case Spawn(_) =>
      if outcome.Proceeds? then Move(s.(net := Setup), c, Await) else Move(s, c, Failing)
    case Await => Return(s, c)
    case Failing => Return(s.(impl := m.(phase := Stopped, networkDone := true)), c)
    case _ => s
  }

  /** `OperationExecutor::shutdown`: observing that nothing is pending and setting `shutdown_`
      are two critical sections. */
  ghost function AdvanceShutdown(s: Sys, c: nat): Sys
    requires AdvanceEnabled(s, c)
  {
    match ClientAt(s, c)
    case Drain(x, next) => Move(s, c, Close(x, next))
    case Close(x, next) =>
      Move(s.(executors := s.executors[x := E.Apply(s.executors[x], E.SetShutdown)]), c, JoinThreads(x, next))
    case JoinThreads(_, next) => Move(s, c, AfterShutdown(next))
    case _ => s
  }

  /** `stop` and `finishShutdown`. */
  function AdvanceStop(s: Sys, c: nat): Sys {
    var m := s.impl;
    match ClientAt(s, c)
    case StopWaiting(finishing) => Take(s, c, StopAgain(finishing))
    case StopAgain(finishing) => Move(s.(impl := Stop(m)), c, StopJoin(finishing))
    case StopJoin(finishing) => Move(s.(net := NoThread, watch := NoWatch), c, StopHeld(finishing))
    case StopHeld(finishing) =>
      Move(s.(control := None, retired := s.retired || finishing), c, if finishing then FinishWaiting else Outside)
    case FinishBegun => Move(s.(impl := Stop(m)), c, StopWaiting(true))
    case FinishWaiting => Take(s, c, FinishDetach)
    case FinishDetach => DetachExecutor(s, c, ThenDropModel)
    case DropModel => Return(s.(impl := m.(model := false)), c)
    case _ => s
  }

  /** Which part of the API a program point belongs to. */
  datatype Part = Enters | Starts | Launches | Shuts | Stops

  function PartOf(p: Client): Part {
    match p
    case StartWaiting(_) => Enters
    case Prepare(_) => Launches
    case Spawn(_) => Launches
    case Await => Launches
    case Failing => Launches
    case Drain(_, _) => Shuts
    case Close(_, _) => Shuts
    case JoinThreads(_, _) => Shuts
    case StopWaiting(_) => Stops
    case StopAgain(_) => Stops
    case StopJoin(_) => Stops
    case StopHeld(_) => Stops
    case FinishBegun => Stops
    case FinishWaiting => Stops
    case FinishDetach => Stops
    case DropModel => Stops
    case _ => Starts
  }

  ghost function AdvanceClient(s: Sys, c: nat, outcome: Outcome): Sys
    requires AdvanceEnabled(s, c)
  {
    match PartOf(ClientAt(s, c))
    case Enters => AdvanceEntry(s, c)
    case Starts => AdvanceStart(s, c, outcome)
    case Launches => AdvanceLaunch(s, c, outcome)
    case Shuts => AdvanceShutdown(s, c)
    case Stops => AdvanceStop(s, c)
  }

  function AdvanceNetwork(s: Sys, outcome: Outcome): Sys
    requires NetworkEnabled(s)
  {
    var m := s.impl;
    match s.net
    case Setup => s.(net := if outcome.Proceeds? then Bound else Caught)
    case Bound => s.(impl := SetListener(m), net := Armed)
    case Armed => if outcome.Proceeds? then s.(watch := Waiting, net := Entering) else s.(net := Caught)
    case Entering =>
      s.(net := match outcome case Proceeds => Serving(false) case Fails => Cleanup case Throws => Caught)
    case Serving(_) => s.(impl := Stop(m), net := Draining)
    case Draining => s.(net := if outcome.Throws? then Caught else Cleanup)
    case Caught => s.(impl := Stop(m), net := Cleanup)
    case Cleanup => s.(impl := Retract(m), net := JoinWatch)
    case JoinWatch => s.(net := Closing)
    case Closing => s.(impl := m.(phase := Stopped), net := Finished)
  }

  function AdvanceWatch(s: Sys): Sys {
    if s.impl.networkDone then s.(watch := Ended)
    else if s.watch.Waiting? then s.(watch := Grace)
    else s.(watch := Ended, impl := s.impl.(graceExpired := true))
  }

  /** The status a handler reports for a complete invocation. */
  function ResponseCode(status: int, encodes: bool): int {
    if status == 200 && !encodes then 500 else status
  }

  ghost function AdvanceHandler(s: Sys, ev: Event): Sys
    requires HandlerEnabled(s, ev)
  {
    match ev
    case Request(h) => s.(handlers := s.handlers[h := Arrived])
    case Gate(h, id, hasSend) => AdmitAt(s, h, E.Admit(id, hasSend, s.impl.options.maxPending))
    case Reply(h, encodes, _) =>
      var x, id := s.handlers[h].x, s.handlers[h].id;
      var v := s.executors[x].invocations[id];
      var code := if v.complete then ResponseCode(v.status, encodes) else 504;
      s.(handlers := s.handlers[h := Replied(x, id, code, encodes, v.complete)])
    case Hangup(h) => s.(handlers := s.handlers - {h})
  }

  /** The gate (src/server.cpp:466-480): the phase test and `admit` are one critical section. */
  ghost function AdmitAt(s: Sys, h: nat, admit: E.Step): Sys
    requires admit.Admit?
  {
    if Open(s.impl) && Current(s) && E.Enabled(CurrentExec(s).value, admit)
    then var x := s.impl.executor.value;
         s.(executors := s.executors[x := E.Apply(s.executors[x], admit)],
            handlers := s.handlers[h := Admitted(x, admit.id)])
    else s.(handlers := s.handlers - {h})
  }

  ghost function Apply(s: Sys, ev: Event): Sys
    requires Enabled(s, ev)
  {
    match ev
    case Work(x, step) => s.(executors := s.executors[x := E.Apply(s.executors[x], step)])
    case RequestStop => s.(impl := Stop(s.impl))
    case BeginShutdown => s.(impl := Begin(s.impl))
    case CallStart(c, o) => Move(s, c, StartWaiting(o))
    case CallStop(c) => Move(s.(impl := Stop(s.impl)), c, StopWaiting(false))
    case CallFinish(c) => Move(s.(impl := Begin(s.impl)), c, FinishBegun)
    case Advance(c, outcome) => AdvanceClient(s, c, outcome)
    case Network(outcome) => AdvanceNetwork(s, outcome)
    case StartHandler => s.(impl := Announce(s.impl), net := Serving(true))
    case Watchdog(_) => AdvanceWatch(s)
    case _ => AdvanceHandler(s, ev)
  }
}
