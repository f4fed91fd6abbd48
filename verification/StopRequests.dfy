/** When a request to stop decides the future of the server, and when it is lost on a `start`
    that has not accepted its options yet. */
module StopRequests {
  import opened Prelude
  import opened Server
  import opened Lifecycle
  import opened Admission
  import opened ServerRuns
  import opened ServerProgress
  import opened ServerGuarantees
  import E = Executor
  import R = ExecutorRuns
  import P = ExecutorProgress

  /** A `start` that has been called and is not yet past the acceptance of its options; it may
      still be waiting for `control`. */
  predicate MayStillStart(p: Client) {
    p.Accept? || ((p.StartWaiting? || p.Check? || p.JoinOld?) && ValidOptions(p.o))
  }

  ghost predicate SomeMayStart(clients: map<nat, Client>) {
    exists c :: c in clients && MayStillStart(clients[c])
  }

  ghost predicate NoStart(run: seq<Event>) {
    forall ev :: ev in run ==> !ev.CallStart?
  }

  /** Without another call of `start`, the server can come to run. */
  ghost predicate CanRun(s: Sys) {
    exists run :: Legal(s, run) && NoStart(run) && After(s, run).impl.phase.Running?
  }

  // ----- Where the request decides -----

  predicate Down(s: Sys) {
    s.impl.phase.Stopped? || s.impl.phase.Stopping?
  }

  ghost predicate Halted(s: Sys) {
    Down(s) && (s.impl.finalShutdown || !SomeMayStart(s.clients))
  }

  lemma EntryStaysDown(s: Sys, c: nat)
    requires PartOf(ClientAt(s, c)).Enters? && !MayStillStart(ClientAt(s, c))
    ensures AdvanceEntry(s, c).impl == s.impl && !MayStillStart(ClientAt(AdvanceEntry(s, c), c))
  {}

  lemma StartStaysDown(s: Sys, c: nat, outcome: Outcome)
    requires !ClientAt(s, c).Accept?
    ensures AdvanceStart(s, c, outcome).impl.phase == s.impl.phase
  {}

  lemma StartNeverComesBack(s: Sys, c: nat, outcome: Outcome)
    requires !MayStillStart(ClientAt(s, c)) && PartOf(ClientAt(s, c)).Starts?
    ensures !MayStillStart(ClientAt(AdvanceStart(s, c, outcome), c))
  {}

  lemma StopStaysDown(s: Sys, c: nat)
    requires Down(s)
    ensures Down(AdvanceStop(s, c))
  {}

  lemma StopNeverStarts(s: Sys, c: nat)
    requires PartOf(ClientAt(s, c)).Stops?
    ensures !MayStillStart(ClientAt(AdvanceStop(s, c), c))
  {}

  /** A client that may not still start leaves the server down. */
  lemma ClientStaysDown(s: Sys, c: nat, outcome: Outcome)
    requires AdvanceEnabled(s, c) && Down(s) && !MayStillStart(ClientAt(s, c))
    ensures Down(AdvanceClient(s, c, outcome)) && !MayStillStart(ClientAt(AdvanceClient(s, c, outcome), c))
  {
    match PartOf(ClientAt(s, c))
    case Enters => EntryStaysDown(s, c);
    case Starts =>
      StartStaysDown(s, c, outcome);
      StartNeverComesBack(s, c, outcome);
    case Launches =>
    case Shuts =>
    case Stops =>
      StopStaysDown(s, c);
      StopNeverStarts(s, c);
  }

  lemma OneClientMoves(clients: map<nat, Client>, c: nat, p: Client)
    requires !SomeMayStart(clients) && !MayStillStart(p)
    ensures !SomeMayStart(clients[c := p])
  {}

  lemma ClientKeepsHalted(s: Sys, c: nat, outcome: Outcome)
    requires LifeOk(s) && Halted(s) && !s.impl.finalShutdown && AdvanceEnabled(s, c)
    ensures Halted(AdvanceClient(s, c, outcome))
  {
    AdvanceShape(s, c, outcome);
    assert !MayStillStart(ClientAt(s, c));
    ClientStaysDown(s, c, outcome);
    OneClientMoves(s.clients, c, ClientAt(AdvanceClient(s, c, outcome), c));
  }

  predicate SameCallers(s: Sys, t: Sys) {
    t.clients == s.clients && t.control == s.control && t.impl.finalShutdown == s.impl.finalShutdown
  }

  lemma NetworkStaysDown(s: Sys, outcome: Outcome)
    requires Down(s) && NetworkEnabled(s)
    ensures Down(AdvanceNetwork(s, outcome)) && SameCallers(s, AdvanceNetwork(s, outcome))
  {}

  lemma HandlerStaysDown(s: Sys, ev: Event)
    requires Down(s) && HandlerEnabled(s, ev)
    ensures Down(AdvanceHandler(s, ev)) && SameCallers(s, AdvanceHandler(s, ev))
  {}

  lemma OthersKeepHalted(s: Sys, ev: Event)
    requires Down(s) && Enabled(s, ev)
    requires !ev.Advance? && !ev.CallStart? && !ev.CallStop? && !ev.CallFinish? && !ev.BeginShutdown?
    ensures Down(Apply(s, ev)) && SameCallers(s, Apply(s, ev))
  {
    match ev
    case Network(outcome) => NetworkStaysDown(s, outcome);
    case StartHandler =>
    case Watchdog(_) =>
    case RequestStop =>
    case Work(_, _) =>
    case _ => HandlerStaysDown(s, ev);
  }

  lemma CallKeepsHalted(s: Sys, c: nat)
    requires Halted(s) && Enabled(s, CallStop(c))
    ensures Halted(Apply(s, CallStop(c)))
  {
    if !s.impl.finalShutdown {
      OneClientMoves(s.clients, c, StopWaiting(false));
    }
  }

  lemma EventKeepsHalted(s: Sys, ev: Event)
    requires Inv(s) && Halted(s) && !s.impl.finalShutdown && Enabled(s, ev) && !ev.CallStart?
    ensures Halted(Apply(s, ev))
  {
    if ev.Advance? {
      ClientKeepsHalted(s, ev.c, ev.outcome);
    } else if ev.CallStop? {
      CallKeepsHalted(s, ev.c);
    } else if !ev.BeginShutdown? && !ev.CallFinish? {
      OthersKeepHalted(s, ev);
    }
  }

  /** A server being shut down for good never runs. */
  lemma {:induction false} HaltedNeverRuns(s: Sys, run: seq<Event>)
    requires Inv(s) && Halted(s) && Legal(s, run) && NoStart(run)
    ensures !After(s, run).impl.phase.Running?
    decreases |run|
  {
    RunKeepsInv(s, run);
    if s.impl.finalShutdown {
      FinalStays(s, run);
    } else if run != [] {
      EventKeepsInv(s, run[0]);
      EventKeepsHalted(s, run[0]);
      HaltedNeverRuns(Apply(s, run[0]), run[1..]);
    }
  }

  // ----- Where it is lost -----

  /** One step of a launch that nobody stopped. */
  lemma LaunchStep(s: Sys, c: nat)
    requires CoreOk(s, ClientAt(s, c)) && AdvanceEnabled(s, c)
    requires Launching(ClientAt(s, c)) && !ClientAt(s, c).Failing?
    requires s.impl.phase.Starting? && !s.impl.finalShutdown
    ensures var t := AdvanceClient(s, c, Proceeds);
      && t.impl.phase.Starting? && !t.impl.finalShutdown
      && ((Launching(ClientAt(t, c)) && !ClientAt(t, c).Failing?) || t.net.Setup?)
  {}

  /** A launch that nobody stops brings up the network thread. */
  lemma {:induction false} LaunchRises(s: Sys, c: nat) returns (t: Sys)
    requires Good(s) && Launching(ClientAt(s, c)) && !ClientAt(s, c).Failing?
    requires s.impl.phase.Starting? && !s.impl.finalShutdown
    ensures Leads(s, t) && Good(t) && Rising(t)
    decreases ClientRank(ClientAt(s, c))
  {
    OwnerIsHolder(s, c);
    var u := Unblocks(s, c);
    var v := Apply(u, Advance(c, Proceeds));
    OwnerIsHolder(u, c);
    LaunchStep(u, c);
    AdvanceComesNearer(u, c, Proceeds);
    LeadsByOne(u, Advance(c, Proceeds));
    Chains(s, u, v);
    LeadsKeepsGood(s, v);
    if v.net.Setup? {
      t := v;
    } else {
      t := LaunchRises(v, c);
      Chains(s, v, t);
    }
  }

  /** Once what is retained has been finished, valid options are acceptable. */
  lemma OptionsBecomeAcceptable(s: Sys, c: nat) returns (t: Sys)
    requires Good(s) && ClientAt(s, c).Accept? && !s.impl.finalShutdown
    ensures Leads(s, t) && Good(t) && t == s.(executors := t.executors)
    ensures Acceptable(ClientAt(s, c).o, CurrentExec(t))
  {
    OwnerIsHolder(s, c);
    if s.impl.executor.Some? {
      var x := s.impl.executor.value;
      var steps := P.Drains(s.executors[x]);
      t := Lift(s, x, steps);
      LeadsKeepsGood(s, t);
    } else {
      t := s;
      Stays(s);
    }
  }

  lemma AcceptRises(s: Sys, c: nat) returns (t: Sys)
    requires Good(s) && ClientAt(s, c).Accept? && !s.impl.finalShutdown
    ensures Leads(s, t) && Good(t) && Rising(t)
  {
    var u := OptionsBecomeAcceptable(s, c);
    var v := Apply(u, Advance(c, Proceeds));
    LeadsByOne(u, Advance(c, Proceeds));
    Chains(s, u, v);
    LeadsKeepsGood(s, v);
    assert ClientAt(v, c).BuildModel?;
    t := LaunchRises(v, c);
    Chains(s, v, t);
  }

  lemma JoinRises(s: Sys, c: nat) returns (t: Sys)
    requires Good(s) && ClientAt(s, c).JoinOld? && ValidOptions(ClientAt(s, c).o) && !s.impl.finalShutdown
    ensures Leads(s, t) && Good(t) && Rising(t)
  {
    OwnerIsHolder(s, c);
    var u := Apply(s, Advance(c, Proceeds));
    LeadsByOne(s, Advance(c, Proceeds));
    LeadsKeepsGood(s, u);
    t := AcceptRises(u, c);
    Chains(s, u, t);
  }

  /** The old network thread ends, and the test of `start` finds the server stopped. */
  lemma CheckRises(s: Sys, c: nat) returns (t: Sys)
    requires Good(s) && ClientAt(s, c).Check? && ValidOptions(ClientAt(s, c).o) && !s.impl.finalShutdown
    requires Down(s)
    ensures Leads(s, t) && Good(t) && Rising(t)
  {
    OwnerIsHolder(s, c);
    var u := NetworkSettles(s);
    OwnerIsHolder(u, c);
    assert u.impl.phase.Stopped?;
    var v := Apply(u, Advance(c, Proceeds));
    LeadsByOne(u, Advance(c, Proceeds));
    Chains(s, u, v);
    LeadsKeepsGood(s, v);
    t := JoinRises(v, c);
    Chains(s, v, t);
  }

  /** A `start` that owns `control` goes on to a running server. */
  lemma OwnerRuns(s: Sys, c: nat) returns (t: Sys)
    requires Good(s) && MayStillStart(ClientAt(s, c)) && !ClientAt(s, c).StartWaiting? && !s.impl.finalShutdown
    requires Down(s)
    ensures Leads(s, t) && t.impl.phase.Running?
  {
    var u;
    match ClientAt(s, c) {
      case Check(_) => u := CheckRises(s, c);
      case JoinOld(_) => u := JoinRises(s, c);
      case Accept(_) => u := AcceptRises(s, c);
    }
    t := NetworkSettles(u);
    Chains(s, u, t);
  }

  lemma CalmKeepsFinal(s: Sys, ev: Event)
    requires Good(s) && Enabled(s, ev) && Calm(ev)
    ensures Apply(s, ev).impl.finalShutdown == s.impl.finalShutdown
  {
    if ev.Advance? {
      ClientsKeepFinal(s, ev.c, ev.outcome);
    }
  }

  lemma {:induction false} PathKeepsFinal(s: Sys, run: seq<Event>, t: Sys)
    requires Good(s) && Path(s, run, t)
    ensures t.impl.finalShutdown == s.impl.finalShutdown
    decreases |run|
  {
    if run != [] {
      CalmKeepsFinal(s, run[0]);
      EventKeepsGood(s, run[0]);
      PathKeepsFinal(Apply(s, run[0]), run[1..], t);
    }
  }

  lemma LeadsKeepsFinal(s: Sys, t: Sys)
    requires Good(s) && Leads(s, t)
    ensures t.impl.finalShutdown == s.impl.finalShutdown
  {
    var run :| Path(s, run, t);
    PathKeepsFinal(s, run, t);
  }

  /** Whoever has `control` returns. */
  lemma ControlIsFreed(s: Sys, c: nat) returns (t: Sys)
    requires Good(s) && ClientAt(s, c).StartWaiting?
    ensures Leads(s, t) && Good(t) && t.control.None? && ClientAt(t, c) == ClientAt(s, c)
    ensures t.impl.finalShutdown == s.impl.finalShutdown
  {
    if s.control.Some? {
      assert HoldsControl(Holder(s));
      t := ClientReturns(s, s.control.value);
    } else {
      t := s;
      Stays(s);
    }
    LeadsKeepsFinal(s, t);
  }

  /** With `control` free a waiting `start` obtains it, and finds no other launch under way. */
  lemma EntryRuns(s: Sys, c: nat) returns (t: Sys)
    requires Good(s) && s.control.None? && Down(s) && !s.impl.finalShutdown
    requires ClientAt(s, c).StartWaiting? && ValidOptions(ClientAt(s, c).o)
    ensures Leads(s, t) && t.impl.phase.Running?
  {
    var u := Apply(s, Advance(c, Proceeds));
    LeadsByOne(s, Advance(c, Proceeds));
    LeadsKeepsGood(s, u);
    t := OwnerRuns(u, c);
    Chains(s, u, t);
  }

  /** A network thread that belongs to no launch leaves a server that runs or is stopped. */
  lemma FreeSettles(s: Sys) returns (t: Sys)
    requires Good(s) && s.control.None?
    ensures Leads(s, t) && Good(t) && SameClients(s, t)
    ensures t.impl.phase.Running? || t.impl.phase.Stopped?
  {
    if s.impl.phase.Running? {
      t := s;
      Stays(s);
    } else {
      t := NetworkSettles(s);
    }
  }

  /** A `start` that waits for `control` goes on to a running server, unless the server runs before. */
  lemma WaitingRuns(s: Sys, c: nat) returns (t: Sys)
    requires Good(s) && !s.impl.finalShutdown
    requires ClientAt(s, c).StartWaiting? && ValidOptions(ClientAt(s, c).o)
    ensures Leads(s, t) && t.impl.phase.Running?
  {
    var u := ControlIsFreed(s, c);
    var v := FreeSettles(u);
    Chains(s, u, v);
    if v.impl.phase.Running? {
      t := v;
    } else {
      t := EntryRuns(v, c);
      Chains(s, v, t);
    }
  }

  /** A request to stop is lost, and the server can run after it without another call of `start`,
      exactly when no final shutdown has begun and some `start` has been called, with valid options,
      that has not accepted them yet, be it that it still waits for `control`. */
  lemma RequestStopIsLostIff(s: Sys)
    requires Good(s)
    ensures CanRun(Apply(s, RequestStop)) <==> !s.impl.finalShutdown && SomeMayStart(s.clients)
    ensures Apply(s, RequestStop).impl.phase.Stopping? <==> !s.impl.phase.Stopped?
    ensures s.impl.phase.Stopped? ==> Apply(s, RequestStop) == s
  {
    var t := Apply(s, RequestStop);
    EventKeepsGood(s, RequestStop);
    if !s.impl.finalShutdown && SomeMayStart(s.clients) {
      var c :| c in s.clients && MayStillStart(s.clients[c]);
      var u;
      if s.clients[c].StartWaiting? {
        u := WaitingRuns(t, c);
      } else {
        u := OwnerRuns(t, c);
      }
      LeadsMeansCanRun(t, u);
    } else {
      forall run | Legal(t, run) && NoStart(run) ensures !After(t, run).impl.phase.Running? {
        HaltedNeverRuns(t, run);
      }
    }
  }

  lemma LeadsMeansCanRun(s: Sys, t: Sys)
    requires Leads(s, t) && t.impl.phase.Running?
    ensures CanRun(s)
  {
    var run :| Path(s, run, t);
    PathIsRun(s, run, t);
    assert NoStart(run);
  }

  /** A new server whose first `start` has obtained `control`. */
  lemma FirstEnters(o: Options) returns (t: Sys, u: Sys)
    ensures Enabled(Initial(o), CallStart(0, o)) && t == Apply(Initial(o), CallStart(0, o))
    ensures Enabled(t, Advance(0, Proceeds)) && u == Apply(t, Advance(0, Proceeds))
    ensures Good(u) && u.clients == map[0 := Check(o)] && !u.impl.finalShutdown && u.impl.phase.Stopped?
  {
    var s := Initial(o);
    InitialLife(o);
    t := Apply(s, CallStart(0, o));
    EventKeepsGood(s, CallStart(0, o));
    u := Apply(t, Advance(0, Proceeds));
    EventKeepsGood(t, Advance(0, Proceeds));
  }

  /** For instance with the first `start` of a new server. */
  lemma EarlyStopIsLost(o: Options)
    requires ValidOptions(o)
    ensures exists run: seq<Event> ::
              && Legal(Initial(o), run)
              && |run| > 3 && run[0] == CallStart(0, o) && run[2] == RequestStop
              && (forall j :: 3 <= j < |run| ==> !run[j].CallStart?)
              && After(Initial(o), run).impl.phase.Running?
  {
    var t, u := FirstEnters(o);
    assert 0 in u.clients && MayStillStart(u.clients[0]);
    RequestStopIsLostIff(u);
    var v := Apply(u, RequestStop);
    var rest :| Legal(v, rest) && NoStart(rest) && After(v, rest).impl.phase.Running?;
    assert rest != [];
    var run := PrefixThree(Initial(o), t, u, CallStart(0, o), Advance(0, Proceeds), RequestStop, rest);
  }

  /** A new server in which a `start` waits while a `stop` has `control`. */
  lemma StartQueues(o: Options) returns (run: seq<Event>)
    ensures Legal(Initial(o), run)
    ensures var v := After(Initial(o), run);
      v.clients == map[0 := StopAgain(false), 1 := StartWaiting(o)] && !v.impl.finalShutdown
  {
    var s := Initial(o);
    var t := Apply(s, CallStop(0));
    var u := Apply(t, Advance(0, Proceeds));
    run := PrefixThree(s, t, u, CallStop(0), Advance(0, Proceeds), CallStart(1, o), []);
  }

  /** And with that `start`: neither that `stop` nor the request after it keeps the server from
      running. */
  lemma QueuedStartLosesStop(o: Options)
    requires ValidOptions(o)
    ensures exists run: seq<Event> ::
              && Legal(Initial(o), run)
              && ClientAt(After(Initial(o), run), 0) == StopAgain(false)
              && ClientAt(After(Initial(o), run), 1) == StartWaiting(o)
              && CanRun(Apply(After(Initial(o), run), RequestStop))
  {
    var run := StartQueues(o);
    var v := After(Initial(o), run);
    ReachableGood(o, run);
    assert 1 in v.clients && MayStillStart(v.clients[1]);
    RequestStopIsLostIff(v);
  }

  lemma Prefix(s: Sys, ev: Event, rest: seq<Event>) returns (run: seq<Event>)
    requires Enabled(s, ev) && Legal(Apply(s, ev), rest)
    ensures run == [ev] + rest && Legal(s, run) && After(s, run) == After(Apply(s, ev), rest)
  {
    run := [ev] + rest;
    assert run[1..] == rest;
  }

  lemma PrefixThree(s: Sys, t: Sys, u: Sys, a: Event, b: Event, c: Event, rest: seq<Event>) returns (run: seq<Event>)
    requires Enabled(s, a) && Apply(s, a) == t && Enabled(t, b) && Apply(t, b) == u
    requires Enabled(u, c) && Legal(Apply(u, c), rest)
    ensures |run| == |rest| + 3 && run[0] == a && run[2] == c && run[3..] == rest
    ensures Legal(s, run) && After(s, run) == After(Apply(u, c), rest)
    ensures NoStart(rest) ==> forall j :: 3 <= j < |run| ==> !run[j].CallStart?
  {
    run := Prefix(u, c, rest);
    run := Prefix(t, b, run);
    run := Prefix(s, a, run);
    assert forall j :: 3 <= j < |run| ==> run[j] == rest[j - 3];
  }
}
