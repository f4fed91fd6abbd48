/** What the server's threads can always still do: let every call of `start`, `stop` and
    `finishShutdown` return, without another call, another request or any failure. */
module ServerProgress {
  import opened Prelude
  import opened Server
  import opened Lifecycle
  import opened Admission
  import opened ServerRuns
  import E = Executor
  import R = ExecutorRuns
  import P = ExecutorProgress

  // ----- Calm continuations -----

  /** Nobody calls, no request arrives or is admitted, nothing fails, no grace period runs out. */
  predicate Calm(ev: Event) {
    match ev
    case Work(_, _) => true
    case Advance(_, outcome) => outcome.Proceeds?
    case Network(outcome) => outcome.Proceeds?
    case StartHandler => true
    case Watchdog(expires) => !expires
    case Reply(_, _, _) => true
    case Hangup(_) => true
    case _ => false
  }

  /** The accept loop does not end unless the listener was told to stop. */
  predicate Unforced(s: Sys, ev: Event) {
    ev.Network? && s.net.Serving? ==> s.impl.listener.StopCalled?
  }

  ghost predicate Path(s: Sys, run: seq<Event>, t: Sys)
    decreases |run|
  {
    if run == [] then s == t
    else Enabled(s, run[0]) && Calm(run[0]) && Unforced(s, run[0]) && Path(Apply(s, run[0]), run[1..], t)
  }

  ghost predicate Leads(s: Sys, t: Sys) {
    exists run :: Path(s, run, t)
  }

  lemma Stays(s: Sys)
    ensures Leads(s, s)
  {
    assert Path(s, [], s);
  }

  lemma LeadsBy(s: Sys, ev: Event, t: Sys)
    requires Enabled(s, ev) && Calm(ev) && Unforced(s, ev) && Leads(Apply(s, ev), t)
    ensures Leads(s, t)
  {
    var run :| Path(Apply(s, ev), run, t);
    assert ([ev] + run)[1..] == run;
    assert Path(s, [ev] + run, t);
  }

  lemma LeadsByOne(s: Sys, ev: Event)
    requires Enabled(s, ev) && Calm(ev) && Unforced(s, ev)
    ensures Leads(s, Apply(s, ev))
  {
    Stays(Apply(s, ev));
    LeadsBy(s, ev, Apply(s, ev));
  }

  lemma {:induction false} PathsJoin(s: Sys, run: seq<Event>, t: Sys, more: seq<Event>, u: Sys)
    requires Path(s, run, t) && Path(t, more, u)
    ensures Path(s, run + more, u)
    decreases |run|
  {
    if run == [] {
      assert run + more == more;
    } else {
      TailOfAppend(run, more);
      PathsJoin(Apply(s, run[0]), run[1..], t, more, u);
    }
  }

  lemma Chains(s: Sys, t: Sys, u: Sys)
    requires Leads(s, t) && Leads(t, u)
    ensures Leads(s, u)
  {
    var run :| Path(s, run, t);
    var more :| Path(t, more, u);
    PathsJoin(s, run, t, more, u);
  }

  lemma {:induction false} PathIsRun(s: Sys, run: seq<Event>, t: Sys)
    requires Path(s, run, t)
    ensures Legal(s, run) && After(s, run) == t
    ensures forall ev :: ev in run ==> Calm(ev)
    decreases |run|
  {
    if run != [] {
      PathIsRun(Apply(s, run[0]), run[1..], t);
      assert forall ev :: ev in run ==> ev == run[0] || ev in run[1..];
    }
  }

  // ----- Every executor has a worker -----

  /** Options that `start` has accepted were validated. */
  predicate Equipped(p: Client) {
    && (p.Accept? ==> ValidOptions(p.o))
    && (OptionsOf(p).Some? ==> ValidOptions(OptionsOf(p).value))
  }

  ghost predicate Manned(xs: seq<E.Exec>) {
    forall x :: 0 <= x < |xs| ==> xs[x].width > 0
  }

  ghost predicate Staffed(s: Sys) {
    Manned(s.executors) && forall c :: c in s.clients ==> Equipped(s.clients[c])
  }

  lemma StartKeepsEquipped(s: Sys, c: nat, outcome: Outcome)
    requires Equipped(ClientAt(s, c))
    ensures Equipped(ClientAt(AdvanceStart(s, c, outcome), c))
  {}

  lemma StartKeepsManned(s: Sys, c: nat, outcome: Outcome)
    requires Equipped(ClientAt(s, c)) && Manned(s.executors)
    ensures Manned(AdvanceStart(s, c, outcome).executors)
  {}

  lemma OthersKeepEquipped(s: Sys, c: nat, outcome: Outcome)
    requires Equipped(ClientAt(s, c)) && AdvanceEnabled(s, c)
    ensures Equipped(ClientAt(AdvanceLaunch(s, c, outcome), c))
    ensures Equipped(ClientAt(AdvanceShutdown(s, c), c)) && Equipped(ClientAt(AdvanceStop(s, c), c))
  {}

  lemma ShutdownKeepsManned(s: Sys, c: nat)
    requires Manned(s.executors) && AdvanceEnabled(s, c)
    ensures Manned(AdvanceShutdown(s, c).executors)
  {}

  lemma ClientKeepsStaffed(s: Sys, c: nat, outcome: Outcome)
    requires LifeOk(s) && Staffed(s) && AdvanceEnabled(s, c)
    ensures Staffed(AdvanceClient(s, c, outcome))
  {
    var t := AdvanceClient(s, c, outcome);
    AdvanceShape(s, c, outcome);
    assert Equipped(ClientAt(s, c));
    if PartOf(ClientAt(s, c)).Starts? {
      StartKeepsEquipped(s, c, outcome);
      StartKeepsManned(s, c, outcome);
    } else {
      OthersKeepEquipped(s, c, outcome);
      StartExtends(s, c, outcome);
      ShutdownKeepsManned(s, c);
    }
    assert Equipped(ClientAt(t, c)) && Manned(t.executors);
  }

  lemma GateKeepsManned(s: Sys, h: nat, admit: E.Step)
    requires Manned(s.executors) && admit.Admit?
    ensures Manned(AdmitAt(s, h, admit).executors) && AdmitAt(s, h, admit).clients == s.clients
  {}

  lemma CallKeepsStaffed(s: Sys, ev: Event)
    requires Staffed(s) && Enabled(s, ev) && (ev.CallStart? || ev.CallStop? || ev.CallFinish?)
    ensures Staffed(Apply(s, ev))
  {}

  lemma ServiceKeepsStaffed(s: Sys, ev: Event)
    requires Staffed(s) && Enabled(s, ev)
    requires ev.Network? || ev.StartHandler? || ev.Watchdog? || ev.RequestStop? || ev.BeginShutdown?
    ensures Staffed(Apply(s, ev))
  {}

  lemma HandlerKeepsStaffed(s: Sys, ev: Event)
    requires Staffed(s) && HandlerEnabled(s, ev)
    ensures Staffed(AdvanceHandler(s, ev))
  {
    if ev.Gate? {
      GateKeepsManned(s, ev.h, E.Admit(ev.id, ev.hasSend, s.impl.options.maxPending));
    }
  }

  lemma EventKeepsStaffed(s: Sys, ev: Event)
    requires Inv(s) && Staffed(s) && Enabled(s, ev)
    ensures Staffed(Apply(s, ev))
  {
    match ev
    case Advance(c, outcome) => ClientKeepsStaffed(s, c, outcome);
    case Work(x, step) => WorkShrinks(s.executors[x], step);
    case CallStart(_, _) => CallKeepsStaffed(s, ev);
    case CallStop(_) => CallKeepsStaffed(s, ev);
    case CallFinish(_) => CallKeepsStaffed(s, ev);
    case Request(_) => HandlerKeepsStaffed(s, ev);
    case Gate(_, _, _) => HandlerKeepsStaffed(s, ev);
    case Reply(_, _, _) => HandlerKeepsStaffed(s, ev);
    case Hangup(_) => HandlerKeepsStaffed(s, ev);
    case _ => ServiceKeepsStaffed(s, ev);
  }

  /** What holds in every state reached from a new server. */
  ghost predicate Good(s: Sys) {
    Inv(s) && Staffed(s)
  }

  lemma EventKeepsGood(s: Sys, ev: Event)
    requires Good(s) && Enabled(s, ev)
    ensures Good(Apply(s, ev))
  {
    EventKeepsInv(s, ev);
    EventKeepsStaffed(s, ev);
  }

  lemma {:induction false} RunKeepsGood(s: Sys, run: seq<Event>)
    requires Good(s) && Legal(s, run)
    ensures Good(After(s, run))
    decreases |run|
  {
    if run != [] {
      EventKeepsGood(s, run[0]);
      RunKeepsGood(Apply(s, run[0]), run[1..]);
    }
  }

  lemma ReachableGood(o: Options, run: seq<Event>)
    requires Legal(Initial(o), run)
    ensures Good(After(Initial(o), run))
  {
    InitialLife(o);
    RunKeepsGood(Initial(o), run);
  }

  lemma LeadsKeepsGood(s: Sys, t: Sys)
    requires Good(s) && Leads(s, t)
    ensures Good(t)
  {
    var run :| Path(s, run, t);
    PathIsRun(s, run, t);
    RunKeepsGood(s, run);
  }

  // ----- The network thread -----

  /** Neither a client nor `control` moves, nor does any executor. */
  predicate SameClients(s: Sys, t: Sys) {
    && t.clients == s.clients && t.control == s.control && t.executors == s.executors
    && t.impl.finalShutdown == s.impl.finalShutdown
  }

  function NetRank(n: Net): nat {
    match n
    case Setup => 10
    case Bound => 9
    case Armed => 8
    case Entering => 7
    case Serving(_) => 6
    case Draining => 5
    case Caught => 4
    case Cleanup => 3
    case JoinWatch => 2
    case Closing => 1
    case _ => 0
  }

  /** A launch on its way to a running server. */
  predicate Rising(s: Sys) {
    && s.impl.phase.Starting? && !s.impl.finalShutdown
    && (s.net.Setup? || s.net.Bound? || s.net.Armed? || s.net.Entering? || s.net == Serving(false))
  }

  lemma DropHandler(s: Sys, h: nat) returns (t: Sys)
    requires Good(s) && h in s.handlers
    ensures Leads(s, t) && t == s.(handlers := s.handlers - {h})
  {
    assert HandlerOk(s.executors, s.handlers[h]);
    t := s.(handlers := s.handlers - {h});
    if s.handlers[h].Admitted? {
      var u := Apply(s, Reply(h, true, true));
      assert u.handlers - {h} == s.handlers - {h};
      assert Apply(u, Hangup(h)) == t;
      LeadsByOne(u, Hangup(h));
      LeadsBy(s, Reply(h, true, true), t);
    } else {
      LeadsByOne(s, Hangup(h));
    }
  }

  /** Every request in flight can be answered. */
  lemma {:induction false} HandlersLeave(s: Sys) returns (t: Sys)
    requires Good(s)
    ensures Leads(s, t) && t == s.(handlers := map[])
    decreases |s.handlers|
  {
    if s.handlers == map[] {
      t := s;
      Stays(s);
    } else {
      var h :| h in s.handlers;
      var u := DropHandler(s, h);
      LeadsKeepsGood(s, u);
      assert u.handlers.Keys == s.handlers.Keys - {h};
      t := HandlersLeave(u);
      Chains(s, u, t);
    }
  }

  /** One event of the network thread. */
  lemma NetworkSteps(s: Sys)
    requires CoreOk(s, Holder(s)) && NetworkEnabled(s) && !s.impl.phase.Running?
    requires !(s.net == Serving(false) && s.impl.phase.Starting?)
    ensures Unforced(s, Network(Proceeds))
    ensures var t := AdvanceNetwork(s, Proceeds);
      && SameClients(s, t) && !t.impl.phase.Running? && NetRank(t.net) < NetRank(s.net)
      && (Rising(s) ==> Rising(t)) && (s.impl.phase.Stopping? ==> !t.impl.phase.Starting?)
  {}

  /** What the network thread waits for comes about. */
  lemma NetworkIsFree(s: Sys) returns (t: Sys)
    requires Good(s) && !Joinable(s.net)
    ensures Leads(s, t) && Good(t) && NetworkEnabled(t)
    ensures SameClients(s, t) && t.impl == s.impl && t.net == s.net
  {
    t := s;
    Stays(s);
    if s.net.Draining? {
      t := HandlersLeave(s);
    } else if s.net.JoinWatch? && !NetworkEnabled(s) {
      t := Apply(s, Watchdog(false));
      LeadsByOne(s, Watchdog(false));
    }
    LeadsKeepsGood(s, t);
  }

  /** A network thread that is not serving moves on. */
  lemma NetworkMoves(s: Sys) returns (t: Sys)
    requires Good(s) && !Joinable(s.net) && !s.impl.phase.Running?
    ensures Leads(s, t) && Good(t) && SameClients(s, t)
    ensures (t.impl.phase.Running? && s.impl.phase.Starting?) || (!t.impl.phase.Running? && NetRank(t.net) < NetRank(s.net))
    ensures Rising(s) ==> Rising(t) || t.impl.phase.Running?
    ensures s.impl.phase.Stopping? ==> !t.impl.phase.Starting?
  {
    if s.net == Serving(false) && s.impl.phase.Starting? {
      t := Apply(s, StartHandler);
      LeadsByOne(s, StartHandler);
    } else {
      var u := NetworkIsFree(s);
      NetworkSteps(u);
      t := Apply(u, Network(Proceeds));
      LeadsByOne(u, Network(Proceeds));
      Chains(s, u, t);
    }
    LeadsKeepsGood(s, t);
  }

  /** A launch ends in a running server, or with a network thread to be joined; the latter when
      the server is stopping. */
  lemma {:induction false} NetworkSettles(s: Sys) returns (t: Sys)
    requires Good(s) && !s.impl.phase.Running?
    ensures Leads(s, t) && Good(t) && SameClients(s, t)
    ensures t.impl.phase.Running? || Joinable(t.net)
    ensures Rising(s) ==> t.impl.phase.Running?
    ensures !s.impl.phase.Starting? ==> Joinable(t.net)
    decreases NetRank(s.net)
  {
    if Joinable(s.net) {
      t := s;
      Stays(s);
    } else {
      var u := NetworkMoves(s);
      if u.impl.phase.Running? {
        t := u;
      } else {
        t := NetworkSettles(u);
        Chains(s, u, t);
      }
    }
  }

  // ----- Executors -----

  /** An executor's own run is a run of the server. */
  lemma {:induction false} Lift(s: Sys, x: nat, steps: seq<E.Step>) returns (t: Sys)
    requires x < |s.executors| && R.Legal(s.executors[x], steps) && R.AllInternal(steps)
    ensures Leads(s, t) && t == s.(executors := s.executors[x := R.After(s.executors[x], steps)])
    decreases |steps|
  {
    if steps == [] {
      t := s;
      Stays(s);
    } else {
      var ev := Work(x, steps[0]);
      assert R.Internal(steps[0]);
      t := Lift(Apply(s, ev), x, steps[1..]);
      LeadsBy(s, ev, t);
    }
  }

  // ----- Clients -----

  /** The calling thread owns `control`, or nobody does. */
  predicate Free(s: Sys, c: nat) {
    s.control.None? || s.control == Some(c)
  }

  lemma HeldExecutor(s: Sys, c: nat)
    requires Good(s) && Held(ClientAt(s, c)).Some?
    ensures var x := Held(ClientAt(s, c)).value;
      x < |s.executors| && E.Valid(s.executors[x]) && s.executors[x].width > 0 && HeldOk(ClientAt(s, c), s.executors[x])
  {
    OwnerIsHolder(s, c);
  }

  /** What `shutdown` waits for comes about. */
  lemma ShutdownUnblocks(s: Sys, c: nat) returns (t: Sys)
    requires Good(s) && (ClientAt(s, c).Drain? || ClientAt(s, c).JoinThreads?)
    ensures Leads(s, t) && Good(t) && t.clients == s.clients && AdvanceEnabled(t, c)
    ensures t == s.(executors := t.executors)
  {
    HeldExecutor(s, c);
    var x := ClientAt(s, c).x;
    var steps;
    if ClientAt(s, c).Drain? {
      steps := P.Drains(s.executors[x]);
    } else {
      steps := P.Exits(s.executors[x]);
    }
    t := Lift(s, x, steps);
    LeadsKeepsGood(s, t);
  }

  /** What `start` and `stop` wait for comes about. */
  lemma NetworkUnblocks(s: Sys, c: nat) returns (t: Sys)
    requires Good(s) && (ClientAt(s, c).Await? || ClientAt(s, c).StopJoin?)
    ensures Leads(s, t) && Good(t) && t.clients == s.clients && t.control == s.control && AdvanceEnabled(t, c)
  {
    OwnerIsHolder(s, c);
    if AdvanceEnabled(s, c) {
      t := s;
      Stays(s);
    } else {
      t := NetworkSettles(s);
      OwnerIsHolder(t, c);
    }
  }

  predicate Waits(p: Client) {
    p.Await? || p.StopJoin?
  }

  /** No wait of a call lasts for ever. */
  lemma Unblocks(s: Sys, c: nat) returns (t: Sys)
    requires Good(s) && !ClientAt(s, c).Outside? && Free(s, c)
    ensures Leads(s, t) && Good(t) && t.clients == s.clients && t.control == s.control && AdvanceEnabled(t, c)
    ensures Waits(ClientAt(s, c)) || t == s.(executors := t.executors)
  {
    var p := ClientAt(s, c);
    if p.Drain? || p.JoinThreads? {
      t := ShutdownUnblocks(s, c);
    } else if Waits(p) {
      t := NetworkUnblocks(s, c);
    } else {
      t := s;
      Stays(s);
      if HoldsControl(p) {
        OwnerIsHolder(s, c);
        assert p.Close? ==> Held(p).Some?;
      }
    }
  }

  /** How far a call is from its return. */
  function ClientRank(p: Client): nat {
    match p
    case StartWaiting(_) => 41
    case Check(_) => 40
    case JoinOld(_) => 39
    case Accept(_) => 38
    case BuildModel(_) => 37
    case Compare(_) => 36
    case Detach(_) => 35
    case Drain(_, next) => if next.ThenConstruct? then 34 else 7
    case Close(_, next) => if next.ThenConstruct? then 33 else 6
    case JoinThreads(_, next) => if next.ThenConstruct? then 32 else 5
    case Construct(_) => 31
    case Install(_, _) => 30
    case Prepare(_) => 29
    case Spawn(_) => 28
    case Await => 27
    case FinishBegun => 14
    case StopWaiting(finishing) => if finishing then 13 else 4
    case StopAgain(finishing) => if finishing then 12 else 3
    case StopJoin(finishing) => if finishing then 11 else 2
    case StopHeld(finishing) => if finishing then 10 else 1
    case FinishWaiting => 9
    case FinishDetach => 8
    case DropModel => 4
    case Failing => 1
    case Outside => 0
  }

  lemma StartComesNearer(s: Sys, c: nat, outcome: Outcome)
    requires AdvanceEnabled(s, c) && PartOf(ClientAt(s, c)).Starts?
    ensures ClientRank(ClientAt(AdvanceStart(s, c, outcome), c)) < ClientRank(ClientAt(s, c))
  {}

  lemma AdvanceComesNearer(s: Sys, c: nat, outcome: Outcome)
    requires AdvanceEnabled(s, c)
    ensures ClientRank(ClientAt(AdvanceClient(s, c, outcome), c)) < ClientRank(ClientAt(s, c))
  {
    if PartOf(ClientAt(s, c)).Starts? {
      StartComesNearer(s, c, outcome);
    }
  }

  /** A call comes nearer to its return. */
  lemma ClientMoves(s: Sys, c: nat) returns (t: Sys)
    requires Good(s) && Free(s, c) && !ClientAt(s, c).Outside?
    ensures Leads(s, t) && Good(t) && Free(t, c)
    ensures ClientRank(ClientAt(t, c)) < ClientRank(ClientAt(s, c))
    ensures t.clients == s.clients[c := ClientAt(t, c)]
  {
    var u := Unblocks(s, c);
    t := Apply(u, Advance(c, Proceeds));
    AdvanceShape(u, c, Proceeds);
    AdvanceComesNearer(u, c, Proceeds);
    LeadsByOne(u, Advance(c, Proceeds));
    Chains(s, u, t);
    LeadsKeepsGood(s, t);
  }

  /** A call whose thread owns `control`, or finds it free, can return. */
  lemma {:induction false} ClientReturns(s: Sys, c: nat) returns (t: Sys)
    requires Good(s) && Free(s, c)
    ensures Leads(s, t) && Good(t) && t.control.None? && ClientAt(t, c).Outside?
    ensures forall d :: d != c ==> ClientAt(t, d) == ClientAt(s, d)
    decreases ClientRank(ClientAt(s, c))
  {
    if ClientAt(s, c).Outside? {
      t := s;
      Stays(s);
    } else {
      var u := ClientMoves(s, c);
      t := ClientReturns(u, c);
      Chains(s, u, t);
    }
  }

  // ----- How long a call can take -----

  predicate CallBy(ev: Event, c: nat) {
    (ev.CallStart? || ev.CallStop? || ev.CallFinish?) && ev.c == c
  }

  /** How many critical sections of the client a run contains. */
  function OwnSteps(run: seq<Event>, c: nat): nat {
    if run == [] then 0 else (if run[0].Advance? && run[0].c == c then 1 else 0) + OwnSteps(run[1..], c)
  }

  lemma OthersMoveNobody(s: Sys, ev: Event, c: nat)
    requires Enabled(s, ev) && !ev.Advance? && !CallBy(ev, c)
    ensures ClientAt(Apply(s, ev), c) == ClientAt(s, c)
  {}

  lemma EventBringsNearer(s: Sys, ev: Event, c: nat)
    requires Inv(s) && Enabled(s, ev) && !CallBy(ev, c)
    ensures (if ev.Advance? && ev.c == c then 1 else 0) + ClientRank(ClientAt(Apply(s, ev), c)) <= ClientRank(ClientAt(s, c))
  {
    if ev.Advance? {
      AdvanceShape(s, ev.c, ev.outcome);
      AdvanceComesNearer(s, ev.c, ev.outcome);
    } else {
      OthersMoveNobody(s, ev, c);
    }
  }

  /** No call goes round in circles: whatever everybody else does, failures included, a client takes
      no more steps before it returns than its rank says, forty-one at most. */
  lemma {:induction false} CallsAreShort(s: Sys, run: seq<Event>, c: nat)
    requires Inv(s) && Legal(s, run) && forall ev :: ev in run ==> !CallBy(ev, c)
    ensures OwnSteps(run, c) + ClientRank(ClientAt(After(s, run), c)) <= ClientRank(ClientAt(s, c)) <= 41
    decreases |run|
  {
    if run != [] {
      EventKeepsInv(s, run[0]);
      EventBringsNearer(s, run[0], c);
      CallsAreShort(Apply(s, run[0]), run[1..], c);
    }
  }

  // ----- All calls return -----

  ghost function Busy(s: Sys): set<nat> {
    set c | c in s.clients && !s.clients[c].Outside?
  }

  lemma {:induction false} ClientsReturn(s: Sys) returns (t: Sys)
    requires Good(s)
    ensures Leads(s, t) && forall c :: ClientAt(t, c).Outside?
    decreases Busy(s)
  {
    if Busy(s) == {} {
      t := s;
      Stays(s);
      assert forall c :: !ClientAt(s, c).Outside? ==> c in Busy(s);
    } else {
      var c :| c in Busy(s);
      if s.control.Some? {
        c := s.control.value;
        assert HoldsControl(Holder(s));
        assert c in Busy(s);
      }
      var u := ClientReturns(s, c);
      assert forall d :: d in Busy(u) ==> d != c && !ClientAt(s, d).Outside?;
      t := ClientsReturn(u);
      Chains(s, u, t);
    }
  }

  /** In every reachable state, every call in progress can return: some continuation of the run,
      with no further call, no further request and no failure, ends with all clients outside. */
  lemma AllReturn(o: Options, run: seq<Event>) returns (more: seq<Event>)
    requires Legal(Initial(o), run)
    ensures Legal(After(Initial(o), run), more) && forall ev :: ev in more ==> Calm(ev)
    ensures Path(After(Initial(o), run), more, After(After(Initial(o), run), more))
    ensures forall c :: ClientAt(After(After(Initial(o), run), more), c).Outside?
  {
    ReachableGood(o, run);
    var s := After(Initial(o), run);
    var t := ClientsReturn(s);
    more :| Path(s, more, t);
    PathIsRun(s, more, t);
  }
}
