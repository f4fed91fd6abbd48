/** What clients are told: statuses mean what RTT answered, replies mean what the statuses say, and
    nobody is cut off on a server that is not stopping. */
module ServerVerdicts {
  import opened Prelude
  import opened Server
  import opened Lifecycle
  import opened Admission
  import opened ServerRuns
  import E = Executor
  import V = Verdicts

  /** Every executor of the server has come about by its own steps from a new one, so that whatever
      is said of every run of an executor holds of it. */
  ghost predicate AllReached(xs: seq<E.Exec>) {
    forall x :: 0 <= x < |xs| ==> V.Reached(xs[x])
  }

  lemma StepKeepsAllReached(xs: seq<E.Exec>, x: nat, step: E.Step)
    requires AllReached(xs) && x < |xs| && E.Enabled(xs[x], step)
    ensures AllReached(xs[x := E.Apply(xs[x], step)])
  {
    V.StepReaches(xs[x], step);
  }

  lemma StartKeepsAllReached(s: Sys, c: nat, outcome: Outcome)
    requires AllReached(s.executors)
    ensures AllReached(AdvanceStart(s, c, outcome).executors)
  {
    if ClientAt(s, c).Construct? {
      V.NewIsReached(ClientAt(s, c).o.workers);
    }
  }

  lemma ClientKeepsAllReached(s: Sys, c: nat, outcome: Outcome)
    requires AllReached(s.executors) && AdvanceEnabled(s, c)
    ensures AllReached(AdvanceClient(s, c, outcome).executors)
  {
    match PartOf(ClientAt(s, c))
    case Enters =>
    case Starts => StartKeepsAllReached(s, c, outcome);
    case Launches => StartExtends(s, c, outcome);
    case Stops => StartExtends(s, c, outcome);
    case Shuts =>
      if ClientAt(s, c).Close? {
        StepKeepsAllReached(s.executors, ClientAt(s, c).x, E.SetShutdown);
      }
  }

  lemma GateKeepsAllReached(s: Sys, h: nat, admit: E.Step)
    requires AllReached(s.executors) && admit.Admit?
    ensures AllReached(AdmitAt(s, h, admit).executors)
  {
    if Open(s.impl) && Current(s) && E.Enabled(CurrentExec(s).value, admit) {
      StepKeepsAllReached(s.executors, s.impl.executor.value, admit);
    }
  }

  lemma HandlerKeepsAllReached(s: Sys, ev: Event)
    requires AllReached(s.executors) && HandlerEnabled(s, ev)
    ensures AllReached(AdvanceHandler(s, ev).executors)
  {
    if ev.Gate? {
      GateKeepsAllReached(s, ev.h, E.Admit(ev.id, ev.hasSend, s.impl.options.maxPending));
    }
  }

  lemma EventKeepsAllReached(s: Sys, ev: Event)
    requires Inv(s) && AllReached(s.executors) && Enabled(s, ev)
    ensures AllReached(Apply(s, ev).executors)
  {
    match ev
    case Advance(c, outcome) => ClientKeepsAllReached(s, c, outcome);
    case Work(x, step) => StepKeepsAllReached(s.executors, x, step);
    case Request(_) => HandlerKeepsAllReached(s, ev);
    case Gate(_, _, _) => HandlerKeepsAllReached(s, ev);
    case Reply(_, _, _) => HandlerKeepsAllReached(s, ev);
    case Hangup(_) => HandlerKeepsAllReached(s, ev);
    case CallStart(_, _) =>
    case CallStop(_) =>
    case CallFinish(_) =>
    case _ => ServiceKeepsExecutors(s, ev);
  }

  lemma {:induction false} RunKeepsAllReached(s: Sys, run: seq<Event>)
    requires Inv(s) && AllReached(s.executors) && Legal(s, run)
    ensures Inv(After(s, run)) && AllReached(After(s, run).executors)
    decreases |run|
  {
    if run != [] {
      EventKeepsInv(s, run[0]);
      EventKeepsAllReached(s, run[0]);
      RunKeepsAllReached(Apply(s, run[0]), run[1..]);
    }
  }

  lemma RunReaches(o: Options, run: seq<Event>)
    requires Legal(Initial(o), run)
    ensures Inv(After(Initial(o), run)) && AllReached(After(Initial(o), run).executors)
  {
    InitialLife(o);
    RunKeepsAllReached(Initial(o), run);
  }

  /** In every run: a complete invocation has status 500 if and only if RTT threw, 200 if and only if
      it reported success and nothing threw, and 503 otherwise. */
  lemma StatusTellsWhatRttAnswered(o: Options, run: seq<Event>, x: nat, id: E.Id)
    requires Legal(Initial(o), run) && x < |After(Initial(o), run).executors|
    requires id in After(Initial(o), run).executors[x].invocations
    requires After(Initial(o), run).executors[x].invocations[id].complete
    ensures var e := After(Initial(o), run).executors[x];
      id in e.heard && V.Asked(e.invocations[id].hasSend, e.heard[id])
      && var status, heard := e.invocations[id].status, e.heard[id];
         && (status == 500 <==> exists a :: a in heard && V.Threw(a))
         && (status == 200 <==> (exists a :: a in heard && V.ReportedSuccess(a)) && forall a :: a in heard ==> !V.Threw(a))
         && (status == 503 <==> forall a :: a in heard ==> !V.ReportedSuccess(a) && !V.Threw(a))
  {
    RunReaches(o, run);
    V.ReachedSaysVerdict(After(Initial(o), run).executors[x], id);
  }

  /** In every run: 200 means complete with status 200 and encoded, 500 a recorded 500 or values that
      do not encode, 503 a recorded 503, 504 not complete at the time; and nothing else is answered. */
  lemma RepliesAreTruthful(o: Options, run: seq<Event>, h: nat)
    requires Legal(Initial(o), run) && h in After(Initial(o), run).handlers && After(Initial(o), run).handlers[h].Replied?
    ensures var s := After(Initial(o), run);
      var r := s.handlers[h];
      && r.x < |s.executors| && r.id in s.executors[r.x].invocations
      && var v := s.executors[r.x].invocations[r.id];
         && (r.done ==> v.complete)
         && (r.code == 200 <==> r.done && v.status == 200 && r.encoded)
         && (r.code == 500 <==> r.done && (v.status == 500 || (v.status == 200 && !r.encoded)))
         && (r.code == 503 <==> r.done && v.status == 503)
         && (r.code == 504 <==> !r.done)
  {
    RunReaches(o, run);
    var s := After(Initial(o), run);
    assert HandlerOk(s.executors, s.handlers[h]);
    var r := s.handlers[h];
    if r.done {
      V.ReachedSaysVerdict(s.executors[r.x], r.id);
    }
  }

  /** A handler records what it found: whether the invocation was complete and its values encoded. */
  lemma RepliesAreRecorded(s: Sys, h: nat, encodes: bool, gaveUp: bool)
    requires Enabled(s, Reply(h, encodes, gaveUp))
    ensures var a, t := s.handlers[h], Apply(s, Reply(h, encodes, gaveUp));
      && a.Admitted? && a.x < |s.executors| && a.id in s.executors[a.x].invocations
      && h in t.handlers && t.handlers == s.handlers[h := t.handlers[h]]
      && var r := t.handlers[h];
         && r.Replied? && r.x == a.x && r.id == a.id && (r.encoded <==> encodes)
         && (r.done <==> s.executors[a.x].invocations[a.id].complete)
  {}

  /** A reply is given only when it is due: the invocation is complete, the handler's own deadline
      has passed or its client has gone, or the server is stopping. */
  lemma NobodyIsCutOffWhileRunning(o: Options, run: seq<Event>, ev: Event)
    requires Legal(Initial(o), run) && ev.Reply? && Enabled(After(Initial(o), run), ev)
    ensures var s := After(Initial(o), run);
      var a := s.handlers[ev.h];
      && a.Admitted? && a.x < |s.executors| && a.id in s.executors[a.x].invocations
      && (s.executors[a.x].invocations[a.id].complete || ev.gaveUp || s.impl.phase.Stopping? || s.impl.phase.Stopped?)
      && !(s.impl.graceExpired && (s.impl.phase.Running? || s.impl.phase.Starting?))
  {
    RunReaches(o, run);
  }

  /** Nothing that this event does cuts requests off or starts a grace period. */
  predicate GrantsNoGrace(s: Sys, t: Sys) {
    (t.impl.graceExpired ==> s.impl.graceExpired) && (t.watch.Grace? ==> s.watch.Grace?)
  }

  /** In every run: requests are cut off only once the grace period has run out under the watchdog, and
      it grants one only to a server that is stopping and whose network is not done. */
  lemma CutoffTakesGrace(o: Options, run: seq<Event>, ev: Event)
    requires Legal(Initial(o), run) && Enabled(After(Initial(o), run), ev)
    ensures var s, t := After(Initial(o), run), Apply(After(Initial(o), run), ev);
      && (t.impl.graceExpired && !s.impl.graceExpired ==>
            ev == Watchdog(true) && s.watch.Grace? && s.impl.phase.Stopping? && !s.impl.networkDone)
      && (t.watch.Grace? && !s.watch.Grace? ==>
            ev.Watchdog? && s.watch.Waiting? && s.impl.phase.Stopping? && !s.impl.networkDone)
  {
    RunReaches(o, run);
    var s := After(Initial(o), run);
    if ev.Watchdog? {
      WatchdogGrants(s, ev.expires);
    } else if ev.Advance? {
      ClientsGrantNoGrace(s, ev.c, ev.outcome);
    } else {
      OthersGrantNoGrace(s, ev);
    }
  }

  lemma WatchdogGrants(s: Sys, expires: bool)
    requires WatchEnabled(s, expires) && (s.watch.Grace? ==> s.impl.phase.Stopping? || s.impl.networkDone)
    ensures var t := AdvanceWatch(s);
      && (t.impl.graceExpired && !s.impl.graceExpired ==>
            expires && s.watch.Grace? && s.impl.phase.Stopping? && !s.impl.networkDone)
      && (t.watch.Grace? && !s.watch.Grace? ==> s.watch.Waiting? && s.impl.phase.Stopping? && !s.impl.networkDone)
  {}

  lemma OthersGrantNoGrace(s: Sys, ev: Event)
    requires Enabled(s, ev) && !ev.Advance? && !ev.Watchdog?
    ensures GrantsNoGrace(s, Apply(s, ev))
  {
    if ev.Network? {
      NetworkGrantsNoGrace(s, ev.outcome);
    }
  }

  lemma NetworkGrantsNoGrace(s: Sys, outcome: Outcome)
    requires NetworkEnabled(s)
    ensures GrantsNoGrace(s, AdvanceNetwork(s, outcome))
  {}

  lemma ClientsGrantNoGrace(s: Sys, c: nat, outcome: Outcome)
    requires AdvanceEnabled(s, c)
    ensures GrantsNoGrace(s, AdvanceClient(s, c, outcome))
  {
    match PartOf(ClientAt(s, c))
    case Enters =>
    case Starts => StartGrantsNoGrace(s, c, outcome);
    case Launches => LaunchGrantsNoGrace(s, c, outcome);
    case Shuts =>
    case Stops => StopGrantsNoGrace(s, c);
  }

  lemma StartGrantsNoGrace(s: Sys, c: nat, outcome: Outcome)
    ensures GrantsNoGrace(s, AdvanceStart(s, c, outcome))
  {}

  lemma LaunchGrantsNoGrace(s: Sys, c: nat, outcome: Outcome)
    ensures GrantsNoGrace(s, AdvanceLaunch(s, c, outcome))
  {}

  lemma StopGrantsNoGrace(s: Sys, c: nat)
    ensures GrantsNoGrace(s, AdvanceStop(s, c))
  {}

  /** In every run: a worker takes the invocation that was admitted first among those not yet taken,
      and the list keeps the order of admission. */
  lemma FirstComeFirstServed(o: Options, run: seq<Event>, x: nat, w: nat)
    requires Legal(Initial(o), run) && Enabled(After(Initial(o), run), Work(x, E.Take(w)))
    ensures var s := After(Initial(o), run);
      var e, f := s.executors[x], Apply(s, Work(x, E.Take(w))).executors[x];
      && V.Sparser(e.pending, e.admitted) && |e.queue| <= |e.admitted|
      && var k := |e.admitted| - |e.queue|;
         k < |e.admitted| && f.workers[w] == E.Taken(e.admitted[k]) && f.queue == e.admitted[k + 1..]
  {
    RunReaches(o, run);
    var s := After(Initial(o), run);
    V.ReachedTakesInTurn(s.executors[x], w);
    assert Apply(s, Work(x, E.Take(w))).executors[x] == E.Apply(s.executors[x], E.Take(w));
  }
}
