/** Ownership of executors: which one admits, which one is being shut down, which are gone.
    Together with the lifecycle invariant this closes the window between `drain()` seeing
    nothing pending and `shutdown_` being set. */
module Admission {
  import opened Prelude
  import opened Server
  import opened Lifecycle
  import E = Executor

  /** The executor that `start` or `finishShutdown` holds in a local variable. */
  function Held(p: Client): Option<nat> {
    match p
    case Drain(x, _) => Some(x)
    case Close(x, _) => Some(x)
    case JoinThreads(x, _) => Some(x)
    case Install(_, x) => Some(x)
    case _ => None
  }

  /** The options a launching `start` works with. */
  function OptionsOf(p: Client): Option<Options> {
    match p
    case BuildModel(o) => Some(o)
    case Compare(o) => Some(o)
    case Detach(o) => Some(o)
    case Construct(o) => Some(o)
    case Install(o, _) => Some(o)
    case Prepare(o) => Some(o)
    case Spawn(o) => Some(o)
    case Drain(_, next) => if next.ThenConstruct? then Some(next.options) else None
    case Close(_, next) => if next.ThenConstruct? then Some(next.options) else None
    case JoinThreads(_, next) => if next.ThenConstruct? then Some(next.options) else None
    case _ => None
  }

  /** Shut down, drained and joined. */
  predicate Gone(e: E.Exec) {
    e.shutdown && e.pending == [] && ThreadsGone(e)
  }

  predicate HeldOk(p: Client, e: E.Exec) {
    match p
    case Drain(_, next) => !e.shutdown && (next.ThenConstruct? ==> e.pending == [])
    case Close(_, _) => !e.shutdown && e.pending == []
    case JoinThreads(_, _) => e.shutdown && e.pending == []
    case Install(o, _) => !e.shutdown && e.pending == [] && e.width == o.workers
    case _ => true
  }

  /** The current executor has the configured width, or nothing pending. */
  predicate CurrentOk(m: Impl, e: E.Exec) {
    !e.shutdown && (e.width != m.options.workers ==> e.pending == [])
  }

  predicate WidthSettled(net: Net, p: Client) {
    !net.NoThread? || p.Prepare? || p.Spawn?
  }

  /** The executors that are not yet gone: the current one and the one held by `start` or
      `finishShutdown`. */
  predicate Claimed(m: Impl, p: Client, x: nat) {
    m.executor == Some(x) || Held(p) == Some(x)
  }

  ghost predicate PoolOk(m: Impl, xs: seq<E.Exec>, p: Client) {
    forall x :: 0 <= x < |xs| ==>
      && E.Valid(xs[x]) && |xs[x].pending| <= m.options.maxPending
      && (Claimed(m, p, x) || Gone(xs[x]))
  }

  predicate RolesOk(m: Impl, xs: seq<E.Exec>, net: Net, p: Client) {
    && (m.executor.Some? ==> m.executor.value < |xs| && CurrentOk(m, xs[m.executor.value]) && Held(p).None?)
    && (Held(p).Some? ==> Held(p).value < |xs| && HeldOk(p, xs[Held(p).value]))
    && (p.Construct? || p.DropModel? ==> m.executor.None?)
    && (p.Detach? && m.executor.Some? ==> xs[m.executor.value].width != m.options.workers)
    && (OptionsOf(p).Some? ==> OptionsOf(p).value == m.options)
    && (WidthSettled(net, p) ==> m.executor.Some? && xs[m.executor.value].width == m.options.workers)
  }

  ghost predicate ExecutorsOk(s: Sys) {
    PoolOk(s.impl, s.executors, Holder(s)) && RolesOk(s.impl, s.executors, s.net, Holder(s))
  }

  /** A worker or reaper step admits nobody, and a joined executor takes no step. */
  lemma WorkShrinks(e: E.Exec, step: E.Step)
    requires E.Valid(e) && E.Enabled(e, step) && !step.Admit? && !step.SetShutdown?
    ensures var f := E.Apply(e, step);
      && |f.pending| <= |e.pending| && f.shutdown == e.shutdown && f.width == e.width
      && f.invocations.Keys == e.invocations.Keys
    ensures !ThreadsGone(e)
  {
    if step.EraseReturned? {
      E.WorkerOwns(e, step.w);
      EraseDistinct(e.pending, e.workers[step.w].id);
    } else if step.Release? {
      EraseDistinct(e.pending, e.reaper.id);
    }
    var f := E.Apply(e, step);
    assert f.invocations.Keys == e.invocations.Keys;
  }

  /** The executor goes on without admitting anybody. */
  predicate Shrinks(e: E.Exec, f: E.Exec) {
    |f.pending| <= |e.pending| && f.shutdown == e.shutdown && f.width == e.width
  }

  lemma ReplaceKeepsRoles(m: Impl, xs: seq<E.Exec>, net: Net, p: Client, x: nat, f: E.Exec)
    requires RolesOk(m, xs, net, p) && x < |xs| && Shrinks(xs[x], f)
    ensures RolesOk(m, xs[x := f], net, p)
  {
    assert f.pending == [] || xs[x].pending != [];
  }

  lemma ReplaceKeepsPool(m: Impl, xs: seq<E.Exec>, p: Client, x: nat, f: E.Exec)
    requires PoolOk(m, xs, p) && x < |xs| && Shrinks(xs[x], f) && E.Valid(f) && !ThreadsGone(xs[x])
    ensures PoolOk(m, xs[x := f], p)
  {}

  lemma ReplaceKeepsExecutors(s: Sys, x: nat, f: E.Exec)
    requires ExecutorsOk(s) && x < |s.executors| && E.Valid(f) && !ThreadsGone(s.executors[x])
    requires Shrinks(s.executors[x], f)
    ensures ExecutorsOk(s.(executors := s.executors[x := f]))
  {
    ReplaceKeepsRoles(s.impl, s.executors, s.net, Holder(s), x, f);
    ReplaceKeepsPool(s.impl, s.executors, Holder(s), x, f);
  }

  lemma WorkKeepsExecutors(s: Sys, x: nat, step: E.Step)
    requires ExecutorsOk(s) && x < |s.executors|
    requires E.Enabled(s.executors[x], step) && !step.Admit? && !step.SetShutdown?
    ensures ExecutorsOk(s.(executors := s.executors[x := E.Apply(s.executors[x], step)]))
  {
    var e := s.executors[x];
    assert E.Valid(e);
    E.StepKeepsValid(e, step);
    WorkShrinks(e, step);
    ReplaceKeepsExecutors(s, x, E.Apply(e, step));
  }

  /** The gate admits into the current executor only, and within the configured bound. */
  lemma GateKeepsExecutors(s: Sys, h: nat, admit: E.Step)
    requires ExecutorsOk(s) && CoreOk(s, Holder(s)) && admit.Admit? && admit.cap == s.impl.options.maxPending
    ensures ExecutorsOk(AdmitAt(s, h, admit))
  {
    if Open(s.impl) && Current(s) && E.Enabled(CurrentExec(s).value, admit) {
      var x := s.impl.executor.value;
      E.AdmitKeepsValid(s.executors[x], admit);
      var f := E.Apply(s.executors[x], admit);
      assert !f.shutdown && f.width == s.executors[x].width && |f.pending| <= admit.cap;
    }
  }

  /** The executors stay as they are; at most the claims on them grow. */
  lemma PoolFrame(m: Impl, xs: seq<E.Exec>, p: Client, m': Impl, p': Client)
    requires PoolOk(m, xs, p) && m'.options == m.options
    requires forall x: nat :: x < |xs| && Claimed(m, p, x) ==> Claimed(m', p', x) || Gone(xs[x])
    ensures PoolOk(m', xs, p')
  {}

  lemma AcceptKeepsExecutors(s: Sys, o: Options)
    requires ExecutorsOk(s) && Holder(s) == Accept(o) && s.net.NoThread? && Acceptable(o, CurrentExec(s))
    ensures var m := s.impl.(options := o, phase := Starting, graceExpired := false);
      PoolOk(m, s.executors, BuildModel(o)) && RolesOk(m, s.executors, s.net, BuildModel(o))
  {}

  predicate Settling(p: Client) {
    p.Compare? || p.Detach? || p.Construct? || p.Install?
  }

  lemma SettlingKeepsRoles(s: Sys, c: nat, outcome: Outcome)
    requires RolesOk(s.impl, s.executors, s.net, ClientAt(s, c)) && CoreOk(s, ClientAt(s, c))
    requires Settling(ClientAt(s, c))
    ensures var t := AdvanceStart(s, c, outcome); RolesOk(t.impl, t.executors, t.net, ClientAt(t, c))
  {}

  lemma StartKeepsRoles(s: Sys, c: nat, outcome: Outcome)
    requires RolesOk(s.impl, s.executors, s.net, ClientAt(s, c)) && CoreOk(s, ClientAt(s, c))
    requires PartOf(ClientAt(s, c)).Starts? && !ClientAt(s, c).Accept?
    ensures var t := AdvanceStart(s, c, outcome);
      RolesOk(t.impl, t.executors, t.net, if HoldsControl(ClientAt(t, c)) then ClientAt(t, c) else Outside)
  {
    if Settling(ClientAt(s, c)) {
      SettlingKeepsRoles(s, c, outcome);
    }
  }

  lemma LaunchKeepsRoles(s: Sys, c: nat, outcome: Outcome)
    requires RolesOk(s.impl, s.executors, s.net, ClientAt(s, c)) && CoreOk(s, ClientAt(s, c))
    requires PartOf(ClientAt(s, c)).Launches?
    ensures var t := AdvanceLaunch(s, c, outcome);
      RolesOk(t.impl, t.executors, t.net, if HoldsControl(ClientAt(t, c)) then ClientAt(t, c) else Outside)
  {}

  lemma ShutdownKeepsRoles(s: Sys, c: nat)
    requires RolesOk(s.impl, s.executors, s.net, ClientAt(s, c)) && CoreOk(s, ClientAt(s, c))
    requires AdvanceEnabled(s, c) && PartOf(ClientAt(s, c)).Shuts?
    ensures var t := AdvanceShutdown(s, c); RolesOk(t.impl, t.executors, t.net, ClientAt(t, c))
  {}

  lemma HaltKeepsRoles(s: Sys, c: nat, p: Client)
    requires RolesOk(s.impl, s.executors, s.net, p) && CoreOk(s, p)
    requires AdvanceEnabled(s, c) && PartOf(ClientAt(s, c)).Stops? && !ClientAt(s, c).FinishBegun?
    requires p == if HoldsControl(ClientAt(s, c)) then ClientAt(s, c) else Outside
    requires Retiring(ClientAt(s, c)) ==> s.retired
    ensures var t := AdvanceStop(s, c);
      RolesOk(t.impl, t.executors, t.net, if HoldsControl(ClientAt(t, c)) then ClientAt(t, c) else Outside)
  {}

  lemma ConstructKeepsPool(m: Impl, xs: seq<E.Exec>, o: Options)
    requires PoolOk(m, xs, Construct(o)) && m.executor.None?
    ensures PoolOk(m, xs + [E.New(o.workers)], Install(o, |xs|))
  {
    E.NewIsValid(o.workers);
  }

  /** Short of constructing an executor, `start` leaves them as they are and gives up no claim. */
  lemma StartKeepsList(s: Sys, c: nat, outcome: Outcome)
    requires !ClientAt(s, c).Accept? && !(ClientAt(s, c).Construct? && outcome.Proceeds?)
    ensures var t := AdvanceStart(s, c, outcome); t.executors == s.executors && t.impl.options == s.impl.options
  {}

  lemma StartKeepsClaims(s: Sys, c: nat, outcome: Outcome, x: nat)
    requires PartOf(ClientAt(s, c)).Starts? && !ClientAt(s, c).Accept?
    requires ClientAt(s, c).Install? ==> s.impl.executor.None?
    requires Claimed(s.impl, ClientAt(s, c), x)
    ensures var t := AdvanceStart(s, c, outcome);
      Claimed(t.impl, if HoldsControl(ClientAt(t, c)) then ClientAt(t, c) else Outside, x)
  {}

  lemma StartKeepsPool(s: Sys, c: nat, outcome: Outcome)
    requires PoolOk(s.impl, s.executors, ClientAt(s, c))
    requires PartOf(ClientAt(s, c)).Starts? && !ClientAt(s, c).Accept?
    requires ClientAt(s, c).Construct? ==> s.impl.executor.None?
    requires ClientAt(s, c).Install? ==> s.impl.executor.None?
    ensures var t := AdvanceStart(s, c, outcome);
      PoolOk(t.impl, t.executors, if HoldsControl(ClientAt(t, c)) then ClientAt(t, c) else Outside)
  {
    var p, t := ClientAt(s, c), AdvanceStart(s, c, outcome);
    if p.Construct? && outcome.Proceeds? {
      ConstructKeepsPool(s.impl, s.executors, p.o);
    } else {
      StartKeepsList(s, c, outcome);
      forall x: nat | Claimed(s.impl, p, x)
        ensures Claimed(t.impl, if HoldsControl(ClientAt(t, c)) then ClientAt(t, c) else Outside, x)
      {
        StartKeepsClaims(s, c, outcome, x);
      }
      PoolFrame(s.impl, s.executors, p, t.impl, if HoldsControl(ClientAt(t, c)) then ClientAt(t, c) else Outside);
    }
  }

  lemma ShutdownKeepsPool(s: Sys, c: nat)
    requires PoolOk(s.impl, s.executors, ClientAt(s, c))
    requires RolesOk(s.impl, s.executors, s.net, ClientAt(s, c))
    requires AdvanceEnabled(s, c) && PartOf(ClientAt(s, c)).Shuts?
    ensures var t := AdvanceShutdown(s, c); PoolOk(t.impl, t.executors, ClientAt(t, c))
  {
    var p, t := ClientAt(s, c), AdvanceShutdown(s, c);
    if p.Close? {
      E.StepKeepsValid(s.executors[p.x], E.SetShutdown);
      assert forall x: nat :: x < |s.executors| && x != p.x ==> t.executors[x] == s.executors[x];
    } else {
      PoolFrame(s.impl, s.executors, p, t.impl, ClientAt(t, c));
    }
  }

  lemma HaltKeepsPool(s: Sys, c: nat, p: Client)
    requires PoolOk(s.impl, s.executors, p) && PartOf(ClientAt(s, c)).Stops? && !ClientAt(s, c).FinishBegun?
    requires p == if HoldsControl(ClientAt(s, c)) then ClientAt(s, c) else Outside
    ensures var t := AdvanceStop(s, c);
      PoolOk(t.impl, t.executors, if HoldsControl(ClientAt(t, c)) then ClientAt(t, c) else Outside)
  {
    var t := AdvanceStop(s, c);
    PoolFrame(s.impl, s.executors, p, t.impl, if HoldsControl(ClientAt(t, c)) then ClientAt(t, c) else Outside);
  }
}
