/** The clients of module Server run the program of module LockPrograms: every program point has
    its place in that program, every critical section of the model is a way through it that takes
    exactly the locks named here, and `control` is held at exactly the points that own it. */
module LockPoints {
  import opened Prelude
  import opened Server
  import opened Lifecycle
  import R = ServerRuns
  import P = LockPrograms
  import L = LockOrder

  const CONTROL := L.Lock(P.Control, 0)

  /** Outside any call. */
  const REST := L.Run(P.Repeat(P.CALL), L.Over)

  /** The end of a scope that holds `control` for a whole call. */
  const HELD := L.Unlock(CONTROL, REST)

  /** The handler of exceptions at the end of `start`. */
  const CAUGHT := L.Run(P.LOCKED, HELD)

  /** What follows `shutdown`. */
  function Following(next: Next): L.Todo {
    match next
    case ThenConstruct(_) => L.Run(P.FROM_RELEASE, CAUGHT)
    case ThenDropModel => L.Run(P.FROM_DROP, HELD)
  }

  function AfterStop(finishing: bool): L.Todo {
    if finishing then L.Run(P.FINISH_HELD, REST) else REST
  }

  /** What a client at this point has left to do. */
  function TodoAt(p: Client): L.Todo {
    match p
    case Outside => REST
    case StartWaiting(_) => L.Run(P.START, REST)
    case Check(_) => L.Run(P.FROM_CHECK, HELD)
    case JoinOld(_) => L.Run(P.FROM_JOIN, HELD)
    case Accept(_) => L.Run(P.FROM_ACCEPT, HELD)
    case BuildModel(_) => L.Run(P.FROM_BUILD, CAUGHT)
    case Compare(_) => L.Run(P.FROM_COMPARE, CAUGHT)
    case Detach(_) => L.Run(P.FROM_DETACH, CAUGHT)
    case Construct(_) => L.Run(P.FROM_CONSTRUCT, CAUGHT)
    case Install(_, _) => L.Run(P.FROM_INSTALL, CAUGHT)
    case Prepare(_) => L.Run(P.FROM_PREPARE, CAUGHT)
    case Spawn(_) => L.Run(P.FROM_AWAIT, CAUGHT)
    case Await => L.Run(P.FROM_AWAIT, CAUGHT)
    case Failing => CAUGHT
    case Drain(_, next) => L.Run(P.SHUTDOWN, Following(next))
    case Close(_, next) => L.Run(P.CLOSE, Following(next))
    case JoinThreads(_, next) => L.Run(P.JOIN_THREADS, Following(next))
    case StopWaiting(f) => L.Run(P.STOP_HELD, AfterStop(f))
    case StopAgain(f) => L.Run(P.STOP_BODY, L.Unlock(CONTROL, AfterStop(f)))
    case StopJoin(f) => L.Run(P.Join(P.Network), L.Unlock(CONTROL, AfterStop(f)))
    case StopHeld(f) => L.Unlock(CONTROL, AfterStop(f))
    case FinishBegun => L.Run(P.STOP, L.Run(P.FINISH_HELD, REST))
    case FinishWaiting => L.Run(P.FINISH_HELD, REST)
    case FinishDetach => L.Run(P.FROM_FINISH, HELD)
    case DropModel => L.Run(P.LOCKED, HELD)
  }

  function At(p: Client): L.State {
    L.State(TodoAt(p), L.Running)
  }

  function On(todo: L.Todo): L.State {
    L.State(todo, L.Running)
  }

  // ----- Ways through a program -----

  /** The moves lead from one state to the other and take exactly these locks. */
  ghost predicate Path(a: L.State, moves: seq<L.Move>, taken: seq<P.Class>, b: L.State)
    decreases |moves|
  {
    if moves == [] then taken == [] && a == b
    else
      && L.CanMove(a, moves[0])
      && var c := L.MoveOn(a, moves[0]);
         if moves[0].Get? && a.waits.ForLock?
         then taken != [] && taken[0] == a.waits.lock.of && Path(c, moves[1..], taken[1..], b)
         else Path(c, moves[1..], taken, b)
  }

  ghost predicate Passes(a: L.State, taken: seq<P.Class>, b: L.State) {
    exists moves :: Path(a, moves, taken, b)
  }

  lemma Remains(a: L.State)
    ensures Passes(a, [], a)
  {
    assert Path(a, [], [], a);
  }

  lemma MoveFirst(a: L.State, move: L.Move, taken: seq<P.Class>, b: L.State)
    requires L.CanMove(a, move) && !move.Get? && Passes(L.MoveOn(a, move), taken, b)
    ensures Passes(a, taken, b)
  {
    var moves :| Path(L.MoveOn(a, move), moves, taken, b);
    assert ([move] + moves)[1..] == moves;
    assert Path(a, [move] + moves, taken, b);
  }

  lemma GetFirst(a: L.State, taken: seq<P.Class>, b: L.State)
    requires a.waits.ForLock? && Passes(L.MoveOn(a, L.Get), taken, b)
    ensures Passes(a, [a.waits.lock.of] + taken, b)
  {
    var moves :| Path(L.MoveOn(a, L.Get), moves, taken, b);
    assert ([L.Get] + moves)[1..] == moves;
    assert ([a.waits.lock.of] + taken)[1..] == taken;
    assert Path(a, [L.Get] + moves, [a.waits.lock.of] + taken, b);
  }

  lemma {:induction false} PathsJoin(
      a: L.State, moves: seq<L.Move>, taken: seq<P.Class>, b: L.State, more: seq<L.Move>, further: seq<P.Class>, c: L.State)
    requires Path(a, moves, taken, b) && Path(b, more, further, c)
    ensures Path(a, moves + more, taken + further, c)
    decreases |moves|
  {
    if moves == [] {
      assert moves + more == more && taken + further == further;
    } else {
      TailOfAppend(moves, more);
      var d := L.MoveOn(a, moves[0]);
      if moves[0].Get? && a.waits.ForLock? {
        TailOfAppend(taken, further);
        PathsJoin(d, moves[1..], taken[1..], b, more, further, c);
      } else {
        PathsJoin(d, moves[1..], taken, b, more, further, c);
      }
    }
  }

  lemma Chain(a: L.State, taken: seq<P.Class>, b: L.State, further: seq<P.Class>, c: L.State)
    requires Passes(a, taken, b) && Passes(b, further, c)
    ensures Passes(a, taken + further, c)
  {
    var moves :| Path(a, moves, taken, b);
    var more :| Path(b, more, further, c);
    PathsJoin(a, moves, taken, b, more, further, c);
  }

  /** The locks taken so far stay the same. */
  lemma ChainFree(a: L.State, taken: seq<P.Class>, b: L.State, c: L.State)
    requires Passes(a, taken, b) && Passes(b, [], c)
    ensures Passes(a, taken, c)
  {
    Chain(a, taken, b, [], c);
    assert taken + [] == taken;
  }

  // ----- Pieces of programs -----

  lemma LeaveOut(code: P.Code, next: L.Todo)
    ensures Passes(On(L.Run(code, next)), [], On(next))
  {
    Remains(On(next));
    MoveFirst(On(L.Run(code, next)), L.Skip, [], On(next));
  }

  lemma LeaveScope(l: L.Lock, next: L.Todo)
    ensures Passes(On(L.Unlock(l, next)), [], On(next))
  {
    Remains(On(next));
    MoveFirst(On(L.Unlock(l, next)), L.Release, [], On(next));
  }

  lemma EnterScope(c: P.Class, body: P.Code, next: L.Todo)
    ensures Passes(On(L.Run(P.With(c, body), next)), [c], On(L.Run(body, L.Unlock(L.Lock(c, 0), next))))
  {
    var inside := On(L.Run(body, L.Unlock(L.Lock(c, 0), next)));
    var asking := L.State(next, L.ForLock(L.Lock(c, 0), body));
    Remains(inside);
    GetFirst(asking, [], inside);
    assert [c] + [] == [c];
    MoveFirst(On(L.Run(P.With(c, body), next)), L.Ask(0), [c], inside);
  }

  /** One whole critical section. */
  lemma Section(c: P.Class, body: P.Code, next: L.Todo)
    ensures Passes(On(L.Run(P.With(c, body), next)), [c], On(next))
  {
    var l := L.Lock(c, 0);
    EnterScope(c, body, next);
    LeaveOut(body, L.Unlock(l, next));
    LeaveScope(l, next);
    ChainFree(On(L.Run(body, L.Unlock(l, next))), [], On(L.Unlock(l, next)), On(next));
    ChainFree(On(L.Run(P.With(c, body), next)), [c], On(L.Run(body, L.Unlock(l, next))), On(next));
  }

  /** The first of two pieces, however it is passed. */
  lemma FirstPiece(first: P.Code, rest: P.Code, next: L.Todo, taken: seq<P.Class>)
    requires Passes(On(L.Run(first, L.Run(rest, next))), taken, On(L.Run(rest, next)))
    ensures Passes(On(L.Run(P.Then(first, rest), next)), taken, On(L.Run(rest, next)))
  {
    MoveFirst(On(L.Run(P.Then(first, rest), next)), L.Open, taken, On(L.Run(rest, next)));
  }

  lemma FirstSection(c: P.Class, body: P.Code, rest: P.Code, next: L.Todo)
    ensures Passes(On(L.Run(P.Then(P.With(c, body), rest), next)), [c], On(L.Run(rest, next)))
  {
    Section(c, body, L.Run(rest, next));
    FirstPiece(P.With(c, body), rest, next, [c]);
  }

  lemma SkipFirst(first: P.Code, rest: P.Code, next: L.Todo)
    ensures Passes(On(L.Run(P.Then(first, rest), next)), [], On(L.Run(rest, next)))
  {
    LeaveOut(first, L.Run(rest, next));
    FirstPiece(first, rest, next, []);
  }

  lemma Unfold(first: P.Code, rest: P.Code, next: L.Todo)
    ensures Passes(On(L.Run(P.Then(first, rest), next)), [], On(L.Run(first, L.Run(rest, next))))
  {
    Remains(On(L.Run(first, L.Run(rest, next))));
    MoveFirst(On(L.Run(P.Then(first, rest), next)), L.Open, [], On(L.Run(first, L.Run(rest, next))));
  }

  lemma Joined(k: P.Kind, next: L.Todo)
    ensures Passes(On(L.Run(P.Join(k), next)), [], On(next))
  {
    Remains(On(next));
    MoveFirst(L.State(next, L.ForThread(0, false)), L.Resume, [], On(next));
    MoveFirst(On(L.Run(P.Join(k), next)), L.Sleep(0), [], On(next));
  }

  lemma OneRound(body: P.Code, next: L.Todo, taken: seq<P.Class>)
    requires Passes(On(L.Run(body, L.Run(P.Repeat(body), next))), taken, On(L.Run(P.Repeat(body), next)))
    ensures Passes(On(L.Run(P.Repeat(body), next)), taken, On(next))
  {
    MoveFirst(On(L.Run(P.Repeat(body), next)), L.Open, taken, On(L.Run(P.Repeat(body), next)));
    LeaveOut(P.Repeat(body), next);
    ChainFree(On(L.Run(P.Repeat(body), next)), taken, On(L.Run(P.Repeat(body), next)), On(next));
  }

  // ----- The events of module Server -----

  /** The locks that a client takes from its program point to the next. */
  function Taken(s: Sys, p: Client, outcome: Outcome): seq<P.Class> {
    match p
    case Accept(_) => if s.impl.executor.Some? then [P.ServerMutex, P.ExecutorMutex] else [P.ServerMutex]
    case BuildModel(_) =>
      if s.impl.model then [] else if outcome.Proceeds? then [P.RegistryMutex, P.ServerMutex] else [P.RegistryMutex]
    case Drain(_, _) => [P.ExecutorMutex]
    case Close(_, _) => [P.ExecutorMutex]
    case StartWaiting(_) => [P.Control]
    case StopWaiting(_) => [P.Control]
    case FinishWaiting => [P.Control]
    case Check(_) => [P.ServerMutex]
    case Detach(_) => [P.ServerMutex]
    case Install(_, _) => [P.ServerMutex]
    case Prepare(_) => [P.ServerMutex]
    case Await => [P.ServerMutex]
    case Failing => [P.ServerMutex]
    case StopAgain(_) => [P.ServerMutex]
    case FinishBegun => [P.ServerMutex]
    case FinishDetach => [P.ServerMutex]
    case DropModel => [P.ServerMutex]
    case _ => []
  }

  /** A call ends wherever it is, with or without the handler of exceptions. */
  lemma Returns(code: P.Code)
    ensures Passes(On(L.Run(code, HELD)), [], On(REST)) && Passes(On(HELD), [], On(REST))
    ensures Passes(On(L.Run(code, CAUGHT)), [], On(REST)) && Passes(On(L.Run(code, CAUGHT)), [], On(CAUGHT))
    ensures Passes(On(CAUGHT), [], On(REST)) && Passes(On(CAUGHT), [P.ServerMutex], On(REST))
  {
    LeaveScope(CONTROL, REST);
    LeaveOut(code, HELD);
    ChainFree(On(L.Run(code, HELD)), [], On(HELD), On(REST));
    LeaveOut(P.LOCKED, HELD);
    ChainFree(On(CAUGHT), [], On(HELD), On(REST));
    LeaveOut(code, CAUGHT);
    ChainFree(On(L.Run(code, CAUGHT)), [], On(CAUGHT), On(REST));
    Section(P.ServerMutex, P.Nothing, HELD);
    ChainFree(On(CAUGHT), [P.ServerMutex], On(HELD), On(REST));
  }

  lemma Approach(o: Options)
    ensures Passes(At(Check(o)), [P.ServerMutex], At(JoinOld(o))) && Passes(At(Check(o)), [P.ServerMutex], At(Outside))
    ensures Passes(At(JoinOld(o)), [], At(Accept(o))) && Passes(At(JoinOld(o)), [], At(Outside))
  {
    FirstSection(P.ServerMutex, P.Nothing, P.FROM_JOIN, HELD);
    Returns(P.FROM_JOIN);
    ChainFree(At(Check(o)), [P.ServerMutex], At(JoinOld(o)), On(REST));
    Joined(P.Network, L.Run(P.FROM_ACCEPT, HELD));
    FirstPiece(P.Join(P.Network), P.FROM_ACCEPT, HELD, []);
  }

  /** The section of acceptance, which looks at the executor when there is one. */
  lemma AcceptSection(next: L.Todo)
    ensures Passes(On(L.Run(P.ACCEPT, next)), [P.ServerMutex], On(next))
    ensures Passes(On(L.Run(P.ACCEPT, next)), [P.ServerMutex, P.ExecutorMutex], On(next))
  {
    var look := P.With(P.ExecutorMutex, P.Nothing);
    var leave := L.Unlock(L.Lock(P.ServerMutex, 0), next);
    Section(P.ServerMutex, P.Repeat(look), next);
    EnterScope(P.ServerMutex, P.Repeat(look), next);
    Section(P.ExecutorMutex, P.Nothing, L.Run(P.Repeat(look), leave));
    OneRound(look, leave, [P.ExecutorMutex]);
    LeaveScope(L.Lock(P.ServerMutex, 0), next);
    ChainFree(On(L.Run(P.Repeat(look), leave)), [P.ExecutorMutex], On(leave), On(next));
    Chain(On(L.Run(P.ACCEPT, next)), [P.ServerMutex], On(L.Run(P.Repeat(look), leave)), [P.ExecutorMutex], On(next));
    assert [P.ServerMutex] + [P.ExecutorMutex] == [P.ServerMutex, P.ExecutorMutex];
  }

  lemma Acceptance(s: Sys, o: Options)
    ensures Passes(At(Accept(o)), Taken(s, Accept(o), Proceeds), At(BuildModel(o)))
    ensures Passes(At(Accept(o)), Taken(s, Accept(o), Proceeds), At(Outside))
  {
    var taken := Taken(s, Accept(o), Proceeds);
    var rest := P.Then(P.FROM_BUILD, P.LOCKED);
    AcceptSection(L.Run(rest, HELD));
    FirstPiece(P.ACCEPT, rest, HELD, taken);
    Unfold(P.FROM_BUILD, P.LOCKED, HELD);
    ChainFree(At(Accept(o)), taken, On(L.Run(rest, HELD)), At(BuildModel(o)));
    Returns(rest);
    ChainFree(At(Accept(o)), taken, On(L.Run(rest, HELD)), On(REST));
  }

  /** Building the model: the registry, then the server. */
  lemma ModelSections(next: L.Todo)
    ensures Passes(On(L.Run(P.BUILD_MODEL, next)), [P.RegistryMutex, P.ServerMutex], On(next))
    ensures Passes(On(L.Run(P.BUILD_MODEL, next)), [P.RegistryMutex], On(next))
  {
    var register := P.With(P.RegistryMutex, P.Nothing);
    var rest := L.Run(P.LOCKED, next);
    Section(P.RegistryMutex, P.Nothing, L.Run(P.Repeat(register), rest));
    OneRound(register, rest, [P.RegistryMutex]);
    FirstPiece(P.Repeat(register), P.LOCKED, next, [P.RegistryMutex]);
    Section(P.ServerMutex, P.Nothing, next);
    Chain(On(L.Run(P.BUILD_MODEL, next)), [P.RegistryMutex], On(rest), [P.ServerMutex], On(next));
    assert [P.RegistryMutex] + [P.ServerMutex] == [P.RegistryMutex, P.ServerMutex];
    LeaveOut(P.LOCKED, next);
    ChainFree(On(L.Run(P.BUILD_MODEL, next)), [P.RegistryMutex], On(rest), On(next));
  }

  lemma Building(s: Sys, o: Options)
    ensures Passes(At(BuildModel(o)), Taken(s, BuildModel(o), Proceeds), At(Compare(o)))
    ensures !s.impl.model ==> Passes(At(BuildModel(o)), [P.RegistryMutex], At(Failing))
    ensures Passes(At(BuildModel(o)), [], At(Compare(o)))
  {
    ModelSections(L.Run(P.FROM_COMPARE, CAUGHT));
    FirstPiece(P.BUILD_MODEL, P.FROM_COMPARE, CAUGHT, [P.RegistryMutex, P.ServerMutex]);
    FirstPiece(P.BUILD_MODEL, P.FROM_COMPARE, CAUGHT, [P.RegistryMutex]);
    LeaveOut(P.FROM_COMPARE, CAUGHT);
    ChainFree(At(BuildModel(o)), [P.RegistryMutex], At(Compare(o)), On(CAUGHT));
    SkipFirst(P.BUILD_MODEL, P.FROM_COMPARE, CAUGHT);
  }

  lemma Comparing(o: Options)
    ensures Passes(At(Compare(o)), [], At(Detach(o))) && Passes(At(Compare(o)), [], At(Prepare(o)))
  {
    Remains(At(Detach(o)));
    MoveFirst(At(Compare(o)), L.Open, [], At(Detach(o)));
    Remains(At(Prepare(o)));
    MoveFirst(At(Compare(o)), L.Right, [], At(Prepare(o)));
  }

  /** A section under the server's mutex, then `shutdown` unless there is no executor. */
  lemma Detaching(then_: P.Code, next: L.Todo)
    ensures var from := On(L.Run(P.Then(P.LOCKED, P.Then(P.SHUTDOWN, then_)), next));
      && Passes(from, [P.ServerMutex], On(L.Run(P.SHUTDOWN, L.Run(then_, next))))
      && Passes(from, [P.ServerMutex], On(L.Run(then_, next)))
  {
    var rest := P.Then(P.SHUTDOWN, then_);
    var from := On(L.Run(P.Then(P.LOCKED, rest), next));
    FirstSection(P.ServerMutex, P.Nothing, rest, next);
    Unfold(P.SHUTDOWN, then_, next);
    ChainFree(from, [P.ServerMutex], On(L.Run(rest, next)), On(L.Run(P.SHUTDOWN, L.Run(then_, next))));
    SkipFirst(P.SHUTDOWN, then_, next);
    ChainFree(from, [P.ServerMutex], On(L.Run(rest, next)), On(L.Run(then_, next)));
  }

  lemma AfterShutdownFollows(next: Next)
    ensures Passes(On(Following(next)), [], At(AfterShutdown(next)))
  {
    match next
    case ThenConstruct(o) => SkipFirst(P.SHUTDOWN, P.FROM_CONSTRUCT, CAUGHT);
    case ThenDropModel => SkipFirst(P.SHUTDOWN, P.LOCKED, HELD);
  }

  lemma DetachFollows(x: nat, next: Next)
    ensures next.ThenConstruct? ==>
      && Passes(At(Detach(next.options)), [P.ServerMutex], At(Drain(x, next)))
      && Passes(At(Detach(next.options)), [P.ServerMutex], At(AfterShutdown(next)))
    ensures next.ThenDropModel? ==>
      && Passes(At(FinishDetach), [P.ServerMutex], At(Drain(x, next)))
      && Passes(At(FinishDetach), [P.ServerMutex], At(AfterShutdown(next)))
  {
    AfterShutdownFollows(next);
    match next
    case ThenConstruct(o) =>
      Detaching(P.FROM_RELEASE, CAUGHT);
      ChainFree(At(Detach(o)), [P.ServerMutex], On(Following(next)), At(Construct(o)));
    case ThenDropModel =>
      Detaching(P.FROM_DROP, HELD);
      ChainFree(At(FinishDetach), [P.ServerMutex], On(Following(next)), At(DropModel));
  }

  lemma Shutting(x: nat, next: Next)
    ensures Passes(At(Drain(x, next)), [P.ExecutorMutex], At(Close(x, next)))
    ensures Passes(At(Close(x, next)), [P.ExecutorMutex], At(JoinThreads(x, next)))
    ensures Passes(At(JoinThreads(x, next)), [], At(AfterShutdown(next)))
  {
    FirstSection(P.ExecutorMutex, P.DRAIN.body, P.CLOSE, Following(next));
    FirstSection(P.ExecutorMutex, P.Nothing, P.JOIN_THREADS, Following(next));
    LeaveOut(P.JOIN_THREADS, Following(next));
    AfterShutdownFollows(next);
    ChainFree(At(JoinThreads(x, next)), [], On(Following(next)), At(AfterShutdown(next)));
  }

  lemma Constructing(o: Options, x: nat)
    ensures Passes(At(Construct(o)), [], At(Install(o, x))) && Passes(At(Construct(o)), [], At(Failing))
    ensures Passes(At(Install(o, x)), [P.ServerMutex], At(Prepare(o)))
  {
    SkipFirst(P.CONSTRUCT, P.FROM_INSTALL, CAUGHT);
    Returns(P.FROM_CONSTRUCT);
    FirstSection(P.ServerMutex, P.Nothing, P.FROM_PREPARE, CAUGHT);
  }

  lemma Preparing(o: Options)
    ensures Passes(At(Prepare(o)), [P.ServerMutex], At(Spawn(o))) && Passes(At(Prepare(o)), [P.ServerMutex], At(Failing))
    ensures Passes(At(Prepare(o)), [P.ServerMutex], At(Outside))
  {
    FirstSection(P.ServerMutex, P.Nothing, P.FROM_AWAIT, CAUGHT);
    Returns(P.FROM_AWAIT);
    ChainFree(At(Prepare(o)), [P.ServerMutex], At(Spawn(o)), On(CAUGHT));
    ChainFree(At(Prepare(o)), [P.ServerMutex], At(Spawn(o)), On(REST));
  }

  lemma Spawning(o: Options)
    ensures Passes(At(Spawn(o)), [], At(Await)) && Passes(At(Spawn(o)), [], At(Failing))
  {
    Returns(P.FROM_AWAIT);
    Remains(At(Await));
  }

  lemma AwaitEnds()
    ensures Passes(At(Await), [P.ServerMutex], At(Outside)) && Passes(At(Failing), [P.ServerMutex], At(Outside))
  {
    Returns(P.FROM_AWAIT);
    Section(P.ServerMutex, P.FROM_AWAIT.body, CAUGHT);
    ChainFree(At(Await), [P.ServerMutex], On(CAUGHT), On(REST));
  }

  /** A whole body under `control`. */
  lemma TakesControl(body: P.Code, next: L.Todo)
    ensures Passes(On(L.Run(P.With(P.Control, body), next)), [P.Control], On(L.Run(body, L.Unlock(CONTROL, next))))
  {
    EnterScope(P.Control, body, next);
  }

  lemma StopEnters(f: bool)
    ensures Passes(At(StopWaiting(f)), [P.Control], At(StopAgain(f)))
  {
    TakesControl(P.STOP_BODY, AfterStop(f));
  }

  lemma StopAsksAgain(f: bool)
    ensures Passes(At(StopAgain(f)), [P.ServerMutex], At(StopJoin(f)))
  {
    FirstSection(P.ServerMutex, P.Nothing, P.Join(P.Network), L.Unlock(CONTROL, AfterStop(f)));
  }

  lemma StopJoins(f: bool)
    ensures Passes(At(StopJoin(f)), [], At(StopHeld(f)))
  {
    Joined(P.Network, L.Unlock(CONTROL, AfterStop(f)));
  }

  lemma StopLeaves(f: bool)
    ensures Passes(At(StopHeld(f)), [], At(if f then FinishWaiting else Outside))
  {
    LeaveScope(CONTROL, AfterStop(f));
  }

  lemma FinishStops()
    ensures Passes(At(FinishBegun), [P.ServerMutex], At(StopWaiting(true)))
  {
    FirstSection(P.ServerMutex, P.Nothing, P.STOP_HELD, L.Run(P.FINISH_HELD, REST));
  }

  lemma FinishEnters()
    ensures Passes(At(FinishWaiting), [P.Control], At(FinishDetach))
  {
    TakesControl(P.FROM_FINISH, REST);
  }

  lemma FinishLeaves()
    ensures Passes(At(DropModel), [P.ServerMutex], At(Outside))
  {
    Section(P.ServerMutex, P.Nothing, HELD);
    LeaveScope(CONTROL, REST);
    ChainFree(At(DropModel), [P.ServerMutex], On(HELD), On(REST));
  }

  lemma StartSections(s: Sys, c: nat, outcome: Outcome)
    ensures AdvanceStart(s, c, outcome).impl != s.impl ==> P.ServerMutex in Taken(s, ClientAt(s, c), outcome)
  {}

  predicate Early(p: Client) {
    p.Check? || p.JoinOld? || p.Accept? || p.BuildModel?
  }

  lemma EarlyAdvances(s: Sys, c: nat, outcome: Outcome)
    requires Early(ClientAt(s, c))
    ensures Passes(At(ClientAt(s, c)), Taken(s, ClientAt(s, c), outcome), At(ClientAt(AdvanceStart(s, c, outcome), c)))
  {
    match ClientAt(s, c)
    case Check(o) => Approach(o);
    case JoinOld(o) => Approach(o);
    case Accept(o) => Acceptance(s, o);
    case BuildModel(o) => Building(s, o);
  }

  lemma LateAdvances(s: Sys, c: nat, outcome: Outcome)
    requires PartOf(ClientAt(s, c)).Starts? && !ClientAt(s, c).Outside? && !Early(ClientAt(s, c))
    ensures Passes(At(ClientAt(s, c)), Taken(s, ClientAt(s, c), outcome), At(ClientAt(AdvanceStart(s, c, outcome), c)))
  {
    match ClientAt(s, c)
    case Compare(o) => Comparing(o);
    case Detach(o) => DetachFollows(if s.impl.executor.Some? then s.impl.executor.value else 0, ThenConstruct(o));
    case Construct(o) => Constructing(o, |s.executors|);
    case Install(o, x) => Constructing(o, x);
  }

  lemma LaunchAdvances(s: Sys, c: nat, outcome: Outcome)
    requires PartOf(ClientAt(s, c)).Launches?
    ensures Passes(At(ClientAt(s, c)), Taken(s, ClientAt(s, c), outcome), At(ClientAt(AdvanceLaunch(s, c, outcome), c)))
    ensures AdvanceLaunch(s, c, outcome).impl != s.impl ==> P.ServerMutex in Taken(s, ClientAt(s, c), outcome)
  {
    match ClientAt(s, c)
    case Prepare(o) => Preparing(o);
    case Spawn(o) => Spawning(o);
    case Await => AwaitEnds();
    case Failing => AwaitEnds();
  }

  lemma ShutdownAdvances(s: Sys, c: nat, outcome: Outcome)
    requires AdvanceEnabled(s, c) && PartOf(ClientAt(s, c)).Shuts?
    ensures Passes(At(ClientAt(s, c)), Taken(s, ClientAt(s, c), outcome), At(ClientAt(AdvanceShutdown(s, c), c)))
    ensures AdvanceShutdown(s, c).impl == s.impl
    ensures AdvanceShutdown(s, c).executors != s.executors ==> P.ExecutorMutex in Taken(s, ClientAt(s, c), outcome)
  {
    var p := ClientAt(s, c);
    Shutting(p.x, p.next);
  }

  predicate Finishes(p: Client) {
    p.FinishDetach? || p.FinishBegun? || p.FinishWaiting? || p.DropModel?
  }

  lemma FinishAdvances(s: Sys, c: nat, outcome: Outcome)
    requires Finishes(ClientAt(s, c))
    ensures Passes(At(ClientAt(s, c)), Taken(s, ClientAt(s, c), outcome), At(ClientAt(AdvanceStop(s, c), c)))
  {
    match ClientAt(s, c)
    case FinishDetach => DetachFollows(if s.impl.executor.Some? then s.impl.executor.value else 0, ThenDropModel);
    case FinishBegun => FinishStops();
    case FinishWaiting => FinishEnters();
    case DropModel => FinishLeaves();
  }

  lemma StopAdvances(s: Sys, c: nat, outcome: Outcome)
    requires var p := ClientAt(s, c); p.StopWaiting? || p.StopAgain? || p.StopJoin? || p.StopHeld?
    ensures Passes(At(ClientAt(s, c)), Taken(s, ClientAt(s, c), outcome), At(ClientAt(AdvanceStop(s, c), c)))
  {
    match ClientAt(s, c)
    case StopWaiting(f) => StopEnters(f);
    case StopAgain(f) => StopAsksAgain(f);
    case StopJoin(f) => StopJoins(f);
    case StopHeld(f) => StopLeaves(f);
  }

  lemma StopSections(s: Sys, c: nat, outcome: Outcome)
    requires PartOf(ClientAt(s, c)).Stops?
    ensures AdvanceStop(s, c).impl != s.impl ==> P.ServerMutex in Taken(s, ClientAt(s, c), outcome)
  {}

  lemma EntryAdvances(s: Sys, c: nat, outcome: Outcome)
    requires PartOf(ClientAt(s, c)).Enters?
    ensures Passes(At(ClientAt(s, c)), Taken(s, ClientAt(s, c), outcome), At(ClientAt(AdvanceEntry(s, c), c)))
    ensures AdvanceEntry(s, c).impl == s.impl
  {
    TakesControl(P.FROM_CHECK, REST);
  }

  /** Every step of a client is a way through its program, and one that changes the fields of the
      server is a section under the server's mutex. */
  lemma AdvanceFollowsProgram(s: Sys, c: nat, outcome: Outcome)
    requires AdvanceEnabled(s, c)
    ensures Passes(At(ClientAt(s, c)), Taken(s, ClientAt(s, c), outcome), At(ClientAt(AdvanceClient(s, c, outcome), c)))
    ensures AdvanceClient(s, c, outcome).impl != s.impl ==> P.ServerMutex in Taken(s, ClientAt(s, c), outcome)
  {
    match PartOf(ClientAt(s, c))
    case Enters => EntryAdvances(s, c, outcome);
    case Starts =>
      StartSections(s, c, outcome);
      if Early(ClientAt(s, c)) {
        EarlyAdvances(s, c, outcome);
      } else {
        LateAdvances(s, c, outcome);
      }
    case Launches => LaunchAdvances(s, c, outcome);
    case Shuts => ShutdownAdvances(s, c, outcome);
    case Stops =>
      StopSections(s, c, outcome);
      if Finishes(ClientAt(s, c)) {
        FinishAdvances(s, c, outcome);
      } else {
        StopAdvances(s, c, outcome);
      }
  }

  /** The calls of the interface, as choices of the program. */
  lemma StartFollows(o: Options)
    ensures Passes(At(Outside), [], At(StartWaiting(o)))
  {
    Remains(At(StartWaiting(o)));
    MoveFirst(On(L.Run(P.CALL, REST)), L.Open, [], At(StartWaiting(o)));
    MoveFirst(On(REST), L.Open, [], At(StartWaiting(o)));
  }

  lemma StopFollows()
    ensures Passes(At(Outside), [P.ServerMutex], At(StopWaiting(false)))
  {
    FirstSection(P.ServerMutex, P.Nothing, P.STOP_HELD, REST);
    MoveFirst(On(L.Run(P.CALL.right, REST)), L.Open, [P.ServerMutex], At(StopWaiting(false)));
    MoveFirst(On(L.Run(P.CALL, REST)), L.Right, [P.ServerMutex], At(StopWaiting(false)));
    MoveFirst(On(REST), L.Open, [P.ServerMutex], At(StopWaiting(false)));
  }

  lemma FinishFollows()
    ensures Passes(At(Outside), [P.ServerMutex], At(FinishBegun))
  {
    var rest := P.Then(P.STOP, P.FINISH_HELD);
    FirstSection(P.ServerMutex, P.Nothing, rest, REST);
    Unfold(P.STOP, P.FINISH_HELD, REST);
    ChainFree(On(L.Run(P.FINISH, REST)), [P.ServerMutex], On(L.Run(rest, REST)), At(FinishBegun));
    MoveFirst(On(L.Run(P.CALL.right.right, REST)), L.Open, [P.ServerMutex], At(FinishBegun));
    MoveFirst(On(L.Run(P.CALL.right, REST)), L.Right, [P.ServerMutex], At(FinishBegun));
    MoveFirst(On(L.Run(P.CALL, REST)), L.Right, [P.ServerMutex], At(FinishBegun));
    MoveFirst(On(REST), L.Open, [P.ServerMutex], At(FinishBegun));
  }

  /** The program leads from one state to the other. */
  ghost predicate Comes(a: L.State, b: L.State) {
    exists taken :: Passes(a, taken, b)
  }

  lemma OthersRest(s: Sys, ev: Event, c: nat)
    requires R.Inv(s) && Enabled(s, ev) && !ev.Advance?
    requires ev.CallStart? || ev.CallStop? || ev.CallFinish? ==> ev.c != c
    ensures ClientAt(Apply(s, ev), c) == ClientAt(s, c)
  {}

  lemma EventFollowsProgram(s: Sys, ev: Event, c: nat)
    requires R.Inv(s) && Enabled(s, ev)
    ensures Comes(At(ClientAt(s, c)), At(ClientAt(Apply(s, ev), c)))
  {
    if ev.Advance? {
      AdvanceShape(s, ev.c, ev.outcome);
      AdvanceFollowsProgram(s, ev.c, ev.outcome);
      Remains(At(ClientAt(s, c)));
    } else if ev.CallStart? && ev.c == c {
      StartFollows(ev.o);
    } else if ev.CallStop? && ev.c == c {
      StopFollows();
    } else if ev.CallFinish? && ev.c == c {
      FinishFollows();
    } else {
      OthersRest(s, ev, c);
      Remains(At(ClientAt(s, c)));
    }
  }

  lemma ComesOn(a: L.State, b: L.State, c: L.State)
    requires Comes(a, b) && Comes(b, c)
    ensures Comes(a, c)
  {
    var taken :| Passes(a, taken, b);
    var further :| Passes(b, further, c);
    Chain(a, taken, b, further, c);
  }

  lemma {:induction false} RunFollowsProgram(s: Sys, run: seq<Event>, c: nat)
    requires R.Inv(s) && R.Legal(s, run)
    ensures Comes(At(ClientAt(s, c)), At(ClientAt(R.After(s, run), c)))
    decreases |run|
  {
    if run == [] {
      Remains(At(ClientAt(s, c)));
    } else {
      var t := Apply(s, run[0]);
      R.EventKeepsInv(s, run[0]);
      EventFollowsProgram(s, run[0], c);
      RunFollowsProgram(t, run[1..], c);
      ComesOn(At(ClientAt(s, c)), At(ClientAt(t, c)), At(ClientAt(R.After(s, run), c)));
    }
  }

  lemma PointsHoldControl(p: Client)
    ensures L.In(CONTROL, L.Holding(At(p))) <==> HoldsControl(p)
  {}

  /** In every run of the server every client is where its program can take it, and it owns
      `control` exactly when, at that place of the program, it holds the lock. */
  lemma ControlIsHeld(o: Options, run: seq<Event>, c: nat)
    requires R.Legal(Initial(o), run)
    ensures var s := R.After(Initial(o), run);
      && Comes(L.Start(P.Client).state, At(ClientAt(s, c)))
      && (s.control == Some(c) <==> L.In(CONTROL, L.Holding(At(ClientAt(s, c)))))
  {
    InitialLife(o);
    R.RunKeepsInv(Initial(o), run);
    RunFollowsProgram(Initial(o), run, c);
    var s := R.After(Initial(o), run);
    PointsHoldControl(ClientAt(s, c));
    if HoldsControl(ClientAt(s, c)) {
      OwnerIsHolder(s, c);
    }
  }
}
