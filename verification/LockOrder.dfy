/** Threads running the programs of module LockPrograms, in any number and in any interleaving.
    What a thread holds is read off the scopes it still has to leave; no rule of the semantics
    knows about an order.  That no run deadlocks is proved from the programs. */
module LockOrder {
  import opened Prelude
  import opened LockPrograms

  /** A mutex: its class, and which one of that class. */
  datatype Lock = Lock(of: Class, instance: nat)

  type Tid = nat

  /** What a thread has left to do: code to run and scopes to leave. */
  datatype Todo = Over | Run(code: Code, next: Todo) | Unlock(lock: Lock, next: Todo)

  datatype Waits =
    | Running
    | ForLock(lock: Lock, body: Code)        // in `lock()`, at the beginning of a scope
    | ForWake                                // in `wait()`, the innermost mutex released
    | ForThread(thread: Tid, inWait: bool)   // in `join()`, or in `wait()` for what that thread does

  datatype State = State(todo: Todo, waits: Waits)

  function Under<T>(held: Stack<T>): Stack<T> {
    if held.Push? then held.under else Empty
  }

  /** The locks whose scopes are still to be left, the innermost on top. */
  function Scopes(todo: Todo): Stack<Lock> {
    match todo
    case Over => Empty
    case Run(_, next) => Scopes(next)
    case Unlock(l, next) => Push(l, Scopes(next))
  }

  /** The locks that a thread holds. */
  function Holding(st: State): Stack<Lock> {
    if st.waits.ForWake? || (st.waits.ForThread? && st.waits.inWait) then Under(Scopes(st.todo)) else Scopes(st.todo)
  }

  predicate In(l: Lock, held: Stack<Lock>) {
    held.Push? && (held.top == l || In(l, held.under))
  }

  function Classes(held: Stack<Lock>): Stack<Class> {
    if held.Empty? then Empty else Push(held.top.of, Classes(held.under))
  }

  /** The lock that a thread cannot go on without. */
  function Wanted(st: State): Option<Lock> {
    if st.waits.ForLock? then Some(st.waits.lock)
    else if st.waits.ForWake? && Scopes(st.todo).Push? then Some(Scopes(st.todo).top)
    else None
  }

  // ----- One thread -----

  datatype Move =
    | Skip                  // leave a piece out: a branch not taken, an early return, an exception
    | Open                  // the first of two pieces, the left branch, one more round
    | Right                 // the right branch
    | Ask(instance: nat)    // enter a scope that begins with a lock
    | Get                   // the lock is obtained
    | Release               // leave the scope
    | Sleep(thread: Tid)    // begin to wait, or to join
    | Resume                // what was awaited has come about

  predicate CanMove(st: State, move: Move) {
    match move
    case Get => st.waits.ForLock? || st.waits.ForWake?
    case Resume => st.waits.ForThread?
    case Release => st.waits.Running? && st.todo.Unlock?
    case _ =>
      && st.waits.Running? && st.todo.Run?
      && var code := st.todo.code;
         match move
         case Open => code.Then? || code.Either? || code.Repeat?
         case Right => code.Either?
         case Ask(_) => code.With?
         case Sleep(_) => code.Wait? || code.Join?
         case _ => true
  }

  function Opened(code: Code, next: Todo): Todo
    requires code.Then? || code.Either? || code.Repeat?
  {
    match code
    case Then(first, rest) => Run(first, Run(rest, next))
    case Either(left, _) => Run(left, next)
    case Repeat(body) => Run(body, Run(code, next))
  }

  /** What a thread that begins to wait waits for. */
  function Slept(code: Code, u: Tid): Waits {
    match code
    case Wait(upon) => if upon.None? then ForWake else ForThread(u, true)
    case _ => ForThread(u, false)
  }

  function MoveOn(st: State, move: Move): State
    requires CanMove(st, move)
  {
    match move
    case Skip => State(st.todo.next, Running)
    case Open => State(Opened(st.todo.code, st.todo.next), Running)
    case Right => State(Run(st.todo.code.right, st.todo.next), Running)
    case Ask(i) => State(st.todo.next, ForLock(Lock(st.todo.code.lock, i), st.todo.code.body))
    case Get =>
      State(if st.waits.ForLock? then Run(st.waits.body, Unlock(st.waits.lock, st.todo)) else st.todo, Running)
    case Release => State(st.todo.next, Running)
    case Sleep(u) => State(st.todo.next, Slept(st.todo.code, u))
    case Resume => State(st.todo, if st.waits.inWait then ForWake else Running)
  }

  // ----- Runs -----

  datatype Thread = Thread(kind: Kind, state: State)

  type System = map<Tid, Thread>

  datatype Event = Spawn(t: Tid, kind: Kind) | Go(t: Tid, move: Move)

  predicate Held(s: System, l: Lock) {
    exists u :: u in s && In(l, Holding(s[u].state))
  }

  /** The threads that a wait or a join is for. */
  function Upon(code: Code): Option<Kind> {
    match code
    case Wait(upon) => upon
    case Join(k) => Some(k)
    case _ => None
  }

  /** Nothing is left to do. */
  predicate Finished(st: State) {
    st.todo.Over? && st.waits.Running?
  }

  /** A mutex is obtained only while nobody holds it, and a thread joined only when it has finished;
      a condition-variable wait may end at any time. */
  predicate Enabled(s: System, ev: Event) {
    match ev
    case Spawn(t, _) => t !in s
    case Go(t, move) =>
      && t in s && CanMove(s[t].state, move)
      && (move.Get? && Wanted(s[t].state).Some? ==> !Held(s, Wanted(s[t].state).value))
      && (move.Sleep? && Upon(s[t].state.todo.code).Some? ==>
            move.thread in s && s[move.thread].kind == Upon(s[t].state.todo.code).value)
      && (move.Resume? && !s[t].state.waits.inWait ==>
            s[t].state.waits.thread in s && Finished(s[s[t].state.waits.thread].state))
  }

  function Start(kind: Kind): Thread {
    Thread(kind, State(Run(Program(kind), Over), Running))
  }

  function Apply(s: System, ev: Event): System
    requires Enabled(s, ev)
  {
    match ev
    case Spawn(t, kind) => s[t := Start(kind)]
    case Go(t, move) => s[t := s[t].(state := MoveOn(s[t].state, move))]
  }

  ghost predicate Legal(s: System, run: seq<Event>)
    decreases |run|
  {
    run == [] || (Enabled(s, run[0]) && Legal(Apply(s, run[0]), run[1..]))
  }

  ghost function After(s: System, run: seq<Event>): System
    requires Legal(s, run)
    decreases |run|
  {
    if run == [] then s else After(Apply(s, run[0]), run[1..])
  }

  // ----- The discipline along a run -----

  predicate Fits(kind: Kind, l: Lock, held: Stack<Lock>) {
    (l.of.Control? ==> kind.Client?) && Above(l.of, Classes(held))
  }

  /** Whatever is left to do keeps the discipline, with the locks held when it comes to it. */
  predicate Orderly(kind: Kind, todo: Todo) {
    match todo
    case Over => true
    case Run(code, next) => Orderly(kind, next) && Follows(kind, code, Classes(Scopes(next)))
    case Unlock(l, next) => Orderly(kind, next) && Fits(kind, l, Scopes(next))
  }

  predicate OnlyControl(held: Stack<Lock>) {
    held.Empty? || (held.top.of.Control? && held.under.Empty?)
  }

  predicate StateOk(s: System, kind: Kind, st: State) {
    && Orderly(kind, st.todo)
    && match st.waits
       case Running => true
       case ForLock(l, body) => Fits(kind, l, Scopes(st.todo)) && Follows(kind, body, Push(l.of, Classes(Scopes(st.todo))))
       case ForWake => Scopes(st.todo).Push? && OnlyControl(Scopes(st.todo).under)
       case ForThread(u, inWait) =>
         && u in s && Level(s[u].kind) < Level(kind) && OnlyControl(Holding(st))
         && (inWait ==> Scopes(st.todo).Push?)
  }

  ghost predicate Apart(a: State, b: State) {
    forall l {:trigger In(l, Holding(a))} {:trigger In(l, Holding(b))} :: In(l, Holding(a)) ==> !In(l, Holding(b))
  }

  ghost predicate Ordered(s: System) {
    && (forall t :: t in s ==> StateOk(s, s[t].kind, s[t].state))
    && (forall t, u :: t in s && u in s && t != u ==> Apart(s[t].state, s[u].state))
  }

  lemma PatientIsControl(held: Stack<Lock>, upon: Option<Kind>, kind: Kind)
    ensures Patient(kind, Classes(held), upon) ==> OnlyControl(held)
  {
    if held.Push? && held.under.Push? {
      assert Classes(held).under.Push?;
    }
  }

  lemma MoveKeepsOrderly(kind: Kind, st: State, move: Move, s: System)
    requires StateOk(s, kind, st) && CanMove(st, move)
    requires move.Sleep? && Upon(st.todo.code).Some? ==>
      move.thread in s && s[move.thread].kind == Upon(st.todo.code).value
    ensures StateOk(s, kind, MoveOn(st, move))
  {
    if move.Sleep? {
      PatientIsControl(Scopes(st.todo.next), Upon(st.todo.code), kind);
      PatientIsControl(Under(Scopes(st.todo.next)), Upon(st.todo.code), kind);
    }
  }

  lemma OpenedScopes(code: Code, next: Todo)
    requires code.Then? || code.Either? || code.Repeat?
    ensures Scopes(Opened(code, next)) == Scopes(next)
  {
    if code.Then? {
      assert Scopes(Run(code.rest, next)) == Scopes(next);
    } else if code.Repeat? {
      assert Scopes(Run(code, next)) == Scopes(next);
    }
  }

  /** A move takes no lock but the one that was wanted. */
  lemma MoveHoldings(st: State, move: Move, l: Lock)
    requires CanMove(st, move) && In(l, Holding(MoveOn(st, move)))
    ensures In(l, Holding(st)) || (move.Get? && Wanted(st) == Some(l))
  {
    var held, next := Holding(st), Holding(MoveOn(st, move));
    match move
    case Get =>
      if st.waits.ForLock? {
        assert Scopes(Unlock(st.waits.lock, st.todo)) == Push(st.waits.lock, held);
      }
    case Release => assert held == Push(st.todo.lock, next);
    case Sleep(_) => assert next == held || next == Under(held);
    case Open => OpenedScopes(st.todo.code, st.todo.next);
    case _ =>
  }

  lemma SpawnedIsOrderly(s: System, kind: Kind)
    ensures StateOk(s, kind, Start(kind).state) && Holding(Start(kind).state) == Empty
  {
    ProgramsFollow(kind);
  }

  /** One thread is new, or goes on. */
  lemma OneThreadChanges(s: System, t: Tid, th: Thread)
    requires Ordered(s) && (t in s ==> th.kind == s[t].kind)
    requires StateOk(s, th.kind, th.state)
    requires forall u :: u in s && u != t ==> Apart(th.state, s[u].state)
    ensures Ordered(s[t := th])
  {
    var s' := s[t := th];
    forall u | u in s' ensures StateOk(s', s'[u].kind, s'[u].state) {
      if u != t {
        assert StateOk(s, s[u].kind, s[u].state);
      }
    }
  }

  lemma MoveKeepsApart(s: System, t: Tid, move: Move, u: Tid)
    requires Ordered(s) && Enabled(s, Go(t, move)) && u in s && u != t
    ensures Apart(MoveOn(s[t].state, move), s[u].state)
  {
    forall l | In(l, Holding(MoveOn(s[t].state, move))) ensures !In(l, Holding(s[u].state)) {
      MoveHoldings(s[t].state, move, l);
      assert Apart(s[t].state, s[u].state);
    }
  }

  lemma EventKeepsOrdered(s: System, ev: Event)
    requires Ordered(s) && Enabled(s, ev)
    ensures Ordered(Apply(s, ev))
  {
    match ev
    case Spawn(t, kind) =>
      SpawnedIsOrderly(s, kind);
      OneThreadChanges(s, t, Start(kind));
    case Go(t, move) =>
      MoveKeepsOrderly(s[t].kind, s[t].state, move, s);
      forall u | u in s && u != t ensures Apart(MoveOn(s[t].state, move), s[u].state) {
        MoveKeepsApart(s, t, move, u);
      }
      OneThreadChanges(s, t, s[t].(state := MoveOn(s[t].state, move)));
  }

  lemma {:induction false} RunKeepsOrdered(s: System, run: seq<Event>)
    requires Ordered(s) && Legal(s, run)
    ensures Ordered(After(s, run))
    decreases |run|
  {
    if run != [] {
      EventKeepsOrdered(s, run[0]);
      RunKeepsOrdered(Apply(s, run[0]), run[1..]);
    }
  }

  lemma {:induction false} InClasses(l: Lock, held: Stack<Lock>, c: Class)
    requires In(l, held) && Above(c, Classes(held))
    ensures Rank(l.of) < Rank(c)
    decreases held
  {
    if held.top != l {
      InClasses(l, held.under, c);
    }
  }

  lemma ScopesAscend(kind: Kind, todo: Todo)
    requires Orderly(kind, todo) && Scopes(todo).Push?
    ensures Fits(kind, Scopes(todo).top, Scopes(todo).under)
  {}

  /** What a thread holds is below the lock that it wants. */
  lemma WantedIsAbove(s: System, kind: Kind, st: State, l: Lock)
    requires StateOk(s, kind, st) && Wanted(st).Some? && In(l, Holding(st))
    ensures Rank(l.of) < Rank(Wanted(st).value.of)
  {
    ScopesAscendIfAny(kind, st);
    InClasses(l, Holding(st), Wanted(st).value.of);
  }

  lemma ScopesAscendIfAny(kind: Kind, st: State)
    requires Orderly(kind, st.todo)
    ensures Scopes(st.todo).Push? ==> Fits(kind, Scopes(st.todo).top, Scopes(st.todo).under)
  {
    if Scopes(st.todo).Push? {
      ScopesAscend(kind, st.todo);
    }
  }

  /** In every run, whatever the interleaving: a thread that wants a lock holds only locks of lower
      rank, and not that lock itself; a thread that awaits another holds nothing but `control`, and
      awaits a thread of a lower level; `control` is wanted and held by clients only. */
  lemma LocksAreOrdered(run: seq<Event>, t: Tid)
    requires Legal(map[], run) && t in After(map[], run)
    ensures
      var s := After(map[], run);
      var st := s[t].state;
      && (Wanted(st).Some? ==> forall h :: In(h, Holding(st)) ==> Rank(h.of) < Rank(Wanted(st).value.of))
      && (st.waits.ForThread? ==>
            && st.waits.thread in s && Level(s[st.waits.thread].kind) < Level(s[t].kind)
            && forall h :: In(h, Holding(st)) ==> h.of.Control?)
      && (forall l :: In(l, Holding(st)) || Wanted(st) == Some(l) ==> l.of.Control? ==> s[t].kind.Client?)
  {
    RunKeepsOrdered(map[], run);
    var s := After(map[], run);
    assert StateOk(s, s[t].kind, s[t].state);
    forall h | Wanted(s[t].state).Some? && In(h, Holding(s[t].state)) ensures Rank(h.of) < Rank(Wanted(s[t].state).value.of) {
      WantedIsAbove(s, s[t].kind, s[t].state, h);
    }
    forall l | (In(l, Holding(s[t].state)) || Wanted(s[t].state) == Some(l)) && l.of.Control? ensures s[t].kind.Client? {
      ControlIsForClients(s, s[t].kind, s[t].state, l);
    }
  }

  lemma ScopesFit(kind: Kind, todo: Todo, l: Lock)
    requires Orderly(kind, todo) && In(l, Scopes(todo)) && l.of.Control?
    ensures kind.Client?
  {}

  lemma ControlIsForClients(s: System, kind: Kind, st: State, l: Lock)
    requires StateOk(s, kind, st) && (In(l, Holding(st)) || Wanted(st) == Some(l)) && l.of.Control?
    ensures kind.Client?
  {
    if In(l, Scopes(st.todo)) {
      ScopesFit(kind, st.todo, l);
    }
  }

  // ----- No deadlock -----

  /** Thread t cannot go on before thread u has. */
  predicate WaitsOn(s: System, t: Tid, u: Tid) {
    && t in s && u in s
    && match s[t].state.waits
       case Running => false
       case ForThread(v, _) => v == u
       case _ => Wanted(s[t].state).Some? && In(Wanted(s[t].state).value, Holding(s[u].state))
  }

  /** How long a chain of waits can be from here. */
  function Height(th: Thread): nat {
    match th.state.waits
    case Running => 0
    case ForThread(_, _) => 4 + Level(th.kind)
    case _ =>
      var l := Wanted(th.state);
      if l.None? then 0 else if l.value.of.Control? then 8 else 4 - Rank(l.value.of)
  }

  /** Who holds a lock and waits, waits for something higher; with more than `control` held, for a lock. */
  lemma HolderDescends(s: System, u: Tid, l: Lock)
    requires Ordered(s) && u in s && In(l, Holding(s[u].state))
    ensures Height(s[u]) < if l.of.Control? then 8 else 4 - Rank(l.of)
  {
    assert StateOk(s, s[u].kind, s[u].state);
    if Wanted(s[u].state).Some? {
      WantedIsAbove(s, s[u].kind, s[u].state, l);
    }
  }

  lemma WaitsDescend(s: System, t: Tid, u: Tid)
    requires Ordered(s) && WaitsOn(s, t, u)
    ensures Height(s[u]) < Height(s[t])
  {
    assert StateOk(s, s[t].kind, s[t].state) && StateOk(s, s[u].kind, s[u].state);
    if s[t].state.waits.ForThread? {
      if Wanted(s[u].state).Some? && Wanted(s[u].state).value.of.Control? {
        ControlIsForClients(s, s[u].kind, s[u].state, Wanted(s[u].state).value);
      }
    } else {
      HolderDescends(s, u, Wanted(s[t].state).value);
    }
  }

  ghost predicate Chain(s: System, p: seq<Tid>) {
    p != [] && p[0] in s && forall i :: 0 <= i < |p| - 1 ==> WaitsOn(s, p[i], p[i + 1])
  }

  lemma {:induction false} ChainDescends(s: System, p: seq<Tid>)
    requires Ordered(s) && Chain(s, p)
    ensures p[|p| - 1] in s && Height(s[p[|p| - 1]]) + |p| - 1 <= Height(s[p[0]])
    decreases |p|
  {
    if |p| > 1 {
      assert WaitsOn(s, p[0], p[1]);
      WaitsDescend(s, p[0], p[1]);
      forall i | 0 <= i < |p[1..]| - 1 ensures WaitsOn(s, p[1..][i], p[1..][i + 1]) {
        assert WaitsOn(s, p[i + 1], p[i + 2]);
      }
      ChainDescends(s, p[1..]);
    }
  }

  /** No reachable state has a cycle of waits; a chain has at most nine threads. */
  lemma NoRunDeadlocks(run: seq<Event>, p: seq<Tid>)
    requires Legal(map[], run) && Chain(After(map[], run), p)
    ensures |p| <= 9
    ensures |p| > 1 ==> p[|p| - 1] != p[0]
  {
    RunKeepsOrdered(map[], run);
    ChainDescends(After(map[], run), p);
  }

  /** What a running thread does next; it passes a wait for others that it need not begin. */
  function NextOf(code: Code): Move {
    match code
    case Nothing => Skip
    case With(_, _) => Ask(0)
    case Wait(upon) => if upon.None? then Sleep(0) else Skip
    case Join(_) => Skip
    case _ => Open
  }

  function NextMove(st: State): Move {
    if st.waits.ForThread? then Resume
    else if !st.waits.Running? then Get
    else if st.todo.Run? then NextOf(st.todo.code)
    else Release
  }

  /** An unfinished thread can make its next move; a wait for another thread counts as over only
      when that thread has finished. */
  predicate CanStep(s: System, t: Tid) {
    && t in s && !Finished(s[t].state) && Enabled(s, Go(t, NextMove(s[t].state)))
    && (s[t].state.waits.ForThread? ==>
          s[t].state.waits.thread in s && Finished(s[s[t].state.waits.thread].state))
  }

  lemma Blocker(s: System, t: Tid) returns (u: Tid)
    requires Ordered(s) && t in s && !Finished(s[t].state) && !CanStep(s, t)
    ensures WaitsOn(s, t, u) && !Finished(s[u].state)
  {
    assert StateOk(s, s[t].kind, s[t].state);
    if s[t].state.waits.ForThread? {
      u := s[t].state.waits.thread;
    } else {
      u :| u in s && In(Wanted(s[t].state).value, Holding(s[u].state));
    }
  }

  lemma {:induction false} ChainToStep(s: System, t: Tid) returns (p: seq<Tid>)
    requires Ordered(s) && t in s && !Finished(s[t].state)
    ensures Chain(s, p) && p[0] == t && CanStep(s, p[|p| - 1])
    decreases Height(s[t])
  {
    if CanStep(s, t) {
      return [t];
    }
    var u := Blocker(s, t);
    WaitsDescend(s, t, u);
    var rest := ChainToStep(s, u);
    p := [t] + rest;
    forall i | 0 <= i < |p| - 1 ensures WaitsOn(s, p[i], p[i + 1]) {
      assert i > 0 ==> WaitsOn(s, rest[i - 1], rest[i]);
    }
  }

  /** Behind every unfinished thread, in every reachable state, there is an unfinished thread whose
      next move is enabled. */
  lemma SomeoneCanStep(run: seq<Event>, t: Tid) returns (p: seq<Tid>)
    requires Legal(map[], run) && t in After(map[], run) && !Finished(After(map[], run)[t].state)
    ensures Chain(After(map[], run), p) && p[0] == t && CanStep(After(map[], run), p[|p| - 1])
  {
    RunKeepsOrdered(map[], run);
    p := ChainToStep(After(map[], run), t);
  }
}
