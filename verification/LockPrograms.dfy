/** What each kind of thread locks, joins and waits for, as programs transcribed from the code, and
    the discipline that these programs keep. */
module LockPrograms {
  import opened Prelude

  datatype Class =
    | Control | InvocationMutex | ServerMutex
    | ExecutorMutex | ModelMutex | RegistryMutex | PoolMutex | WriterMutex

  datatype Kind = Client | Network | Handler | Watchdog | Worker | Reaper

  /** The locking skeleton of a piece of code.  What a test or an exception leaves out is left out
      when the program runs (LockOrder.Skip), so an `if` is written as its body alone. */
  datatype Code =
    | Nothing
    | Then(first: Code, rest: Code)
    | Either(left: Code, right: Code)
    | Repeat(body: Code)
    | With(lock: Class, body: Code)   // a `lock_guard` or `unique_lock` and the rest of its scope
    | Wait(upon: Option<Kind>)        // a condition-variable wait, and whose progress would end it
    | Join(kind: Kind)

  // ----- Pieces -----

  /** One critical section under the mutex of the server. */
  const LOCKED := With(ServerMutex, Nothing)

  /** `OperationExecutor::drain`. */
  const DRAIN := With(ExecutorMutex, Repeat(Either(Wait(Some(Worker)), Wait(Some(Reaper)))))

  const JOIN_THREADS := Then(Repeat(Join(Worker)), Join(Reaper))

  const CLOSE := Then(With(ExecutorMutex, Nothing), JOIN_THREADS)

  /** `OperationExecutor::shutdown`. */
  const SHUTDOWN := Then(DRAIN, CLOSE)

  /** The constructor of an executor joins the workers it has when a thread cannot be created. */
  const CONSTRUCT := Then(With(ExecutorMutex, Nothing), Repeat(Join(Worker)))

  /** `OperationExecutor::finish`. */
  const FINISH_INVOCATION := Then(With(InvocationMutex, Nothing), With(ExecutorMutex, Nothing))

  // ----- Server::start -----

  const FROM_AWAIT := With(ServerMutex, Repeat(Wait(Some(Network))))
  const FROM_PREPARE := Then(LOCKED, FROM_AWAIT)
  const FROM_INSTALL := Then(LOCKED, FROM_PREPARE)
  const FROM_CONSTRUCT := Then(CONSTRUCT, FROM_INSTALL)

  /** Dropping the last reference to the old executor shuts it down once more. */
  const FROM_RELEASE := Then(SHUTDOWN, FROM_CONSTRUCT)
  const FROM_DETACH := Then(LOCKED, Then(SHUTDOWN, FROM_RELEASE))
  const FROM_COMPARE := Either(FROM_DETACH, FROM_PREPARE)
  const BUILD_MODEL := Then(Repeat(With(RegistryMutex, Nothing)), LOCKED)
  const FROM_BUILD := Then(BUILD_MODEL, FROM_COMPARE)
  const ACCEPT := With(ServerMutex, Repeat(With(ExecutorMutex, Nothing)))

  /** The last section is the handler of exceptions. */
  const FROM_ACCEPT := Then(ACCEPT, Then(FROM_BUILD, LOCKED))
  const FROM_JOIN := Then(Join(Network), FROM_ACCEPT)
  const FROM_CHECK := Then(LOCKED, FROM_JOIN)
  const START := With(Control, FROM_CHECK)

  // ----- The rest of the public interface -----

  const STOP_BODY := Then(LOCKED, Join(Network))
  const STOP_HELD := With(Control, STOP_BODY)
  const STOP := Then(LOCKED, STOP_HELD)

  const FROM_DROP := Then(SHUTDOWN, LOCKED)
  const FROM_FINISH := Then(LOCKED, Then(SHUTDOWN, FROM_DROP))
  const FINISH_HELD := With(Control, FROM_FINISH)
  const FINISH := Then(LOCKED, Then(STOP, FINISH_HELD))

  const COMMIT := With(ServerMutex, With(ModelMutex, Nothing))
  const PUBLISH := With(Control, Then(COMMIT, COMMIT))
  const QUERY := Then(LOCKED, With(ModelMutex, Nothing))
  const COUNT := Then(LOCKED, Then(With(ExecutorMutex, Nothing), SHUTDOWN))

  /** Any call of the public interface, the type registry included. */
  const CALL :=
    Either(START, Either(STOP, Either(FINISH, Either(PUBLISH, Either(QUERY, Either(COUNT,
    Either(LOCKED, With(RegistryMutex, Nothing))))))))

  // ----- The other threads -----

  /** `NetworkPool::shutdown`. */
  const CLOSE_POOL := Then(LOCKED, Then(With(PoolMutex, Nothing), Repeat(Join(Handler))))

  /** `run`: the accept loop calls the start handler, the connection handler and `enqueue`. */
  const NETWORK :=
    Then(LOCKED, Then(Repeat(Either(LOCKED, With(PoolMutex, Nothing))), Then(Repeat(CLOSE_POOL),
    Then(Repeat(LOCKED), Then(LOCKED, Then(Join(Watchdog), LOCKED))))))

  const PREFLIGHT := Then(LOCKED, With(ModelMutex, Nothing))
  const GATE := With(ServerMutex, With(ExecutorMutex, Nothing))
  const AWAIT_OPERATION :=
    With(InvocationMutex, Repeat(Then(LOCKED, Either(Wait(Some(Worker)), Wait(Some(Reaper))))))
  const HANDLE :=
    Then(PREFLIGHT, Then(With(ModelMutex, Nothing), Then(GATE, Either(With(WriterMutex, Nothing), AWAIT_OPERATION))))

  /** `NetworkPool::work`; a connection brings any number of requests, each with its own preflight. */
  const HANDLER := Repeat(Then(With(PoolMutex, Repeat(Wait(None))), Repeat(Then(PREFLIGHT, HANDLE))))

  const WATCHDOG := With(ServerMutex, Repeat(Wait(None)))

  const WORKER :=
    Repeat(Then(With(ExecutorMutex, Repeat(Wait(None))),
                Either(FINISH_INVOCATION, Then(With(InvocationMutex, Nothing), With(InvocationMutex, Nothing)))))

  /** One candidate of `reap`. */
  const CANDIDATE :=
    Then(With(ExecutorMutex, Nothing), Then(With(InvocationMutex, Nothing),
    Then(With(InvocationMutex, Nothing), FINISH_INVOCATION)))
  const REAPER := Repeat(Then(Repeat(CANDIDATE), With(ExecutorMutex, Wait(None))))

  function Program(kind: Kind): Code {
    match kind
    case Client => Repeat(CALL)
    case Network => NETWORK
    case Handler => HANDLER
    case Watchdog => WATCHDOG
    case Worker => WORKER
    case Reaper => REAPER
  }

  // ----- The discipline -----

  /** Locks are taken in increasing rank. */
  function Rank(l: Class): nat {
    match l
    case Control => 0
    case InvocationMutex => 1
    case ServerMutex => 2
    case _ => 3
  }

  /** Who awaits is above whom it awaits. */
  function Level(k: Kind): nat {
    match k
    case Client => 3
    case Network => 2
    case Handler => 1
    case Watchdog => 1
    case Worker => 0
    case Reaper => 0
  }

  /** The locks held, the last one taken on top. */
  datatype Stack<T> = Empty | Push(top: T, under: Stack<T>)

  predicate Above(l: Class, held: Stack<Class>) {
    match held
    case Empty => true
    case Push(h, under) => Rank(h) < Rank(l) && Above(l, under)
  }

  /** While it awaits a thread, a thread holds nothing but `control`; otherwise nothing at all. */
  predicate Patient(kind: Kind, held: Stack<Class>, upon: Option<Kind>) {
    match upon
    case None => held.Empty?
    case Some(other) => Level(other) < Level(kind) && (held.Empty? || held == Push(Control, Empty))
  }

  /** The code keeps to the order of locks and awaits, begun with these locks held. */
  predicate Follows(kind: Kind, code: Code, held: Stack<Class>) {
    match code
    case Nothing => true
    case Then(first, rest) => Follows(kind, first, held) && Follows(kind, rest, held)
    case Either(left, right) => Follows(kind, left, held) && Follows(kind, right, held)
    case Repeat(body) => Follows(kind, body, held)
    case With(l, body) => (l.Control? ==> kind.Client?) && Above(l, held) && Follows(kind, body, Push(l, held))
    case Wait(upon) => held.Push? && Patient(kind, held.under, upon)
    case Join(other) => Patient(kind, held, Some(other))
  }

  /** `shutdown` is run by a client, with or without `control`. */
  lemma ShutdownFollows(held: Stack<Class>)
    requires held == Empty || held == Push(Control, Empty)
    ensures Follows(Client, SHUTDOWN, held)
  {
    assert Follows(Client, With(ExecutorMutex, Nothing), held);
    assert Follows(Client, Repeat(Either(Wait(Some(Worker)), Wait(Some(Reaper)))), Push(ExecutorMutex, held));
    assert Follows(Client, DRAIN, held);
    assert Follows(Client, JOIN_THREADS, held);
    assert Follows(Client, CLOSE, held);
  }

  lemma LaunchFollows(held: Stack<Class>)
    requires held == Push(Control, Empty)
    ensures Follows(Client, FROM_PREPARE, held) && Follows(Client, FROM_CONSTRUCT, held)
  {
    assert Follows(Client, LOCKED, held);
    assert Follows(Client, FROM_AWAIT, held);
    assert Follows(Client, FROM_PREPARE, held);
    assert Follows(Client, CONSTRUCT, held);
  }

  lemma CompareFollows(held: Stack<Class>)
    requires held == Push(Control, Empty)
    ensures Follows(Client, FROM_COMPARE, held)
  {
    ShutdownFollows(held);
    LaunchFollows(held);
    assert Follows(Client, LOCKED, held);
    assert Follows(Client, FROM_RELEASE, held);
    assert Follows(Client, FROM_DETACH, held);
  }

  lemma BuildFollows(held: Stack<Class>)
    requires held == Push(Control, Empty)
    ensures Follows(Client, FROM_BUILD, held) && Follows(Client, LOCKED, held)
  {
    CompareFollows(held);
    assert Follows(Client, BUILD_MODEL, held);
  }

  lemma AcceptFollows(held: Stack<Class>)
    requires held == Push(Control, Empty)
    ensures Follows(Client, FROM_ACCEPT, held)
  {
    BuildFollows(held);
    assert Follows(Client, ACCEPT, held);
    assert Follows(Client, Then(FROM_BUILD, LOCKED), held);
  }

  lemma StartFollows()
    ensures Follows(Client, START, Empty)
  {
    var held := Push(Control, Empty);
    AcceptFollows(held);
    assert Follows(Client, LOCKED, held);
    assert Follows(Client, FROM_JOIN, held);
    assert Follows(Client, FROM_CHECK, held);
  }

  lemma StopFollows()
    ensures Follows(Client, STOP, Empty) && Follows(Client, FINISH, Empty)
  {
    var held := Push(Control, Empty);
    ShutdownFollows(held);
    assert Follows(Client, LOCKED, held) && Follows(Client, LOCKED, Empty);
    assert Follows(Client, STOP_BODY, held);
    assert Follows(Client, STOP, Empty);
    assert Follows(Client, FROM_DROP, held);
    assert Follows(Client, FROM_FINISH, held);
    assert Follows(Client, FINISH_HELD, Empty);
  }

  lemma OtherCallsFollow()
    ensures Follows(Client, PUBLISH, Empty) && Follows(Client, QUERY, Empty) && Follows(Client, COUNT, Empty)
  {
    ShutdownFollows(Empty);
    assert Follows(Client, COMMIT, Push(Control, Empty));
    assert Follows(Client, LOCKED, Empty) && Follows(Client, With(ExecutorMutex, Nothing), Empty);
    assert Follows(Client, Then(With(ExecutorMutex, Nothing), SHUTDOWN), Empty);
  }

  lemma CallFollows()
    ensures Follows(Client, CALL, Empty)
  {
    StartFollows();
    StopFollows();
    OtherCallsFollow();
    assert Follows(Client, Either(LOCKED, With(RegistryMutex, Nothing)), Empty);
  }

  lemma HandlerFollows()
    ensures Follows(Handler, HANDLER, Empty)
  {
    assert Follows(Handler, LOCKED, Push(InvocationMutex, Empty)) && Follows(Handler, LOCKED, Empty);
    assert Follows(Handler, PREFLIGHT, Empty);
    assert Follows(Handler, GATE, Empty);
    assert Follows(Handler, AWAIT_OPERATION, Empty);
    assert Follows(Handler, HANDLE, Empty);
  }

  /** Every thread's program keeps the discipline. */
  lemma ProgramsFollow(kind: Kind)
    ensures Follows(kind, Program(kind), Empty)
  {
    match kind
    case Client => CallFollows();
    case Handler => HandlerFollows();
    case _ =>
  }
}
