# Verification of the RTT HTTP server's logic

A Dafny model of the parts of the server where correctness depends on more than one function:

- **Operations and lifecycle.** `OperationExecutor` (workers, reaper, bounded admission) and
  `Server::Impl` (four phases, the sticky final shutdown, network thread, watchdog, request
  handlers, `start`/`stop`/`finishShutdown`) are step systems with one step per critical section or
  call into RTT; calls into RTT, binding and thread creation answer nondeterministically. The
  guarantees are about all runs of the composition (`ServerGuarantees`, and `ServerVerdicts` for what
  clients are told), about the executor on its own (`Verdicts`, `Stranding`, `ReaperScan`), and about
  what can still happen: from every reachable state every call can return (`ServerProgress`). The
  classes in `OperationExecutor.dfy` and `ServerImpl.dfy` are the same critical sections on fields;
  each performs one step of the system and keeps its invariant.
- **Locks.** The locking program of every kind of thread, that it keeps one order, that no run of
  any number of such threads deadlocks, and that the step system's clients follow their program.
- **Types.** The explicit-stack search that freezes the catalog, the registry, the reflection
  fixpoint, and the worklist that describes types.
- **Codecs.** Typed and reflected codecs over a byte and depth budget, what a JSON value denotes,
  their round trip, and the text their values serialize to; the explicit-stack output check, the
  duplicate-key handler, the UTF-8 loop; the data sources an operation call is wired to, and the
  bodies that are answered.
- **Routes.** Percent-encoding and canonical request paths, the recursive publication of services,
  and lookup by decoded names.

| file | contents |
|---|---|
| `Executor.dfy`, `ExecutorRuns.dfy`, `ExecutorProgress.dfy`, `Verdicts.dfy`, `OperationExecutor.dfy`, `ReaperScan.dfy`, `Stranding.dfy` | the executor: step system, its runs, progress, what statuses say, class, reaper passes, what it lacks alone |
| `Server.dfy`, `Lifecycle.dfy`, `Admission.dfy`, `ServerRuns.dfy`, `ServerGuarantees.dfy`, `ServerVerdicts.dfy`, `ServerProgress.dfy`, `StopRequests.dfy`, `ServerImpl.dfy` | the composed system: steps, the three parts of the invariant, guarantees, what clients are told, progress, lost stop requests, class |
| `LockPrograms.dfy`, `LockOrder.dfy`, `LockPoints.dfy` | locking programs and their discipline, runs and deadlock, the tie to the composed system |
| `TypeGraph.dfy`, `Registry.dfy`, `Fingerprints.dfy`, `Reflection.dfy`, `Discovery.dfy` | dependency graph, registry and freeze, identities, reflection, type closure |
| `Utf8.dfy`, `Utf8Table.dfy`, `Json.dfy`, `JsonText.dfy`, `OutputCheck.dfy`, `DuplicateKeys.dfy`, `Decimal.dfy` | text and JSON |
| `CodecContext.dfy`, `Codecs.dfy`, `Meaning.dfy`, `CodecRuns.dfy`, `CodecLaws.dfy`, `Serialization.dfy`, `Invocations.dfy`, `Responses.dfy` | budgets, codecs, what JSON values denote, laws, serializer, operation wiring, response bodies |
| `Routes.dfy`, `RequestGrammar.dfy`, `ServiceTree.dfy`, `RouteMeanings.dfy`, `RouteGrowth.dfy`, `Publications.dfy`, `ServiceChains.dfy`, `ObjectModel.dfy` | paths, what targets spell, services, what names stand for, publication, its depth, lookup |
| `Prelude.dfy` | sequences and options |

`dafny verify dfyconfig.toml` verifies the project.

## Findings

- A `requestStop` is lost on a `start` that has been called but has not accepted its options (before
  src/server.cpp:801), also on one that still waits for `control`: that `start` can go on to a running
  server, and without one nothing can (`StopRequests.RequestStopIsLostIff`; `EarlyStopIsLost` and
  `QueuedStartLosesStop` give runs from a new server). In every other state the request decides the
  rest of the run (`RequestedStopIsNotLost`). `beginShutdown` in the same window leaves the state `starting` with the final flag set until the last test before
  binding abandons it.
- Reflection leaves out structures that are complete but too large to name: the constructor of a
  protocol computes a fingerprint limited to 65536 bytes (src/type_protocol.cpp:65-90), throws, and
  the type stays unresolved (`Reflection.LongStructureIsRefused`, with 66 members).
- The executor alone does not keep its promise to finish everything it admits; it does exactly when
  nothing awaits collection as `shutdown_` is set (`Stranding.StrandsIffAwaiting`). The server's
  gate and its start and shutdown sequences supply this (`ShutdownStrandsNothing`).
- Canonicalisation is idempotent exactly for paths of at most 8192 bytes; an accepted target can
  have a longer canonical path (`CanonicalMayOutgrowTarget`). Published routes always fit.
- The vector codec's test of its size against `maxDocumentBytes` can never fail after the charge
  before it (`CodecRuns.OpenParts`).
- A value that encodes within the limits of a response need not be answered: it is serialized inside
  an envelope under the same limits, and is refused with 500 when it is nested exactly `maxJsonDepth`
  deep, or when fewer than ten bytes are left (src/server.cpp:507, 591-599;
  `Responses.FullDepthIsRefused`, `FullTextIsRefused`; `AnswerValue`, `AnswerSample` and
  `AnswerOperation` have the exact conditions). An operation has been run by then
  (`FullDepthResultIsRefused`). With `maxJsonDepth` 1, which `validateOptions` accepts, no operation
  can be answered (`OneLevelAnswersNoOperation`); its request, two levels deep as well, does not
  parse either.
- Floats are charged one byte whatever their text (`NonFiniteIsUndercharged`), so the bound on the
  text length holds for float-free types; the serializer's own limit covers the rest. The exact
  difference is `Serialization.CostIsTextAndExcess`: it also counts the comma too many that reflected
  compounds are charged.

## Model

| member | source | states |
|---|---|---|
| `Executor.StepKeepsValid` | src/operation_executor.cpp:140-260 | every critical section of every worker, of the reaper and of any caller keeps the invariant: each pending invocation is in exactly one hand (queue, worker, or parked for the reaper), flags and histories agree, admitted = released + pending |
| `Executor.UpdateKeepsValid` | src/operation_executor.cpp:190-213 | a worker may change only the invocation it holds, and must either keep it or park it for the reaper with `sent` set |
| `Executor.WorkerOwns` | src/operation_executor.cpp:177-189 | what a worker holds is neither queued nor claimed by the reaper |
| `Executor.ReaperOwns` | src/operation_executor.cpp:231-252 | what the reaper has claimed is in no queue and in no worker’s hand |
| `Verdicts.StepKeepsTold` | src/operation_executor.cpp:189-252 | every critical section keeps the record of what RTT answered: a complete invocation was asked what its kind prescribes and has the status that the answers call for, a parked one has exactly its send on record, what a thread is about to report agrees with what it heard |
| `Verdicts.WorkersAnswersAreRecorded` | src/operation_executor.cpp:190-208 | what `call()` or `evaluate()` did is added to the record of its invocation, and nothing else |
| `Verdicts.CollectionsAreRecorded` | src/operation_executor.cpp:238-252 | likewise what `collectIfDone` reported or threw; while it is not ready nothing is recorded |
| `Verdicts.ReachedIsSound` | src/operation_executor.cpp:140-260 | in every state of every run of an executor the invariant, the record and the order of admission hold |
| `Verdicts.ReachedSaysVerdict` | src/operation_executor.cpp:189-252 | in every run, for workers and reaper: a complete invocation has status 500 if and only if RTT threw, 200 if and only if it reported success and nothing threw, 503 otherwise |
| `Verdicts.StepKeepsTurn` | src/operation_executor.cpp:140-188 | the queue stays the last admitted ones in order, and the list the admitted ones in order with some left out |
| `Verdicts.ReachedTakesInTurn` | src/operation_executor.cpp:186-188 | in every run a worker takes the invocation admitted first among those not yet taken |
| `OperationExecutors.OperationExecutor.Admit` | src/operation_executor.cpp:140-158 | refuses exactly when shut down or full; admits an untouched invocation of the given kind at the end of `pending_` and `queue_`; a failing queue push leaves no trace |
| `OperationExecutors.OperationExecutor.TakeNext` | src/operation_executor.cpp:178-189 | what a worker pops is the oldest queued invocation; it was never dispatched and is from then on unqueued, pending and in this worker’s hand alone; with nothing queued the worker leaves |
| `OperationExecutors.OperationExecutor.RunCall` | src/operation_executor.cpp:190-198 | the call is the first and only dispatch, stays in this worker’s hand, and the status the worker goes on to report is 500, 200 or 503 as the answer was an exception, success, or failure or a SendStatus |
| `OperationExecutors.OperationExecutor.RunSend` | src/operation_executor.cpp:202-208 | the dispatch is the first and only one; nothing is visible to the reaper before the worker lets go |
| `OperationExecutors.OperationExecutor.FinishMark` | src/operation_executor.cpp:163-169 | after the first half of `finish` the invocation is settled (dispatched and finished once, by a worker), its status says what RTT answered, and it is still pending; the list is as before |
| `OperationExecutors.OperationExecutor.FinishErase` | src/operation_executor.cpp:170-173 | the second half removes exactly that one settled invocation from `pending_`; no other entry and no invocation changes |
| `OperationExecutors.OperationExecutor.PublishSent` | src/operation_executor.cpp:209-214 | once `sent` is set the invocation is parked: pending, dispatched, in no worker’s hand, and the reaper’s to finish |
| `OperationExecutors.OperationExecutor.Interleave` | src/operation_executor.cpp:177-260 | every legal interleaving of the critical sections is performed by the methods, and keeps the invariant throughout |
| `OperationExecutors.OperationExecutor.CheckCandidate` | src/operation_executor.cpp:231-237 | the reaper claims exactly parked entries, and then holds them alone |
| `OperationExecutors.OperationExecutor.Collect` | src/operation_executor.cpp:238-252 | not ready moves on, a final status goes on to be reported, an exception finishes with 500 |
| `OperationExecutors.OperationExecutor.ReadStatus` | src/operation_executor.cpp:242-249 | the status decided is 500 if and only if the send or the collection threw, 200 if and only if the collection reported success and the send did not throw, 503 otherwise |
| `OperationExecutors.OperationExecutor.ReaperMark` | src/operation_executor.cpp:163-169 | the invocation is settled, still pending, and its status says what RTT answered to the send and to the collection |
| `OperationExecutors.OperationExecutor.ServeCandidate` | src/operation_executor.cpp:222-252 | one turn of the index scan equals the composition of its critical sections |
| `OperationExecutors.OperationExecutor.ReapPass` | src/operation_executor.cpp:216-260 | a pass over an otherwise undisturbed list leaves exactly `AfterPass` (after an erasure the successor is skipped), and what it leaves is untouched |
| `OperationExecutors.TurnFacts` | src/operation_executor.cpp:222-252 | a turn erases the entry under the index if it is ready, and touches no other |
| `OperationExecutors.PassHalves` | src/operation_executor.cpp:216-260 | a pass over n entries that are all ready finishes ceil(n/2): every other one, from the first |
| `OperationExecutors.OperationExecutor.DrainByPasses` | src/operation_executor.cpp:216-260 | the reaper repeating its pass over entries that are all ready empties the list, within k passes for fewer than 2^k entries |
| `ExecutorProgress.Drains` | src/operation_executor.cpp:262-281 | an open executor with a worker can always finish everything pending: some run of its own threads ends with `pending_` empty |
| `ExecutorProgress.Exits` | src/operation_executor.cpp:124-139 | a drained executor that is shut down can always be joined: some run of its own threads ends with all of them gone |
| `ReaperScan.PassMissesAtMostErasures` | src/operation_executor.cpp:216-260 | in any interleaving, the entries pending throughout a pass that the reaper never looked at number at most the erasures during the pass |
| `ReaperScan.PassEndsWithinCap` | src/operation_executor.cpp:222-231 | in any interleaving, a pass looks at no more entries than the admission bound |
| `Stranding.NoneAwaitingDrains` | src/operation_executor.cpp:124-139 | if nothing waits for collection when `shutdown_` is set, everything is finished when all threads are gone |
| `Stranding.StrandsIffAwaiting` | src/operation_executor.cpp:254-257 | the executor alone: some continuation strands an invocation if and only if one is still waiting for collection when `shutdown_` is set |
| `Stranding.WindowStrands` | src/operation_executor.cpp:124-130 | the window between `drain()` and `shutdown_`: an operation admitted there can be stranded |
| `Lifecycle.EventKeepsLife` | src/server.cpp:764-881 | every event keeps the control discipline and the agreement of phase, listener, threads and program points |
| `Admission.WorkShrinks` | src/operation_executor.cpp:163-176 | no worker or reaper step grows `pending_`, reopens an executor, or happens in a joined one |
| `Admission.GateKeepsExecutors` | src/server.cpp:466-480 | admission through the gate keeps every executor within the configured bound |
| `ServerRuns.CompleteIsFinal` | src/operation_executor.cpp:163-176 | a complete invocation keeps its status through every later step |
| `ServerRuns.EventKeepsInv` | src/server.cpp:764-969 | the combined invariant of lifecycle, executors and handlers survives every event of every thread |
| `ServerRuns.RunKeepsInv` | src/server.cpp:764-969 | hence it holds along every run |
| `ServerGuarantees.ReachableInv` | src/server.cpp:762-763 | in every state reached from a new server the invariant holds |
| `ServerGuarantees.EveryInvocationAtMostOnce` | src/operation_executor.cpp:140-260 | in every run: at most one dispatch and one finish per admitted invocation, by the thread its kind prescribes, and none leaves `pending_` unfinished |
| `ServerGuarantees.ShutdownStrandsNothing` | src/server.cpp:952-969 | in every run: once an executor is shut down, every invocation it ever admitted was dispatched exactly once and finished exactly once |
| `ServerGuarantees.NoAdmissionDuringShutdown` | src/server.cpp:466-480 | in every run: while an executor is being shut down no event of any thread admits into it, so nothing enters between the last look at `pending_` and `shutdown_` |
| `ServerGuarantees.AdmittingEventsAreGates` | src/server.cpp:466-480 | no event but the gate admits, and only into the current executor |
| `ServerGuarantees.JoinedMeansOver` | src/server.cpp:824-837 | an executor that is neither current nor being shut down is drained, joined and takes no further step |
| `ServerGuarantees.CapacityIsKept` | src/server.cpp:787-837 | through every stop and restart with new options: pending operations stay within `maxPendingOperations`; running implies a live executor of the configured width; an executor of another width has nothing pending |
| `ServerGuarantees.RestartNeverWaits` | src/server.cpp:824-832 | the drain inside `start` never has to wait |
| `ServerGuarantees.HandlersFindTheirModel` | src/server.cpp:406-480 | in every run: while a handler is in flight the model is present, and an open gate finds an executor |
| `ServerGuarantees.RunsOnValidOptions` | src/server.cpp:226-247 | in every run: a server that starts, runs or stops has room for at least one operation and from 1 to 1024 workers, whatever options were passed |
| `ServerVerdicts.EventKeepsAllReached` | src/server.cpp:764-969 | whatever happens to the server, each of its executors has come about by its own steps, so what holds of every run of an executor holds of it |
| `ServerVerdicts.StatusTellsWhatRttAnswered` | src/operation_executor.cpp:189-252 | in every run of the server: final status 500 if and only if RTT threw, 200 if and only if it reported success and nothing threw, 503 otherwise |
| `ServerVerdicts.RepliesAreTruthful` | src/server.cpp:549-599 | in every run: a handler answers 200 if and only if its invocation was complete with status 200 and its values encoded, 500 only for a recorded 500 or values that do not encode, 503 only for a recorded 503, 504 if and only if it was not complete |
| `ServerVerdicts.RepliesAreRecorded` | src/server.cpp:551-569 | what a handler records at its reply is what it found: its own invocation, complete or not, and whether the values encoded |
| `ServerVerdicts.NobodyIsCutOffWhileRunning` | src/server.cpp:551-561 | in every run: a handler replies only when its invocation is complete, its own deadline has passed or its client has gone, or the server is stopping |
| `ServerVerdicts.CutoffTakesGrace` | src/server.cpp:329-340 | in every run: requests are cut off only when the grace period runs out under the watchdog, which grants one only while stopping with the network not done |
| `ServerVerdicts.FirstComeFirstServed` | src/operation_executor.cpp:186-188 | in every run: a worker takes the invocation admitted first among those not yet taken, and the list keeps the order of admission |
| `ServerGuarantees.FinalShutdownNeverRunsAgain` | src/server.cpp:952-956 | after `beginShutdown` no continuation of any run is ever running or admits |
| `ServerGuarantees.StopHeldMeansStopped` | src/server.cpp:874-881 | when `stop()` has joined and still holds `control`, the state is stopped and neither network nor handler is left |
| `ServerGuarantees.FinalDrainIsAlone` | src/server.cpp:957-969 | the final drain happens after the network and all handlers are gone for good |
| `ServerGuarantees.StoppingIsSteady` | src/server.cpp:312-328 | a stopping server stays so until the launch is abandoned or the network thread ends; its listener, once set, was told to stop |
| `ServerGuarantees.RequestedStopIsNotLost` | src/server.cpp:705-725 | a stop requested while starting or running decides the rest of the run, whatever else happens |
| `StopRequests.RequestStopIsLostIff` | src/server.cpp:764-802 | in every reachable state: after a stop request the server can still come to run without another call of `start` if and only if no final shutdown has begun and some `start` has been called, with valid options, that has not accepted them yet, waiting for `control` included |
| `StopRequests.EarlyStopIsLost` | src/server.cpp:764-802 | a run of a new server in which such a request is lost on its first `start`, which ends up running |
| `StopRequests.QueuedStartLosesStop` | src/server.cpp:764-802 | a run in which it is lost on a `start` that waits for `control` while a `stop` has it |
| `ServerProgress.NetworkSettles` | src/server.cpp:602-760 | a launch ends in a running server, or in a network thread that can be joined; the latter whenever the server is stopping |
| `ServerProgress.ClientReturns` | src/server.cpp:764-969 | a call whose thread owns `control`, or finds it free, can return while all other clients stand still |
| `ServerProgress.AllReturn` | src/server.cpp:764-969 | in every reachable state some continuation, with no further call or request and no failure, lets every call of `start`, `stop` and `finishShutdown` return, those still waiting for `control` included |
| `ServerProgress.CallsAreShort` | src/server.cpp:764-969 | in every run, whatever all others do and whatever fails, a client takes at most forty-one steps from its call to its return |
| `ServerImpls.ServerImpl.RequestStop` | src/server.cpp:312-328 | afterwards nothing runs or starts, and any listener there is has been told to stop |
| `ServerImpls.ServerImpl.BeginShutdown` | src/server.cpp:952-956 | likewise, with the final flag set in the same critical section |
| `ServerImpls.ServerImpl.Call` | src/server.cpp:871-875 | the first request of `stop` and `finishShutdown`, made before `control` is awaited, takes the same hold |
| `ServerImpls.ServerImpl.TestState` | src/server.cpp:766-783 | a call proceeds exactly when the server is stopped and not in its final shutdown, and then finds no request in flight and nothing but an ended network thread to join; success without a launch is reported exactly for a running server |
| `ServerImpls.ServerImpl.AcceptOptions` | src/server.cpp:787-802 | options are accepted exactly when the current executor, if any, retains no more than they allow and retains nothing or has their width; they then bound what every executor retains |
| `ServerImpls.ServerImpl.SetModel` | src/server.cpp:804-822 | past this section there is a model, or the launch is failing |
| `ServerImpls.ServerImpl.DetachExecutor` | src/server.cpp:824-832 | the executor taken out of use is open, and has nothing pending when `start` replaces it |
| `ServerImpls.ServerImpl.CloseExecutor` | src/operation_executor.cpp:124-139 | `shutdown_` is set on an executor with nothing pending that no gate can reach |
| `ServerImpls.ServerImpl.InstallExecutor` | src/server.cpp:833-837 | the new executor is open, empty and of the configured width, and every other executor is drained and joined |
| `ServerImpls.ServerImpl.Prepare` | src/server.cpp:838-847 | the launch is abandoned exactly when a stop or the final shutdown came first; who goes on has a model, an open executor of the configured width and no other network thread |
| `ServerImpls.ServerImpl.ListenerBound` | src/server.cpp:719-725 | a listener that is not to serve has been told so before it is entered |
| `ServerImpls.ServerImpl.StartHandler` | src/server.cpp:705-713 | the server begins to run only with model and executor in place and never in the final shutdown; otherwise the listener has been told to stop |
| `ServerImpls.ServerImpl.NetworkEnds` | src/server.cpp:743-749 | when the listener is withdrawn no handler is left and the server does not run |
| `ServerImpls.ServerImpl.NetworkClosed` | src/server.cpp:750-760 | the server is stopped with no handler, no listener and no watchdog left |
| `ServerImpls.ServerImpl.GraceEnds` | src/server.cpp:329-341 | grace expires only while the network is not done |
| `ServerImpls.ServerImpl.DropModel` | src/server.cpp:971-975 | the model goes when no thread or handler is left and every executor is drained and joined, for good |
| `ServerImpls.ServerImpl.Gate` | src/server.cpp:466-480 | unavailable exactly unless the server runs outside its final shutdown; then exhausted exactly when the current executor is shut down or holds `maxPendingOperations`; otherwise it admits, and a failing push admits nothing |
| `ServerImpls.ServerImpl.NothingIsStranded` | src/operation_executor.cpp:124-139 | whatever methods were called before, in whatever order: an executor that is shut down has settled every invocation it admitted |
| `LockPrograms.ProgramsFollow` | src/server.cpp:764-969 | the locking program of every kind of thread, transcribed from the code, takes locks in one order and awaits only threads below it, holding nothing but `control` |
| `LockOrder.EventKeepsOrdered` | src/server.cpp:764-969 | whatever threads are spawned and however they interleave, what each still has to do keeps that discipline with the locks it then holds, and no lock has two holders |
| `LockOrder.LocksAreOrdered` | src/server.cpp:466-480 | in every run of these programs: a wanted lock is above every lock held, a thread that awaits another holds at most `control` and is above it, and only API clients ever want `control` |
| `LockOrder.NoRunDeadlocks` | src/server.cpp:549-565 | no reachable state has a cycle of waits; chains are of at most nine threads |
| `LockOrder.SomeoneCanStep` | src/server.cpp:874-881 | behind every unfinished thread, in every reachable state, there is an unfinished thread whose next move is enabled, where a join is over only once the joined thread has finished, and so is a wait for what another thread does |
| `LockPoints.AdvanceFollowsProgram` | src/server.cpp:764-969 | every critical section of a client in the step system takes exactly the named locks, and they occur in that order in the rest of its locking program, of which any piece may be left out; fields of the server change only in a section under its mutex |
| `LockPoints.ControlIsHeld` | src/server.cpp:764-969 | in every run of the server each client is where its locking program can take it, and owns `control` exactly when it holds that lock there |
| `TypeGraph.OrderMeansSound` | src/type_protocol.cpp:323-363 | a finishing order that puts every definition after its dependencies proves the graph closed, well-kinded and acyclic |
| `TypeGraph.DefectsAreUnsound` | src/type_protocol.cpp:338-356 | each reported defect really rules out a sound graph |
| `TypeGraph.Search` | src/type_protocol.cpp:329-362 | the explicit-stack search from one name terminates and either reports a real defect or extends the finishing order |
| `TypeGraph.Check` | src/type_protocol.cpp:323-363 | no defect is reported if and only if the graph is closed, well-kinded and acyclic |
| `Utf8.WellFormedStep` | src/codec_context.cpp:254-292 | a text is well formed exactly when its first scalar value and the rest are |
| `Utf8.ReadTails` | src/codec_context.cpp:278-284 | the inner loop accumulates the payload of exactly the announced tail bytes |
| `Utf8.ValidUtf8` | src/codec_context.cpp:254-292 | true if and only if the bytes are a concatenation of encodings of Unicode scalar values (sections 3 and 4 of RFC 3629) |
| `Utf8Table.WellFormedIsSyntax` | src/codec_context.cpp:254-292 | the texts accepted are exactly those of the byte syntax of section 4 of RFC 3629: no overlong form, no surrogate, nothing above 10FFFF |
| `TypeRegistry.ValidateRegistration` | src/type_protocol.cpp:92-175 | accepts exactly registrations with valid names, a well-formed descriptor, and dependencies equal to the types it refers to |
| `TypeRegistry.NameLengths` | src/type_protocol.cpp:32-35 | a name of plain characters is valid exactly with 1 to 1024 of them |
| `TypeRegistry.OneGraphDecides` | src/type_protocol.cpp:310-322 | the graph of the registrations is unique, so checking one decides |
| `TypeRegistry.Registry.RegisteredCodec` | src/type_protocol.cpp:283-297 | a codec is found exactly while the slot still holds the registered protocol |
| `TypeRegistry.Registry.Register` | src/type_protocol.cpp:226-275 | adds exactly a valid protocol for a free slot of an unregistered type before the freeze; every refusal, RTT’s included, leaves the registry as it was |
| `TypeRegistry.Registry.Stage` | src/type_protocol.cpp:308-322 | succeeds exactly when every registered slot is intact, whatever the order of the types |
| `TypeRegistry.Registry.Freeze` | src/type_protocol.cpp:299-370 | the first call yields a catalog if and only if all slots are intact and the graph is sound; later calls repeat the outcome and change nothing |
| `Reflection.MakeProtocol` | src/reflected_codec.cpp:186-274 | a protocol is built exactly when the metadata is complete, every member has a codec and the fingerprint fits its limits, and it tells that metadata (`BuiltTells`) |
| `Reflection.BuiltTells` | src/reflected_codec.cpp:220-262 | the registration names the provider and the type; a sequence has a length, its size, exactly when it cannot be resized; a structure has its members in order; the dependencies are the types of the members, each once |
| `Fingerprints.Fingerprint` | src/type_protocol.cpp:65-90 | the fingerprint of a reflected registration exists exactly when descriptor and identity are valid text of at most 65536 bytes and depth 32 |
| `Fingerprints.ArrayTells` | src/reflected_codec.cpp:235-240 | the descriptor of a sequence has exactly its kind, element type, length or null, and the two members the constructor adds |
| `Fingerprints.ObjectTells` | src/reflected_codec.cpp:241-258 | the descriptor of a structure has its kind and, in order, the name and type of every field |
| `Fingerprints.IdentityIsInjective` | src/type_protocol.cpp:74-85 | different reflected registrations have different identities |
| `Reflection.LongStructureIsRefused` | src/reflected_codec.cpp:186-274 | a structure of 66 members with valid 1000-byte names has complete metadata and ready members, and still no protocol |
| `Reflection.ReflectedValidatesIff` | src/reflected_codec.cpp:206-262 | a reflected registration passes validation exactly when its names do |
| `Reflection.ExtensionIsSound` | src/type_protocol.cpp:323-363 | a new definition over existing names keeps a sound graph sound |
| `Reflection.ReflectionKeepsGraph` | src/reflected_codec.cpp:276-311 | adding a reflected registration keeps the graph of all registrations sound |
| `Reflection.LeastIsUnique` | src/reflected_codec.cpp:276-311 | the least closed set is one, so the pointer order of the pending types cannot matter |
| `Reflection.RecursiveTypesStayOut` | src/reflected_codec.cpp:276-311 | types that contain themselves or each other never get a codec |
| `Reflection.Attempt` | src/reflected_codec.cpp:290-302 | one attempt registers its type exactly when the rule derives it |
| `Reflection.Sweep` | src/reflected_codec.cpp:287-309 | one pass, in any order, adds only derivable types; without progress nothing more is derivable |
| `Reflection.RegisterReflected` | src/reflected_codec.cpp:276-311 | terminates with exactly the least set of types whose members all have codecs and whose fingerprints fit; the diagnostics are exactly the leftovers; a graph fit for freezing stays so |
| `Reflection.BuildCatalog` | src/server.cpp:804-820 | when the explicit registrations alone could be frozen, reflection followed by the freeze succeeds |
| `Discovery.ReachedIsClosure` | src/object_model.cpp:159-186 | the names reached from the references are the least set closed under dependency |
| `Discovery.Types` | src/object_model.cpp:159-186 | terminates despite repeated entries, with exactly the reflexive and transitive closure of the references: the descriptor of a type in the catalog, otherwise the diagnostic recorded for it, otherwise the fixed reason |
| `Discovery.FrozenCatalogIsClosed` | src/type_protocol.cpp:340-346 | a frozen catalog holds everything its types depend on |
| `Discovery.FrozenEnumsAreIntegers` | src/type_protocol.cpp:347-352 | in a frozen catalog the underlying type of every enumeration is there, and an integer |
| `Discovery.OnlyReferencesAreUnsupported` | src/object_model.cpp:176-184 | over a frozen catalog only initial references are ever reported unsupported |
| `Json.FirstAppend` | src/codec_context.cpp:152-203 | the first violation of a sequence of visits is that of its first offending part |
| `Json.AcceptedIff` | src/codec_context.cpp:152-203 | no visit violates anything if and only if all text is valid, all doubles are finite and the nesting fits |
| `Json.FirstIsBlamed` | src/codec_context.cpp:161-192 | the error names something really in the value: text or a key that is not UTF-8, a double that is not finite, a container at the depth limit |
| `OutputCheck.NextChild` | src/codec_context.cpp:176-198 | popping to the next child keeps the stack the chain of ancestors and loses no visit |
| `OutputCheck.ValidateOutput` | src/codec_context.cpp:152-203 | terminates with exactly the error of the first violation in preorder, keys before their values; the stack is the current node’s ancestors throughout |
| `DuplicateKeys.DuplicateHandler.OnKeyPart` | src/codec_context.cpp:117-120 | a key part is appended to the innermost object’s key |
| `DuplicateKeys.DuplicateHandler.OnKey` | src/codec_context.cpp:121-129 | a completed key is a duplicate exactly when the innermost object has it |
| `DuplicateKeys.KeyLeads` | src/codec_context.cpp:117-129 | however a key is cut into parts, one whole key is added |
| `DuplicateKeys.StreamLeads` | src/codec_context.cpp:83-140 | over the stream of any document the frames end as they began and the flag records whether some object repeats a key |
| `DuplicateKeys.Validate` | src/codec_context.cpp:307-319 | for every document and every chunking, a duplicate is reported if and only if some object in the tree has two equal keys |
| `CodecContexts.CodecContext.Enter` | src/codec_context.cpp:220-226 | fails exactly at the depth limit, without entering |
| `CodecContexts.CodecContext.Account` | src/codec_context.cpp:232-238 | fails exactly beyond the budget, without charging |
| `CodecContexts.CodecContext.AccountString` | src/type_protocol.cpp:178-195 | succeeds exactly for valid UTF-8 whose quoted size fits; then charges that size |
| `CodecContexts.NewContext` | src/codec_context.cpp:206-215 | a context exists exactly when every limit is positive |
| `Decimal.CanonicalReads` | include/rtt/http/typed_codec.hpp:31-47 | reading the decimal form gives back the number |
| `Decimal.FromChars` | include/rtt/http/typed_codec.hpp:53-60 | reads exactly complete numerals within the range of the type |
| `Decimal.ReadCanonical` | include/rtt/http/typed_codec.hpp:50-70 | a 64-bit integer string is accepted if and only if it is the canonical decimal form of a number in range |
| `CodecRuns.OpenParts` | include/rtt/http/typed_codec.hpp:225-235 | the charge before the elements; the later size test of vectors is never true |
| `CodecRuns.EncodeItems` | include/rtt/http/typed_codec.hpp:236-247 | the element loop succeeds exactly when every element encodes and the charges and depths fit |
| `CodecRuns.EncodeMembers` | src/reflected_codec.cpp:64-77 | the member loop charges name, colon and comma and stages members in order |
| `CodecRuns.Encode` | src/reflected_codec.cpp:26-82 | succeeds exactly when the value is encodable and fits the remaining depth and bytes; charges exactly its cost; an error names what is really exceeded or flawed; the depth is restored on every path |
| `CodecRuns.DecodeInteger` | include/rtt/http/typed_codec.hpp:48-104 | wide integers are read from canonical strings only, narrow ones from any integral number in range |
| `CodecRuns.CheckShape` | src/reflected_codec.cpp:90-112 | the outer form is right exactly with the right length, or the right members |
| `CodecRuns.Decode` | src/reflected_codec.cpp:83-146 | succeeds exactly when the value is decodable and fits; the result is the one value of the type that the JSON value denotes, and a mismatch is reported only if it denotes none; charges exactly its cost; an error names what is really exceeded or wrong; the depth is restored on every path |
| `Meaning.RangeIsOfBits` | include/rtt/http/typed_codec.hpp:71-97 | the ranges are those of two’s complement and of unsigned integers of so many bits |
| `Meaning.CanonicalWrites` | include/rtt/http/typed_codec.hpp:31-70 | the canonical form of a number is its one decimal numeral: a sign only for negative ones, no leading zero, the most significant digit first |
| `Meaning.LookupIsFirst` | src/reflected_codec.cpp:106-143 | a member is found exactly when one has the name, and it is the first |
| `Meaning.DecodedIsMeant` | include/rtt/http/typed_codec.hpp:48-172 | for every nest of types and every JSON value: it decodes to a value if and only if it denotes that value, by its own relation (numbers by their real value, 64-bit integers by their numeral, the three names, lists item by item, structures by member name) |
| `Meaning.FloatsTakeAnyNumber` | include/rtt/http/typed_codec.hpp:155-171 | every JSON number, of whichever of the three kinds, decodes into a float if and only if it is within plus or minus (2^24 - 1) * 2^104 for 32 bits, and then to exactly its value |
| `Meaning.IntegersTakeIntegralNumbers` | include/rtt/http/typed_codec.hpp:71-101 | every JSON number decodes into a narrow integer if and only if it is integral and in range, and then to exactly its value |
| `CodecLaws.EncodedShape` | src/reflected_codec.cpp:26-79 | the encoded form of a compound value has the outer form and the parts that decoding looks for |
| `CodecLaws.RoundTrip` | src/reflected_codec.cpp:24-146 | for every nest of types, the encoded form decodes to the same value, at no greater charge and the same depth |
| `CodecLaws.EncodeThenDecode` | include/rtt/http/typed_codec.hpp:27-316 | what encodes under some limits decodes, to the same value, under a fresh context with equal limits |
| `CodecLaws.EncodedIsMeant` | include/rtt/http/typed_codec.hpp:30-140 | what is encoded denotes the value it was encoded from; narrow integers and finite floats are written as numbers |
| `CodecLaws.EncodableIffDenoted` | src/reflected_codec.cpp:24-82 | a value is refused for what it is if and only if no JSON value denotes it |
| `CodecLaws.DecodingWeighsValue` | src/reflected_codec.cpp:83-146 | the charge and the depth of decoding depend on the decoded value alone: a byte for each item of a list, each string as it is quoted |
| `Serialization.CostIsTextAndExcess` | src/type_protocol.cpp:178-195 | to the byte: the charge is the length of the compact text plus an excess, which is one comma for each reflected compound that is not empty, four bytes for each control character with a short escape, and one minus the text for each float |
| `Serialization.CostCoversText` | src/type_protocol.cpp:178-195 | hence for float-free types the charge is at least the length of the compact text |
| `Serialization.NonFiniteIsUndercharged` | include/rtt/http/typed_codec.hpp:125-142 | a non-finite float is charged less than its text takes |
| `Serialization.EncodedIsClean` | src/codec_context.cpp:152-203 | encoded values hold only valid UTF-8 and finite doubles |
| `Serialization.EncodedNesting` | include/rtt/http/codec_context.hpp:69-85 | the nesting of the encoded form is the depth the codec entered |
| `Serialization.SerializeJson` | src/codec_context.cpp:344-371 | yields the whole text exactly when the value is clean, shallow enough and within the byte limit; otherwise the first violation, or the document limit |
| `Serialization.EncodeThenSerialize` | src/codec_context.cpp:344-371 | what a float-free codec encodes within some limits, the serializer by itself writes within the same limits; a response adds an envelope, for which see `Responses` |
| `JsonText.CompactReads` | src/codec_context.cpp:344-371 | the text written is a JSON text (sections 3 to 7 of RFC 8259) of the value: its members, items, numerals, names and escapes read back to it |
| `JsonText.OneMeaning` | src/codec_context.cpp:344-371 | a JSON string means one text only |
| `Invocations.DecodeArguments` | src/operation_executor.cpp:29-38 | all arguments share one budget, and each gets a data source of its own |
| `Invocations.BuildSlot` | src/operation_executor.cpp:73-81 | a prototype sent through the codec and back is itself, when both charges fit one budget |
| `Invocations.BindValues` | src/operation_executor.cpp:65-91 | each value is the argument it reports, or a data source nothing else refers to |
| `Invocations.PrepareInvocation` | src/operation_executor.cpp:12-97 | prepared exactly when arguments, RTT (prototypes included) and output slots allow it; arguments are distinct, decoded and bound in order, and outputs are wired to them or kept apart as the operation’s thread requires |
| `Invocations.Call` | src/operation_executor.cpp:190-200 | after a call in place, each reported value is the changed argument of its output, and the first the returned value |
| `Invocations.Collect` | src/operation_executor.cpp:238-252 | a collected call fills each value and leaves the arguments alone |
| `Invocations.Respond` | src/server.cpp:570-590 | the values of a completed operation are encoded under one budget and arranged as result and outputs in order, exactly when all of them fit; an error names what is really exceeded |
| `Responses.Finish` | src/server.cpp:591-599 | a body is answered exactly when its text is valid, its doubles finite, its nesting within `maxJsonDepth` and its length within the limit; the problem reported tells the byte limit from the rest |
| `Responses.AnswerValue` | src/server.cpp:500-508 | a value is answered exactly when it encodes, is nested less deep than `maxJsonDepth`, and its text and ten bytes fit; the text is that of an object whose only member is `value`, which denotes the value; the problem reported blames a limit really exceeded |
| `Responses.AnswerSample` | src/server.cpp:510-523 | likewise the latest sample of a port, with twenty-seven bytes, under `value` beside a true `hasSample` |
| `Responses.AnswerNoSample` | src/server.cpp:510-523 | the absence of a sample is answered, with a false `hasSample` and a null `value`, exactly with one level and thirty-two bytes to spare |
| `Responses.OperationBodyIs` | src/server.cpp:566-590 | the nesting and the length of the body of an operation, measured by its values: a result one level deep, outputs two, and twenty-four bytes |
| `Responses.AnswerOperation` | src/server.cpp:566-599 | a completed operation is answered exactly when all its values encode under one budget and the body they make fits depth and length; the text is that of an object with two members, `result` being what was returned, or null, and `outputs` the list of the outputs in order; the problem reported blames a limit really exceeded |
| `Responses.SpareRoomIsEnough` | src/server.cpp:500-508 | for float-free values it is enough that the charge leaves the bytes of the envelope and the depth one level |
| `Responses.FullDepthIsRefused` | src/server.cpp:500-508 | whatever the limits, some value encodes within them at exactly the permitted depth and is not answered |
| `Responses.FullTextIsRefused` | src/server.cpp:500-508 | whatever the limits, some text encodes within them, filling the permitted bytes, and is not answered |
| `Responses.OneLevelAnswersNoOperation` | src/server.cpp:566-590 | with `maxJsonDepth` one no body of an operation is ever answered; one without values takes two levels and 28 bytes |
| `Responses.FullDepthResultIsRefused` | src/server.cpp:566-590 | whatever the limits, an operation without arguments can return a result that encodes within them and is not answered |
| `Routes.DecodeUndoesEncode` | src/object_model.cpp:84-97 | decoding undoes `encodeSegment` for every string of bytes |
| `Routes.EncodeIsInjective` | src/object_model.cpp:84-97 | different names have different encodings |
| `Routes.EncodeSegment` | src/object_model.cpp:84-97 | the byte loop computes the percent-encoding |
| `Routes.DecodeSegment` | src/object_model.cpp:114-130 | the byte loop accepts exactly well-formed escapes and permitted characters |
| `Routes.NamesUndoPath` | src/object_model.cpp:98-140 | reading a canonical path gives back the names it was made from |
| `Routes.PathIsInjective` | src/object_model.cpp:98-140 | different lists of valid names have different canonical paths |
| `Routes.SamePathIffSameNames` | src/object_model.cpp:98-140 | two accepted targets canonicalise to the same path if and only if their decoded segments are equal |
| `Routes.CanonicalIsFixed` | src/object_model.cpp:98-140 | a canonical path is accepted again, as itself, exactly when it fits the 8192-byte limit |
| `Routes.CanonicalMayOutgrowTarget` | src/object_model.cpp:98-103 | accepted targets whose canonical path exceeds the limit and is refused |
| `Routes.CanonicalRequestPath` | src/object_model.cpp:98-140 | accepts exactly well-formed targets with valid names, and yields the canonical path of the decoded names |
| `RequestGrammar.DecodeSpells` | src/object_model.cpp:25-36 | a segment decodes to a name if and only if it spells it octet by octet, hexadecimal digits in either case |
| `RequestGrammar.EncodeIsNormal` | src/object_model.cpp:84-97 | the encoding of a name is its one spelling that escapes exactly what is not unreserved (section 2.3 of RFC 3986), in upper case |
| `RequestGrammar.SelectedIsRequested` | src/object_model.cpp:98-140 | a target selects by names if and only if it has at most 8192 octets, no fragment, and consists of segments that spell these names, each after a slash, and perhaps a query |
| `RouteMeanings.WalkIsMeant` | src/object_model.cpp:188-449 | below a service, decoded names lead to a resource if and only if they stand for it by the words of the interface: the five categories, `this`, `samples`, `latest` |
| `RouteMeanings.PortRoutes` | src/object_model.cpp:362-433 | with unique names, for every port: below it `samples` means its samples if and only if it is an input, `latest` its latest sample if and only if it is an output that retains one, and no other names mean anything |
| `ServiceChains.ChainPublishable` | src/object_model.cpp:188-195 | services nested one below the other are published from any of them on if and only if they are at most 64 deep |
| `RouteGrowth.SingleBranch` | src/object_model.cpp:226-270 | the one route of a member is all that decoded names lead to below it |
| `RouteGrowth.ChildBranch` | src/object_model.cpp:215-225 | the routes of a child service are all that decoded names lead to below it |
| `RouteGrowth.CategoryDone` | src/object_model.cpp:435-441 | the collection resource completes its category |
| `RouteGrowth.ServiceDone` | src/object_model.cpp:443-449 | the service resource completes the service |
| `Publications.PathIsTakenIff` | src/object_model.cpp:69-75 | a path is taken exactly when its decoded names are |
| `Publications.Publisher.Insert` | src/object_model.cpp:69-75 | refuses exactly names that are already routed |
| `Publications.Publisher.PublishItem` | src/object_model.cpp:226-270 | a member is published exactly when its route and its metadata allow it |
| `Publications.Publisher.PublishPort` | src/object_model.cpp:362-433 | adds exactly the route that decoded names lead to below the port (`RouteMeanings.PortRoutes` says which), if any |
| `Publications.Publisher.DescribeService` | src/object_model.cpp:188-449 | given unique names, succeeds exactly for publishable service trees, never meets a duplicate route, and adds exactly the routes that decoded names lead to |
| `ObjectModels.LinkedServes` | src/object_model.cpp:188-449 | the flat route map answers what walking the services by decoded names answers |
| `ObjectModels.PublishedIsFixed` | src/object_model.cpp:37-47 | every published route is a fixed point of canonicalisation |
| `ObjectModels.Stage` | src/object_model.cpp:451-464 | staging fails only for the reasons listed, never over a duplicate, and what it stages serves its component |
| `ObjectModels.ObjectModel.Commit` | src/object_model.cpp:465-480 | a name stays with the component first published under it |
| `ObjectModels.OneOwner` | src/object_model.cpp:495-502 | at most one publication owns a path |
| `ObjectModels.ObjectModel.Resolve` | src/object_model.cpp:481-503 | whatever order the publications are scanned in, the answer is what the decoded names stand for |
| `ObjectModels.MeaningIsDesignated` | src/object_model.cpp:481-503 | names stand for a resource if and only if they are `api`, `v1`, `components`, and perhaps the name of a component and names that stand for the resource below it |
| `ObjectModels.ObjectModel.Request` | src/server.cpp:401-410 | a target is accepted if and only if it spells names, and is answered with a resource if and only if they designate it: nothing but the decoded names counts |
| `ObjectModels.OwnRouteResolves` | src/object_model.cpp:481-503 | the route of a published member resolves to that member |

## Left out

- CodecRuns.Encode: floating-point rounding is not modelled; finite floats are exact reals, so the narrowing of a double to a 32-bit float and the sign of zero are not captured.
- Meaning.FloatsTakeAnyNumber: the source converts to a double, which rounds integers beyond 2^53 and narrows 32-bit floats; here the value is kept exactly.
- JsonText.CompactReads: the text of a double is a parameter, and white space, which the serializer never writes, is not part of the relation.
- ServerVerdicts.RepliesAreTruthful: wall-clock time is not modelled; that a deadline has passed, a client has gone or the grace period has run out are nondeterministic events.
- LockOrder.NoRunDeadlocks: waits that end by a deadline or by a flag already set (the watchdog's, an idle worker's, a pool thread's) are not waits for a thread here; that flags are set in time is `ServerProgress.AllReturn`.
- LockPrograms.ProgramsFollow: any piece of a program may be left out and any lock of the named class taken, so branches and exceptions are over-approximated; locks inside RTT, Boost and cpp-httplib are not part of the model.
- ServerProgress.AllReturn: says that a continuation exists, in every reachable state, not that every fair scheduler takes one; operations in RTT are taken to return.
- Fingerprints.Fingerprint: the 1 MiB allocation budget of the fingerprint's context is not modelled.
- Reflection.RegisterReflected: RTT is taken not to refuse a free slot during reflection; refusal in general is part of `TypeRegistry.Registry.Register`. Type names are taken to be unique, since the catalog keeps only the first of two.
- TypeRegistry.ValidateRegistration: the descriptor is a datatype of the forms the code distinguishes, not a JSON object; equality of fingerprints is equality of the canonical fields, and only reflected registrations can fail to have one.
- TypeRegistry.Registry.Freeze: the error text that is repeated with a failed outcome is not modelled.
- Publications.Publisher.DescribeService: descriptions, documentation texts, sorting and type tables inside the resources are not modelled; a member that RTT does not hand out complete, or a port that cannot be connected, is one `Unsound` fault. Services live in a fixed graph while they are described.
- ObjectModels.ObjectModel.Commit: the service snapshot of a publication is ghost; the resources keep identities instead of data sources and bindings.
- Invocations.PrepareInvocation: OperationCallerC and SendHandleC are answers of an oracle; what RTT stores on a call is given to `Call` and `Collect`.
- DuplicateKeys.Validate: the grammar and the parser of Boost.JSON are not modelled; a document arrives as the event stream of a tree with arbitrarily cut keys.
- Executor.StepKeepsValid: memory exhaustion is modelled only for the queue push in `admit`; the constructor's failure to start all threads is not.
- ServerImpls.ServerImpl.StartHandler: connections, TLS, SIGPIPE and the listener itself are foreign calls; `listen_after_bind` is taken to return only after the handlers have gone, and after `stop()` is called on it.
- The order of critical sections inside `start`, `run` and `stop` is in the step system of module Server, not in the class of module ServerImpls, since other threads act between them.
- The destructor's second call of `shutdown()` and the program of `publishComponent` are not part of the step system; their locks are in module LockPrograms.
- Validation of options other than `workerThreads` and `maxPendingOperations`, header and media-type parsing, problem bodies and status texts.
- The canonical type table and its registration order, and the budget resource behind `maxAllocationBytes`.
- Responses.Finish: descriptions are any JSON value; status 204 answers, port writing and the status of failed operations are not part of module Responses.
- How a port's last sample is obtained from RTT, and port writing.
- `parseJson` beyond its duplicate-key handler, and recursion in `canonicalJson`.
