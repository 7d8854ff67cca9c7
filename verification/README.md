# Verified models of four io components

This project models the stateful core of four components and proves what they promise, for every
input, every run and every interleaving the code allows.

* **The TCP client pool** (`client_tcp`, `client_tcp_map`, `client_tcp_adapter`) hands connection
  objects ("adapters") to sources, from a startup pool, a recycling pool and a primary pool that is
  refilled at each use, and takes them back, stops them or rebuilds them all.
* **The hub** copies a message to all endpoints but the sender and passes it once to its target. Hubs
  can be targets and endpoints of each other, which makes a tree of hubs a flooding protocol.
* **The tank** (`tank_io`) generates requests with wrap-around counters and matches responses to calls.
* **The queue** puts a message on one workflow and its replies on another, with drop handlers.

## How it is built

Each component has a module of functions on immutable values (`AdapterSpec`, `PoolSpec`,
`ClientTcpSpec`, `HubSpec`, `TankSpec`, `CounterSpec`, `QueueSpec`) and a module of classes
(`ClientTcpObjects`, `HubObjects`, `TankObjects`, `CounterObjects`, `QueueObjects`) whose methods
follow the code statement by statement, loops included, on fields that are updated in place. Every
method is proved to change the objects exactly as the function of the same name changes the value.
The results are lemmas about those functions and their runs; through the methods they hold of the objects.

What the environment decides is an argument: which weakly referenced objects are alive (`alive`),
whether a send succeeds (`sent`, `sentAnew`), which ids are handed out (`newId`), in which order tasks
and threads run (the sequences of operations, ticks and events). An adapter is named by its position
in a ledger of all adapters ever created; the ledger also records the configuration each was started
under, how often it was stopped and how often it logged a failure.

| Component | Functions | Objects | Results |
|---|---|---|---|
| pool | `AdapterSpec`, `PoolSpec` | `ClientTcpObjects` | `AdapterTheorems`, `PoolInvariants`, `PoolTheorems`, `PoolChurn`, `PoolRecycling`, `PoolHolders`, `PoolIsolation`, `PoolListening`, `PoolLateAnswers` |
| pool, many threads | `PoolThreads` | | `PoolThreads`, `PoolInterleaving`, `PoolSeats`, `PoolOverlap`, `PoolFatal`, `PoolQuiescence` |
| deferred registration | `ClientTcpSpec` | `ClientTcpObjects` | `ClientTcpTheorems`, `ClientTcpRestarts` |
| hub | `HubSpec`, `HubLifecycle` | `HubObjects` | `HubTree`, `HubTheorems`, `HubLifecycle`, `HubEffects` |
| tank | `TankSpec`, `CounterSpec` | `TankObjects`, `CounterObjects` | `CounterTheorems`, `TankCorrelation`, `TankRaw`, `TankCounters`, `TankSubstitution` |
| queue | `QueueSpec` | `QueueObjects` | `QueueConservation`, `QueueFates`, `QueueOutcomes`, `QueueRefinement` |

`Prelude` and `Divisibility` hold general facts.

## What the proofs found

Where the code does not keep a promise in all cases, there is a lemma with an input that shows it and
a lemma that says exactly when the promise is kept.

* An adapter forgets its source's id but not its source's object when it is released
  (client_tcp_adapter.cpp:174-175). A source that sends before it registers can therefore have its
  data delivered to the previous source's object: exactly when that object is still alive
  (`SendingFirst`, `SendingFirstIsNotIsolated`). Sources that register first are isolated (`Isolation`).
* Without keep_alive, a receiver that answers after its source has left makes the pooled adapter wrap
  a missing handler; the next source that sends without registering inherits this empty handler
  (`LateAnswerIsInherited`). Nothing else can be inherited (`FirstSenderFinds`).
* `reconfigure_and_start` gives every bound id a new client and does not register the id with it
  (client_tcp_map.cpp:25-29), so a registered source hears nothing until it registers again
  (`ReconfigurationSilences`). `HearsItsObjectIff` says exactly when a registered object is heard.
* `upsert_` does not look up again under the write lock (client_tcp_map.cpp:196-198). No adapter is
  ever shared because of it, but each insertion that loses drops one started client without calling
  `stop()` on it (`UnstoppedAreLosses`, `RacingUpsertsDropOne`); without such losses, and only then,
  interleaved calls leave a pool as whole calls do (`InterleavingIsWholeIff`).
* Two overlapping `unreg_io` of one id pool an adapter twice (`OverlappingUnregPoolsTwice`). The
  containers and the account of all clients stay in order at every moment exactly if no erase is
  stale, that is, if at each erase the id is still bound to the adapter that was released
  (`SoundIffNoStaleErase`).
* The fatal "Several sources are unacceptable" branch cannot be taken by complete calls
  (`OneSourcePerAdapter`), nor by interleaved ones as long as no `unreg_io` overlaps another call of
  its id (`NoSeveralSourcesWithoutOverlap`). If it may, the branch can be reached from every pool
  that is not stopped and whose secondary pool may hold a client, and from no other
  (`SeveralSourcesReachableIff`).
* The wait list is not cleared by the start that replays it, and only edited while the client is not
  running. A start after a stop binds what all calls made at such times ended with, whatever was
  called while the client ran (`RestartReplaysIdleCalls`, `RestartRevives`, `RestartIsFaithfulIff`).
* The steps that keep a counter in its range are exactly 0 to the size of the range
  (`StaysInRangeIff`), and nothing overflows inside the range exactly if its size and its beginning
  plus one step fit a `long` (`NoOverflowIff`).
* Switching `enable_vars` on after the first request makes any COUNT variable fatal
  (`VariablesSwitchedOnLate`). A template that gives a counter's start after first mentioning the
  counter lists another value for it the first time (`FirstRequestIff`, `StartGivenLate`).
* A suspended queue whose target is gone dereferences a null pointer, exactly for messages without a
  handler (`CrashesIff`).

## Model

| member | source | states |
|---|---|---|
| AdapterTheorems.SourceIff | package/client/client_tcp/client_tcp_adapter.cpp:147-199 | Over any calls, data and late answers, whoever makes them: an id is the adapter's source iff it took it over, by registering or by a message that found no live holder, and since then neither left nor was replaced; an `unreg_io` of another id does not end it |
| AdapterTheorems.WrapperIsHolder | package/client/client_tcp/client_tcp_adapter.cpp:147-199 | The only handler wrapper an adapter keeps alive is the one that is its holder |
| AdapterTheorems.NoWrapperAfter | package/client/client_tcp/client_tcp_adapter.cpp:157-175 | After a registration, and after its source has left, it keeps none |
| AdapterTheorems.LogsOncePerOutage | package/client/client_tcp/client_tcp_adapter.cpp:201-218 | An error is logged once each time sending begins to fail, late answers included, and the error flag tells whether the last attempt failed |
| PoolInvariants.TakeDetaches | package/client/client_tcp/client_tcp_map.cpp:202-230 | `create_` hands out an adapter that afterwards is in no container; nothing else leaves one, and only a newly opened client may enter one |
| PoolInvariants.UpsertKeeps | package/client/client_tcp/client_tcp_map.cpp:186-200 | `upsert_` binds the id, changes no other binding, and keeps the pool invariant: containers exclusive, contained clients running under the current configuration, all others stopped once, no adapter held by a foreign id |
| PoolInvariants.RegKeeps | package/client/client_tcp/client_tcp_map.cpp:94-101 | `reg_io` keeps the pool invariant, stopped or not |
| PoolInvariants.SendKeeps | package/client/client_tcp/client_tcp_map.cpp:130-138 | `perform_io` keeps the pool invariant, whoever is alive and whatever becomes of the data |
| PoolInvariants.UnbindDetaches | package/client/client_tcp/client_tcp_map.cpp:111 | Erasing a binding takes exactly its adapter out of all containers |
| PoolInvariants.RecycleAttaches | package/client/client_tcp/client_tcp_map.cpp:112-116 | Pooling a released client puts exactly it back and keeps the containers exclusive |
| PoolInvariants.UnregKeeps | package/client/client_tcp/client_tcp_map.cpp:103-123 | `unreg_io` keeps the pool invariant, whether the client is recycled or stopped |
| PoolInvariants.StopEachStopsOnce | package/client/client_tcp/client_tcp_map.cpp:155-158 | Stopping a list without repetition stops its members once and nobody else |
| PoolInvariants.StopAllRetires | package/client/client_tcp/client_tcp_map.cpp:141-160 | `stop_all_clients` stops every contained client exactly once and touches no other |
| PoolInvariants.ReconfigureFills | package/client/client_tcp/client_tcp_map.cpp:25-52 | After `reconfigure_and_start` the containers hold exactly the clients created by it, none of them twice |
| PoolInvariants.ReconfigureKeeps | package/client/client_tcp/client_tcp_map.cpp:11-59 | `reconfigure_and_start` keeps the pool invariant: all old clients are stopped and all new ones started under the new configuration |
| PoolInvariants.ShutdownKeeps | package/client/client_tcp/client_tcp_map.cpp:61-71 | `stop` keeps the pool invariant: nothing is left running and nothing is stopped twice |
| PoolInvariants.ApplyKeeps | package/client/client_tcp/client_tcp_map.cpp:11-138 | Every call, inbound data and every late answer keep the pool invariant |
| PoolInvariants.FirstStart | package/client/client_tcp/client_tcp_map.cpp:31-58 | The pools after the first configuration of a new map |
| PoolTheorems.BeforeFirstStart | package/client/client_tcp/client_tcp_config.hpp:15-24 | A message sent before any configuration opens one client with the built-in options, which is stopped, not recycled, when its id leaves |
| PoolTheorems.NoLeakedClient | package/client/client_tcp/client_tcp_map.cpp:11-71 | In every run each client ever created was started once; it is in exactly one place and under the latest options until it is stopped, and in none after being stopped once |
| PoolTheorems.OneSourcePerAdapter | package/client/client_tcp/client_tcp_adapter.cpp:152-156 | In every run of complete calls the "Several sources are unacceptable" branch was never taken and cannot be taken next, and no pooled adapter has a holder id |
| PoolTheorems.PoolBounds | package/client/client_tcp/client_tcp_map.cpp:25-52 | The exact number of connected clients in every reachable state, and its bound by bound ids, first startup pool, primary and secondary limits |
| PoolTheorems.StartupShrinks | package/client/client_tcp/client_tcp_map.cpp:41-52 | The startup pool never exceeds that of the first configuration and is filled by that one alone |
| PoolTheorems.TakeFollowsSupply | package/client/client_tcp/client_tcp_map.cpp:202-230 | `create_` takes the head of startup, secondary, primary read as one line, and shifts that line by one |
| PoolTheorems.AcquisitionOrder | Readme.md:685-687 | Without releases the n-th acquisition gets the n-th client of that line, whatever the pools hold |
| PoolTheorems.PrimaryRotates | package/client/client_tcp/client_tcp_map.cpp:216-223 | Under any acquisitions, releases and data, whatever the other pools hold, the primary pool keeps its size and is the line of its clients and their replacements moved on by one per client opened |
| PoolTheorems.PrimaryStep | package/client/client_tcp/client_tcp_map.cpp:202-230 | With a primary pool a client is opened exactly by the acquisitions that find the other two pools empty; each hands out the first in line and appends the new one |
| PoolTheorems.WarmUp | package/client/client_tcp/client_tcp_map.cpp:216-223 | Under the same traffic a replacement waits in the primary pool from the primary acquisition that opened it for exactly as many further ones as the pool has clients, and the next but no other hands it out |
| PoolRecycling.StepMovesPools | package/client/client_tcp/client_tcp_map.cpp:94-138 | What one call of a source does to startup and secondary pool: take the first, append the released client, or nothing |
| PoolRecycling.RecycledInOrder | package/client/client_tcp/client_tcp_map.cpp:103-123 | Over traffic of any length the secondary pool is first in, first out: what it held, then the released clients in the order of their release, without as many as were drawn |
| PoolChurn.AcquireStep | package/client/client_tcp/client_tcp_map.cpp:202-230 | An acquisition opens a client that circulates exactly when no client circulates unbound |
| PoolChurn.ReleaseStep | package/client/client_tcp/client_tcp_map.cpp:103-123 | A release into a secondary pool with room stops nothing and loses nothing |
| PoolChurn.BoundedChurn | package/client/client_tcp/client_tcp_map.cpp:103-123 | Over traffic of any length, with a secondary pool as large as the peak: no client is stopped, and the number opened is exactly the peak beyond the startup pool |
| PoolChurn.BoundedChurnAfterStart | Readme.md:685-687 | The same from the first start, with the bound max(0, M - startup_pool) |
| PoolIsolation.RegIsolates | package/client/client_tcp/client_tcp_adapter.cpp:147-165 | Registration makes the registered object the only one the id's adapter delivers to, and disturbs no other id |
| PoolIsolation.SendIsolates | package/client/client_tcp/client_tcp_adapter.cpp:179-199 | Sending by a registered id leaves every adapter with its own source's object or handler |
| PoolIsolation.UnregIsolates | package/client/client_tcp/client_tcp_adapter.cpp:167-176 | Unregistering takes the id's binding away and disturbs no other id |
| PoolIsolation.TouchIsolates | package/client/client_tcp/client_tcp_adapter.cpp:59-86 | Inbound data and late answers disturb nobody's isolation |
| PoolIsolation.ReconfigureIsolates | package/client/client_tcp/client_tcp_map.cpp:25-31 | Rebuilding gives every bound id a client that nobody has used |
| PoolIsolation.Isolation | package/client/client_tcp/client_tcp_adapter.cpp:61-84 | If ids register before they send: in every run exactly the registered ids are bound, and what arrives for an id reaches the live object it registered last, a handler it passed itself, or nobody (which of these, PoolListening.HearsItsObjectIff says) |
| PoolListening.HearsItsObjectIff | package/client/client_tcp/client_tcp_adapter.cpp:59-86 | In every such run a live object hears what arrives for an id iff a call registered it there and since then the id neither registered again nor left, the map was not reconfigured or stopped, and the id sent with a handler only while the object was alive |
| PoolListening.ReconfigurationSilences | package/client/client_tcp/client_tcp_map.cpp:25-29 | After a reconfiguration every bound id is bound and heard by nobody |
| PoolHolders.RegHolders | package/client/client_tcp/client_tcp_map.cpp:94-101 | On a running map `reg_io` changes the holder of that id and of no other |
| PoolHolders.UnregHolders | package/client/client_tcp/client_tcp_map.cpp:103-123 | On a running map `unreg_io` removes that id and no other |
| PoolHolders.SendHolders | package/client/client_tcp/client_tcp_adapter.cpp:179-199 | A message with a handler replaces the holder of its id's adapter iff that holder is gone, and no other |
| PoolHolders.SendOutcome | package/client/client_tcp/client_tcp_adapter.cpp:201-218 | Whether a message could be sent is recorded at its id's adapter and at no other |
| PoolIsolation.SendingFirst | package/client/client_tcp/client_tcp_adapter.cpp:179-199 | A source that sends first is heard by its own handler iff the adapter it is given has no live holder, and by another object iff that object is alive |
| PoolIsolation.SendingFirstIsNotIsolated | package/client/client_tcp/client_tcp_adapter.cpp:174-175 | A concrete run in which a second source's answer goes to the first source's object |
| PoolLateAnswers.ReleasedIsQuiet | package/client/client_tcp/client_tcp_adapter.cpp:167-176 | In a state that runs reach, the adapter an `unreg_io` releases owns no source's handler wrapper |
| PoolLateAnswers.RunCalm | package/client/client_tcp/client_tcp_adapter.cpp:75-81 | In every run, an adapter without a source holds no handler but possibly the empty one of a late answer |
| PoolLateAnswers.FirstSenderFinds | package/client/client_tcp/client_tcp_adapter.cpp:179-199 | What a source that sends first can find on its adapter in any run: nobody, a live object, or the empty handler of a late answer, never another source's handler |
| PoolLateAnswers.LateAnswerIsInherited | package/client/client_tcp/client_tcp_adapter.cpp:75-81 | A concrete run in which a source's data goes to the empty handler instead of its own |
| PoolLateAnswers.KeepAliveLendsNothing | package/client/client_tcp/client_tcp_adapter.cpp:67-82 | If keep_alive is on in every configuration no callback is ever handed out, and a source that sends first inherits at most an object that is alive |
| PoolLateAnswers.AnonymousSender | package/client/client_tcp/client_tcp_adapter.cpp:182-199 | A sender with id 0 always becomes the holder, whoever held the adapter |
| PoolThreads.StepIsSoundIff | package/client/client_tcp/client_tcp_map.cpp:94-138 | Every lock-delimited phase of every thread keeps the containers exclusive and the account of all clients in order, except a stale erase, which always breaks it |
| PoolThreads.OrderlyKeepsPursuit | package/client/client_tcp/client_tcp_map.cpp:103-111 | If no second `unreg_io` of an id starts while one is on its way, an `unreg_io` finds its binding still there when it erases |
| PoolInterleaving.SoundIffNoStaleErase | package/client/client_tcp/client_tcp_map.cpp:103-117 | A schedule keeps exclusivity and account at every moment iff none of its erases is stale |
| PoolInterleaving.OrderlySchedulesAreSound | package/client/client_tcp/client_tcp_map.cpp:103-117 | One `unreg_io` of an id at a time is enough for that |
| PoolInterleaving.ExclusiveUnderInterleaving | package/client/client_tcp/client_tcp_map.cpp:103-123 | For every interleaving without stale erases no adapter is in two places, and every one is contained and running, lost or about to be stopped and running, or stopped once |
| PoolInterleaving.BindingsAreStable | package/client/client_tcp/client_tcp_map.cpp:196-199 | A losing `upsert_` never replaces a binding: only the erase of the `unreg_io` that released its adapter ends it |
| PoolInterleaving.OrphansAreLosses | package/client/client_tcp/client_tcp_map.cpp:186-200 | The number of clients left outside all containers by a lost insertion is the number of lost insertions |
| PoolInterleaving.UnstoppedAreLosses | package/client/client_tcp/client_tcp_map.cpp:186-200 | When all calls have returned, exactly one client per lost insertion is in no container and was never stopped: none iff none lost |
| PoolInterleaving.UndisturbedCall | package/client/client_tcp/client_tcp_map.cpp:94-101 | Lookup, insertion and call of `reg_io` without interference add up to the whole call |
| PoolInterleaving.UndisturbedSend | package/client/client_tcp/client_tcp_map.cpp:130-138 | So do the two lookups, insertion and call of `perform_io` |
| PoolInterleaving.UndisturbedUnreg | package/client/client_tcp/client_tcp_map.cpp:103-123 | The phases of `unreg_io` without interference add up to the whole call |
| PoolInterleaving.OverlappingUnregPoolsTwice | package/client/client_tcp/client_tcp_map.cpp:106-117 | Two overlapping `unreg_io` of one id put its adapter into the secondary pool twice |
| PoolInterleaving.RacingUpsertsDropOne | package/client/client_tcp/client_tcp_map.cpp:186-200 | Two threads that miss the same id leave exactly one client that is in no container and was never stopped |
| PoolSeats.StepKeepsSeatsIff | package/client/client_tcp/client_tcp_adapter.cpp:147-196 | A phase keeps every adapter with one source at most, and untouched by the fatal branch, iff it does not pool an adapter that a call still holds or that still has a source |
| PoolSeats.SeatsIffClean | package/client/client_tcp/client_tcp_map.cpp:103-117 | So does a schedule, at every moment, iff none of its phases does that |
| PoolOverlap.NoSeveralSourcesWithoutOverlap | package/client/client_tcp/client_tcp_adapter.cpp:152-156 | If no `unreg_io` overlaps another call of its id, no interleaving takes the fatal branch, erases a stale binding or pools an adapter in use |
| PoolFatal.SeveralSourcesUnderInterleaving | package/client/client_tcp/client_tcp_adapter.cpp:152-156 | From every valid pool that is not stopped and recycles clients, whatever it holds, there is a schedule with one `unreg_io` per id at a time that takes the fatal branch |
| PoolFatal.SeveralSourcesReachableIff | package/client/client_tcp/client_tcp_adapter.cpp:152-156 | Some schedule takes the fatal branch iff the map is not stopped and its secondary pool may hold a client |
| PoolQuiescence.InterleavingIsWholeIff | package/client/client_tcp/client_tcp_map.cpp:94-138 | After any schedule without stale erases and without pooling adapters in use, once all calls have returned, the invariant of whole calls holds iff no insertion was lost |
| PoolQuiescence.SeparateCallsAreWhole | package/client/client_tcp/client_tcp_map.cpp:94-138 | If no two calls of one id overlap, every interleaving leaves that invariant and drops no client |
| ClientTcpObjects.ClientTcpAdapter.constructor | package/client/client_tcp/client_tcp_adapter.cpp:32-39 | A new adapter has no holder and was neither started nor stopped |
| ClientTcpObjects.ClientTcpAdapter.Start | package/client/client_tcp/client_tcp_adapter.cpp:54-137 | Takes keep_alive and options over and records one start; the holder stays |
| ClientTcpObjects.ClientTcpAdapter.Stop | package/client/client_tcp/client_tcp_adapter.cpp:49-52 | Records one stop and changes nothing else |
| ClientTcpObjects.ClientTcpAdapter.GetHolder | package/client/client_tcp/client_tcp_adapter.cpp:139-143 | Finds an outside object iff alive, and a wrapper iff the adapter still owns it |
| ClientTcpObjects.ClientTcpAdapter.RegIo | package/client/client_tcp/client_tcp_adapter.cpp:147-165 | Replaces the holder, drops the wrapper, takes the fatal branch iff another source holds the adapter, and tells the new holder iff it is alive |
| ClientTcpObjects.ClientTcpAdapter.UnregIo | package/client/client_tcp/client_tcp_adapter.cpp:167-176 | Only for the current source: forgets its id and the wrapper, but not the holder |
| ClientTcpObjects.ClientTcpAdapter.PerformIo | package/client/client_tcp/client_tcp_adapter.cpp:179-219 | Wraps the handler of a sender nobody answers for; the handler gets nullptr iff both attempts to send failed |
| ClientTcpObjects.ClientTcpAdapter.Input | package/client/client_tcp/client_tcp_adapter.cpp:61-84 | Data reaches the live holder, with a callback iff keep_alive is off |
| ClientTcpObjects.ClientTcpMap.Create | package/client/client_tcp/client_tcp_map.cpp:202-230 | The objects change as the verified allocation says, and the client returned is the one it names |
| ClientTcpObjects.ClientTcpMap.Upsert | package/client/client_tcp/client_tcp_map.cpp:186-200 | Finds or binds; only newly created objects join the registry of adapters |
| ClientTcpObjects.ClientTcpMap.Find | package/client/client_tcp/client_tcp_map.cpp:73-77 | Null iff the id is not bound, else its adapter |
| ClientTcpObjects.ClientTcpMap.RegIo | package/client/client_tcp/client_tcp_map.cpp:94-101 | Containers and all adapters end in the state of a whole `reg_io`; nothing happens after `stop` |
| ClientTcpObjects.ClientTcpMap.UnregIo | package/client/client_tcp/client_tcp_map.cpp:103-123 | Containers and all adapters end in the state of a whole `unreg_io`; no object is created |
| ClientTcpObjects.ClientTcpMap.PerformIo | package/client/client_tcp/client_tcp_map.cpp:130-138 | Containers and all adapters end in the state of a whole `perform_io` |
| ClientTcpObjects.ClientTcpMap.StopAllClients | package/client/client_tcp/client_tcp_map.cpp:141-160 | Builds the list of bound, primary, secondary and startup clients and stops each |
| ClientTcpObjects.ClientTcpMap.Stop | package/client/client_tcp/client_tcp_map.cpp:61-71 | All clients stopped, all containers empty, later calls ignored |
| ClientTcpObjects.ClientTcpMap.Fill | package/client/client_tcp/client_tcp_map.cpp:34-39 | A filling loop ends with exactly the configured number of new, distinct, not yet started clients |
| ClientTcpObjects.ClientTcpMap.RebuildClients | package/client/client_tcp/client_tcp_map.cpp:25-29 | Every bound id gets a new client, in the order of the map, and no id is lost |
| ClientTcpObjects.ClientTcpMap.FillStartup | package/client/client_tcp/client_tcp_map.cpp:41-52 | The startup pool is filled the first time and empty afterwards |
| ClientTcpObjects.ClientTcpMap.StartAll | package/client/client_tcp/client_tcp_map.cpp:55-56 | Every client of the list is started once with the new options, and no other |
| ClientTcpObjects.ClientTcpMap.ReconfigureAndStart | package/client/client_tcp/client_tcp_map.cpp:11-59 | Stop, rebuild, fill and start end in the verified reconfiguration |
| ClientTcpObjects.ClientTcp.constructor | package/client/client_tcp/client_tcp.cpp:12-20 | Not started, nothing waiting, a new map |
| ClientTcpObjects.ClientTcp.RegIo | package/client/client_tcp/client_tcp.cpp:47-59 | Waits before the start, reaches the map after it, ignored when suspended |
| ClientTcpObjects.ClientTcp.UnregIo | package/client/client_tcp/client_tcp.cpp:61-73 | Leaves the wait list before the start, the map after it, also when suspended |
| ClientTcpObjects.ClientTcp.PerformIo | package/client/client_tcp/client_tcp.cpp:75-86 | Handed to the map even before the start; refused with nullptr iff suspended and there is a handler |
| ClientTcpObjects.ClientTcp.Stop | package/client/client_tcp/client_tcp.cpp:38-45 | Stops the map and keeps the wait list |
| ClientTcpObjects.ClientTcp.ReplayWaitList | package/client/client_tcp/client_tcp.cpp:113-117 | The loop registers each waiting id with its object, in the order of the list |
| ClientTcpObjects.ClientTcp.ReconfigureAndStart | package/client/client_tcp/client_tcp.cpp:88-118 | Rebuilds the map and replays the list if the client was neither started nor suspended (see StartHolders), and otherwise replays nothing (see ReconfigurationReplaysNothing); the list stays as it is |
| ClientTcpTheorems.ListIsLastWord | package/client/client_tcp/client_tcp.cpp:47-73 | An id waits with an object iff its last call before the start registered it with that object |
| ClientTcpTheorems.StartHolders | package/client/client_tcp/client_tcp.cpp:108-118 | A start binds the waiting ids to the objects they waited with, and leaves ids that were bound already without a holder |
| ClientTcpTheorems.ReconfigurationReplaysNothing | package/client/client_tcp/client_tcp.cpp:108-118 | Reconfiguring a running client keeps exactly its bound ids, none of them with a holder, whatever the wait list says |
| ClientTcpTheorems.StartHandsOutInOrder | package/client/client_tcp/client_tcp.cpp:113-117 | A start gives the waiting ids, in ascending order, the clients of the startup pool, then the primary pool, then new ones, in this order |
| ClientTcpTheorems.DeferredRegistration | package/client/client_tcp/client_tcp.cpp:108-118 | Whatever was called before the first start, the ids and holders afterwards are those of making the same calls to the running client, namely the ids whose last call registered them |
| ClientTcpRestarts.RestartReplaysIdleCalls | package/client/client_tcp/client_tcp.cpp:38-73 | After any mix of calls, messages, starts, reconfigurations and stops, a start after a stop binds exactly what the calls made while the client was not running ended with |
| ClientTcpRestarts.ReconfigurationOnlySilences | package/client/client_tcp/client_tcp.cpp:88-118 | After any life of a running client one more reconfiguration binds the ids that were bound, and nobody hears for any of them |
| ClientTcpRestarts.RestartRevives | package/client/client_tcp/client_tcp.cpp:110-118 | Every id that registered before the start and left while the client ran is bound again by a restart |
| ClientTcpRestarts.RestartIsFaithfulIff | package/client/client_tcp/client_tcp.cpp:38-73 | A restart restores what all calls ended with iff, for every id whose last call was made to the running client, that call repeats what the calls made at other times ended with |
| HubTree.ChildrenApart | package/hub/hub/hub.cpp:75-84 | Two endpoints of one hub have no hub behind them in common |
| HubTree.ExpectedBelow | package/hub/hub/hub.cpp:17-21 | What a child handler passes on reaches everything below the child and nothing else |
| HubTree.ExpectedAbove | package/hub/hub/hub.cpp:86-92 | What goes to a target hub reaches everything of the tree that is not below the sender |
| HubTree.Partition | package/hub/hub/hub.cpp:70-93 | At every hub the promised events split into its own run, its endpoints' and its target's, without overlap |
| HubTheorems.FloodingMeansEveryoneElseOnce | package/hub/hub/hub.cpp:70-93 | The promised events, in words: every active hub of the tree runs, every live client but the sender gets the data, an outer target is reached from the root alone |
| HubTheorems.LinkCutsTheTree | package/hub/hub/hub.cpp:86-92 | What goes up a link and what comes down it reach the two halves of the tree: every event on exactly one side, none on both, so neither direction echoes |
| HubObjects.TargetHandler.PerformIo | package/hub/hub/hub.cpp:17-21 | Passes on under the handler's own id, whatever id came with the message |
| HubObjects.Hub.SendTo | package/hub/hub/hub.cpp:77-83 | One endpoint: the sender gets nothing, a live client one copy, a live handler the whole flood below it |
| HubObjects.Hub.SendAll | package/hub/hub/hub.cpp:75-84 | The loop over the map, in any order: every endpoint's events exactly once |
| HubObjects.Hub.SendUp | package/hub/hub/hub.cpp:86-92 | The target's events exactly once, and none when the message came from the target |
| HubObjects.Hub.PerformIo | package/hub/hub/hub.cpp:70-93 | Terminates, and the events of one message over the whole tree are exactly the promised ones, each once |
| HubObjects.Hub.RegIo | package/hub/hub/hub.cpp:45-52 | An unsuspended hub enters the endpoint under the id, in the place of whoever was there, and changes no other entry; a suspended one changes nothing (see JoinEffect) |
| HubObjects.Hub.Restart | package/hub/hub/hub.cpp:35-43 | A new handler is known to the target under the new id, and the old one has expired wherever it is still registered |
| HubObjects.Hub.UnregIo | package/hub/hub/hub.cpp:54-67 | The id disappears from this hub and from all above it up to a suspended one, and nothing else changes |
| HubLifecycle.RestartKeeps | package/hub/hub/hub.cpp:35-43 | A restart keeps all entries and handlers in order |
| HubLifecycle.JoinKeeps | package/hub/hub/hub.cpp:45-52 | A registration keeps all entries and handlers in order |
| HubLifecycle.LeaveKeeps | package/hub/hub/hub.cpp:54-67 | An `unreg_io` keeps all entries and handlers in order |
| HubLifecycle.OneLiveEndpoint | package/hub/hub/hub.cpp:35-67 | After any mix of calls a restarted hub has exactly one live endpoint in its target's table and none in any other |
| HubLifecycle.RunsAreWired | package/hub/hub/hub.cpp:35-43 | Once every hub with an active target was restarted, the network meets the condition of the flooding result |
| HubLifecycle.LeaveRemovesOnlyTheClient | package/hub/hub/hub.cpp:54-67 | An `unreg_io` of a client, going up the targets, removes that id and no other endpoint |
| HubEffects.ChainIff | package/hub/hub/hub.cpp:54-67 | An `unreg_io` gets exactly as far as unsuspended hubs lead from target to target |
| HubEffects.JoinEffect | package/hub/hub/hub.cpp:45-52 | A client that joins an unsuspended hub is in its table, replacing whoever was there; every other entry, handler and hub is as before, and a suspended hub ignores it |
| HubEffects.LeaveEffect | package/hub/hub/hub.cpp:54-67 | An `unreg_io` removes the id from every hub it reaches, and changes no other entry, handler or hub |
| HubEffects.RestartEffect | package/hub/hub/hub.cpp:35-43 | A restart gives the hub a new handler iff its target is a hub or alive, enters it at an unsuspended target hub, kills the old one, and changes nothing else |
| HubEffects.ListsIffJoined | package/hub/hub/hub.cpp:35-67 | After any mix of calls an unsuspended hub lists a client under an id iff the last join there or `unreg_io` that came by under that id was this client's join |
| HubEffects.JoinedHears | package/hub/hub/hub.cpp:70-93 | After such a mix, once the hubs are restarted, a message reaches a client at an active hub of the tree iff it is alive, the last to have joined there under its id, and not the sender |
| HubEffects.HandlerIffRestarted | package/hub/hub/hub.cpp:35-43 | A hub has the handler of its last effective restart, and none before the first |
| HubLifecycle.UnregUnfolds | package/hub/hub/hub.cpp:60-66 | The effect of an `unreg_io` on the chain of targets is the target's effect followed by the erase here |
| CounterTheorems.NextIsAddition | package/tank/tank/tank_io.hpp:38-45 | `next` is addition modulo the size of the range and stays inside it |
| CounterTheorems.ClosedForm | package/tank/tank/tank_io.hpp:38-45 | n steps give from + (current - from + n * step) mod (to - from) |
| CounterTheorems.ExactPeriod | package/tank/tank/tank_io.hpp:38-45 | Two moments show the same value iff (to - from) / gcd(step, to - from) divides their distance |
| CounterTheorems.VisitedValues | package/tank/tank/tank_io.hpp:38-45 | A value is ever shown iff it is in range and congruent to the start modulo the gcd; with gcd 1, the whole range |
| CounterTheorems.MomentOf | package/tank/tank/tank_io.hpp:38-45 | Such a value is shown within the first to - from steps |
| CounterTheorems.StaysInRangeIff | package/tank/tank/tank_io.hpp:38-45 | A step keeps every value of a range in that range iff it is between 0 and the size of the range |
| CounterTheorems.NoOverflowIff | package/tank/tank/tank_io.hpp:40-43 | For any step, no intermediate of `next` overflows a 64-bit long anywhere in the range iff to - from and from + step fit one |
| CounterTheorems.NeverOverflows | package/tank/tank/tank_io.hpp:40-43 | A counter that stays in a range whose size fits never overflows, along a run of any length |
| CounterObjects.CounterObject.Default | package/tank/tank/tank_io.hpp:34-50 | The default counter runs from 0 to the largest long by 1 |
| CounterObjects.CounterObject.constructor | package/tank/tank/tank_io.hpp:35-36 | The four arguments reach the four fields in this order |
| CounterObjects.CounterObject.Next | package/tank/tank/tank_io.hpp:38-45 | On machine integers: changes `current` as `Next` does and returns it, without overflow under the stated condition |
| TankCorrelation.SameIdIff | package/tank/tank/tank_io.cpp:45-50 | Two calls, counted over all tanks, get the same wrapped id iff their numbers differ by a multiple of 2^32 |
| TankCorrelation.IdsComeBack | package/tank/tank/tank_io.cpp:45-55 | Call n + 2^32 reuses the id of call n |
| TankCorrelation.OverwritesIff | package/tank/tank/tank_io.cpp:45-55 | A call overwrites an entry iff its number is a multiple of 2^32 away from that of an open call |
| TankCorrelation.TimelyIsEnough | package/tank/tank/tank_io.cpp:45-55 | That never happens if each call is matched before all tanks together have issued 2^32 further ones |
| TankCorrelation.TableIsOutstanding | package/tank/tank/tank_io.cpp:147-186 | For every interleaving of calls, responses and ids taken by other tanks in which that does not happen, the table is exactly the issued calls minus the matched ones |
| TankCorrelation.PassesIff | package/tank/tank/tank_io.cpp:147-186 | A response passes iff it is a result with the id of an outstanding call and equals what was expected for it |
| TankCorrelation.AnyOrderPasses | package/tank/tank/tank_io.cpp:147-186 | At any moment of such an interleaving the correct answers to all open calls pass in any order and leave the table empty |
| TankRaw.QueueIsUnmatched | package/tank/tank/tank_io.cpp:57-61 | For every interleaving of raw requests and responses the queue is what the requests expect, in their order, without the first so many that were matched; ids and table are not touched |
| TankRaw.PassesIffInOrder | package/tank/tank/tank_io.cpp:200-214 | The i-th matched response passes iff it is what the i-th request expects; a response without a waiting request passes |
| TankRaw.RawPassesInOrder | package/tank/tank/tank_io.cpp:200-214 | A row of responses passes iff each is what the queue holds in its place, as far as it holds any |
| TankCounters.DeclaresEveryName | package/tank/tank/tank_io.cpp:94-109 | The first request declares a counter, standing at its start, for exactly the COUNT names of the template |
| TankCounters.DeclaredWith | package/tank/tank/tank_io.cpp:94-109 | A name is declared with the options the template gives last for it, missing ones being from 1, to 100, step 1, or, without any options, from 0 to the largest long by 1 |
| TankCounters.FirstPass | package/tank/tank/tank_io.cpp:84-116 | The first request never meets the fatal branch, whatever the template |
| TankCounters.LaterPass | package/tank/tank/tank_io.cpp:84-116 | Later requests leave the counters alone and are fatal iff some COUNT name has none |
| TankCounters.FirstRequestIff | package/tank/tank/tank_io.cpp:84-116 | The list of replacements of the first request has every counter at its start iff no variable gives a counter another start than those before it |
| TankCounters.StartGivenLate | package/tank/tank/tank_io.cpp:94-111 | A template with one counter for which the first request's list has two different values |
| TankCounters.CountersAfter | package/tank/tank/tank_io.cpp:70-82 | After k requests with one template every counter is k - 1 steps from its start |
| TankCounters.Lockstep | package/tank/tank/tank_io.cpp:63-119 | The list of every later request has for each COUNT variable its counter's value after as many steps as requests came before, and none is fatal |
| TankCounters.LockstepValue | package/tank/tank/tank_io.cpp:98-103 | That value in closed form from the options in the template, for a well configured counter, and modulo the largest long for a counter without options |
| TankCounters.VariablesSwitchedOnLate | package/tank/tank/tank_io.cpp:110-125 | If the first request was made without enable_vars, a later one with it is fatal for any COUNT variable |
| TankSubstitution.RequestListsMentioned | package/tank/tank/tank_io.cpp:84-116 | Every request, the first and any later one, lists exactly the variables TANK:ID and TANK:COUNT... of its template in their order, and for each ID the id under which the table holds the result it expects |
| TankSubstitution.WithoutVars | package/tank/tank/tank_io.cpp:63-119 | Without enable_vars nothing is replaced and no counter moves |
| TankObjects.CallIds.Take | package/tank/tank/tank_io.cpp:45-50 | The next id of the counter shared by all tanks, wrapped to an int |
| TankObjects.TankIo.constructor | package/tank/tank/tank_io.cpp:12-28 | Nothing pending, no counters, the first request still to come |
| TankObjects.TankIo.Enqueue | package/tank/tank/tank_io.cpp:39-61 | Either the next id and one table entry, or one more entry behind those of the raw requests before (see TableIsOutstanding, QueueIsUnmatched) |
| TankObjects.TankIo.AdvanceCounters | package/tank/tank/tank_io.cpp:70-81 | The loop over the map of counter objects advances each of them exactly once |
| TankObjects.TankIo.DeclareCounter | package/tank/tank/tank_io.cpp:94-109 | Options always replace the counter by one with these four fields, their absence only fills a gap (see DeclaredWith) |
| TankObjects.TankIo.SubstituteAll | package/tank/tank/tank_io.cpp:84-116 | The loop over the template's variables makes the specified replacements and changes no existing counter object |
| TankObjects.TankIo.MakeRequest | package/tank/tank/tank_io.cpp:37-127 | Table, queue, counters and replacements are those of the specified request |
| TankObjects.TankIo.CheckResponse | package/tank/tank/tank_io.cpp:129-217 | Verdict and new table or queue are the specified ones; everything passes when checking is off |
| QueueObjects.IoQueue.constructor | package/queue/queue/queue.cpp:6-15 | Options as given, nothing pending |
| QueueObjects.IoQueue.PerformIo | package/queue/queue/queue.cpp:34-85 | Refuses, passes through, posts or crashes exactly as specified |
| QueueObjects.IoQueue.MakeHandler | package/queue/queue/queue.cpp:87-112 | Wraps a handler iff there is a reply workflow and a handler |
| QueueObjects.IoQueue.RunForward | package/queue/queue/queue.cpp:53-70 | A posted message is passed on with the right handler, refused with nullptr, or dropped, by what is alive when it runs (see Fates, FiredIff) |
| QueueObjects.IoQueue.Overflow | package/queue/queue/queue.cpp:79-83 | A dropped task refuses its message and disturbs no other |
| QueueObjects.IoQueue.Answer | package/queue/queue/queue.cpp:93-111 | An answer reaches the handler directly, or waits in the reply workflow while the queue lives |
| QueueObjects.IoQueue.BackOverflow | package/queue/queue/queue.cpp:102-105 | A dropped reply still calls its handler, with nullptr |
| QueueObjects.IoQueue.UnregIo | package/queue/queue/queue.cpp:24-31 | With tracking, what is pending for the id will not run; otherwise nothing changes here |
| QueueConservation.StepConserves | package/queue/queue/queue.cpp:34-112 | Every step accepts at most one message and moves the others without losing or copying any |
| QueueConservation.EveryMessageOnce | package/queue/queue/queue.cpp:47-84 | In every run every accepted message is in exactly one place: pending, passed on, refused or dropped |
| QueueConservation.AlwaysBalanced | package/queue/queue/queue.cpp:79-111 | In every run the handler calls made or waiting are those the target asked for plus one per refused message with a handler |
| QueueConservation.HandlerFiresAtMostOnce | package/queue/queue/queue.cpp:79-111 | If the target answers a message at most once, its handler is called at most once, whatever is dropped |
| QueueFates.Fates | package/queue/queue/queue.cpp:34-85 | In every run and both ways: a message was dropped, refused, or passed to the target with this handler iff at some moment its task was run or dropped, or it arrived, in the state that demands it |
| QueueFates.FiredIff | package/queue/queue/queue.cpp:53-111 | A handler was called with this answer, or with nullptr, iff at some moment the reply workflow ran or dropped it, the target gave it while nothing posted it any more, or its message was refused |
| QueueOutcomes.DroppedOnlyIf | package/queue/queue/queue.cpp:53-77 | A message is dropped without a word only if the queue died or, under tracking, its own id was unregistered |
| QueueOutcomes.WithoutTrackingNothingDrops | package/queue/queue/queue.cpp:50-78 | Without tracking, and while the queue lives, none is |
| QueueOutcomes.RefusedHearsNullptr | package/queue/queue/queue.cpp:65-68 | The sender of a refused message hears nullptr exactly once and nothing else ever |
| QueueOutcomes.SilencedIff | package/queue/queue/queue.cpp:24-31 | A pending message will not run iff tracking is on and its own id was unregistered after it had been accepted |
| QueueOutcomes.AcceptedIsPerformed | package/queue/queue/queue.cpp:34-85 | Every message that does not crash the program is accepted |
| QueueOutcomes.CrashedIff | package/queue/queue/queue.cpp:36-45 | A run dereferences the null target iff, while suspended, a message without a handler came when the target was gone |
| QueueOutcomes.HandlersAre | package/queue/queue/queue.cpp:87-112 | The target gets the caller's own handler when there is no reply workflow or the message was passed through, and otherwise one that posts to it |
| QueueOutcomes.WithoutReplyWorkflow | package/queue/queue/queue.cpp:87-91 | Without a reply workflow no reply ever waits |
| QueueConservation.NothingAfterUnreg | Readme.md:323-325 | With tracking, no message accepted for an id before its `unreg_io` reaches the target after it |
| QueueConservation.CrashesIff | package/queue/queue/queue.cpp:36-45 | The null target is dereferenced iff the queue is suspended, the target is gone and there is no handler |
| QueueRefinement.AlwaysInOrder | package/queue/queue/queue.cpp:47-84 | Under every schedule of first-in-first-out workflows without drops, messages and replies stay in order |
| QueueRefinement.QueueRefinesPassThrough | package/queue/queue/queue.cpp:34-112 | The target has seen a prefix of the messages and the handlers a prefix of the replies that passing through gives, and all of them when both workflows are empty |
| QueueRefinement.SuspendedPassesThrough | package/queue/queue/queue.cpp:44-45 | Suspended mode is exactly passing through |

## Left out

* Modules, multitons, configuration classes and their JSON forms, statistics and timers, logging: field lists and metering.
* `broker`, `server_tcp`, `server_udp`, acceptors and connections: dispatch over an unseen regex, and wrappers over an unseen socket library.
* Connecting and sending: the outcome of the two sends in `client_tcp_adapter::perform_io` is an argument; exceptions of `start` and abort_if_error are not modelled, and neither is a fatal log ending the process.
* The end of an adapter's life: when its last owner lets go, its destructor runs (client_tcp_adapter.cpp:41-47). A client dropped without `stop()` is destroyed this way; what becomes of its connection is up to the socket library, which is not part of this model.
* Notifications an adapter sends to its holder when it connects or disconnects (client_tcp_adapter.cpp:88-119); the one made by `reg_io` is modelled as the object that is told.
* A configured `input_handler`, which replaces the adapter's own.
* `client_tcp_map::free` and `get_stat`: no caller pools an adapter this way, and the other only sums up.
* Calls to `client_tcp` before `initialize` or without an address, and filling empty separators for `rn`.
* Weak pointers are ids and "which are alive" is an argument of each call; an adapter's own io id is its position in the ledger.
- PoolInterleaving.ExclusiveUnderInterleaving: interleaves `reg_io`, `perform_io` and `unreg_io` only, and so do all results on threads; `reconfigure_and_start` and `stop` are covered by the results on complete calls.
- ClientTcpRestarts.RestartReplaysIdleCalls: the client is not suspended; the methods of `ClientTcp` cover both cases.
- HubObjects.Hub.PerformIo: the network is acyclic and every hub with an active target has been restarted; on a cycle of targets the code recurses without end. Data is not null, and the table does not change during the broadcast.
- HubObjects.Hub.Restart: the id generator never returns an id that is still in some table.
- HubLifecycle.OneLiveEndpoint: clients do not use the ids of hub handlers, and ids are not 0.
- TankObjects.TankIo.MakeRequest: the text of the template is a list of variables in text order, the JSON-RPC envelope is not built, and counters that would overflow are excluded, which the code leaves undefined.
- TankObjects.TankIo.CheckResponse: one message per buffer and a clean end of parsing; a response is what the parser and its two getters make of it.
* `_call_id` is read again after its increment (tank_io.cpp:50, 55, 90); ids that other threads take between these reads of one request are not modelled, nor a second `configure()`.
* The values of the options are numbers: what `get_opt` makes of a text that is none is not part of this model.
- TankCounters.FirstRequestIff: speaks of the list of replacements handed to `replace_vars`; what that makes of two entries for one name is not part of this model.
- QueueObjects.IoQueue.UnregIo: that a task posted before an `unreg_io` of its id does not run is what the tracking of the framework is taken to do; its code is not part of this model.
- QueueObjects.IoQueue.Overflow: which pending task a full workflow drops is left open, so any may be.
- QueueRefinement.QueueRefinesPassThrough: the workflows are first-in-first-out with one worker and the target answers during the call.
* `queue::reg_io` and the forwarding half of `queue::unreg_io` only hand the call to the target.
* Io ids are unbounded natural numbers.
