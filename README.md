# ConnectManager connection-pool model

This project models the client-side connection pool of the rpcstudy RPC framework: the
`ConnectManager` class, which keeps one map of live channel handlers per service
(`serverClientMap`), a map of demoted ("inactive") handlers (`inactiveClientMap`), a
round-robin counter per service (`pollingMap`), one lock-and-condition entry per service
(`serviceCondition`), an initialisation barrier (`serverInitCountDownLatch`) that holds back
newly discovered endpoints until every initially known endpoint has reported a connection,
and a shutdown flag.

The model is a sequential state machine: each public operation runs to completion on its
own.

- `Registry` states the manager's whole state as a datatype. Each operation is a pure
  transition function on it, and the lemmas relating several operations are stated there.
- `Connect.ConnectManager` is a class with the same fields. Its methods update them in place,
  with the source's loops. The postconditions of `AddConnection`, `ConnectSucceeded`,
  `RemoveUrl`, `AddInactiveUrl`, `AddServerAfter`, `Stop` and `GetConnectionWithPolling`
  equate the new state with the matching `Registry` transition applied to the old state.
  The constructor, `AddServerInit` and the loop helpers (`AddLocks`, `AddLockToService`,
  `CloseAllActive`, `CloseHandlers`, `SignalAll`) state their new state field by field
  instead, because `Registry` has no transition for them.
- `Polling` holds the index arithmetic and the handler walk of `getConnectionWithPolling`.
- `Bootstrap` holds the barrier total and the connect tasks that `addServerInit` derives
  from the registry snapshot.

Nothing is connected, awaited or executed. A submitted connect task is appended to a task
log. A successful connect is the explicit event `ConnectSucceeded`, which calls
`addConnection` and records the task as completed. The executor runs each submission once,
so a task may complete only while it has been submitted more often than it has completed.
A failed connect changes nothing. `close()` adds the handler to a set of
closed handlers, and `signalAll` adds the service name to a multiset of signals. A HashMap's
iteration order is unspecified: the loops over key sets pick the next key with `:|`, and the
walk over a service's handlers takes its iteration order as a parameter.

Null pointer dereferences and the division by zero in the source become preconditions:

- `removeURL` and `addInactiveURL` look up the service's active map without a null check,
  so they require `s in active`.
- `signalAvailableHandler` looks up the lock entry without a check, so `addConnection`
  requires `s in gates`.
- Selection reads the polling counter without a check (ConnectManager.java:157-158), so it
  requires `s in polling`.
- Selection computes `% size`, so it requires a nonempty active map. The wait loop exits
  when `isShutDown || size > 0`. After shutdown with an empty pool, execution therefore
  reaches `% 0`.

Behaviour of the code that the model states and proves:

- The barrier is counted down on every `addConnection` call, not once per distinct URL
  (`BarrierCountsCalls`). One endpoint that registers twice can open discovery while
  another initial endpoint has never connected (`PrematureBarrierRelease`).
- The polling index is never 0. Every position from 1 to size-1 is reached within `size`
  consecutive calls.
- The walk loop never increments `i`. For a nonempty pool it returns the last handler in
  iteration order, whatever the index.
- `addServerAfter` for a service without an active map gives it a new lock entry. It also
  replaces the lock of an initial service that had no URLs (`DiscoveryReplacesGate`). It
  never creates a polling counter (`DiscoveredServiceHasNoCounter`).
- `addInactiveURL` on a URL that is not active stores a null under it. `removeURL` only
  removes non-null inactive entries, so it never removes that null entry
  (`DemoteAbsentThenRemove`). A later demotion of the URL while it is active replaces the
  null with the handler, and `removeURL` then closes and removes it
  (`DemoteWhileActiveReplacesNull`).
- The field comment on `inactiveClientMap` (ConnectManager.java:67-69) says inactive handlers
  are added back to the active handlers once they are active again. `addConnection`
  (112-128) never touches `inactiveClientMap`, so after demote-then-register the URL is in
  both maps (`DemoteThenRegister`).
- `addServerAfter` checks only the active map for the URL (294-298). A discovery event
  repeated before the first connect completes therefore submits a second task
  (`RepeatedDiscoverySubmitsTwice`).

## Model

| member | source | states |
|---|---|---|
| Polling.PollingIndex | src/main/java/com/gdut/rpcstudy/demo/framework/connect/ConnectManager.java:157-161 | the index is at least 1. It is below `size` when size ≥ 2 and is 1 when size is 1. It equals the counter mod size, with position 0 replaced by 1 |
| Polling.EveryNonzeroPositionReached | src/main/java/com/gdut/rpcstudy/demo/framework/connect/ConnectManager.java:157-161 | within any `size` consecutive counter values, every position 1..size-1 is the computed index for some counter |
| Polling.Walk | src/main/java/com/gdut/rpcstudy/demo/framework/connect/ConnectManager.java:162-171 | with index ≥ 1 and a nonempty iteration order the walk yields the value of the last key. With index 0 or no keys it yields null. Any result is a value of the map |
| Bootstrap.TotalUrlsRemove | src/main/java/com/gdut/rpcstudy/demo/framework/connect/ConnectManager.java:257-264 | the URL total is the same whichever service the loop visits first |
| Bootstrap.TasksForCount | src/main/java/com/gdut/rpcstudy/demo/framework/connect/ConnectManager.java:268-277 | one service's submitted tasks contain each of its URLs as often as the list does, and no task of another service |
| Bootstrap.SubmitStep | src/main/java/com/gdut/rpcstudy/demo/framework/connect/ConnectManager.java:266-278 | visiting one more service adds exactly its tasks to the tasks of the services visited so far |
| Registry.AddConnection | src/main/java/com/gdut/rpcstudy/demo/framework/connect/ConnectManager.java:112-128 | url maps to the handler in the service's active map, which is created if absent. Other URLs and other services are unchanged. A positive barrier drops by exactly one and a zero barrier stays zero. The service is signalled once. Nothing else changes, and the gate invariant is preserved |
| Registry.ConnectSucceeded | src/main/java/com/gdut/rpcstudy/demo/framework/connect/ConnectManager.java:336-346 | a submitted task that has not yet run completes once. Apart from the completion record, the new state is exactly `addConnection` of the task's service and url with the new handler. If no task had completed more often than it was submitted, that stays true. The gate invariant is kept |
| Registry.RemoveUrl | src/main/java/com/gdut/rpcstudy/demo/framework/connect/ConnectManager.java:198-213 | the url leaves the active map. Any inactive entry left under it is null. Other URLs and services are unchanged. Exactly the non-null handlers found under the url are closed |
| Registry.AddInactiveUrl | src/main/java/com/gdut/rpcstudy/demo/framework/connect/ConnectManager.java:221-231 | the url leaves the active map and maps in the inactive map (created if absent) to its previous active handler, or to null if it had none. Other entries are unchanged and nothing is closed |
| Registry.AddServerAfter | src/main/java/com/gdut/rpcstudy/demo/framework/connect/ConnectManager.java:287-308 | a positive barrier changes nothing, and an already active url changes nothing. Otherwise exactly one task (service, url) is appended. An unknown service first gets an empty active map and a fresh lock entry. A known service keeps its maps, gates and gate counter. No polling counter is created. Completions stay within submissions |
| Registry.Stop | src/main/java/com/gdut/rpcstudy/demo/framework/connect/ConnectManager.java:354-361 | the flag is set. Every handler of every active map is closed, and nothing else is. Every service with a lock entry is signalled once. No map entry changes |
| Registry.Poll | src/main/java/com/gdut/rpcstudy/demo/framework/connect/ConnectManager.java:157-158 | the service's counter grows by exactly 1 and nothing else changes |
| Registry.HandlersOfAdd | src/main/java/com/gdut/rpcstudy/demo/framework/connect/ConnectManager.java:356-358 | closing one more service's map adds exactly that map's handlers to the closed set |
| Registry.ZerosStep | src/main/java/com/gdut/rpcstudy/demo/framework/connect/ConnectManager.java:266-267 | zeroing one more listed service's counter extends the zeroed part of the counter map by that service |
| Registry.BarrierCountsCalls | src/main/java/com/gdut/rpcstudy/demo/framework/connect/ConnectManager.java:123-125 | n `addConnection` calls lower the barrier by n, down to 0, whatever URLs they carry |
| Registry.PrematureBarrierRelease | src/main/java/com/gdut/rpcstudy/demo/framework/connect/ConnectManager.java:123-125 | with a barrier of 2 for endpoints A and B, registering A twice drains it while B is still absent |
| Registry.RemoveUrlIdempotent | src/main/java/com/gdut/rpcstudy/demo/framework/connect/ConnectManager.java:198-213 | a second `removeURL` of the same url leaves the state unchanged |
| Registry.RegisterThenRemove | src/main/java/com/gdut/rpcstudy/demo/framework/connect/ConnectManager.java:198-203 | after `addConnection` then `removeURL` the url is not active and its handler is closed |
| Registry.DemoteThenRegister | src/main/java/com/gdut/rpcstudy/demo/framework/connect/ConnectManager.java:112-121 | after `addInactiveURL` then `addConnection` the url is active with the new handler and still inactive with the old one. Nothing is closed |
| Registry.DemoteAbsentThenRemove | src/main/java/com/gdut/rpcstudy/demo/framework/connect/ConnectManager.java:205-210 | demoting a url that is not active and then removing it leaves a null inactive entry behind and closes nothing |
| Registry.DemoteWhileActiveReplacesNull | src/main/java/com/gdut/rpcstudy/demo/framework/connect/ConnectManager.java:205-228 | after demote-absent, register and demote again, the inactive entry holds the handler. A following `removeURL` clears the url from both maps and closes the handler |
| Registry.StopTwice | src/main/java/com/gdut/rpcstudy/demo/framework/connect/ConnectManager.java:354-361 | two `stop` calls give the same flag, maps and closed set as one |
| Registry.DiscoveryReplacesGate | src/main/java/com/gdut/rpcstudy/demo/framework/connect/ConnectManager.java:290-293 | a known service with no active map gets a lock entry different from every existing one |
| Registry.DiscoveredServiceHasNoCounter | src/main/java/com/gdut/rpcstudy/demo/framework/connect/ConnectManager.java:290-293 | a service first seen by discovery has an active map but no polling counter |
| Registry.RepeatedDiscoverySubmitsTwice | src/main/java/com/gdut/rpcstudy/demo/framework/connect/ConnectManager.java:294-305 | the same discovery event, repeated before its connect completes, submits two tasks for one url |
| Connect.ConnectManager.constructor | src/main/java/com/gdut/rpcstudy/demo/framework/connect/ConnectManager.java:83-91 | every snapshot service gets a lock entry and a zero counter. The pools are empty. The barrier is the URL total. The tasks are one per listed (service, url), and their number equals the barrier |
| Connect.ConnectManager.AddLocks | src/main/java/com/gdut/rpcstudy/demo/framework/connect/ConnectManager.java:86-89 | every listed service gains a lock entry that is different from every previous gate. Unlisted services keep their gates, the gates stay distinct, and nothing else changes |
| Connect.ConnectManager.AddLockToService | src/main/java/com/gdut/rpcstudy/demo/framework/connect/ConnectManager.java:93-97 | the service's lock entry becomes a new gate and nothing else changes |
| Connect.ConnectManager.SignalAvailableHandler | src/main/java/com/gdut/rpcstudy/demo/framework/connect/ConnectManager.java:239-249 | the service is signalled once and nothing else changes |
| Connect.ConnectManager.AddServerInit | src/main/java/com/gdut/rpcstudy/demo/framework/connect/ConnectManager.java:256-279 | the barrier becomes the URL total, and the listed services' counters become 0. The appended tasks are one per listed (service, url), and their number equals the barrier. Nothing else changes |
| Connect.ConnectManager.CountUrls | src/main/java/com/gdut/rpcstudy/demo/framework/connect/ConnectManager.java:257-264 | the loop's sum equals the total of all URL-list lengths |
| Connect.ConnectManager.ZeroAndSubmit | src/main/java/com/gdut/rpcstudy/demo/framework/connect/ConnectManager.java:266-278 | the counters of all listed services become 0. The queue is extended by tasks holding each (service, url) as often as it is listed, and their number is the URL total |
| Connect.ConnectManager.Submit | src/main/java/com/gdut/rpcstudy/demo/framework/connect/ConnectManager.java:269-277 | one task per url, in list order, is appended |
| Connect.ConnectManager.AddConnection | src/main/java/com/gdut/rpcstudy/demo/framework/connect/ConnectManager.java:112-128 | the new state is `Registry.AddConnection` of the old one, and the gate invariant is kept |
| Connect.ConnectManager.ConnectSucceeded | src/main/java/com/gdut/rpcstudy/demo/framework/connect/ConnectManager.java:336-346 | the new state is `Registry.ConnectSucceeded` of the old one: a pending submission completes and registers its handler as `addConnection` does |
| Connect.ConnectManager.GetConnectionWithPolling | src/main/java/com/gdut/rpcstudy/demo/framework/connect/ConnectManager.java:156-171 | the counter grows by 1 and nothing else changes. The result is the handler of the last key in iteration order, and it is a member of the service's active map |
| Connect.ConnectManager.RemoveUrl | src/main/java/com/gdut/rpcstudy/demo/framework/connect/ConnectManager.java:198-213 | the new state is `Registry.RemoveUrl` of the old one |
| Connect.ConnectManager.AddInactiveUrl | src/main/java/com/gdut/rpcstudy/demo/framework/connect/ConnectManager.java:221-231 | the new state is `Registry.AddInactiveUrl` of the old one |
| Connect.ConnectManager.AddServerAfter | src/main/java/com/gdut/rpcstudy/demo/framework/connect/ConnectManager.java:287-308 | the new state is `Registry.AddServerAfter` of the old one, and the gate invariant is kept |
| Connect.ConnectManager.Stop | src/main/java/com/gdut/rpcstudy/demo/framework/connect/ConnectManager.java:354-361 | the new state is `Registry.Stop` of the old one |
| Connect.ConnectManager.CloseAllActive | src/main/java/com/gdut/rpcstudy/demo/framework/connect/ConnectManager.java:356-358 | every handler of every active map is closed, and nothing else changes |
| Connect.ConnectManager.CloseHandlers | src/main/java/com/gdut/rpcstudy/demo/framework/connect/ConnectManager.java:357 | every handler of one map is closed, and nothing else changes |
| Connect.ConnectManager.SignalAll | src/main/java/com/gdut/rpcstudy/demo/framework/connect/ConnectManager.java:359-361 | every service with a lock entry is signalled once, and nothing else changes |

## Left out

- The wait loop of `getConnectionWithPolling` (ConnectManager.java:144-155) and `waitingForHandler` (181-191) are not modelled. They block on a `ReentrantLock`/`Condition` with a timeout, and a timed-out wait just loops again. The model keeps only the loop's exit condition, as the precondition of selection. The `RuntimeException` on interruption is not modelled either.
- Connecting is not modelled: the Netty bootstrap, the channel pipeline and the event loop of `createClient` (319-334), and `eventLoopGroup.shutdownGracefully()` in `stop` (363). They are network I/O. A successful connect is the `ConnectSucceeded` event.
- The `ThreadPoolExecutor` and `BooterThreadFactory` (75-77, 370-393) are thread plumbing. `submit` appends to the task log. The model does not capture the `RejectedExecutionException` that `submit` throws after `stop` (`clientBooter.shutdown()`, 362) or when the 1024-entry queue is full; the model always enqueues.
- `ZkRegister.getInstance().getAllURL()` and the `Holder` singleton (80-85, 99-102) are not modelled. The registry snapshot is a constructor parameter.
- Concurrency is not modelled. The source uses `ConcurrentHashMap` for the outer maps and plain `HashMap` for each service's maps. Every operation here is atomic, and interleavings, stale reads of `size`, and the read of a map object that another thread is replacing are out of scope.
- Polling.PollingIndex: the counter is an unbounded natural number. Java's `AtomicInteger` wraps after 2^31-1 increments, after which `(count + size) % size` can be negative under Java's truncating `%`, and the walk would then return null.
- Connect.ConnectManager.GetConnectionWithPolling: it requires a nonempty active map and an existing counter instead of modelling the `NullPointerException` and `ArithmeticException` the source throws (157-158). It also requires the iteration order of the map's keys as a parameter.
- Connect.ConnectManager.AddConnection: it requires the service's lock entry. Without one, the source has already updated the maps and the barrier when `signalAvailableHandler` throws (240-241).
- Connect.ConnectManager.RemoveUrl and Connect.ConnectManager.AddInactiveUrl: they require the service's active map instead of modelling the `NullPointerException` at 199 and 224.
- Handlers are identities. `close()` is recorded as membership in the closed set, so closing twice is the same as closing once.
- The lock-and-condition objects are identities (`Gate`). Only their creation, replacement and signalling are recorded.
