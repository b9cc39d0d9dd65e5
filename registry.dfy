/**
 * The connection-pool bookkeeping of `ConnectManager` as a state and its transitions.
 * Each transition is one public operation run to completion without interference.
 */
module Registry {
  import opened Types

  /**
   * The manager's fields: the active map (`serverClientMap`), the inactive map
   * (`inactiveClientMap`), the polling counters (`pollingMap`), the lock entries
   * (`serviceCondition`, each a fresh gate from `nextGate`), the init barrier's count, the
   * shutdown flag, and four logs: submitted connect tasks, closed handlers, the services
   * whose gate was signalled, and the connect tasks whose listener has seen a success.
   */
  datatype State = State(
    active: map<string, map<Url, Handler>>,
    inactive: map<string, map<Url, Option<Handler>>>,
    polling: map<string, nat>,
    gates: map<string, Gate>,
    nextGate: nat,
    latch: nat,
    isShutDown: bool,
    tasks: seq<Task>,
    closed: set<Handler>,
    signals: multiset<string>,
    completed: multiset<Task>)

  /**
   * Every service with an active map has a lock entry, every gate was handed out before
   * `nextGate`, and no two services share a gate.
   */
  ghost predicate Valid(st: State)
  {
    && st.active.Keys <= st.gates.Keys
    && GatesDistinct(st)
  }

  /** No connect task has completed more often than it was submitted. */
  ghost predicate CompletionsSubmitted(st: State)
  {
    st.completed <= multiset(st.tasks)
  }

  /** Every gate was handed out before `nextGate`, and no two services share one. */
  ghost predicate GatesDistinct(st: State)
  {
    && (forall s :: s in st.gates ==> st.gates[s].id < st.nextGate)
    && (forall s, t :: s in st.gates && t in st.gates && s != t ==> st.gates[s] != st.gates[t])
  }

  /** A service's active map, empty when the service has none yet. */
  function ActiveOf(st: State, s: string): map<Url, Handler>
  {
    if s in st.active then st.active[s] else map[]
  }

  /** A service's inactive map, empty when the service has none yet. */
  function InactiveOf(st: State, s: string): map<Url, Option<Handler>>
  {
    if s in st.inactive then st.inactive[s] else map[]
  }

  /** The non-null handlers stored under `url` for `s`, active or inactive. */
  function HandlersAt(st: State, s: string, url: Url): set<Handler>
  {
    (if url in ActiveOf(st, s) then {ActiveOf(st, s)[url]} else {}) +
    (if url in InactiveOf(st, s) && InactiveOf(st, s)[url].Some?
     then {InactiveOf(st, s)[url].value} else {})
  }

  /** Every handler in every service's active map. */
  function AllActiveHandlers(active: map<string, map<Url, Handler>>): set<Handler>
  {
    HandlersOf(active, active.Keys)
  }

  /** The handlers in the active maps of the services in `services`. */
  function HandlersOf(active: map<string, map<Url, Handler>>, services: set<string>): set<Handler>
  {
    set s, u | s in services && s in active && u in active[s] :: active[s][u]
  }

  /** Visiting one more service adds exactly that service's handlers. */
  lemma HandlersOfAdd(active: map<string, map<Url, Handler>>, services: set<string>, s: string)
    requires s in active
    ensures HandlersOf(active, services + {s}) == HandlersOf(active, services) + active[s].Values
  {
    forall x | x in active[s].Values
      ensures x in HandlersOf(active, services + {s})
    {
      var u :| u in active[s] && active[s][u] == x;
    }
  }

  /** Polling counters at 0 for the services in `keys`. */
  function Zeros(keys: set<string>): map<string, nat>
  {
    map k | k in keys :: 0
  }

  /** Zeroing the counter of one more service of `all` extends the zeroed part by it. */
  lemma ZerosStep(polling: map<string, nat>, all: set<string>, pending: set<string>, s: string)
    requires pending <= all && s in pending
    ensures (polling + Zeros(all - pending))[s := 0] == polling + Zeros(all - (pending - {s}))
  {
    assert all - (pending - {s}) == (all - pending) + {s};
  }

  /**
   * `addConnection(s, url, h)`: map `url` to `h` in the service's active map, creating the map
   * if absent; count the barrier down once per call; signal the service's gate.
   */
  function AddConnection(st: State, s: string, url: Url, h: Handler): (r: State)
    requires s in st.gates  // signalAvailableHandler dereferences the lock entry
    ensures s in r.active && url in r.active[s] && r.active[s][url] == h
    ensures r.active[s] - {url} == ActiveOf(st, s) - {url}
    ensures r.active - {s} == st.active - {s}
    ensures st.latch > 0 ==> r.latch == st.latch - 1
    ensures st.latch == 0 ==> r.latch == 0
    ensures r.signals == st.signals + multiset{s}
    ensures r.(active := st.active, latch := st.latch, signals := st.signals) == st
    ensures Valid(st) ==> Valid(r)
  {
    var handlers := ActiveOf(st, s)[url := h];
    st.(active := st.active[s := handlers],
        latch := if st.latch != 0 then st.latch - 1 else st.latch,
        signals := st.signals + multiset{s})
  }

  /**
   * The success branch of a connect task's listener: the executor runs each submitted task
   * once, so a task completes only while it has a submission left; its handler is then
   * registered with `addConnection`.
   */
  function ConnectSucceeded(st: State, task: Task, h: Handler): (r: State)
    requires st.completed[task] < multiset(st.tasks)[task]  // a submission not yet run
    requires task.service in st.gates  // signalAvailableHandler dereferences the lock entry
    ensures r.completed == st.completed + multiset{task}
    ensures r.(completed := st.completed) == AddConnection(st, task.service, task.url, h)
    ensures r.completed[task] <= multiset(r.tasks)[task]
    ensures CompletionsSubmitted(st) ==> CompletionsSubmitted(r)
    ensures Valid(st) ==> Valid(r)
  {
    AddConnection(st, task.service, task.url, h).(completed := st.completed + multiset{task})
  }

  /**
   * `removeURL(url, s)`: close and remove the url's handler from the active map, then close
   * and remove a non-null handler under the url in the inactive map. A null inactive entry
   * is left in place.
   */
  function RemoveUrl(st: State, url: Url, s: string): (r: State)
    requires s in st.active  // serverClientMap.get(serviceName) is dereferenced unchecked
    ensures s in r.active && r.active[s] == st.active[s] - {url}
    ensures r.active - {s} == st.active - {s}
    ensures url in InactiveOf(r, s) ==> InactiveOf(r, s)[url] == None
    ensures InactiveOf(r, s) - {url} == InactiveOf(st, s) - {url}
    ensures r.inactive.Keys == st.inactive.Keys && r.inactive - {s} == st.inactive - {s}
    ensures r.closed == st.closed + HandlersAt(st, s, url)
    ensures r.(active := st.active, inactive := st.inactive, closed := st.closed) == st
    ensures Valid(st) ==> Valid(r)
  {
    var handlers := st.active[s];
    var st1 :=
      if url in handlers
      then st.(active := st.active[s := handlers - {url}], closed := st.closed + {handlers[url]})
      else st;
    if s in st1.inactive && url in st1.inactive[s] && st1.inactive[s][url].Some?
    then st1.(inactive := st1.inactive[s := st1.inactive[s] - {url}],
              closed := st1.closed + {st1.inactive[s][url].value})
    else st1
  }

  /**
   * `addInactiveURL(url, s)`: move the url's entry from the active map to the inactive map
   * (creating it if absent); the moved value is null when the url was not active. Nothing
   * is closed.
   */
  function AddInactiveUrl(st: State, url: Url, s: string): (r: State)
    requires s in st.active  // serverClientMap.get(serviceName) is dereferenced unchecked
    ensures s in r.active && r.active[s] == st.active[s] - {url}
    ensures r.active - {s} == st.active - {s}
    ensures s in r.inactive && url in r.inactive[s]
    ensures r.inactive[s][url] == Get(st.active[s], url)
    ensures r.inactive[s] - {url} == InactiveOf(st, s) - {url}
    ensures r.inactive - {s} == st.inactive - {s}
    ensures r.(active := st.active, inactive := st.inactive) == st
    ensures Valid(st) ==> Valid(r)
  {
    var previous := Get(st.active[s], url);
    var parked := InactiveOf(st, s)[url := previous];
    st.(inactive := st.inactive[s := parked],
        active := st.active[s := st.active[s] - {url}])
  }

  /**
   * `addServerAfter(url, s)`: ignored while the barrier is positive. Otherwise, for a service
   * without an active map, create an empty one and a fresh lock entry (but no polling
   * counter) and submit a connect task; for a known service, submit one unless the url is
   * already active.
   */
  function AddServerAfter(st: State, url: Url, s: string): (r: State)
    ensures st.latch != 0 ==> r == st
    ensures st.latch == 0 && s in st.active && url in st.active[s] ==> r == st
    ensures st.latch == 0 && !(s in st.active && url in st.active[s]) ==>
              r.tasks == st.tasks + [Task(s, url)]
    ensures st.latch == 0 && s !in st.active ==>
              && r.active == st.active[s := map[]]
              && r.gates == st.gates[s := Gate(st.nextGate)]
              && r.nextGate == st.nextGate + 1
    ensures s in st.active ==> r.active == st.active && r.gates == st.gates && r.nextGate == st.nextGate
    ensures r.(active := st.active, gates := st.gates, nextGate := st.nextGate, tasks := st.tasks) == st
    ensures CompletionsSubmitted(st) ==> CompletionsSubmitted(r)
    ensures Valid(st) ==> Valid(r)
  {
    if st.latch != 0 then st
    else if s !in st.active then
      st.(active := st.active[s := map[]],
          gates := st.gates[s := Gate(st.nextGate)],
          nextGate := st.nextGate + 1,
          tasks := st.tasks + [Task(s, url)])
    else if url in st.active[s] then st
    else st.(tasks := st.tasks + [Task(s, url)])
  }

  /**
   * `stop()`: raise the shutdown flag, close every active handler, signal every gate. No
   * entry is removed and inactive handlers stay open.
   */
  function Stop(st: State): (r: State)
    ensures r.isShutDown
    ensures forall s, u :: s in st.active && u in st.active[s] ==> st.active[s][u] in r.closed
    ensures r.closed == st.closed + AllActiveHandlers(st.active)
    ensures forall x :: x in r.closed && x !in st.closed ==> x in AllActiveHandlers(st.active)
    ensures st.closed <= r.closed
    ensures r.signals == st.signals + multiset(st.gates.Keys)
    ensures r.(isShutDown := st.isShutDown, closed := st.closed, signals := st.signals) == st
    ensures Valid(st) ==> Valid(r)
  {
    st.(isShutDown := true,
        closed := st.closed + AllActiveHandlers(st.active),
        signals := st.signals + multiset(st.gates.Keys))
  }

  /** The counter update of `getConnectionWithPolling`: `addAndGet(1)`. */
  function Poll(st: State, s: string): (r: State)
    requires s in st.polling  // pollingMap.get(servicName) is dereferenced unchecked
    ensures s in r.polling && r.polling[s] == st.polling[s] + 1
    ensures r.polling - {s} == st.polling - {s}
    ensures r.(polling := st.polling) == st
  {
    st.(polling := st.polling[s := st.polling[s] + 1])
  }

  /** Connect completions, in order: each is a (service, url, handler) `addConnection` call. */
  function ConnectAll(st: State, events: seq<(string, Url, Handler)>): State
    requires forall i :: 0 <= i < |events| ==> events[i].0 in st.gates
    decreases |events|
  {
    if events == [] then st
    else
      var e := events[0];
      ConnectAll(AddConnection(st, e.0, e.1, e.2), events[1..])
  }

  /**
   * The barrier is drained by calls, not by distinct endpoints: `n` completions lower it by
   * `n` (down to 0), whatever URLs they carry.
   */
  lemma {:induction false} BarrierCountsCalls(st: State, events: seq<(string, Url, Handler)>)
    requires forall i :: 0 <= i < |events| ==> events[i].0 in st.gates
    ensures ConnectAll(st, events).latch == if st.latch >= |events| then st.latch - |events| else 0
    ensures ConnectAll(st, events).gates == st.gates
    decreases |events|
  {
    if events != [] {
      var e := events[0];
      BarrierCountsCalls(AddConnection(st, e.0, e.1, e.2), events[1..]);
    }
  }

  /**
   * With two initial endpoints A and B, one endpoint registered twice drains the barrier
   * while B never connected: discovery is unlocked early.
   */
  lemma PrematureBarrierRelease(st: State, a: Url, b: Url, h1: Handler, h2: Handler)
    requires "Hello" in st.gates && st.latch == 2 && st.active == map[] && a != b
    ensures var r := AddConnection(AddConnection(st, "Hello", a, h1), "Hello", a, h2);
            r.latch == 0 && b !in r.active["Hello"] && r.active["Hello"] == map[a := h2]
  {
  }

  /** A second `removeURL` of the same url changes nothing. */
  lemma RemoveUrlIdempotent(st: State, url: Url, s: string)
    requires s in st.active
    ensures RemoveUrl(RemoveUrl(st, url, s), url, s) == RemoveUrl(st, url, s)
  {
    var r := RemoveUrl(st, url, s);
    assert HandlersAt(r, s, url) == {};
  }

  /** Registering and then removing a url leaves it out of the active map with its handler closed. */
  lemma RegisterThenRemove(st: State, s: string, url: Url, h: Handler)
    requires s in st.gates
    ensures var r := RemoveUrl(AddConnection(st, s, url, h), url, s);
            url !in r.active[s] && h in r.closed &&
            (url in InactiveOf(r, s) ==> InactiveOf(r, s)[url] == None)
  {
    var mid := AddConnection(st, s, url, h);
    assert h in HandlersAt(mid, s, url);
  }

  /**
   * Demoting and then re-registering a url puts it back in the active map but does not take
   * it out of the inactive map: the url then sits in both.
   */
  lemma DemoteThenRegister(st: State, s: string, url: Url, h: Handler)
    requires s in st.active && s in st.gates
    ensures var r := AddConnection(AddInactiveUrl(st, url, s), s, url, h);
            && r.active[s][url] == h
            && url in r.inactive[s]
            && r.inactive[s][url] == Get(st.active[s], url)
            && r.closed == st.closed
  {
  }

  /**
   * Demoting a url that is not active parks a null under it, and `removeURL` never removes
   * that null entry; a later demotion of the url while it is active replaces it
   * (`DemoteWhileActiveReplacesNull`).
   */
  lemma DemoteAbsentThenRemove(st: State, s: string, url: Url)
    requires s in st.active && url !in st.active[s]
    ensures var r := RemoveUrl(AddInactiveUrl(st, url, s), url, s);
            url in r.inactive[s] && r.inactive[s][url] == None && r.closed == st.closed
  {
    var mid := AddInactiveUrl(st, url, s);
    assert HandlersAt(mid, s, url) == {};
  }

  /**
   * The null entry left by demoting an absent url is overwritten when the url is registered
   * and demoted again; `removeURL` then closes that handler and clears the inactive entry.
   */
  lemma DemoteWhileActiveReplacesNull(st: State, s: string, url: Url, h: Handler)
    requires s in st.active && s in st.gates && url !in st.active[s]
    ensures var parked := AddInactiveUrl(AddConnection(AddInactiveUrl(st, url, s), s, url, h), url, s);
            var r := RemoveUrl(parked, url, s);
            && parked.inactive[s][url] == Some(h)
            && url !in InactiveOf(r, s) && url !in r.active[s]
            && h in r.closed
  {
    var absent := AddInactiveUrl(st, url, s);
    var registered := AddConnection(absent, s, url, h);
    var parked := AddInactiveUrl(registered, url, s);
    assert parked.inactive[s][url] == Some(h);
  }

  /** Calling `stop` twice leaves the same flag, maps and closed set as calling it once. */
  lemma StopTwice(st: State)
    ensures Stop(Stop(st)).(signals := st.signals) == Stop(st).(signals := st.signals)
  {
    assert Stop(st).active == st.active;
  }

  /**
   * A service whose lock entry exists but which has no active map yet (an initial service
   * with no URLs) gets a new, different gate from the first discovery after the barrier:
   * threads waiting on the old condition are no longer signalled.
   */
  lemma DiscoveryReplacesGate(st: State, url: Url, s: string)
    requires Valid(st) && st.latch == 0 && s in st.gates && s !in st.active
    ensures var r := AddServerAfter(st, url, s);
            r.gates[s] != st.gates[s] && r.gates[s] !in st.gates.Values
  {
  }

  /**
   * A discovered service gets an active map but no polling counter, so selection on it
   * (which requires a counter) is not possible.
   */
  lemma DiscoveredServiceHasNoCounter(st: State, url: Url, s: string)
    requires st.latch == 0 && s !in st.active && s !in st.polling
    ensures var r := AddServerAfter(st, url, s);
            s in r.active && s !in r.polling
  {
  }

  /**
   * The same discovery event repeated before the first connect completes submits two
   * connect tasks for one url.
   */
  lemma RepeatedDiscoverySubmitsTwice(st: State, url: Url, s: string)
    requires st.latch == 0 && !(s in st.active && url in st.active[s])
    ensures var r := AddServerAfter(AddServerAfter(st, url, s), url, s);
            r.tasks == st.tasks + [Task(s, url), Task(s, url)]
  {
  }
}
