/** The client-side connection manager: the pools and counters it updates in place. */
module Connect {
  import opened Types
  import opened Polling
  import opened Bootstrap
  import Registry

  class ConnectManager {
    /** serverClientMap: service to url to handler. */
    var active: map<string, map<Url, Handler>>
    /** inactiveClientMap: demoted entries; a value may be null. */
    var inactive: map<string, map<Url, Option<Handler>>>
    /** pollingMap: the per-service round-robin counters. */
    var polling: map<string, nat>
    /** serviceCondition: the lock entry of each service. */
    var gates: map<string, Gate>
    /** The identity the next created lock entry receives. */
    var nextGate: nat
    /** The count of serverInitCountDownLatch. */
    var latch: nat
    var isShutDown: bool
    /** Connect tasks submitted to the bootstrap pool, in submission order. */
    var tasks: seq<Task>
    /** Handlers on which `close()` has been called. */
    var closed: set<Handler>
    /** Services whose condition has been signalled, one entry per `signalAll`. */
    var signals: multiset<string>
    var completed: multiset<Task>

    function State(): Registry.State
      reads this
    {
      Registry.State(active, inactive, polling, gates, nextGate, latch, isShutDown,
                     tasks, closed, signals, completed)
    }

    ghost predicate Valid()
      reads this
    {
      Registry.Valid(State())
    }

    /**
     * The private constructor: a lock entry for every service of the registry snapshot,
     * then `addServerInit` on the snapshot.
     */
    constructor (snapshot: Snapshot)
      ensures Valid()
      ensures active == map[] && inactive == map[]
      ensures gates.Keys == snapshot.Keys
      ensures polling == Registry.Zeros(snapshot.Keys)
      ensures latch == TotalUrls(snapshot, snapshot.Keys)
      ensures forall t :: multiset(tasks)[t] == Occurrences(snapshot, t)
      ensures |tasks| == latch
      ensures !isShutDown && closed == {} && signals == multiset{} && completed == multiset{}
    {
      active, inactive, polling, gates := map[], map[], map[], map[];
      nextGate, latch, isShutDown := 0, 0, false;
      tasks, closed, signals, completed := [], {}, multiset{}, multiset{};
      new;
      AddLocks(snapshot.Keys);
      AddServerInit(snapshot);
      assert polling == map[] + Registry.Zeros(snapshot.Keys);
      assert tasks[0..] == tasks;
    }

    /** The constructor's loop: a lock entry for each service, in key-set order. */
    method AddLocks(services: set<string>)
      requires Registry.GatesDistinct(State())
      modifies this
      ensures Registry.GatesDistinct(State())
      ensures gates.Keys == old(gates).Keys + services
      ensures forall s :: s in old(gates) && s !in services ==> gates[s] == old(gates)[s]
      ensures forall s :: s in services ==> gates[s] !in old(gates).Values
      ensures State() == old(State()).(gates := gates, nextGate := nextGate)
    {
      var names := services;
      while names != {}
        invariant names <= services
        invariant gates.Keys == old(gates).Keys + (services - names)
        invariant forall s :: s in old(gates) && s !in services - names ==> gates[s] == old(gates)[s]
        invariant forall s :: s in services - names ==> gates[s].id >= old(nextGate)
        invariant nextGate >= old(nextGate)
        invariant Registry.GatesDistinct(State())
        invariant State() == old(State()).(gates := gates, nextGate := nextGate)
        decreases names
      {
        var s :| s in names;
        ghost var done := services - names;
        ghost var gatesBefore, nextBefore := gates, nextGate;
        AddLockToService(s);
        names := names - {s};
        assert services - names == done + {s};
        assert gates == gatesBefore[s := Gate(nextBefore)];
      }
    }

    /** Give `s` a fresh lock entry, replacing any previous one. */
    method AddLockToService(s: string)
      requires Registry.GatesDistinct(State())
      modifies this
      ensures Registry.GatesDistinct(State())
      ensures gates == old(gates)[s := Gate(old(nextGate))] && nextGate == old(nextGate) + 1
      ensures State().(gates := old(gates), nextGate := old(nextGate)) == old(State())
    {
      gates := gates[s := Gate(nextGate)];
      nextGate := nextGate + 1;
    }

    /** `signalAvailableHandler`: wake every thread waiting for a connection to `s`. */
    method SignalAvailableHandler(s: string)
      requires s in gates  // the lock entry is dereferenced unchecked
      modifies this
      ensures signals == old(signals) + multiset{s}
      ensures State().(signals := old(signals)) == old(State())
    {
      signals := signals + multiset{s};
    }

    /**
     * `addServerInit`: set the barrier to the total number of URLs, zero the counter of
     * every listed service and submit one connect task per listed URL. Services are visited
     * in an unspecified order, as a HashMap's key set is.
     */
    method AddServerInit(snapshot: Snapshot)
      requires Valid()
      modifies this
      ensures Valid()
      ensures latch == TotalUrls(snapshot, snapshot.Keys)
      ensures polling == old(polling) + Registry.Zeros(snapshot.Keys)
      ensures |tasks| >= |old(tasks)| && tasks[..|old(tasks)|] == old(tasks)
      ensures forall t :: multiset(tasks[|old(tasks)|..])[t] == Occurrences(snapshot, t)
      ensures |tasks| - |old(tasks)| == latch
      ensures State() == old(State()).(latch := latch, polling := polling, tasks := tasks)
    {
      var total := CountUrls(snapshot);
      latch := total;
      ghost var submitted;
      polling, tasks, submitted := ZeroAndSubmit(snapshot, polling, tasks);
      assert tasks[|old(tasks)|..] == submitted;
    }

    /**
     * Visit the snapshot's services in key-set order: zero each one's counter and submit one
     * connect task per url.
     */
    static method ZeroAndSubmit(snapshot: Snapshot, counters0: map<string, nat>, queue0: seq<Task>)
      returns (counters: map<string, nat>, queue: seq<Task>, ghost submitted: seq<Task>)
      ensures counters == counters0 + Registry.Zeros(snapshot.Keys)
      ensures queue == queue0 + submitted
      ensures forall t :: multiset(submitted)[t] == Occurrences(snapshot, t)
      ensures |submitted| == TotalUrls(snapshot, snapshot.Keys)
    {
      counters, queue, submitted := counters0, queue0, [];
      var pending := snapshot.Keys;
      assert counters == counters0 + Registry.Zeros(snapshot.Keys - pending);
      while pending != {}
        invariant pending <= snapshot.Keys
        invariant queue == queue0 + submitted
        invariant forall t :: multiset(submitted)[t] == if t.service in pending then 0 else Occurrences(snapshot, t)
        invariant |submitted| + TotalUrls(snapshot, pending) == TotalUrls(snapshot, snapshot.Keys)
        invariant counters == counters0 + Registry.Zeros(snapshot.Keys - pending)
        decreases pending
      {
        var s :| s in pending;
        SubmitStep(snapshot, pending, s, multiset(submitted));
        TotalUrlsRemove(snapshot, pending, s);
        Registry.ZerosStep(counters0, snapshot.Keys, pending, s);
        counters := counters[s := 0];
        var tasksOfS := TasksFor(s, snapshot[s]);
        queue := Submit(queue, s, snapshot[s]);
        assert queue == queue0 + (submitted + tasksOfS);
        submitted := submitted + tasksOfS;
        pending := pending - {s};
      }
      assert snapshot.Keys - pending == snapshot.Keys;
    }

    /** `clientBooter.submit` for each url of one service, in list order. */
    static method Submit(queue0: seq<Task>, service: string, urls: seq<Url>) returns (queue: seq<Task>)
      ensures queue == queue0 + TasksFor(service, urls)
    {
      queue := queue0;
      var i := 0;
      while i < |urls|
        invariant 0 <= i <= |urls|
        invariant queue == queue0 + TasksFor(service, urls[..i])
        decreases |urls| - i
      {
        queue := queue + [Task(service, urls[i])];
        i := i + 1;
      }
      assert urls[..i] == urls;
    }

    /** The loop summing the URL-list lengths of the snapshot, in key-set order. */
    static method CountUrls(snapshot: Snapshot) returns (total: nat)
      ensures total == TotalUrls(snapshot, snapshot.Keys)
    {
      total := 0;
      var pending := snapshot.Keys;
      while pending != {}
        invariant pending <= snapshot.Keys
        invariant total + TotalUrls(snapshot, pending) == TotalUrls(snapshot, snapshot.Keys)
        decreases pending
      {
        var s :| s in pending;
        TotalUrlsRemove(snapshot, pending, s);
        total := total + |snapshot[s]|;
        pending := pending - {s};
      }
    }

    /**
     * `addConnection`: the success path of a connect task. Maps `url` to `handler` for
     * `s`, counts the barrier down if it is positive, and signals the service's gate.
     */
    method AddConnection(s: string, url: Url, handler: Handler)
      requires Valid()
      requires s in gates  // signalAvailableHandler dereferences the lock entry
      modifies this
      ensures Valid()
      ensures State() == Registry.AddConnection(old(State()), s, url, handler)
    {
      ghost var target := Registry.AddConnection(State(), s, url, handler);
      var handlerMap: map<Url, Handler>;
      if s !in active {
        handlerMap := map[];
      } else {
        handlerMap := active[s];
      }
      handlerMap := handlerMap[url := handler];
      active := active[s := handlerMap];
      assert active == target.active;
      if latch != 0 {
        latch := latch - 1;
      }
      assert latch == target.latch;
      SignalAvailableHandler(s);
    }

    /**
     * The listener of a connect task (`createClient`): on success the new channel's handler
     * is registered with `addConnection` and the task is recorded as completed; a failed
     * connect changes nothing and has no method.
     */
    method ConnectSucceeded(task: Task, handler: Handler)
      requires Valid()
      requires completed[task] < multiset(tasks)[task]  // each submission runs once
      requires task.service in gates  // addConnection signals the service's lock entry
      modifies this
      ensures Valid()
      ensures State() == Registry.ConnectSucceeded(old(State()), task, handler)
    {
      AddConnection(task.service, task.url, handler);
      completed := completed + multiset{task};
    }

    /**
     * `getConnectionWithPolling`, from the point where the wait loop has ended with a
     * nonempty pool: advance the counter, compute the polling index, walk the values in
     * iteration order `order`. The walk returns the last value whatever the index.
     */
    method GetConnectionWithPolling(s: string, order: seq<Url>) returns (handler: Handler)
      requires s in active && |active[s]| > 0  // wait-loop exit, and `% size` with size 0 throws
      requires s in polling  // pollingMap.get(servicName) is dereferenced unchecked
      requires IsIterationOrder(order, active[s])
      modifies this
      ensures State() == Registry.Poll(old(State()), s)
      ensures handler == active[s][order[|order| - 1]]
      ensures handler in active[s].Values
    {
      var handlers := active[s];
      var size := |handlers|;
      var count := polling[s] + 1;
      polling := polling[s := count];
      var index := PollingIndex(count, size);
      var found := Walk(handlers, order, index);
      handler := found.value;
    }

    /**
     * `removeURL`: close and drop the url's handler in the active map, then in the inactive
     * map when a non-null handler is stored there.
     */
    method RemoveUrl(url: Url, s: string)
      requires Valid()
      requires s in active  // serverClientMap.get(serviceName) is dereferenced unchecked
      modifies this
      ensures Valid()
      ensures State() == Registry.RemoveUrl(old(State()), url, s)
    {
      ghost var target := Registry.RemoveUrl(State(), url, s);
      var handler := Get(active[s], url);
      if handler.Some? {
        closed := closed + {handler.value};
        active := active[s := active[s] - {url}];
      }
      assert active == target.active;
      if s in inactive {
        var parked := if url in inactive[s] then inactive[s][url] else None;
        if parked.Some? {
          closed := closed + {parked.value};
          inactive := inactive[s := inactive[s] - {url}];
        }
      }
      assert inactive == target.inactive && closed == target.closed;
    }

    /** `addInactiveURL`: move the url's entry (null if absent) to the inactive map. */
    method AddInactiveUrl(url: Url, s: string)
      requires Valid()
      requires s in active  // serverClientMap.get(serviceName) is dereferenced unchecked
      modifies this
      ensures Valid()
      ensures State() == Registry.AddInactiveUrl(old(State()), url, s)
    {
      var handler := Get(active[s], url);
      var parked: map<Url, Option<Handler>>;
      if s !in inactive {
        parked := map[];
      } else {
        parked := inactive[s];
      }
      inactive := inactive[s := parked[url := handler]];
      active := active[s := active[s] - {url}];
    }

    /**
     * `addServerAfter`: honoured only once the barrier is 0; submits a connect task for a
     * url that is not already active, first creating the map and lock of an unknown service.
     */
    method AddServerAfter(url: Url, s: string)
      requires Valid()
      modifies this
      ensures Valid()
      ensures State() == Registry.AddServerAfter(old(State()), url, s)
    {
      ghost var target := Registry.AddServerAfter(State(), url, s);
      if latch == 0 {
        if s !in active {
          active := active[s := map[]];
          AddLockToService(s);
          assert active.Keys <= gates.Keys;
          assert gates == target.gates && nextGate == target.nextGate;
        } else if url in active[s] {
          return;
        }
        tasks := tasks + [Task(s, url)];
        assert active == target.active && tasks == target.tasks;
      }
    }

    /**
     * `stop`: raise the flag, close every handler of every active map, then signal every
     * service's gate. The thread pool and event loop shutdown is not part of this model.
     */
    method Stop()
      requires Valid()
      modifies this
      ensures Valid()
      ensures State() == Registry.Stop(old(State()))
    {
      isShutDown := true;
      CloseAllActive();
      SignalAll();
    }

    /** Close the handlers of every active map; services are visited in an unspecified order. */
    method CloseAllActive()
      modifies this
      ensures closed == old(closed) + Registry.AllActiveHandlers(active)
      ensures State() == old(State()).(closed := closed)
    {
      var services := active.Keys;
      while services != {}
        invariant services <= active.Keys
        invariant closed == old(closed) + Registry.HandlersOf(active, active.Keys - services)
        invariant State() == old(State()).(closed := closed)
        decreases services
      {
        var s :| s in services;
        CloseHandlers(active[s].Values);
        Registry.HandlersOfAdd(active, active.Keys - services, s);
        assert active.Keys - (services - {s}) == (active.Keys - services) + {s};
        services := services - {s};
      }
      assert active.Keys - services == active.Keys;
    }

    /** `values().forEach(e -> e.close())` on one active map. */
    method CloseHandlers(handlers: set<Handler>)
      modifies this
      ensures closed == old(closed) + handlers
      ensures State() == old(State()).(closed := closed)
    {
      var pending := handlers;
      while pending != {}
        invariant pending <= handlers
        invariant closed == old(closed) + (handlers - pending)
        invariant State() == old(State()).(closed := closed)
        decreases pending
      {
        var h :| h in pending;
        closed := closed + {h};
        pending := pending - {h};
      }
    }

    /** Signal every service that has a lock entry, in an unspecified order. */
    method SignalAll()
      modifies this
      ensures signals == old(signals) + multiset(gates.Keys)
      ensures State() == old(State()).(signals := signals)
    {
      var names := gates.Keys;
      while names != {}
        invariant names <= gates.Keys
        invariant signals == old(signals) + multiset(gates.Keys - names)
        invariant State() == old(State()).(signals := signals)
        decreases names
      {
        var s :| s in names;
        assert multiset(gates.Keys - (names - {s})) == multiset(gates.Keys - names) + multiset{s};
        SignalAvailableHandler(s);
        names := names - {s};
      }
      assert gates.Keys - names == gates.Keys;
    }
  }
}
