/**
 * The initial snapshot handed to `addServerInit`: the barrier total and the connect tasks
 * it submits, independent of the order in which the snapshot's services are visited.
 */
module Bootstrap {
  import opened Types

  /** Service name to the URLs the registry knows for it. */
  type Snapshot = map<string, seq<Url>>

  ghost function Pick(keys: set<string>): (k: string)
    requires keys != {}
    ensures k in keys
  {
    var k :| k in keys; k
  }

  /** The sum of the URL-list lengths of the services in `keys`. */
  ghost function TotalUrls(snapshot: Snapshot, keys: set<string>): nat
    requires keys <= snapshot.Keys
    decreases keys
  {
    if keys == {} then 0
    else
      var k := Pick(keys);
      |snapshot[k]| + TotalUrls(snapshot, keys - {k})
  }

  /** The tasks submitted for one service, one per listed URL, in list order. */
  function TasksFor(service: string, urls: seq<Url>): seq<Task>
  {
    seq(|urls|, i requires 0 <= i < |urls| => Task(service, urls[i]))
  }

  /** How often `t`'s url is listed under `t`'s service in the snapshot. */
  function Occurrences(snapshot: Snapshot, t: Task): nat
  {
    if t.service in snapshot then multiset(snapshot[t.service])[t.url] else 0
  }

  /** The total does not depend on which service is visited first. */
  lemma {:induction false} TotalUrlsRemove(snapshot: Snapshot, keys: set<string>, k: string)
    requires keys <= snapshot.Keys && k in keys
    ensures TotalUrls(snapshot, keys) == |snapshot[k]| + TotalUrls(snapshot, keys - {k})
    decreases keys
  {
    var p := Pick(keys);
    if p != k {
      TotalUrlsRemove(snapshot, keys - {p}, k);
      assert keys - {p} - {k} == keys - {k} - {p};
      TotalUrlsRemove(snapshot, keys - {k}, p);
    }
  }

  /**
   * One step of a loop that visits the services in any order: adding the tasks of one
   * pending service to the tasks of the visited ones gives every task of the visited ones
   * plus that service, each as often as its url is listed.
   */
  lemma SubmitStep(snapshot: Snapshot, pending: set<string>, s: string, done: multiset<Task>)
    requires pending <= snapshot.Keys && s in pending
    requires forall t :: done[t] == if t.service in pending then 0 else Occurrences(snapshot, t)
    ensures forall t :: (done + multiset(TasksFor(s, snapshot[s])))[t] ==
              if t.service in pending - {s} then 0 else Occurrences(snapshot, t)
  {
    forall t
      ensures (done + multiset(TasksFor(s, snapshot[s])))[t] ==
              if t.service in pending - {s} then 0 else Occurrences(snapshot, t)
    {
      TasksForCount(s, snapshot[s], t);
    }
  }

  /** One service's tasks hold each of its URLs as often as the list does, and nothing else. */
  lemma {:induction false} TasksForCount(service: string, urls: seq<Url>, t: Task)
    ensures multiset(TasksFor(service, urls))[t] ==
              if t.service == service then multiset(urls)[t.url] else 0
    decreases |urls|
  {
    if urls != [] {
      var rest := urls[1..];
      TasksForCount(service, rest, t);
      assert TasksFor(service, urls) == [Task(service, urls[0])] + TasksFor(service, rest);
      assert urls == [urls[0]] + rest;
    }
  }

}
