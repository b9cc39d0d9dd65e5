/** Value types shared by the connection-pool model. */
module Types {

  /** Java's nullable reference: `None` stands for `null`. */
  datatype Option<T> = None | Some(value: T)

  /** An endpoint address (the framework's URL: host and port). */
  datatype Url = Url(host: string, port: int)

  /** Identity of a client-side channel handler (one per established connection). */
  datatype Handler = Handler(id: nat)

  /** Identity of one lock-and-condition pair created by `addLockToService`. */
  datatype Gate = Gate(id: nat)

  /** A connect task handed to the bootstrap thread pool: connect to `url` for `service`. */
  datatype Task = Task(service: string, url: Url)

  /** `Map.get` on a URL-to-handler map: the handler, or null when the key is absent. */
  function Get(m: map<Url, Handler>, u: Url): (r: Option<Handler>)
    ensures r.Some? <==> u in m
    ensures r.Some? ==> r.value in m.Values
  {
    if u in m then Some(m[u]) else None
  }

  /** `order` lists every key of `m` exactly once: one possible iteration order of a HashMap. */
  predicate IsIterationOrder(order: seq<Url>, m: map<Url, Handler>)
  {
    && |order| == |m|
    && (forall i :: 0 <= i < |order| ==> order[i] in m)
    && (forall i, j :: 0 <= i < j < |order| ==> order[i] != order[j])
  }
}
