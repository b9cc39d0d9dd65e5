/** Round-robin selection arithmetic and the handler walk of `getConnectionWithPolling`. */
module Polling {
  import opened Types

  /**
   * The index computed from the counter value returned by `addAndGet(1)` and the size of
   * the service's active map: `(count + size) % size`, with 0 replaced by 1. The counter
   * is unbounded here; for non-negative counters Java's `%` agrees with Dafny's.
   */
  function PollingIndex(count: nat, size: nat): (index: nat)
    requires size >= 1
    ensures index >= 1
    ensures size == 1 ==> index == 1
    ensures size >= 2 ==> index < size
    ensures index == count % size || (count % size == 0 && index == 1)
  {
    ModShift(count, size);
    var i := (count + size) % size;
    if i == 0 then i + 1 else i
  }

  lemma {:induction false} MulAtLeast(a: int, size: int)
    requires a >= 1 && size > 0
    ensures a * size >= size
    decreases a
  {
    if a > 1 {
      MulAtLeast(a - 1, size);
      assert a * size == (a - 1) * size + size;
    }
  }

  /** Division by a positive divisor has a unique remainder. */
  lemma ModUnique(x: int, size: int, q: int, r: int)
    requires size > 0 && 0 <= r < size && x == q * size + r
    ensures x % size == r
  {
    var q', r' := x / size, x % size;
    assert x == q' * size + r';
    assert (q' - q) * size == r - r' by {
      assert (q' - q) * size == q' * size - q * size;
    }
    if q' > q {
      MulAtLeast(q' - q, size);
    } else if q' < q {
      MulAtLeast(q - q', size);
    }
  }

  lemma ModShift(x: nat, size: nat)
    requires size > 0
    ensures (x + size) % size == x % size
  {
    assert x == (x / size) * size + x % size;
    ModUnique(x + size, size, x / size + 1, x % size);
  }

  lemma ModAfterMultiple(q: nat, size: nat, j: nat)
    requires j < size
    ensures (q * size + j) % size == j
  {
    ModUnique(q * size + j, size, q, j);
  }

  /**
   * Among any `size` consecutive counter values, every position 1 .. size-1 is the computed
   * index at least once; position 0 never is (PollingIndex's own ensures).
   */
  lemma EveryNonzeroPositionReached(count: nat, size: nat, j: nat) returns (k: nat)
    requires size >= 2 && 1 <= j < size
    ensures count <= k < count + size
    ensures PollingIndex(k, size) == j
  {
    var q, r := count / size, count % size;
    var base := q * size;
    assert count == base + r;
    if j >= r {
      k := base + j;
      ModAfterMultiple(q, size, j);
    } else {
      assert (q + 1) * size == base + size;
      k := base + size + j;
      ModAfterMultiple(q + 1, size, j);
    }
    assert k % size == j;
  }

  /**
   * The walk over the active map's values in iteration order `order`. The loop guard is
   * `hasNext() && i < index`, but `i` is never incremented, so for `index >= 1` the walk runs
   * to the end and yields the last value; for `index == 0` it yields null.
   */
  method Walk(m: map<Url, Handler>, order: seq<Url>, index: nat) returns (h: Option<Handler>)
    requires forall k :: 0 <= k < |order| ==> order[k] in m
    ensures index >= 1 && |order| > 0 ==> h == Some(m[order[|order| - 1]])
    ensures index == 0 || |order| == 0 ==> h == None
    ensures h.Some? ==> h.value in m.Values
  {
    h := None;
    var i := 0;
    var next := 0;
    while next < |order| && i < index
      invariant 0 <= next <= |order|
      invariant i == 0
      invariant next == 0 ==> h == None
      invariant next > 0 ==> h == Some(m[order[next - 1]])
      invariant index == 0 ==> next == 0
      decreases |order| - next
    {
      h := Some(m[order[next]]);
      next := next + 1;
    }
  }
}
