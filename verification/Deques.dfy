/** An ordered dictionary of first-in first-out queues: the state shared by `RoundRobinScheduler` (one queue
    per client) and `BatchOptimizedScheduler` (one queue per model), and their overflow eviction, which
    looks at the heads of the queues only (scheduler/round_robin.py:38-48, scheduler/batch_optimized.py:42-54). */
module Deques {
  import opened Requests
  import opened OrderedDict

  datatype Queues<!K> = Queues(keys: seq<K>, at: map<K, seq<Request>>)

  ghost predicate WellFormed<K(!new)>(d: Queues<K>) {
    NoDuplicates(d.keys) && forall k :: k in d.keys <==> k in d.at
  }

  ghost function Total<K(!new)>(d: Queues<K>): (total: nat)
    requires WellFormed(d)
  {
    SumOfSizes(d.keys, d.at)
  }

  lemma TotalIsZero<K(!new)>(d: Queues<K>)
    requires WellFormed(d)
    ensures Total(d) == 0 <==> forall k :: k in d.at ==> d.at[k] == []
  {
    SumIsZero(d.keys, d.at);
  }

  // ---------- Adding ----------

  /** `if key not in queues: queues[key] = deque()`. */
  function Enter<K(==)>(d: Queues<K>, key: K): (e: Queues<K>) {
    if key in d.at then d else Queues(d.keys + [key], d.at[key := []])
  }

  function Append<K(==)>(d: Queues<K>, key: K, r: Request): (e: Queues<K>) {
    var e := Enter(d, key);
    e.(at := e.at[key := e.at[key] + [r]])
  }

  lemma EnterKeepsTotal<K(!new)>(d: Queues<K>, key: K)
    requires WellFormed(d)
    ensures WellFormed(Enter(d, key)) && Total(Enter(d, key)) == Total(d)
  {
    if key !in d.at {
      NoDuplicatesAppend(d.keys, key);
      assert (d.keys + [key])[..|d.keys|] == d.keys;
      SumSame(d.keys, d.at, d.at[key := []]);
    }
  }

  lemma AppendAddsOne<K(!new)>(d: Queues<K>, key: K, r: Request)
    requires WellFormed(d)
    ensures WellFormed(Append(d, key, r)) && Total(Append(d, key, r)) == Total(d) + 1
  {
    EnterKeepsTotal(d, key);
    var e := Enter(d, key);
    SumUpdate(e.keys, e.at, key, e.at[key] + [r]);
  }

  // ---------- Eviction ----------

  /** The first key, in dictionary order, whose queue has the oldest head. */
  ghost function OldestHead<K(!new)>(keys: seq<K>, at: map<K, seq<Request>>): (oldest: Option<K>)
    requires forall k :: k in keys ==> k in at
    ensures oldest.Some? ==> oldest.value in keys && at[oldest.value] != []
  {
    if keys == [] then None
    else
      var front, last := keys[..|keys| - 1], keys[|keys| - 1];
      var best := OldestHead(front, at);
      if at[last] != [] && (best.None? || at[last][0].receivedAt < at[best.value][0].receivedAt)
      then Some(last) else best
  }

  /** No queue has an older head than the queue at place `i`, and no earlier queue has a head as old. */
  ghost predicate FirstOldestAt<K(!new)>(keys: seq<K>, at: map<K, seq<Request>>, i: int)
    requires forall k :: k in keys ==> k in at
  {
    && 0 <= i < |keys| && at[keys[i]] != []
    && (forall j :: 0 <= j < |keys| && at[keys[j]] != [] ==> at[keys[i]][0].receivedAt <= at[keys[j]][0].receivedAt)
    && (forall j :: 0 <= j < i && at[keys[j]] != [] ==> at[keys[i]][0].receivedAt < at[keys[j]][0].receivedAt)
  }

  lemma {:induction false} OldestHeadExists<K(!new)>(keys: seq<K>, at: map<K, seq<Request>>)
    requires forall k :: k in keys ==> k in at
    ensures OldestHead(keys, at).None? <==> forall k :: k in keys ==> at[k] == []
  {
    if keys != [] {
      var front := keys[..|keys| - 1];
      assert keys == front + [keys[|keys| - 1]];
      OldestHeadExists(front, at);
    }
  }

  lemma {:induction false} OldestHeadIsFirstOldest<K(!new)>(keys: seq<K>, at: map<K, seq<Request>>)
    requires forall k :: k in keys ==> k in at
    requires OldestHead(keys, at).Some?
    ensures exists i :: FirstOldestAt(keys, at, i) && keys[i] == OldestHead(keys, at).value
  {
    var front, last := keys[..|keys| - 1], keys[|keys| - 1];
    var best, before := OldestHead(keys, at), OldestHead(front, at);
    if before.Some? {
      OldestHeadIsFirstOldest(front, at);
      var i :| FirstOldestAt(front, at, i) && front[i] == before.value;
      assert FirstOldestAt(keys, at, if best == before then i else |front|);
    } else {
      OldestHeadExists(front, at);
      assert forall j :: 0 <= j < |front| ==> front[j] in front;
      assert FirstOldestAt(keys, at, |front|);
    }
  }

  /** The scan of `_drop_oldest`. */
  method FindOldestHead<K(==, !new)>(d: Queues<K>) returns (oldest: Option<K>)
    requires WellFormed(d)
    ensures oldest == OldestHead(d.keys, d.at)
  {
    oldest := None;
    var oldestTime := 0.0;  // read only once `oldest` is set; the source starts from infinity
    for i := 0 to |d.keys|
      invariant oldest == OldestHead(d.keys[..i], d.at)
      invariant oldest.Some? ==> oldestTime == d.at[oldest.value][0].receivedAt
    {
      var q := d.at[d.keys[i]];
      assert d.keys[..i + 1][..i] == d.keys[..i];
      if q != [] && (oldest.None? || q[0].receivedAt < oldestTime) {
        oldestTime := q[0].receivedAt;
        oldest := Some(d.keys[i]);
      }
    }
    assert d.keys[..|d.keys|] == d.keys;
  }

  /** `_drop_oldest`: the oldest head leaves its queue. */
  ghost function DropHead<K(!new)>(d: Queues<K>): (e: Queues<K>)
    requires WellFormed(d)
  {
    var oldest := OldestHead(d.keys, d.at);
    if oldest.None? then d else d.(at := d.at[oldest.value := d.at[oldest.value][1..]])
  }

  lemma DropHeadRemovesOne<K(!new)>(d: Queues<K>)
    requires WellFormed(d)
    ensures WellFormed(DropHead(d)) && (Total(d) > 0 <==> OldestHead(d.keys, d.at).Some?)
    ensures Total(DropHead(d)) == if Total(d) > 0 then Total(d) - 1 else 0
  {
    OldestHeadExists(d.keys, d.at);
    TotalIsZero(d);
    var oldest := OldestHead(d.keys, d.at);
    if oldest.Some? {
      SumUpdate(d.keys, d.at, oldest.value, d.at[oldest.value][1..]);
    }
  }

  // ---------- Filtering ----------

  ghost function KeepOnly<K(!new)>(d: Queues<K>, keep: Request -> bool): (e: Queues<K>) {
    d.(at := map k | k in d.at :: Filter(d.at[k], keep))
  }

  /** The first `n` queues, in dictionary order, have been filtered. */
  ghost predicate FilteredUpTo<K(!new)>(d: Queues<K>, keep: Request -> bool, n: nat, e: Queues<K>)
    requires n <= |d.keys|
  {
    && e.keys == d.keys && e.at.Keys == d.at.Keys
    && forall k :: k in d.at ==> e.at[k] == if k in d.keys[..n] then Filter(d.at[k], keep) else d.at[k]
  }

  lemma FilterStep<K(!new)>(d: Queues<K>, keep: Request -> bool, n: nat, e: Queues<K>)
    requires WellFormed(d) && n < |d.keys| && FilteredUpTo(d, keep, n, e)
    ensures e.at[d.keys[n]] == d.at[d.keys[n]]
    ensures var f := e.(at := e.at[d.keys[n] := Filter(e.at[d.keys[n]], keep)]);
            && WellFormed(e) && WellFormed(f) && FilteredUpTo(d, keep, n + 1, f)
            && Total(e) == Total(f) + |e.at[d.keys[n]]| - |f.at[d.keys[n]]|
  {
    NoDuplicatesAt(d.keys, n);
    var key := d.keys[n];
    SumUpdate(e.keys, e.at, key, Filter(e.at[key], keep));
  }

  lemma FilteredAll<K(!new)>(d: Queues<K>, keep: Request -> bool, e: Queues<K>)
    requires WellFormed(d) && FilteredUpTo(d, keep, |d.keys|, e)
    ensures e == KeepOnly(d, keep)
  {
    assert d.keys[..|d.keys|] == d.keys;
    assert e.at == KeepOnly(d, keep).at;
  }

  /** Filter the queues one after the other, counting what leaves. */
  method FilterQueues<K(==, !new)>(d: Queues<K>, keep: Request -> bool) returns (rest: Queues<K>, removed: nat)
    requires WellFormed(d)
    ensures rest == KeepOnly(d, keep) && WellFormed(rest) && Total(d) == Total(rest) + removed
  {
    rest, removed := d, 0;
    for i := 0 to |d.keys|
      invariant FilteredUpTo(d, keep, i, rest)
      invariant WellFormed(rest) && Total(d) == Total(rest) + removed
    {
      FilterStep(d, keep, i, rest);
      hide FilteredUpTo, WellFormed, SumOfSizes;
      var key := d.keys[i];
      var survivors := Filter(rest.at[key], keep);
      removed := removed + (|rest.at[key]| - |survivors|);
      rest := rest.(at := rest.at[key := survivors]);
    }
    FilteredAll(d, keep, rest);
  }

  // ---------- Arrival order ----------

  ghost predicate InArrivalOrder(q: seq<Request>) {
    forall i, j :: 0 <= i < j < |q| ==> q[i].receivedAt <= q[j].receivedAt
  }

  ghost predicate AllInArrivalOrder<K(!new)>(d: Queues<K>) {
    forall k :: k in d.at ==> InArrivalOrder(d.at[k])
  }

  ghost predicate AllArrivedBy<K(!new)>(d: Queues<K>, t: real) {
    forall k, r :: k in d.at && r in d.at[k] ==> r.receivedAt <= t
  }

  /** While every queue is in arrival order, the scan of the heads finds what a scan of everything
      would find: no queued request is older than the victim. */
  lemma HeadScanFindsOldest<K(!new)>(d: Queues<K>)
    requires WellFormed(d) && AllInArrivalOrder(d)
    ensures var oldest := OldestHead(d.keys, d.at);
            && (oldest.None? <==> forall k :: k in d.at ==> d.at[k] == [])
            && (oldest.Some? ==>
                  forall k, r :: k in d.at && r in d.at[k] ==> d.at[oldest.value][0].receivedAt <= r.receivedAt)
  {
    OldestHeadExists(d.keys, d.at);
    var oldest := OldestHead(d.keys, d.at);
    if oldest.Some? {
      OldestHeadIsFirstOldest(d.keys, d.at);
      forall k, r | k in d.at && r in d.at[k] ensures d.at[oldest.value][0].receivedAt <= r.receivedAt {
        assert InArrivalOrder(d.at[k]);
        assert d.at[k][0].receivedAt <= r.receivedAt;
      }
    }
  }

  lemma AppendKeepsArrivalOrder<K(!new)>(d: Queues<K>, key: K, r: Request)
    requires WellFormed(d) && AllInArrivalOrder(d) && AllArrivedBy(d, r.receivedAt)
    ensures AllInArrivalOrder(Append(d, key, r)) && AllArrivedBy(Append(d, key, r), r.receivedAt)
  {
    var e := Enter(d, key);
    assert forall x :: x in e.at[key] ==> x.receivedAt <= r.receivedAt;
  }

  lemma {:induction false} FilterKeepsArrivalOrder(q: seq<Request>, keep: Request -> bool)
    requires InArrivalOrder(q)
    ensures InArrivalOrder(Filter(q, keep))
  {
    if q != [] {
      FilterKeepsArrivalOrder(q[1..], keep);
      FilterElements(q[1..], keep);
      var rest := Filter(q[1..], keep);
      forall i | 0 <= i < |rest| ensures q[0].receivedAt <= rest[i].receivedAt {
        assert rest[i] in rest;
      }
    }
  }

  /** A queue of which only a part is left, in the same order, is still in arrival order. */
  lemma KeepOnlyKeepsArrivalOrder<K(!new)>(d: Queues<K>, keep: Request -> bool, t: real)
    requires AllInArrivalOrder(d) && AllArrivedBy(d, t)
    ensures AllInArrivalOrder(KeepOnly(d, keep)) && AllArrivedBy(KeepOnly(d, keep), t)
  {
    forall k | k in d.at
      ensures InArrivalOrder(Filter(d.at[k], keep))
      ensures forall r :: r in Filter(d.at[k], keep) ==> r in d.at[k]
    {
      FilterKeepsArrivalOrder(d.at[k], keep);
      FilterElements(d.at[k], keep);
    }
  }
}
