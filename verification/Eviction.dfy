/** What the overflow policy `drop_oldest` removes from a heap: the oldest arrival, whose place is
    taken by the last item before the heap order is restored (scheduler/model_deadline.py:94-98,
    scheduler/tiered_deadline.py:90-94). */
module Eviction {
  import opened Requests
  import opened BinaryHeap

  /** `v` arrived no later than any other request of `s`. */
  ghost predicate IsOldest(v: Request, s: set<Request>) {
    v in s && forall r :: r in s ==> v.receivedAt <= r.receivedAt
  }

  /** `min(range(len(heap)), key=...)`: the first index with an oldest arrival. */
  method OldestIndex(heap: seq<Request>) returns (i: nat)
    requires heap != []
    ensures i < |heap|
    ensures forall j :: 0 <= j < |heap| ==> heap[i].receivedAt <= heap[j].receivedAt
    ensures forall j :: 0 <= j < i ==> heap[i].receivedAt < heap[j].receivedAt
  {
    i := 0;
    for n := 1 to |heap|
      invariant 0 <= i < n
      invariant forall j :: 0 <= j < n ==> heap[i].receivedAt <= heap[j].receivedAt
      invariant forall j :: 0 <= j < i ==> heap[i].receivedAt < heap[j].receivedAt
    {
      if heap[n].receivedAt < heap[i].receivedAt {
        i := n;
      }
    }
  }

  /** Overwrite the oldest by the last item, shorten the list, and heapify what is left. Exactly one
      request leaves, the list stays a heap, and the request that leaves is the first oldest one. */
  method EvictOldest(heap: seq<Request>) returns (victim: Request, rest: seq<Request>)
    requires heap != []
    ensures IsHeap(rest)
    ensures multiset(heap) == multiset(rest) + multiset{victim}
    ensures forall r :: r in heap ==> victim.receivedAt <= r.receivedAt
    ensures exists i :: 0 <= i < |heap| && victim == heap[i]
                        && forall j :: 0 <= j < i ==> victim.receivedAt < heap[j].receivedAt
  {
    var i := OldestIndex(heap);
    victim := heap[i];
    var n := |heap| - 1;
    rest := heap[i := heap[n]];
    rest := rest[..n];
    OverwrittenByLast(heap, i);
    if rest != [] {
      rest := Heapify(rest);
    }
  }

  lemma OverwrittenByLast(heap: seq<Request>, i: nat)
    requires i < |heap|
    ensures var n := |heap| - 1;
            multiset(heap) == multiset(heap[i := heap[n]][..n]) + multiset{heap[i]}
  {
    var n := |heap| - 1;
    var g := heap[i := heap[n]];
    assert heap == heap[..n] + [heap[n]] && g == g[..n] + [heap[n]];
  }

  /** Filter a heap and restore its order if anything was removed. */
  method FilterHeap(heap: seq<Request>, keep: Request -> bool) returns (rest: seq<Request>)
    requires IsHeap(heap)
    ensures IsHeap(rest)
    ensures multiset(rest) == multiset(Filter(heap, keep))
  {
    rest := Filter(heap, keep);
    if |rest| < |heap| && rest != [] {
      rest := Heapify(rest);
    } else if |rest| == |heap| {
      FilterAll(heap, keep);
    }
  }

  lemma {:induction false} FilterAll<T(!new)>(q: seq<T>, keep: T -> bool)
    requires |Filter(q, keep)| == |q|
    ensures Filter(q, keep) == q
  {
    if q != [] {
      assert keep(q[0]);
      FilterAll(q[1..], keep);
    }
  }
}
