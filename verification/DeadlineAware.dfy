/** `DeadlineAwareScheduler` (scheduler/deadline_aware.py): one heap for everything. */
module DeadlineAware {
  import opened Requests
  import opened BinaryHeap
  import opened ServiceOrder
  import opened Scoring
  import opened Eviction

  /** How the dataclass compares two requests: the same object, or equal in every compared field.
      `_counter` is declared with `compare=False`; `sameFrames` stands for the comparison of the three
      byte strings. */
  predicate EqualTo(a: Request, b: Request, sameFrames: (Request, Request) -> bool) {
    a.id == b.id || (a.(id := b.id, counter := b.counter) == b && sameFrames(a, b))
  }

  /** `list.remove(x)`: drop the first element equal to `x`. */
  method RemoveEqual(q: seq<Request>, x: Request, sameFrames: (Request, Request) -> bool, ghost at: nat)
    returns (rest: seq<Request>)
    requires at < |q| && q[at] == x
    ensures exists i :: 0 <= i <= at && EqualTo(q[i], x, sameFrames)
                        && (forall j :: 0 <= j < i ==> !EqualTo(q[j], x, sameFrames))
                        && rest == q[..i] + q[i + 1..]
  {
    var i := 0;
    while !EqualTo(q[i], x, sameFrames)
      invariant 0 <= i <= at
      invariant forall j :: 0 <= j < i ==> !EqualTo(q[j], x, sameFrames)
      decreases at - i
    {
      i := i + 1;
    }
    rest := q[..i] + q[i + 1..];
  }

  /** `min` by arrival, `remove`, `heapify`. Removal compares by value, but whatever is in front of the
      first oldest request arrived strictly later, so it is exactly the victim that leaves. The identity
      of the objects in the queue is their `id`. */
  method EvictEqual(heap: seq<Request>, sameFrames: (Request, Request) -> bool)
    returns (victim: Request, rest: seq<Request>)
    requires heap != []
    requires forall i, j :: 0 <= i < j < |heap| ==> heap[i].id != heap[j].id
    ensures IsHeap(rest)
    ensures multiset(heap) == multiset(rest) + multiset{victim}
    ensures exists i :: 0 <= i < |heap| && victim == heap[i]
                        && (forall j :: 0 <= j < i ==> victim.receivedAt < heap[j].receivedAt)
                        && (forall j :: i <= j < |heap| ==> victim.receivedAt <= heap[j].receivedAt)
  {
    var i := OldestIndex(heap);
    victim := heap[i];
    rest := RemoveEqual(heap, victim, sameFrames, i);
    assert forall j :: 0 <= j < i ==> !EqualTo(heap[j], victim, sameFrames);
    assert heap == heap[..i] + [victim] + heap[i + 1..];
    rest := Heapify(rest);
  }

  ghost predicate StoresHeap(queue: seq<Request>, counter: nat, s: set<Request>) {
    && IsHeap(queue) && Represents(queue, s)
    && (forall r :: r in s ==> r.counter < counter)
    && Distinct(s) && UniqueIds(s)
  }

  lemma DifferentIds(queue: seq<Request>, s: set<Request>)
    requires Represents(queue, s) && UniqueIds(s)
    ensures forall i, j :: 0 <= i < j < |queue| ==> queue[i].id != queue[j].id
  {
    RepresentsMembers(queue, s);
    forall i, j | 0 <= i < j < |queue| ensures queue[i].id != queue[j].id {
      assert queue[i] in queue && queue[j] in queue;
      assert queue == queue[..j] + queue[j..];
      assert multiset(queue[..j])[queue[i]] >= 1 && multiset(queue[j..])[queue[j]] >= 1;
      assert multiset(s)[queue[i]] <= 1;
      assert !SameId(queue[i], queue[j]);
    }
  }

  lemma StoresAdded(queue: seq<Request>, s: set<Request>, x: Request, pushed: seq<Request>)
    requires StoresHeap(queue, x.counter, s) && forall r :: r in s ==> r.id != x.id
    requires IsHeap(pushed) && multiset(pushed) == multiset(queue) + multiset{x}
    ensures x !in s && StoresHeap(pushed, x.counter + 1, s + {x})
  {
    AddRepresents(queue, pushed, s, x);
    assert Distinct(s + {x});
    assert UniqueIds(s + {x});
  }

  lemma StoresRemoved(queue: seq<Request>, counter: nat, s: set<Request>, x: Request, rest: seq<Request>)
    requires StoresHeap(queue, counter, s)
    requires IsHeap(rest) && multiset(queue) == multiset(rest) + multiset{x}
    ensures x in s && StoresHeap(rest, counter, s - {x})
  {
    RemoveRepresents(queue, rest, s, x);
  }

  class DeadlineAwareScheduler {
    const weights: Weights
    const maxQueue: nat
    const ttlMs: real
    const dropOldest: bool
    const sameFrames: (Request, Request) -> bool

    var queue: seq<Request>
    var counter: nat

    ghost var contents: set<Request>

    ghost predicate Valid()
      reads this
    {
      maxQueue >= 1 && StoresHeap(queue, counter, contents)
    }

    constructor (weights: Weights, maxQueue: nat, ttlMs: real, dropOldest: bool,
                 sameFrames: (Request, Request) -> bool)
      requires maxQueue >= 1
      ensures Valid() && contents == {} && counter == 0
      ensures this.weights == weights && this.maxQueue == maxQueue
      ensures this.ttlMs == ttlMs && this.dropOldest == dropOldest && this.sameFrames == sameFrames
    {
      this.weights, this.maxQueue, this.ttlMs, this.dropOldest := weights, maxQueue, ttlMs, dropOldest;
      this.sameFrames := sameFrames;
      queue, counter, contents := [], 0, {};
    }

    /** The order in which everything that is queued will be returned. */
    ghost function Served(): (order: seq<Request>)
      reads this
      requires Valid()
    {
      Order(contents)
    }

    lemma LengthIsSize()
      requires Valid()
      ensures |queue| == |contents|
    {
      RepresentsMembers(queue, contents);
    }

    method Submit(request: Request, now: real) returns (result: SubmitResult, ghost evicted: set<Request>)
      requires Valid() && forall r :: r in contents ==> r.id != request.id
      modifies this
      ensures Valid()
      ensures result.QueueFull? <==> !dropOldest && |old(contents)| >= maxQueue
      ensures result.QueueFull? ==>
                result.client == request.client && unchanged(this) && evicted == {}
      ensures result.Queued? ==>
                && result.request == request.(score := Score(weights, request, now), counter := old(counter))
                && contents == old(contents) - evicted + {result.request}
                && result.request !in old(contents)
                && counter == old(counter) + 1
                && Filter(Served(), Except(result.request)) == Filter(old(Served()), NotIn(evicted))
      ensures |old(contents)| < maxQueue ==> evicted == {}
      ensures dropOldest && |old(contents)| >= maxQueue ==>
                exists v :: IsOldest(v, old(contents)) && evicted == {v}
    {
      LengthIsSize();
      FreshAndDistinct();
      evicted := {};
      if |queue| >= maxQueue {
        if dropOldest {
          var victim := DropOldest();
          evicted := {victim};
        } else {
          result := QueueFull(request.client);
          return;
        }
      }
      hide StoresHeap, Score, Distinct;
      var queued := Resubmit(request, now);
      FreshAndDistinct();
      SubmitKeepsOrder(old(contents), evicted, queued);
      result := Queued(queued);
    }

    lemma FreshAndDistinct()
      requires Valid()
      ensures Distinct(contents) && forall r :: r in contents ==> r.counter < counter
    {
    }

    method DropOldest() returns (victim: Request)
      requires Valid() && contents != {}
      modifies this
      ensures Valid() && counter == old(counter)
      ensures IsOldest(victim, old(contents)) && contents == old(contents) - {victim}
      ensures Served() == Filter(old(Served()), Except(victim))
    {
      RepresentsMembers(queue, contents);
      DifferentIds(queue, contents);
      var v, rest := EvictEqual(queue, sameFrames);
      StoresRemoved(queue, counter, contents, v, rest);
      assert IsOldest(v, contents);
      RemovalKeepsOrder(contents, Except(v));
      SelectExcept(contents, v);
      queue := rest;
      contents := contents - {v};
      victim := v;
    }

    method Resubmit(request: Request, now: real) returns (queued: Request)
      requires Valid() && forall r :: r in contents ==> r.id != request.id
      modifies this
      ensures Valid()
      ensures queued == request.(score := Score(weights, request, now), counter := old(counter))
      ensures contents == old(contents) + {queued} && queued !in old(contents)
      ensures counter == old(counter) + 1
    {
      queued := request.(score := Score(weights, request, now), counter := counter);
      var pushed := HeapPush(queue, queued);
      StoresAdded(queue, contents, queued, pushed);
      hide StoresHeap, Score;
      counter := counter + 1;
      queue := pushed;
      contents := contents + {queued};
    }

    lemma ServedIsOrder()
      requires Valid()
      ensures Represents(Served(), contents) && Sorted(Served()) && UniqueIds(contents)
    {
      OrderIsSorted(contents);
    }

    /** `next_batch`: the head of the service order. */
    method NextBatch() returns (batch: seq<Request>)
      requires Valid()
      modifies this
      ensures Valid() && counter == old(counter)
      ensures batch == [] <==> old(contents) == {}
      ensures batch == [] ==> unchanged(this)
      ensures batch != [] ==>
                && |batch| == 1 && batch[0] in old(contents) && contents == old(contents) - {batch[0]}
                && old(Served()) == batch + Served()
    {
      LengthIsSize();
      if queue == [] {
        return [];
      }
      var x, rest := HeapPop(queue);
      StoresRemoved(queue, counter, contents, x, rest);
      PoppedIsFirst(queue, contents, x, rest);
      hide StoresHeap;
      queue := rest;
      contents := contents - {x};
      batch := [x];
    }

    /** Serving until nothing is left returns everything sorted by score, then by age in the queue. */
    method Drain() returns (served: seq<Request>)
      requires Valid()
      modifies this
      ensures Valid() && contents == {}
      ensures served == old(Served()) && Sorted(served) && Represents(served, old(contents))
    {
      OrderIsSorted(contents);
      hide StoresHeap, Sorted, Represents, Distinct;
      served := [];
      ghost var all, todo := Served(), Served();
      while true
        invariant Valid() && todo == Served() && all == served + todo
        decreases |todo|
      {
        var batch := NextBatch();
        if batch == [] {
          break;
        }
        ConcatAssociates(served, batch, Served());
        served, todo := served + batch, Served();
      }
    }

    /** `tick`: what is left is served in the old order. The class inherits an empty
        `on_client_disconnected`. */
    method Tick(now: real) returns (expired: nat)
      requires Valid()
      modifies this
      ensures Valid() && counter == old(counter)
      ensures contents == Select(old(contents), NotExpired(now, ttlMs))
      ensures expired == |old(contents)| - |contents|
      ensures Served() == Filter(old(Served()), NotExpired(now, ttlMs))
    {
      var keep := NotExpired(now, ttlMs);
      var rest := FilterHeap(queue, keep);
      FilterRepresents(queue, contents, keep);
      RepresentsMembers(queue, contents);
      RepresentsMembers(rest, Select(contents, keep));
      RemovalKeepsOrder(contents, keep);
      assert |rest| == |multiset(rest)| == |multiset(Filter(queue, keep))| <= |queue|;
      expired := |queue| - |rest|;
      queue := rest;
      contents := Select(contents, keep);
      SelectedStores(rest, counter, old(contents), keep);
    }

    lemma SelectedStores(rest: seq<Request>, counter: nat, s: set<Request>, keep: Request -> bool)
      requires IsHeap(rest) && Represents(rest, Select(s, keep))
      requires Distinct(s) && UniqueIds(s) && forall r :: r in s ==> r.counter < counter
      ensures StoresHeap(rest, counter, Select(s, keep))
    {
    }
  }
}
