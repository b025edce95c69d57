/** `ModelDeadlineScheduler` (scheduler/model_deadline.py). */
module ModelDeadline {
  import opened Requests
  import opened OrderedDict
  import opened ServiceOrder
  import opened Scoring
  import opened Eviction
  import opened ModelHeaps

  class ModelDeadlineScheduler {
    const weights: Weights
    const maxQueue: nat
    const ttlMs: real
    const dropOldest: bool

    var queues: Dict
    var counter: nat
    var total: int

    /** Everything that is queued, whatever the model and the layout of its heap. */
    ghost var contents: set<Request>

    ghost predicate Valid()
      reads this
    {
      Stores(queues, counter, contents) && total == |contents|
    }

    constructor (weights: Weights, maxQueue: nat, ttlMs: real, dropOldest: bool)
      ensures Valid() && contents == {} && counter == 0 && total == 0 && queues == Dict([], map[])
      ensures this.weights == weights && this.maxQueue == maxQueue
      ensures this.ttlMs == ttlMs && this.dropOldest == dropOldest
    {
      this.weights, this.maxQueue, this.ttlMs, this.dropOldest := weights, maxQueue, ttlMs, dropOldest;
      queues, counter, total, contents := Dict([], map[]), 0, 0, {};
    }

    /** The order in which the requests of one model will be returned. */
    ghost function ServedFor(model: ModelId): (order: seq<Request>)
      reads this
      requires Valid()
    {
      DistinctOfModel(contents, model);
      Order(OfModel(contents, model))
    }

    /** The cached `_total` is the sum of the heap sizes. */
    lemma TotalIsSum()
      requires Valid()
      ensures total == SumOfSizes(queues.keys, queues.at)
    {
      assert forall k :: k in queues.keys ==> Holds(queues.at[k], contents, k);
      SizesAddUp(queues.keys, queues.at, contents);
    }

    /** `submit`. Whatever is evicted, nothing else changes places. */
    method Submit(request: Request, now: real) returns (result: SubmitResult, ghost evicted: set<Request>)
      requires Valid()
      modifies this
      ensures Valid()
      ensures result.QueueFull? <==> !dropOldest && old(total) >= maxQueue
      ensures result.QueueFull? ==>
                result.client == request.client && unchanged(this) && evicted == {}
      ensures result.Queued? ==>
                && result.request == request.(score := Score(weights, request, now), counter := old(counter))
                && contents == old(contents) - evicted + {result.request}
                && result.request !in old(contents)
                && counter == old(counter) + 1
                && forall m :: Filter(ServedFor(m), Except(result.request)) == Filter(old(ServedFor(m)), NotIn(evicted))
      ensures old(total) < maxQueue || old(contents) == {} ==> evicted == {}
      ensures result.Queued? ==>
                var kept := StillHeld(old(queues.keys), old(contents) - evicted);
                queues.keys == if request.model in kept then kept else kept + [request.model]
      ensures dropOldest && old(total) >= maxQueue && old(contents) != {} ==>
                exists v :: IsOldest(v, old(contents)) && evicted == {v}
    {
      DistinctAll();
      ghost var before := contents;
      result, evicted := Enqueue(request, now);
      if result.Queued? {
        DistinctAll();
        SubmitKeepsOrderForAll(before, evicted, result.request);
      }
    }

    method Enqueue(request: Request, now: real) returns (result: SubmitResult, ghost evicted: set<Request>)
      requires Valid()
      modifies this
      ensures Valid()
      ensures result.QueueFull? <==> !dropOldest && old(total) >= maxQueue
      ensures result.QueueFull? ==>
                result.client == request.client && unchanged(this) && evicted == {}
      ensures result.Queued? ==>
                && result.request == request.(score := Score(weights, request, now), counter := old(counter))
                && contents == old(contents) - evicted + {result.request}
                && result.request !in old(contents)
                && counter == old(counter) + 1
      ensures old(total) < maxQueue || old(contents) == {} ==> evicted == {}
      ensures result.Queued? ==>
                var kept := StillHeld(old(queues.keys), old(contents) - evicted);
                queues.keys == if request.model in kept then kept else kept + [request.model]
      ensures dropOldest && old(total) >= maxQueue && old(contents) != {} ==>
                exists v :: IsOldest(v, old(contents)) && evicted == {v}
    {
      hide Stores, StillHeld, Score, IsOldest;
      AllHeld();
      FreshCounter();
      evicted := {};
      if total >= maxQueue {
        if dropOldest {
          var victim := RemoveOldest();
          if victim.Some? {
            evicted := {victim.value};
          }
        } else {
          result := QueueFull(request.client);
          return;
        }
      }
      var queued := request.(score := Score(weights, request, now), counter := counter);
      Push(queued);
      result := Queued(queued);
    }

    method Resubmit(request: Request, now: real) returns (queued: Request)
      requires Valid()
      modifies this
      ensures Valid()
      ensures queued == request.(score := Score(weights, request, now), counter := old(counter))
      ensures contents == old(contents) + {queued} && queued !in old(contents)
      ensures counter == old(counter) + 1
      ensures queues.keys == if request.model in old(queues.keys) then old(queues.keys)
                             else old(queues.keys) + [request.model]
    {
      queued := request.(score := Score(weights, request, now), counter := counter);
      Push(queued);
    }

    /** The last lines of `submit` and `resubmit`: advance the counter, push, count. */
    method Push(queued: Request)
      requires Valid() && queued.counter == counter
      modifies this
      ensures Valid() && counter == old(counter) + 1
      ensures contents == old(contents) + {queued} && queued !in old(contents)
      ensures queues.keys == if queued.model in old(queues.keys) then old(queues.keys)
                             else old(queues.keys) + [queued.model]
    {
      hide Stores;
      queues := PushIn(queues, queued, contents);
      counter := counter + 1;
      total := total + 1;
      contents := contents + {queued};
    }

    lemma FreshCounter()
      requires Valid()
      ensures forall r :: r in contents ==> r.counter < counter
    {
    }

    /** No key is without a request. */
    lemma AllHeld()
      requires Valid()
      ensures StillHeld(queues.keys, contents) == queues.keys && contents - {} == contents
    {
      NothingDropped(queues, counter, contents);
    }

    lemma NothingFor(model: ModelId)
      requires Valid()
      ensures model !in queues.at ==> OfModel(contents, model) == {}
    {
    }

    lemma DistinctContents(model: ModelId)
      requires Valid()
      ensures Distinct(OfModel(contents, model))
    {
    }

    lemma DistinctAll()
      requires Valid()
      ensures Distinct(contents)
    {
    }

    /** `_drop_oldest`: one globally oldest request leaves, and the others keep their order. */
    method DropOldest() returns (victim: Option<Request>)
      requires Valid()
      modifies this
      ensures Valid() && counter == old(counter)
      ensures victim.None? <==> old(contents) == {}
      ensures victim.None? ==> unchanged(this)
      ensures victim.Some? ==>
                && IsOldest(victim.value, old(contents)) && contents == old(contents) - {victim.value}
                && queues.keys == StillHeld(old(queues.keys), contents)
                && forall m :: ServedFor(m) == Filter(old(ServedFor(m)), Except(victim.value))
    {
      DistinctAll();
      ghost var before := contents;
      victim := RemoveOldest();
      if victim.Some? {
        EvictionKeepsOrderForAll(before, victim.value);
      }
    }

    method RemoveOldest() returns (victim: Option<Request>)
      requires Valid()
      modifies this
      ensures Valid() && counter == old(counter)
      ensures victim.None? <==> old(contents) == {}
      ensures victim.None? ==> unchanged(this)
      ensures victim.Some? ==>
                && IsOldest(victim.value, old(contents)) && contents == old(contents) - {victim.value}
                && queues.keys == StillHeld(old(queues.keys), contents)
    {
      hide Stores, StillHeld;
      var rest, v := EvictIn(queues, counter, contents);
      if v.Some? {
        queues := rest;
        total := total - 1;
        contents := contents - {v.value};
      }
      victim := v;
    }

    /** `next_batch_for_model`: at most one request, the first in service order. */
    method NextBatchForModel(model: ModelId) returns (batch: seq<Request>)
      requires Valid()
      modifies this
      ensures Valid() && counter == old(counter)
      ensures batch == [] <==> old(OfModel(contents, model)) == {}
      ensures batch == [] ==> unchanged(this)
      ensures batch != [] ==>
                && |batch| == 1
                && IsFirst(batch[0], old(OfModel(contents, model)))
                && old(ServedFor(model)) == batch + ServedFor(model)
                && contents == old(contents) - {batch[0]}
                && queues.keys == StillHeld(old(queues.keys), contents)
    {
      NothingFor(model);
      hide Stores, Distinct, Order, IsFirst, OfModel, StillHeld;
      if model !in queues.at {
        return [];
      }
      var rest, item := PopIn(queues, model, counter, contents);
      total := total - 1;
      queues := rest;
      contents := contents - {item};
      batch := [item];
    }

    lemma FirstKeyBusy()
      requires Valid() && queues.keys != []
      ensures OfModel(contents, queues.keys[0]) != {}
    {
      RootOf(queues, counter, contents, queues.keys[0]);
    }

    /** `next_batch` of the base class: the first model in dictionary order that has anything. It holds the
        first of all queued requests exactly when the root of its heap precedes those of the others. */
    method NextBatch() returns (batch: seq<Request>)
      requires Valid()
      modifies this
      ensures Valid() && counter == old(counter)
      ensures batch == [] <==> old(contents) == {}
      ensures batch == [] ==> unchanged(this)
      ensures batch != [] ==>
                && |batch| == 1 && contents == old(contents) - {batch[0]}
                && exists i :: 0 <= i < |old(queues.keys)|
                               && IsFirst(batch[0], OfModel(old(contents), old(queues.keys)[i]))
                               && forall j :: 0 <= j < i ==> OfModel(old(contents), old(queues.keys)[j]) == {}
      ensures batch != [] ==>
                && |old(queues.keys)| > 0 && IsFirst(batch[0], OfModel(old(contents), old(queues.keys)[0]))
                && (IsFirst(batch[0], old(contents)) <==> FirstRootLeads(old(queues)))
                && queues.keys == StillHeld(old(queues.keys), contents)
    {
      var models := queues.keys;
      ghost var d, c, s := queues, counter, contents;
      if models != [] {
        FirstKeyBusy();
      }
      for i := 0 to |models|
        invariant Valid() && unchanged(this)
        invariant forall j :: 0 <= j < i ==> OfModel(contents, models[j]) == {}
      {
        batch := NextBatchForModel(models[i]);
        if batch != [] {
          FirstModelHasFirstIff(d, c, s, batch[0]);
          return;
        }
      }
      batch := [];
      assert forall r :: r in contents ==> r in OfModel(contents, r.model) && r.model in models;
    }

    /** Serving one model until nothing is left for it returns its requests in service order. */
    method DrainModel(model: ModelId) returns (served: seq<Request>)
      requires Valid()
      modifies this
      ensures Valid()
      ensures served == old(ServedFor(model))
      ensures contents == old(contents) - old(OfModel(contents, model))
    {
      hide Stores;
      served := [];
      while true
        invariant Valid()
        invariant contents <= old(contents) <= contents + old(OfModel(contents, model))
        invariant served + ServedFor(model) == old(ServedFor(model))
        decreases |contents|
      {
        var batch := NextBatchForModel(model);
        if batch == [] {
          break;
        }
        assert served + (batch + ServedFor(model)) == served + batch + ServedFor(model);
        served := served + batch;
      }
    }

    /** Calling `next_batch` until nothing is left serves one model after the other, in dictionary order, each in
        its whole service order. */
    method Drain() returns (served: seq<Request>)
      requires Valid()
      modifies this
      ensures Valid() && contents == {}
      ensures served == ModelByModel(old(queues.keys), old(contents))
    {
      hide Stores, StillHeld;
      served := [];
      ghost var all, todo := ModelByModel(queues.keys, contents), ModelByModel(queues.keys, contents);
      while true
        invariant Valid() && todo == ModelByModel(queues.keys, contents) && all == served + todo
        decreases |contents|
      {
        ghost var d, c, s := queues, counter, contents;
        var batch := NextBatch();
        if batch == [] {
          break;
        }
        OneByOne(d, c, s, batch[0]);
        assert batch == [batch[0]];
        ConcatAssociates(served, batch, ModelByModel(queues.keys, contents));
        served, todo := served + batch, ModelByModel(queues.keys, contents);
      }
      NothingServed(queues.keys);
    }

    /** `tick`: drop what has waited longer than the time to live. */
    method Tick(now: real) returns (expired: nat)
      requires Valid()
      modifies this
      ensures Valid() && counter == old(counter)
      ensures contents == Select(old(contents), NotExpired(now, ttlMs))
      ensures queues.keys == StillHeld(old(queues.keys), contents)
      ensures expired == |old(contents)| - |contents|
      ensures forall m :: ServedFor(m) == Filter(old(ServedFor(m)), NotExpired(now, ttlMs))
    {
      RemovalKeepsOrderForAll(contents, NotExpired(now, ttlMs));
      expired := KeepOnly(NotExpired(now, ttlMs));
    }

    /** `on_client_disconnected`: drop the requests of one client, for every model. */
    method OnClientDisconnected(client: ClientId)
      requires Valid()
      modifies this
      ensures Valid() && counter == old(counter)
      ensures contents == Select(old(contents), NotFrom(client))
      ensures queues.keys == StillHeld(old(queues.keys), contents)
      ensures forall m :: ServedFor(m) == Filter(old(ServedFor(m)), NotFrom(client))
    {
      RemovalKeepsOrderForAll(contents, NotFrom(client));
      var _ := KeepOnly(NotFrom(client));
    }

    method KeepOnly(keep: Request -> bool) returns (removed: nat)
      requires Valid()
      modifies this
      ensures Valid() && counter == old(counter)
      ensures contents == Select(old(contents), keep)
      ensures queues.keys == StillHeld(old(queues.keys), contents)
      ensures removed == |old(contents)| - |contents|
    {
      hide Stores, StillHeld;
      var rest, count := KeepOnlyIn(queues, keep, counter, contents);
      queues := rest;
      total := total - count;
      contents := Select(contents, keep);
      removed := count;
    }
  }

  /** What the base class says about itself, "drain from model with highest-scored request", is not so: of
      two requests submitted one after the other for different models, the first is served although the
      second scores higher. */
  method LowerScoreFirst(weights: Weights, maxQueue: nat, a: Request, b: Request, now: real)
    returns (served: Request, waiting: Request)
    requires maxQueue >= 2 && a.model != b.model && Score(weights, b, now) > Score(weights, a, now)
    ensures served == a.(score := Score(weights, a, now), counter := 0)
    ensures waiting == b.(score := Score(weights, b, now), counter := 1)
    ensures waiting.score > served.score && Before(waiting, served)
  {
    var scheduler := SubmitTwo(weights, maxQueue, a, b, now);
    served := Scored(weights, a, now, 0);
    waiting := Scored(weights, b, now, 1);
    OnlyOne(served, waiting);
    hide Score, Stores, OfModel, FirstRootLeads;
    var batch := scheduler.NextBatch();
    served := batch[0];
  }

  function Scored(weights: Weights, r: Request, now: real, counter: nat): (q: Request) {
    r.(score := Score(weights, r, now), counter := counter)
  }

  method SubmitTwo(weights: Weights, maxQueue: nat, a: Request, b: Request, now: real)
    returns (scheduler: ModelDeadlineScheduler)
    requires maxQueue >= 2 && a.model != b.model
    ensures fresh(scheduler) && scheduler.Valid()
    ensures scheduler.queues.keys == [a.model, b.model]
    ensures scheduler.contents == {Scored(weights, a, now, 0), Scored(weights, b, now, 1)}
  {
    hide Score, Stores, Distinct, Order, Filter, OfModel, IsOldest, StillHeld;
    scheduler := new ModelDeadlineScheduler(weights, maxQueue, 0.0, false);
    scheduler.AllHeld();
    var first, gone := scheduler.Submit(a, now);
    assert scheduler.contents == {first.request} && |scheduler.contents| == 1;
    scheduler.AllHeld();
    var second, dropped := scheduler.Submit(b, now);
    assert scheduler.contents == {first.request, second.request};
  }

  lemma OnlyOne(a: Request, b: Request)
    requires a.model != b.model
    ensures OfModel({a, b}, a.model) == {a}
  {
  }
}
