/** `TieredDeadlineScheduler` (scheduler/tiered_deadline.py). */
module TieredDeadline {
  import opened Requests
  import opened ServiceOrder
  import opened Scoring
  import opened TierHeaps

  class TieredDeadlineScheduler {
    const weights: Weights
    const numTiers: nat
    const maxQueue: nat
    const ttlMs: real
    const dropOldest: bool

    var tiers: seq<seq<Request>>
    var counter: nat
    var total: int

    ghost var contents: set<Request>

    ghost predicate Valid()
      reads this
    {
      |tiers| == numTiers && StoresTiers(tiers, counter, contents) && total == |contents|
    }

    constructor (weights: Weights, numTiers: nat, maxQueue: nat, ttlMs: real, dropOldest: bool)
      requires numTiers >= 1
      ensures Valid() && contents == {} && counter == 0
      ensures this.weights == weights && this.numTiers == numTiers && this.maxQueue == maxQueue
      ensures this.ttlMs == ttlMs && this.dropOldest == dropOldest
    {
      this.weights, this.numTiers, this.maxQueue := weights, numTiers, maxQueue;
      this.ttlMs, this.dropOldest := ttlMs, dropOldest;
      tiers := seq(numTiers, _ => []);
      counter, total, contents := 0, 0, {};
    }

    /** The order in which everything that is queued will be returned. */
    ghost function Served(): (order: seq<Request>)
      reads this
      requires Valid()
    {
      DrainFrom(contents, numTiers, 0)
    }

    method Submit(request: Request, now: real) returns (result: SubmitResult, ghost evicted: set<Request>)
      requires Valid()
      modifies this
      ensures Valid()
      ensures result.QueueFull? <==> !dropOldest && old(total) >= maxQueue
      ensures result.QueueFull? ==>
                result.client == request.client && unchanged(this) && evicted == {}
      ensures result.Queued? ==>
                && result.request == request.(score := Score(weights, request, now), counter := old(counter))
                && contents == old(contents) - evicted + {result.request}
                && result.request !in old(contents)
                && counter == old(counter) + 1
                && Filter(Served(), Except(result.request)) == Filter(old(Served()), NotIn(evicted))
      ensures old(total) < maxQueue || old(contents) == {} ==> evicted == {}
      ensures dropOldest && old(total) >= maxQueue && old(contents) != {} ==>
                exists v :: LeastUrgentOldest(v, old(contents), numTiers) && evicted == {v}
    {
      FreshCounter();
      DistinctAll();
      hide Score, Distinct, StoresTiers;
      evicted := {};
      if total >= maxQueue {
        if dropOldest {
          var victim := DropFromLowestTier();
          if victim.Some? {
            evicted := {victim.value};
          }
        } else {
          result := QueueFull(request.client);
          return;
        }
      }
      var queued := Resubmit(request, now);
      DistinctAll();
      SubmitKeepsDrain(old(contents), numTiers, evicted, queued);
      result := Queued(queued);
    }

    method Resubmit(request: Request, now: real) returns (queued: Request)
      requires Valid()
      modifies this
      ensures Valid()
      ensures queued == request.(score := Score(weights, request, now), counter := old(counter))
      ensures contents == old(contents) + {queued} && queued !in old(contents)
      ensures counter == old(counter) + 1
    {
      hide StoresTiers, Score;
      queued := request.(score := Score(weights, request, now), counter := counter);
      tiers := PushTier(tiers, queued, contents);
      counter := counter + 1;
      total := total + 1;
      contents := contents + {queued};
    }

    lemma FreshCounter()
      requires Valid()
      ensures forall r :: r in contents ==> r.counter < counter
    {
    }

    lemma DistinctAll()
      requires Valid()
      ensures Distinct(contents)
    {
    }

    /** `_drop_from_lowest_tier`: the others keep their order. */
    method DropFromLowestTier() returns (victim: Option<Request>)
      requires Valid()
      modifies this
      ensures Valid() && counter == old(counter)
      ensures victim.None? <==> old(contents) == {}
      ensures victim.None? ==> unchanged(this)
      ensures victim.Some? ==>
                && LeastUrgentOldest(victim.value, old(contents), numTiers)
                && contents == old(contents) - {victim.value}
                && Served() == Filter(old(Served()), Except(victim.value))
    {
      DistinctAll();
      hide StoresTiers, LowestTierOldest, LeastUrgentOldest;
      var rest, v := EvictTier(tiers, counter, contents);
      if v.Some? {
        LowestTierOldestMeans(v.value, contents, numTiers);
        RemovalKeepsDrain(contents, numTiers, 0, Except(v.value));
        SelectExcept(contents, v.value);
        tiers := rest;
        total := total - 1;
        contents := contents - {v.value};
      }
      victim := v;
    }

    method NextBatchForTier(tier: int) returns (batch: seq<Request>)
      requires Valid()
      modifies this
      ensures Valid() && counter == old(counter)
      ensures batch == [] <==> !(0 <= tier < numTiers) || old(OfTier(contents, numTiers, tier)) == {}
      ensures batch == [] ==> unchanged(this)
      ensures batch != [] ==>
                && |batch| == 1 && 0 <= tier < numTiers
                && batch[0] in old(contents) && IsFirst(batch[0], old(OfTier(contents, numTiers, tier)))
                && (batch[0].priority == tier || (tier == numTiers - 1 && batch[0].priority >= tier))
                && contents == old(contents) - {batch[0]}
    {
      if !(0 <= tier < numTiers) {
        return [];
      }
      TierEmptiness(tier);
      if tiers[tier] == [] {
        return [];
      }
      hide StoresTiers;
      var rest, item := PopTier(tiers, tier, counter, contents);
      total := total - 1;
      tiers := rest;
      contents := contents - {item};
      batch := [item];
    }

    lemma TierEmptiness(tier: nat)
      requires Valid() && tier < numTiers
      ensures tiers[tier] == [] <==> OfTier(contents, numTiers, tier) == {}
    {
      assert HoldsTier(tiers[tier], contents, numTiers, tier);
      RepresentsMembers(tiers[tier], OfTier(contents, numTiers, tier));
    }

    /** `next_batch`: the first tier that has anything; always the head of the whole drain. */
    method NextBatch() returns (batch: seq<Request>)
      requires Valid()
      modifies this
      ensures Valid() && counter == old(counter)
      ensures batch == [] <==> old(contents) == {}
      ensures batch == [] ==> unchanged(this)
      ensures batch != [] ==>
                && |batch| == 1 && batch[0] in old(contents) && contents == old(contents) - {batch[0]}
                && old(Served()) == batch + Served()
      ensures batch != [] ==>
                forall r :: r in contents ==>
                  && (r.priority < batch[0].priority ==> r.priority >= numTiers - 1)
                  && (SameTier(numTiers, batch[0], r) ==> Before(batch[0], r))
    {
      ghost var s := contents;
      for tier := 0 to numTiers
        invariant Valid() && unchanged(this)
        invariant forall i :: 0 <= i < tier ==> OfTier(contents, numTiers, i) == {}
      {
        batch := NextBatchForTier(tier);
        if batch != [] {
          DrainHead(s, numTiers, tier, batch[0]);
          HeadByPriority(s, numTiers, batch[0]);
          return;
        }
      }
      batch := [];
      assert forall r :: r in contents ==> r in OfTier(contents, numTiers, TierFor(r.priority, numTiers));
    }

    /** Serving until nothing is left returns everything sorted by tier, score and enqueue order. */
    method Drain() returns (served: seq<Request>)
      requires Valid()
      modifies this
      ensures Valid() && contents == {}
      ensures served == old(Served())
      ensures TierSorted(numTiers, served) && Represents(served, old(contents))
      ensures ServedByPriority(numTiers, served)
    {
      ServedIsSorted();
      TierSortedMeans(numTiers, Served());
      hide ServedByPriority, StoresTiers, TierSorted, Represents, DrainFrom, Distinct;
      served := [];
      ghost var all, todo := Served(), Served();
      while true
        invariant Valid() && todo == Served() && all == served + todo
        decreases |todo|
      {
        var batch := NextBatch();
        if batch == [] {
          break;
        }
        ConcatAssociates(served, batch, Served());
        served, todo := served + batch, Served();
      }
      EmptyDrain();
    }

    lemma ServedIsSorted()
      requires Valid()
      ensures TierSorted(numTiers, Served()) && Represents(Served(), contents)
    {
      DrainIsSorted(contents, numTiers, 0);
      assert FromTier(contents, numTiers, 0) == contents;
    }

    lemma EmptyDrain()
      requires Valid() && contents == {}
      ensures Served() == []
    {
      ServedIsSorted();
      RepresentsMembers(Served(), contents);
    }

    method Tick(now: real) returns (expired: nat)
      requires Valid()
      modifies this
      ensures Valid() && counter == old(counter)
      ensures contents == Select(old(contents), NotExpired(now, ttlMs))
      ensures expired == |old(contents)| - |contents|
      ensures Served() == Filter(old(Served()), NotExpired(now, ttlMs))
    {
      RemovalKeepsDrain(contents, numTiers, 0, NotExpired(now, ttlMs));
      expired := KeepOnly(NotExpired(now, ttlMs));
    }

    method OnClientDisconnected(client: ClientId)
      requires Valid()
      modifies this
      ensures Valid() && counter == old(counter)
      ensures contents == Select(old(contents), NotFrom(client))
      ensures Served() == Filter(old(Served()), NotFrom(client))
    {
      RemovalKeepsDrain(contents, numTiers, 0, NotFrom(client));
      var _ := KeepOnly(NotFrom(client));
    }

    method KeepOnly(keep: Request -> bool) returns (removed: nat)
      requires Valid()
      modifies this
      ensures Valid() && counter == old(counter)
      ensures contents == Select(old(contents), keep)
      ensures removed == |old(contents)| - |contents|
    {
      hide StoresTiers;
      var rest, count := FilterTiers(tiers, keep, counter, contents);
      tiers := rest;
      total := total - count;
      contents := Select(contents, keep);
      removed := count;
    }
  }
}
