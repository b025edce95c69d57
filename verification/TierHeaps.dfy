/** A list of heaps, one for each priority tier: what `TieredDeadlineScheduler` keeps in `_tiers` and
    does to it (scheduler/tiered_deadline.py:72-151). The list is a value that the methods rebuild. */
module TierHeaps {
  import opened Requests
  import opened BinaryHeap
  import opened ServiceOrder
  import opened Eviction

  /** `_tier_for`: tier 0 is served first. */
  function TierFor(priority: nat, numTiers: nat): (tier: nat)
    requires numTiers >= 1
  {
    if priority < numTiers - 1 then priority else numTiers - 1
  }

  /** Priority 0 has the first tier to itself, the next priorities one tier each, and everything from the last
      tier on shares that tier. */
  lemma TiersFollowPriority(p: nat, q: nat, numTiers: nat)
    requires numTiers >= 1
    ensures TierFor(p, numTiers) < numTiers && TierFor(0, numTiers) == 0
    ensures p < q && p < numTiers - 1 ==> TierFor(p, numTiers) < TierFor(q, numTiers)
    ensures p >= numTiers - 1 && q >= numTiers - 1 ==> TierFor(p, numTiers) == TierFor(q, numTiers)
  {
  }

  ghost function OfTier(s: set<Request>, n: nat, tier: int): (mine: set<Request>)
    requires n >= 1
  {
    set r | r in s && TierFor(r.priority, n) == tier
  }

  ghost predicate HoldsTier(heap: seq<Request>, s: set<Request>, n: nat, tier: int)
    requires n >= 1
  {
    IsHeap(heap) && Represents(heap, OfTier(s, n, tier))
  }

  ghost predicate StoresTiers(tiers: seq<seq<Request>>, counter: nat, s: set<Request>) {
    && |tiers| >= 1
    && (forall i :: 0 <= i < |tiers| ==> HoldsTier(tiers[i], s, |tiers|, i))
    && (forall r :: r in s ==> r.counter < counter)
    && Distinct(s)
  }

  // ---------- The order of the whole drain ----------

  /** Of two requests, the one in the smaller tier goes first; within a tier `Before` decides. */
  ghost predicate TierBefore(n: nat, a: Request, b: Request)
    requires n >= 1
  {
    TierFor(a.priority, n) < TierFor(b.priority, n)
    || (TierFor(a.priority, n) == TierFor(b.priority, n) && Before(a, b))
  }

  ghost predicate TierSorted(n: nat, q: seq<Request>)
    requires n >= 1
  {
    forall i, j :: 0 <= i < j < |q| ==> TierBefore(n, q[i], q[j])
  }

  /** Both share a tier: they have the same priority, or both belong to the last tier or beyond. */
  ghost predicate SameTier(n: nat, a: Request, b: Request) {
    a.priority == b.priority || (a.priority >= n - 1 && b.priority >= n - 1)
  }

  /** Nothing is served after what is less urgent, unless both belong to the last tier; and what shares a tier is
      served by score and age in the queue. */
  ghost predicate ServedByPriority(n: nat, q: seq<Request>) {
    forall i, j :: 0 <= i < j < |q| ==>
      && (q[j].priority < q[i].priority ==> q[j].priority >= n - 1)
      && (SameTier(n, q[i], q[j]) ==> Before(q[i], q[j]))
  }

  lemma TierBeforeMeans(n: nat, a: Request, b: Request)
    requires n >= 1
    ensures TierBefore(n, a, b) <==>
            (b.priority < a.priority ==> b.priority >= n - 1) && (SameTier(n, a, b) ==> Before(a, b))
  {
    TiersFollowPriority(a.priority, b.priority, n);
    TiersFollowPriority(b.priority, a.priority, n);
  }

  lemma TierSortedMeans(n: nat, q: seq<Request>)
    requires n >= 1
    ensures TierSorted(n, q) <==> ServedByPriority(n, q)
  {
    forall i, j | 0 <= i < j < |q|
      ensures TierBefore(n, q[i], q[j]) <==>
              && (q[j].priority < q[i].priority ==> q[j].priority >= n - 1)
              && (SameTier(n, q[i], q[j]) ==> Before(q[i], q[j]))
    {
      TierBeforeMeans(n, q[i], q[j]);
    }
    hide TierBefore, SameTier, Before;
  }

  /** The service order of the tiers from `tier` on, one after the other. */
  ghost function DrainFrom(s: set<Request>, n: nat, tier: nat): (order: seq<Request>)
    requires n >= 1 && Distinct(s) && tier <= n
    decreases n - tier
  {
    if tier == n then []
    else DistinctSubset(s, OfTier(s, n, tier)); Order(OfTier(s, n, tier)) + DrainFrom(s, n, tier + 1)
  }

  ghost function FromTier(s: set<Request>, n: nat, tier: nat): (left: set<Request>)
    requires n >= 1
  {
    set r | r in s && TierFor(r.priority, n) >= tier
  }

  /** The whole drain serves every request once, sorted by tier, then score, then age in the queue. */
  lemma {:induction false} DrainIsSorted(s: set<Request>, n: nat, tier: nat)
    requires n >= 1 && Distinct(s) && tier <= n
    ensures TierSorted(n, DrainFrom(s, n, tier)) && Represents(DrainFrom(s, n, tier), FromTier(s, n, tier))
    decreases n - tier
  {
    if tier == n {
      assert FromTier(s, n, tier) == {};
    } else {
      hide TierSorted, Sorted;
      var mine, later := OfTier(s, n, tier), FromTier(s, n, tier + 1);
      DistinctSubset(s, mine);
      OrderIsSorted(mine);
      DrainIsSorted(s, n, tier + 1);
      var p, q := Order(mine), DrainFrom(s, n, tier + 1);
      TierPrepended(n, tier, p, mine, q, later);
      assert FromTier(s, n, tier) == mine + later;
      assert multiset(mine + later) == multiset(mine) + multiset(later) by {
        assert mine !! later;
      }
    }
  }

  /** A sorted tier in front of sorted later tiers. */
  lemma TierPrepended(n: nat, tier: nat, p: seq<Request>, mine: set<Request>, q: seq<Request>, later: set<Request>)
    requires n >= 1 && Sorted(p) && Represents(p, mine) && TierSorted(n, q) && Represents(q, later)
    requires forall r :: r in mine ==> TierFor(r.priority, n) == tier
    requires forall r :: r in later ==> TierFor(r.priority, n) > tier
    ensures TierSorted(n, p + q) && multiset(p + q) == multiset(mine) + multiset(later)
  {
    RepresentsMembers(p, mine);
    RepresentsMembers(q, later);
    hide Before, Represents;
    forall i, j | 0 <= i < j < |p + q| ensures TierBefore(n, (p + q)[i], (p + q)[j]) {
      if i < |p| {
        assert p[i] in p;
      }
      if j >= |p| {
        assert q[j - |p|] in q;
      }
    }
  }

  lemma {:induction false} DrainSkipsEmpty(s: set<Request>, n: nat, first: nat, tier: nat)
    requires n >= 1 && Distinct(s) && first <= tier <= n
    requires forall i :: first <= i < tier ==> OfTier(s, n, i) == {}
    ensures DrainFrom(s, n, first) == DrainFrom(s, n, tier)
    decreases tier - first
  {
    if first < tier {
      DrainSkipsEmpty(s, n, first + 1, tier);
      assert OfTier(s, n, first) == {};
      assert [] + DrainFrom(s, n, first + 1) == DrainFrom(s, n, first + 1);
    }
  }

  lemma {:induction false} DrainSameTiers(s: set<Request>, t: set<Request>, n: nat, tier: nat)
    requires n >= 1 && Distinct(s) && Distinct(t) && tier <= n
    requires forall i :: tier <= i < n ==> OfTier(s, n, i) == OfTier(t, n, i)
    ensures DrainFrom(s, n, tier) == DrainFrom(t, n, tier)
    decreases n - tier
  {
    if tier < n {
      DrainSameTiers(s, t, n, tier + 1);
    }
  }

  /** Taking the first request of the first non-empty tier takes the head of the whole drain. */
  lemma DrainHead(s: set<Request>, n: nat, tier: nat, x: Request)
    requires n >= 1 && Distinct(s) && tier < n
    requires forall i :: 0 <= i < tier ==> OfTier(s, n, i) == {}
    requires x in OfTier(s, n, tier) && IsFirst(x, OfTier(s, n, tier))
    ensures Distinct(s - {x}) && DrainFrom(s, n, 0) == [x] + DrainFrom(s - {x}, n, 0)
  {
    var t := s - {x};
    DistinctSubset(s, t);
    DistinctSubset(s, OfTier(s, n, tier));
    DistinctSubset(s, OfTier(t, n, tier));
    DrainSkipsEmpty(s, n, 0, tier);
    OfTierRemove(s, n, x);
    DrainSkipsEmpty(t, n, 0, tier);
    DrainSameTiers(s, t, n, tier + 1);
    FirstIsUnique(OfTier(s, n, tier), x);
    assert Order(OfTier(s, n, tier)) == [x] + Order(OfTier(t, n, tier));
  }

  /** What is at the head of the whole drain: nothing that is left is more urgent, unless it belongs to the last
      tier, and nothing that is left of the same tier precedes it. */
  lemma HeadByPriority(s: set<Request>, n: nat, x: Request)
    requires n >= 1 && Distinct(s) && Distinct(s - {x}) && x in s
    requires DrainFrom(s, n, 0) == [x] + DrainFrom(s - {x}, n, 0)
    ensures forall r :: r in s - {x} ==>
              (r.priority < x.priority ==> r.priority >= n - 1) && (SameTier(n, x, r) ==> Before(x, r))
  {
    var rest := DrainFrom(s - {x}, n, 0);
    hide DrainFrom, Represents, SameTier, Before, TierSorted, ServedByPriority, Distinct;
    DrainIsSorted(s, n, 0);
    TierSortedMeans(n, DrainFrom(s, n, 0));
    DrainIsSorted(s - {x}, n, 0);
    assert FromTier(s - {x}, n, 0) == s - {x};
    RepresentsMembers(rest, s - {x});
    HeadOfServed(n, x, rest);
  }

  lemma HeadOfServed(n: nat, x: Request, rest: seq<Request>)
    requires ServedByPriority(n, [x] + rest)
    ensures forall r :: r in rest ==>
              (r.priority < x.priority ==> r.priority >= n - 1) && (SameTier(n, x, r) ==> Before(x, r))
  {
    hide SameTier, Before;
    forall r | r in rest
      ensures (r.priority < x.priority ==> r.priority >= n - 1) && (SameTier(n, x, r) ==> Before(x, r))
    {
      var j :| 0 <= j < |rest| && rest[j] == r;
      assert ([x] + rest)[0] == x && ([x] + rest)[j + 1] == r;
    }
  }

  /** Removing requests never reorders the survivors of the whole drain. */
  lemma {:induction false} RemovalKeepsDrain(s: set<Request>, n: nat, tier: nat, keep: Request -> bool)
    requires n >= 1 && Distinct(s) && tier <= n
    ensures Distinct(Select(s, keep))
    ensures DrainFrom(Select(s, keep), n, tier) == Filter(DrainFrom(s, n, tier), keep)
    decreases n - tier
  {
    DistinctSubset(s, Select(s, keep));
    if tier < n {
      var mine := OfTier(s, n, tier);
      DistinctSubset(s, mine);
      RemovalKeepsOrder(mine, keep);
      assert Select(mine, keep) == OfTier(Select(s, keep), n, tier);
      RemovalKeepsDrain(s, n, tier + 1, keep);
      FilterAppend(Order(mine), DrainFrom(s, n, tier + 1), keep);
    }
  }

  lemma SubmitKeepsDrain(s: set<Request>, n: nat, gone: set<Request>, x: Request)
    requires n >= 1 && Distinct(s) && Distinct(s - gone + {x}) && x !in s
    ensures Filter(DrainFrom(s - gone + {x}, n, 0), Except(x)) == Filter(DrainFrom(s, n, 0), NotIn(gone))
  {
    SelectReplaced(s, gone, x);
    RemovalKeepsDrain(s, n, 0, NotIn(gone));
    RemovalKeepsDrain(s - gone + {x}, n, 0, Except(x));
  }

  // ---------- Operations ----------

  /** Storing a changed heap back, when the other tiers hold what they held. */
  lemma TierReplaced(tiers: seq<seq<Request>>, counter: nat, s: set<Request>,
                     i: nat, heap: seq<Request>, counter': nat, s': set<Request>)
    requires StoresTiers(tiers, counter, s) && i < |tiers|
    requires HoldsTier(heap, s', |tiers|, i)
    requires forall j :: 0 <= j < |tiers| && j != i ==> OfTier(s', |tiers|, j) == OfTier(s, |tiers|, j)
    requires Distinct(s') && forall r :: r in s' ==> r.counter < counter'
    ensures StoresTiers(tiers[i := heap], counter', s')
  {
    forall j | 0 <= j < |tiers| && j != i ensures HoldsTier(tiers[j], s', |tiers|, j) {
      assert HoldsTier(tiers[j], s, |tiers|, j);
    }
  }

  method PushTier(tiers: seq<seq<Request>>, x: Request, ghost s: set<Request>) returns (tiers': seq<seq<Request>>)
    requires StoresTiers(tiers, x.counter, s)
    ensures |tiers'| == |tiers| && StoresTiers(tiers', x.counter + 1, s + {x})
    ensures x !in s && |s + {x}| == |s| + 1
  {
    var tier := TierFor(x.priority, |tiers|);
    var heap := tiers[tier];
    assert HoldsTier(heap, s, |tiers|, tier);
    var pushed := HeapPush(heap, x);
    OfTierAdd(s, |tiers|, x);
    AddRepresents(heap, pushed, OfTier(s, |tiers|, tier), x);
    assert Distinct(s + {x});
    tiers' := tiers[tier := pushed];
    TierReplaced(tiers, x.counter, s, tier, pushed, x.counter + 1, s + {x});
  }

  method PopTier(tiers: seq<seq<Request>>, tier: nat, ghost counter: nat, ghost s: set<Request>)
    returns (tiers': seq<seq<Request>>, x: Request)
    requires StoresTiers(tiers, counter, s) && tier < |tiers| && tiers[tier] != []
    ensures |tiers'| == |tiers| && StoresTiers(tiers', counter, s - {x}) && |s - {x}| == |s| - 1
    ensures x in OfTier(s, |tiers|, tier) && IsFirst(x, OfTier(s, |tiers|, tier))
  {
    var heap := tiers[tier];
    assert HoldsTier(heap, s, |tiers|, tier);
    DistinctSubset(s, OfTier(s, |tiers|, tier));
    var rest;
    x, rest := HeapPop(heap);
    PoppedIsFirst(heap, OfTier(s, |tiers|, tier), x, rest);
    tiers' := ShrinkTier(tiers, tier, rest, counter, s, x);
  }

  method ShrinkTier(tiers: seq<seq<Request>>, tier: nat, rest: seq<Request>,
                    ghost counter: nat, ghost s: set<Request>, ghost x: Request)
    returns (tiers': seq<seq<Request>>)
    requires StoresTiers(tiers, counter, s) && tier < |tiers| && x in OfTier(s, |tiers|, tier)
    requires IsHeap(rest) && Represents(rest, OfTier(s, |tiers|, tier) - {x})
    ensures |tiers'| == |tiers| && StoresTiers(tiers', counter, s - {x}) && |s - {x}| == |s| - 1
  {
    OfTierRemove(s, |tiers|, x);
    DistinctSubset(s, s - {x});
    tiers' := tiers[tier := rest];
    TierReplaced(tiers, counter, s, tier, rest, counter, s - {x});
  }

  /** `_drop_from_lowest_tier`: the victim is an oldest request of the last tier that is not empty. */
  method EvictTier(tiers: seq<seq<Request>>, ghost counter: nat, ghost s: set<Request>)
    returns (tiers': seq<seq<Request>>, victim: Option<Request>)
    requires StoresTiers(tiers, counter, s)
    ensures victim.None? <==> s == {}
    ensures victim.None? ==> tiers' == tiers
    ensures victim.Some? ==>
              && |tiers'| == |tiers| && StoresTiers(tiers', counter, s - {victim.value})
              && |s - {victim.value}| == |s| - 1
              && LowestTierOldest(victim.value, s, |tiers|)
  {
    var i := |tiers|;
    while i > 0
      invariant 0 <= i <= |tiers|
      invariant forall j :: i <= j < |tiers| ==> OfTier(s, |tiers|, j) == {}
    {
      i := i - 1;
      var heap := tiers[i];
      assert HoldsTier(heap, s, |tiers|, i);
      if heap != [] {
        var v, rest := EvictOldest(heap);
        RepresentsMembers(heap, OfTier(s, |tiers|, i));
        assert v in multiset(heap);
        RemoveRepresents(heap, rest, OfTier(s, |tiers|, i), v);
        tiers' := ShrinkTier(tiers, i, rest, counter, s, v);
        victim := Some(v);
        LastNonEmptyTier(s, |tiers|, i, v);
        return;
      }
      RepresentsMembers(heap, OfTier(s, |tiers|, i));
    }
    assert forall r :: r in s ==> r in OfTier(s, |tiers|, TierFor(r.priority, |tiers|));
    tiers', victim := tiers, None;
  }

  /** No queued request is in a later tier than `v`, and none in its tier arrived before it. */
  ghost predicate LowestTierOldest(v: Request, s: set<Request>, n: nat)
    requires n >= 1
  {
    && v in s
    && forall r :: r in s ==>
         TierFor(r.priority, n) < TierFor(v.priority, n)
         || (TierFor(r.priority, n) == TierFor(v.priority, n) && v.receivedAt <= r.receivedAt)
  }

  /** Nothing is less urgent than `v`, unless `v` belongs to the last tier, and of its tier `v` is an oldest. */
  ghost predicate LeastUrgentOldest(v: Request, s: set<Request>, n: nat) {
    && v in s
    && forall r :: r in s ==>
         && (r.priority > v.priority ==> v.priority >= n - 1)
         && (SameTier(n, r, v) ==> v.receivedAt <= r.receivedAt)
  }

  lemma LowestTierOldestMeans(v: Request, s: set<Request>, n: nat)
    requires n >= 1
    ensures LowestTierOldest(v, s, n) <==> LeastUrgentOldest(v, s, n)
  {
    forall r | r in s
      ensures TierFor(r.priority, n) <= TierFor(v.priority, n) <==> (r.priority > v.priority ==> v.priority >= n - 1)
      ensures TierFor(r.priority, n) == TierFor(v.priority, n) <==> SameTier(n, r, v)
    {
      TiersFollowPriority(r.priority, v.priority, n);
      TiersFollowPriority(v.priority, r.priority, n);
    }
    hide TierFor, SameTier;
  }

  lemma LastNonEmptyTier(s: set<Request>, n: nat, i: nat, v: Request)
    requires n >= 1 && i < n && IsOldest(v, OfTier(s, n, i))
    requires forall j :: i < j < n ==> OfTier(s, n, j) == {}
    ensures LowestTierOldest(v, s, n)
  {
    forall r | r in s
      ensures TierFor(r.priority, n) < i || (TierFor(r.priority, n) == i && v.receivedAt <= r.receivedAt)
    {
      assert r in OfTier(s, n, TierFor(r.priority, n));
    }
  }

  /** `tick` and `on_client_disconnected`: filter every tier, restore the order where needed. */
  method FilterTiers(tiers: seq<seq<Request>>, keep: Request -> bool, ghost counter: nat, ghost s: set<Request>)
    returns (tiers': seq<seq<Request>>, removed: nat)
    requires StoresTiers(tiers, counter, s)
    ensures |tiers'| == |tiers| && StoresTiers(tiers', counter, Select(s, keep))
    ensures |s| == |Select(s, keep)| + removed
  {
    tiers', removed := tiers, 0;
    ghost var n := |tiers|;
    for i := 0 to |tiers|
      invariant |tiers'| == n
      invariant forall j :: 0 <= j < i ==> HoldsTier(tiers'[j], Select(s, keep), n, j)
      invariant forall j :: i <= j < n ==> tiers'[j] == tiers[j]
      invariant removed == |DroppedBelow(s, keep, n, i)|
    {
      var heap := tiers'[i];
      assert HoldsTier(heap, s, n, i);
      var survivors := FilterHeap(heap, keep);
      TierSurvivors(s, keep, n, i, heap, survivors);
      removed := removed + (|heap| - |survivors|);
      tiers' := tiers'[i := survivors];
    }
    DistinctSubset(s, Select(s, keep));
    assert s == Select(s, keep) + DroppedBelow(s, keep, n, n);
  }

  ghost function DroppedBelow(s: set<Request>, keep: Request -> bool, n: nat, tier: nat): (gone: set<Request>)
    requires n >= 1
  {
    set r | r in s && !keep(r) && TierFor(r.priority, n) < tier
  }

  lemma TierSurvivors(s: set<Request>, keep: Request -> bool, n: nat, i: nat,
                      heap: seq<Request>, survivors: seq<Request>)
    requires n >= 1 && i < n && HoldsTier(heap, s, n, i)
    requires IsHeap(survivors) && multiset(survivors) == multiset(Filter(heap, keep))
    ensures HoldsTier(survivors, Select(s, keep), n, i)
    ensures |DroppedBelow(s, keep, n, i + 1)| == |DroppedBelow(s, keep, n, i)| + |heap| - |survivors|
    ensures |survivors| <= |heap|
  {
    var mine, left := OfTier(s, n, i), Select(OfTier(s, n, i), keep);
    FilterRepresents(heap, mine, keep);
    assert left == OfTier(Select(s, keep), n, i);
    RepresentsMembers(heap, mine);
    RepresentsMembers(survivors, left);
    assert |mine - left| == |mine| - |left|;
    var before := DroppedBelow(s, keep, n, i);
    assert DroppedBelow(s, keep, n, i + 1) == before + (mine - left);
    assert before !! (mine - left);
  }

  lemma OfTierAdd(s: set<Request>, n: nat, x: Request)
    requires n >= 1
    ensures OfTier(s + {x}, n, TierFor(x.priority, n)) == OfTier(s, n, TierFor(x.priority, n)) + {x}
    ensures forall j :: j != TierFor(x.priority, n) ==> OfTier(s + {x}, n, j) == OfTier(s, n, j)
  {
  }

  lemma OfTierRemove(s: set<Request>, n: nat, x: Request)
    requires n >= 1
    ensures OfTier(s - {x}, n, TierFor(x.priority, n)) == OfTier(s, n, TierFor(x.priority, n)) - {x}
    ensures forall j :: j != TierFor(x.priority, n) ==> OfTier(s - {x}, n, j) == OfTier(s, n, j)
  {
  }
}
