/** A dictionary of heaps, one for each model: what `ModelDeadlineScheduler` keeps in `_queues` and does
    to it (scheduler/model_deadline.py:76-161). The dictionary is a value that the methods rebuild. */
module ModelHeaps {
  import opened Requests
  import opened BinaryHeap
  import opened OrderedDict
  import opened ServiceOrder
  import opened Eviction

  /** A Python dictionary: `keys` is its insertion order, in which it is iterated. */
  datatype Dict = Dict(keys: seq<ModelId>, at: map<ModelId, seq<Request>>)

  /** The requests of `s` that wait for `model`. */
  ghost function OfModel(s: set<Request>, model: ModelId): (mine: set<Request>) {
    set r | r in s && r.model == model
  }

  /** The keys, in their old order, of the models of which `s` still holds something. */
  ghost function StillHeld(keys: seq<ModelId>, s: set<Request>): (held: seq<ModelId>) {
    Filter(keys, (k: ModelId) => OfModel(s, k) != {})
  }

  /** `heap` is a heap of exactly the requests of `s` that wait for `model`. */
  ghost predicate Holds(heap: seq<Request>, s: set<Request>, model: ModelId) {
    IsHeap(heap) && Represents(heap, OfModel(s, model))
  }

  ghost predicate KeysMatch(d: Dict) {
    NoDuplicates(d.keys) && forall k :: k in d.keys <==> k in d.at
  }

  /** The dictionary stores `s`, and no key is left with an empty heap. */
  ghost predicate Stores(d: Dict, counter: nat, s: set<Request>) {
    && KeysMatch(d)
    && (forall k :: k in d.at ==> d.at[k] != [] && Holds(d.at[k], s, k))
    && (forall r :: r in s ==> r.model in d.at && r.counter < counter)
    && Distinct(s)
  }

  lemma {:induction false} SizesAddUp(keys: seq<ModelId>, at: map<ModelId, seq<Request>>, s: set<Request>)
    requires NoDuplicates(keys)
    requires forall k :: k in keys ==> k in at && Represents(at[k], OfModel(s, k))
    requires forall r :: r in s ==> r.model in keys
    ensures SumOfSizes(keys, at) == |s|
  {
    if keys == [] {
      assert s == {};
    } else {
      var front, last := keys[..|keys| - 1], keys[|keys| - 1];
      var mine, others := OfModel(s, last), s - OfModel(s, last);
      forall k | k in front ensures OfModel(others, k) == OfModel(s, k) {
        assert k != last;
      }
      forall r | r in others ensures r.model in front {
        assert keys == front + [last];
      }
      SizesAddUp(front, at, others);
      RepresentsMembers(at[last], mine);
      assert s == mine + others;
    }
  }

  // ---------- Push, pop ----------

  /** `heapq.heappush(self._queues[x.model], x)` on a dictionary that creates missing lists. */
  method PushIn(d: Dict, x: Request, ghost s: set<Request>) returns (d': Dict)
    requires Stores(d, x.counter, s)
    ensures x !in s && Stores(d', x.counter + 1, s + {x}) && |s + {x}| == |s| + 1
    ensures d'.keys == if x.model in d.keys then d.keys else d.keys + [x.model]
  {
    var model := x.model;
    var heap := if model in d.at then d.at[model] else [];
    assert model in d.at ==> Holds(d.at[model], s, model);
    var pushed := HeapPush(heap, x);
    var keys := d.keys;
    if model !in d.at {
      NoDuplicatesAppend(keys, model);
      keys := keys + [model];
    }
    d' := Dict(keys, d.at[model := pushed]);
    StoresPush(d, s, x, heap, pushed, d');
  }

  lemma StoresPush(d: Dict, s: set<Request>, x: Request, heap: seq<Request>, pushed: seq<Request>, d': Dict)
    requires Stores(d, x.counter, s)
    requires heap == if x.model in d.at then d.at[x.model] else []
    requires IsHeap(pushed) && multiset(pushed) == multiset(heap) + multiset{x}
    requires KeysMatch(d') && d'.at == d.at[x.model := pushed]
    ensures x !in s && Stores(d', x.counter + 1, s + {x})
  {
    OfModelAdd(s, x);
    if x.model !in d.at {
      assert OfModel(s, x.model) == {};
    }
    AddRepresents(heap, pushed, OfModel(s, x.model), x);
    assert Holds(pushed, s + {x}, x.model);
    DistinctAdd(s, x);
    forall k | k in d.at && k != x.model ensures Holds(d.at[k], s + {x}, k) {
      assert Holds(d.at[k], s, k);
    }
  }

  /** Pop the heap of `model`, and drop the key when the heap becomes empty. The popped request is the
      first of its model in service order, and the others keep their order. */
  method PopIn(d: Dict, model: ModelId, ghost counter: nat, ghost s: set<Request>)
    returns (d': Dict, x: Request)
    requires Stores(d, counter, s) && model in d.at
    ensures IsFirst(x, OfModel(s, model)) && x in s
    ensures Stores(d', counter, s - {x}) && |s - {x}| == |s| - 1
    ensures d'.keys == StillHeld(d.keys, s - {x})
    ensures Distinct(OfModel(s, model)) && Distinct(OfModel(s - {x}, model))
    ensures Order(OfModel(s, model)) == [x] + Order(OfModel(s - {x}, model))
  {
    var heap := d.at[model];
    assert Holds(heap, s, model);
    DistinctOfModel(s, model);
    var rest;
    x, rest := HeapPop(heap);
    PoppedIsFirst(heap, OfModel(s, model), x, rest);
    OfModelRemove(s, x);
    d' := Shrink(d, counter, s, x, rest);
  }

  /** Store back a heap that lost the request `x`; a heap left empty loses its key. */
  method Shrink(d: Dict, ghost counter: nat, ghost s: set<Request>, x: Request, rest: seq<Request>)
    returns (d': Dict)
    requires Stores(d, counter, s) && x in s
    requires IsHeap(rest) && Represents(rest, OfModel(s, x.model) - {x})
    ensures Stores(d', counter, s - {x}) && |s - {x}| == |s| - 1
    ensures d'.keys == StillHeld(d.keys, s - {x})
  {
    KeysOnce(d, counter, s, x);
    hide Stores, StillHeld, IsHeap, Represents, OfModel, NoDuplicates;
    ghost var keep: ModelId -> bool;
    if rest == [] {
      d' := Delete(d, x.model);
      keep := (k: ModelId) => k != x.model;
    } else {
      d' := d.(at := d.at[x.model := rest]);
      keep := (k: ModelId) => true;
      FilterUniform(d.keys, keep, true);
    }
    StoresRemove(d, counter, s, x, rest, d');
    KeptKeys(d.keys, keep, d', counter, s - {x});
  }

  lemma KeysOnce(d: Dict, counter: nat, s: set<Request>, x: Request)
    requires Stores(d, counter, s) && x in s
    ensures KeysMatch(d) && x.model in d.at
  {
  }

  /** In a dictionary without empty heaps, the keys are the models that have something queued. */
  lemma KeysAreHeld(d: Dict, counter: nat, s: set<Request>)
    requires Stores(d, counter, s)
    ensures forall k :: k in d.keys <==> OfModel(s, k) != {}
  {
    forall k ensures k in d.keys <==> OfModel(s, k) != {} {
      if k in d.at {
        assert Holds(d.at[k], s, k);
        RepresentsMembers(d.at[k], OfModel(s, k));
        assert d.at[k][0] in d.at[k];
      } else {
        assert forall r :: r in s ==> r.model in d.at;
      }
    }
  }

  lemma NothingDropped(d: Dict, counter: nat, s: set<Request>)
    requires Stores(d, counter, s)
    ensures StillHeld(d.keys, s) == d.keys && s - {} == s
  {
    KeysAreHeld(d, counter, s);
    FilterUniform(d.keys, (k: ModelId) => OfModel(s, k) != {}, true);
  }

  /** Keys that were filtered, and match what is stored now, are the old keys that still hold something. */
  lemma KeptKeys(keys: seq<ModelId>, keep: ModelId -> bool, d: Dict, counter: nat, s: set<Request>)
    requires Stores(d, counter, s) && d.keys == Filter(keys, keep)
    ensures d.keys == StillHeld(keys, s)
  {
    KeysAreHeld(d, counter, s);
    FilterElements(keys, keep);
    hide Stores, OfModel;
    FilterAgree(keys, keep, (k: ModelId) => OfModel(s, k) != {});
  }

  lemma StoresRemove(d: Dict, counter: nat, s: set<Request>, x: Request, rest: seq<Request>, d': Dict)
    requires Stores(d, counter, s) && x in s
    requires IsHeap(rest) && Represents(rest, OfModel(s, x.model) - {x})
    requires KeysMatch(d') && d'.at == if rest == [] then d.at - {x.model} else d.at[x.model := rest]
    ensures Stores(d', counter, s - {x})
  {
    OfModelRemove(s, x);
    forall k | k in d.at && k != x.model ensures Holds(d.at[k], s - {x}, k) {
      assert Holds(d.at[k], s, k);
    }
    if rest == [] {
      forall r | r in s - {x} ensures r.model != x.model {
        assert r.model == x.model ==> r in OfModel(s, x.model) - {x};
      }
    }
  }

  /** The root of the first heap precedes the roots of all others. */
  predicate FirstRootLeads(d: Dict) {
    forall i :: 0 < i < |d.keys| ==> RootPrecedes(d, d.keys[0], d.keys[i])
  }

  predicate RootPrecedes(d: Dict, k: ModelId, l: ModelId) {
    k in d.at && d.at[k] != [] && l in d.at && d.at[l] != [] && Before(d.at[k][0], d.at[l][0])
  }

  lemma RootOf(d: Dict, counter: nat, s: set<Request>, k: ModelId)
    requires Stores(d, counter, s) && k in d.at
    ensures IsFirst(d.at[k][0], OfModel(s, k)) && d.at[k][0] in s && d.at[k][0].model == k
  {
    var heap := d.at[k];
    assert Holds(heap, s, k);
    RepresentsMembers(heap, OfModel(s, k));
    RootIsFirst(heap);
    assert heap[0] in heap;
    forall y | y in OfModel(s, k) && y != heap[0] ensures Before(heap[0], y) {
      assert y in heap && !SameCounter(heap[0], y);
    }
  }

  /** Taking from the first model takes the first of all queued requests exactly when the root of its
      heap precedes the other roots. */
  lemma FirstModelHasFirstIff(d: Dict, counter: nat, s: set<Request>, x: Request)
    requires Stores(d, counter, s) && d.keys != [] && IsFirst(x, OfModel(s, d.keys[0]))
    ensures IsFirst(x, s) <==> FirstRootLeads(d)
  {
    var first := d.keys[0];
    RootOf(d, counter, s, first);
    assert x == d.at[first][0] by {
      assert Distinct(OfModel(s, first));
      FirstIsUnique(OfModel(s, first), x);
      FirstIsUnique(OfModel(s, first), d.at[first][0]);
    }
    if IsFirst(x, s) {
      OtherRootsAfter(d, counter, s, x);
    }
    if FirstRootLeads(d) {
      forall y | y in s && y != x ensures Before(x, y) {
        RootOf(d, counter, s, y.model);
        var i :| 0 <= i < |d.keys| && d.keys[i] == y.model;
        assert y in OfModel(s, y.model);
        assert i > 0 ==> RootPrecedes(d, first, d.keys[i]);
      }
    }
  }

  lemma OtherRootsAfter(d: Dict, counter: nat, s: set<Request>, x: Request)
    requires Stores(d, counter, s) && d.keys != [] && IsFirst(x, s)
    requires d.keys[0] in d.at && d.at[d.keys[0]] != [] && x == d.at[d.keys[0]][0]
    ensures FirstRootLeads(d)
  {
    forall i | 0 < i < |d.keys| ensures RootPrecedes(d, d.keys[0], d.keys[i]) {
      RootOf(d, counter, s, d.keys[0]);
      RootOf(d, counter, s, d.keys[i]);
      NoDuplicatesAt(d.keys, i);
      assert d.keys[0] == d.keys[..i][0];
    }
  }

  // ---------- One model after the other ----------

  /** The service orders of the given models, one after the other. */
  ghost function ModelByModel(keys: seq<ModelId>, s: set<Request>): (order: seq<Request>) {
    if keys == [] then []
    else (if Distinct(OfModel(s, keys[0])) then Order(OfModel(s, keys[0])) else []) + ModelByModel(keys[1..], s)
  }

  lemma {:induction false} NothingServed(keys: seq<ModelId>)
    ensures ModelByModel(keys, {}) == []
  {
    if keys != [] {
      NothingServed(keys[1..]);
      assert OfModel({}, keys[0]) == {};
    }
  }

  /** A model without requests adds nothing. */
  lemma {:induction false} HeldModelByModel(keys: seq<ModelId>, s: set<Request>)
    ensures ModelByModel(StillHeld(keys, s), s) == ModelByModel(keys, s)
  {
    if keys != [] {
      HeldModelByModel(keys[1..], s);
      if OfModel(s, keys[0]) == {} {
        assert Order({}) == [] && [] + ModelByModel(keys[1..], s) == ModelByModel(keys[1..], s);
      } else {
        assert StillHeld(keys, s) == [keys[0]] + StillHeld(keys[1..], s);
      }
    }
  }

  lemma {:induction false} OthersModelByModel(keys: seq<ModelId>, s: set<Request>, x: Request)
    requires x.model !in keys
    ensures ModelByModel(keys, s - {x}) == ModelByModel(keys, s)
  {
    if keys != [] {
      OthersModelByModel(keys[1..], s, x);
      assert OfModel(s - {x}, keys[0]) == OfModel(s, keys[0]);
    }
  }

  /** Taking the first request of the first model takes the head of that order, and the rest is the order of what
      is left. */
  lemma OneByOne(d: Dict, counter: nat, s: set<Request>, x: Request)
    requires Stores(d, counter, s) && d.keys != [] && IsFirst(x, OfModel(s, d.keys[0]))
    ensures ModelByModel(d.keys, s) == [x] + ModelByModel(StillHeld(d.keys, s - {x}), s - {x})
  {
    var first, rest := d.keys[0], d.keys[1..];
    HeldModelByModel(d.keys, s - {x});
    FirstOnlyOnce(d.keys);
    DistinctOfModel(s, first);
    DistinctSubset(OfModel(s, first), OfModel(s - {x}, first));
    assert OfModel(s - {x}, first) == OfModel(s, first) - {x};
    FirstIsUnique(OfModel(s, first), x);
    hide Stores, Distinct, StillHeld;
    OthersModelByModel(rest, s, x);
    ConcatAssociates([x], Order(OfModel(s - {x}, first)), ModelByModel(rest, s));
  }

  lemma FirstOnlyOnce(keys: seq<ModelId>)
    requires NoDuplicates(keys) && keys != []
    ensures keys[0] !in keys[1..]
  {
    assert keys == [keys[0]] + keys[1..];
    NoDuplicatesConcat([keys[0]], keys[1..]);
  }

  // ---------- Eviction ----------

  /** `_drop_oldest`: the victim is an oldest request over all models; it is the only one to leave. */
  method EvictIn(d: Dict, ghost counter: nat, ghost s: set<Request>) returns (d': Dict, victim: Option<Request>)
    requires Stores(d, counter, s)
    ensures victim.None? <==> s == {}
    ensures victim.None? ==> d' == d
    ensures victim.Some? ==>
              && IsOldest(victim.value, s)
              && Stores(d', counter, s - {victim.value})
              && d'.keys == StillHeld(d.keys, s - {victim.value})
              && |s - {victim.value}| == |s| - 1
  {
    var oldest;
    ghost var holder;
    oldest, holder := OldestModel(d, counter, s);
    if oldest.None? {
      return d, None;
    }
    var heap := d.at[oldest.value];
    assert Holds(heap, s, oldest.value);
    var v, rest := EvictOldest(heap);
    EvictedIsOldest(heap, s, oldest.value, holder.value, v, rest);
    d' := Shrink(d, counter, s, v, rest);
    victim := Some(v);
  }

  /** The scan over every heap: a model whose heap holds an oldest request. */
  method OldestModel(d: Dict, ghost counter: nat, ghost s: set<Request>)
    returns (oldest: Option<ModelId>, ghost holder: Option<Request>)
    requires Stores(d, counter, s)
    ensures oldest.None? <==> s == {}
    ensures oldest.Some? ==>
              && oldest.value in d.at && holder.Some?
              && holder.value in d.at[oldest.value] && IsOldest(holder.value, s)
  {
    oldest, holder := None, None;
    var oldestTime := 0.0;  // read only once `oldest` is set; the source starts from infinity
    for i := 0 to |d.keys|
      invariant oldest.None? <==> i == 0
      invariant oldest.Some? ==>
        && oldest.value in d.at && holder.Some?
        && holder.value in d.at[oldest.value] && holder.value.receivedAt == oldestTime
      invariant oldest.Some? ==>
        forall k, r :: k in d.keys[..i] && r in d.at[k] ==> oldestTime <= r.receivedAt
    {
      NoDuplicatesAt(d.keys, i);
      var heap := d.at[d.keys[i]];
      for j := 0 to |heap|
        invariant oldest.None? <==> i == 0 && j == 0
        invariant oldest.Some? ==>
          && oldest.value in d.at && holder.Some?
          && holder.value in d.at[oldest.value] && holder.value.receivedAt == oldestTime
        invariant oldest.Some? ==>
          forall k, r :: k in d.keys[..i] && r in d.at[k] ==> oldestTime <= r.receivedAt
        invariant oldest.Some? ==> forall r :: r in heap[..j] ==> oldestTime <= r.receivedAt
      {
        if oldest.None? || heap[j].receivedAt < oldestTime {
          oldestTime := heap[j].receivedAt;
          oldest := Some(d.keys[i]);
          holder := Some(heap[j]);
        }
        assert heap[..j + 1] == heap[..j] + [heap[j]];
      }
      assert heap[..|heap|] == heap;
    }
    assert d.keys[..|d.keys|] == d.keys;
    if oldest.Some? {
      assert Holds(d.at[oldest.value], s, oldest.value);
      RepresentsMembers(d.at[oldest.value], OfModel(s, oldest.value));
      forall r | r in s ensures oldestTime <= r.receivedAt {
        assert Holds(d.at[r.model], s, r.model);
        RepresentsMembers(d.at[r.model], OfModel(s, r.model));
        assert r in d.at[r.model] && r.model in d.keys;
      }
    } else {
      assert forall r :: r in s ==> r.model in d.keys;
    }
  }

  lemma EvictedIsOldest(heap: seq<Request>, s: set<Request>, model: ModelId,
                        oldest: Request, v: Request, rest: seq<Request>)
    requires Holds(heap, s, model)
    requires multiset(heap) == multiset(rest) + multiset{v}
    requires forall r :: r in heap ==> v.receivedAt <= r.receivedAt
    requires oldest in heap && IsOldest(oldest, s)
    ensures IsOldest(v, s) && v.model == model && Represents(rest, OfModel(s, model) - {v})
  {
    RepresentsMembers(heap, OfModel(s, model));
    assert v in multiset(heap);
    RemoveRepresents(heap, rest, OfModel(s, model), v);
  }

  // ---------- Filtering ----------

  /** What `tick` and `on_client_disconnected` do: filter every heap, restore the heap order where
      something was removed, then delete the models that became empty. */
  method KeepOnlyIn(d: Dict, keep: Request -> bool, ghost counter: nat, ghost s: set<Request>)
    returns (d': Dict, removed: nat)
    requires Stores(d, counter, s)
    ensures Stores(d', counter, Select(s, keep)) && d'.keys == StillHeld(d.keys, Select(s, keep))
    ensures |s| == |Select(s, keep)| + removed
  {
    var filtered, count, emptyModels := FilterHeaps(d, keep, s);
    d' := DeleteAll(filtered, emptyModels);
    removed := count;
    FilteredStores(filtered, d', counter, s, Select(s, keep));
    KeptKeys(d.keys, (k: ModelId) => k !in emptyModels, d', counter, Select(s, keep));
  }

  method FilterHeaps(d: Dict, keep: Request -> bool, ghost s: set<Request>)
    returns (filtered: Dict, removed: nat, emptyModels: seq<ModelId>)
    requires KeysMatch(d) && forall r :: r in s ==> r.model in d.at
    requires forall k :: k in d.at ==> Holds(d.at[k], s, k)
    ensures KeysMatch(filtered) && filtered.at.Keys == d.at.Keys && filtered.keys == d.keys
    ensures forall k :: k in filtered.at ==> Holds(filtered.at[k], Select(s, keep), k)
    ensures forall k :: k in emptyModels <==> k in filtered.at && filtered.at[k] == []
    ensures |s| == |Select(s, keep)| + removed
  {
    assert DroppedOf(s, keep, []) == {};
    hide Holds, Represents, IsHeap, OfModel, Select, DroppedOf, Filter;
    var at := d.at;
    removed, emptyModels := 0, [];
    for i := 0 to |d.keys|
      invariant at.Keys == d.at.Keys
      invariant forall k :: k in d.keys[..i] ==> Holds(at[k], Select(s, keep), k)
      invariant forall k :: k in d.at && k !in d.keys[..i] ==> at[k] == d.at[k]
      invariant forall k :: k in emptyModels <==> k in d.keys[..i] && at[k] == []
      invariant removed == |DroppedOf(s, keep, d.keys[..i])|
    {
      var model := d.keys[i];
      NoDuplicatesAt(d.keys, i);
      var heap := at[model];
      HeldIsHeap(heap, s, model);
      var survivors := FilterHeap(heap, keep);
      SurvivorsHeld(s, keep, d.keys[..i], model, heap, survivors);
      removed := removed + (|heap| - |survivors|);
      at := at[model := survivors];
      if survivors == [] {
        emptyModels := emptyModels + [model];
      }
    }
    assert d.keys[..|d.keys|] == d.keys;
    filtered := d.(at := at);
    SurvivorsAndDropped(s, keep, d.keys);
  }

  lemma HeldIsHeap(heap: seq<Request>, s: set<Request>, model: ModelId)
    requires Holds(heap, s, model)
    ensures IsHeap(heap)
  {
  }

  ghost function DroppedOf(s: set<Request>, keep: Request -> bool, models: seq<ModelId>): (gone: set<Request>) {
    set r | r in s && !keep(r) && r.model in models
  }

  /** One turn of the filter loop: what is left of a heap, and how many requests were dropped. */
  lemma SurvivorsHeld(s: set<Request>, keep: Request -> bool, seen: seq<ModelId>, model: ModelId,
                      heap: seq<Request>, survivors: seq<Request>)
    requires Holds(heap, s, model) && model !in seen
    requires IsHeap(survivors) && multiset(survivors) == multiset(Filter(heap, keep))
    ensures Holds(survivors, Select(s, keep), model)
    ensures |DroppedOf(s, keep, seen + [model])| == |DroppedOf(s, keep, seen)| + |heap| - |survivors|
    ensures |survivors| <= |heap|
  {
    var mine, left := OfModel(s, model), OfModel(Select(s, keep), model);
    DroppedOneMore(s, keep, seen, model);
    hide OfModel, Select, DroppedOf, Filter, IsHeap;
    FilterRepresents(heap, mine, keep);
    RepresentsMembers(heap, mine);
    RepresentsMembers(survivors, left);
  }

  lemma DroppedOneMore(s: set<Request>, keep: Request -> bool, seen: seq<ModelId>, model: ModelId)
    requires model !in seen
    ensures OfModel(Select(s, keep), model) == Select(OfModel(s, model), keep)
    ensures |OfModel(Select(s, keep), model)| <= |OfModel(s, model)|
    ensures |DroppedOf(s, keep, seen + [model])|
            == |DroppedOf(s, keep, seen)| + |OfModel(s, model)| - |OfModel(Select(s, keep), model)|
  {
    var mine, left, before := OfModel(s, model), OfModel(Select(s, keep), model), DroppedOf(s, keep, seen);
    assert left == Select(mine, keep) && mine == left + (mine - left);
    assert DroppedOf(s, keep, seen + [model]) == before + (mine - left);
    assert before !! (mine - left);
  }

  lemma SurvivorsAndDropped(s: set<Request>, keep: Request -> bool, models: seq<ModelId>)
    requires forall r :: r in s ==> r.model in models
    ensures |s| == |Select(s, keep)| + |DroppedOf(s, keep, models)|
  {
    assert s == Select(s, keep) + DroppedOf(s, keep, models);
  }

  /** Heaps that hold the survivors store them once the empty heaps are gone. */
  lemma FilteredStores(filtered: Dict, d: Dict, counter: nat, s: set<Request>, kept: set<Request>)
    requires kept <= s && Distinct(s) && forall r :: r in s ==> r.model in filtered.at && r.counter < counter
    requires forall k :: k in filtered.at ==> Holds(filtered.at[k], kept, k)
    requires KeysMatch(d)
    requires forall k :: k in d.at <==> k in filtered.at && filtered.at[k] != []
    requires forall k :: k in d.at ==> d.at[k] == filtered.at[k]
    ensures Stores(d, counter, kept)
  {
    forall r | r in kept ensures r.model in d.at {
      assert Holds(filtered.at[r.model], kept, r.model);
      RepresentsMembers(filtered.at[r.model], OfModel(kept, r.model));
      assert r in OfModel(kept, r.model);
    }
  }

  /** `for model_id in empty_models: del self._queues[model_id]`. */
  method DeleteAll(d: Dict, models: seq<ModelId>) returns (d': Dict)
    requires KeysMatch(d)
    ensures KeysMatch(d')
    ensures forall k :: k in d'.at <==> k in d.at && k !in models
    ensures forall k :: k in d'.at ==> d'.at[k] == d.at[k]
    ensures d'.keys == Filter(d.keys, (k: ModelId) => k !in models)
  {
    d' := d;
    FilterUniform(d.keys, (k: ModelId) => k !in models[..0], true);
    for i := 0 to |models|
      invariant KeysMatch(d') && d'.keys == Filter(d.keys, (k: ModelId) => k !in models[..i])
      invariant forall k :: k in d'.at <==> k in d.at && k !in models[..i]
      invariant forall k :: k in d'.at ==> d'.at[k] == d.at[k]
    {
      d' := Delete(d', models[i]);
      FilterOneMore(d.keys, models, i);
      assert models[..i + 1] == models[..i] + [models[i]];
    }
    assert models[..|models|] == models;
  }

  lemma FilterOneMore(keys: seq<ModelId>, models: seq<ModelId>, i: nat)
    requires i < |models|
    ensures Filter(Filter(keys, (k: ModelId) => k !in models[..i]), (k: ModelId) => k != models[i])
            == Filter(keys, (k: ModelId) => k !in models[..i + 1])
  {
    var f, g := (k: ModelId) => k !in models[..i], (k: ModelId) => k != models[i];
    assert models[..i + 1] == models[..i] + [models[i]];
    FilterFilter(keys, f, g, (k: ModelId) => k !in models[..i + 1]);
  }

  /** `del self._queues[model]`: the other keys keep their order. */
  method Delete(d: Dict, model: ModelId) returns (d': Dict)
    requires KeysMatch(d)
    ensures KeysMatch(d') && d'.at == d.at - {model}
    ensures d'.keys == Filter(d.keys, (k: ModelId) => k != model)
  {
    var others := (k: ModelId) => k != model;
    NoDuplicatesFilter(d.keys, others);
    FilterElements(d.keys, others);
    d' := Dict(Filter(d.keys, others), d.at - {model});
  }

  /** For every model, the survivors of a filter are served in the order in which they would have been. */
  lemma RemovalKeepsOrderForAll(s: set<Request>, keep: Request -> bool)
    requires Distinct(s)
    ensures Distinct(Select(s, keep))
    ensures forall m :: Distinct(OfModel(s, m)) && Distinct(OfModel(Select(s, keep), m))
                        && Order(OfModel(Select(s, keep), m)) == Filter(Order(OfModel(s, m)), keep)
  {
    forall m
      ensures Distinct(OfModel(s, m)) && Distinct(OfModel(Select(s, keep), m))
              && Order(OfModel(Select(s, keep), m)) == Filter(Order(OfModel(s, m)), keep)
    {
      DistinctOfModel(s, m);
      RemovalKeepsOrder(OfModel(s, m), keep);
      assert Select(OfModel(s, m), keep) == OfModel(Select(s, keep), m);
    }
  }

  lemma EvictionKeepsOrderForAll(s: set<Request>, victim: Request)
    requires Distinct(s)
    ensures forall m :: Distinct(OfModel(s, m)) && Distinct(OfModel(s - {victim}, m))
                        && Order(OfModel(s - {victim}, m)) == Filter(Order(OfModel(s, m)), Except(victim))
  {
    SelectExcept(s, victim);
    RemovalKeepsOrderForAll(s, Except(victim));
  }

  /** Nor does a submission reorder anything: without the new request, every model is served in the old
      order without the evicted ones. */
  lemma SubmitKeepsOrderForAll(s: set<Request>, gone: set<Request>, x: Request)
    requires Distinct(s) && Distinct(s - gone + {x}) && x !in s
    ensures forall m :: Distinct(OfModel(s, m)) && Distinct(OfModel(s - gone + {x}, m))
                        && Filter(Order(OfModel(s - gone + {x}, m)), Except(x))
                           == Filter(Order(OfModel(s, m)), NotIn(gone))
  {
    SelectReplaced(s, gone, x);
    RemovalKeepsOrderForAll(s, NotIn(gone));
    RemovalKeepsOrderForAll(s - gone + {x}, Except(x));
  }

  // ---------- Small facts ----------

  lemma DistinctOfModel(s: set<Request>, model: ModelId)
    requires Distinct(s)
    ensures Distinct(OfModel(s, model))
  {
  }

  lemma DistinctAdd(s: set<Request>, x: Request)
    requires Distinct(s) && forall r :: r in s ==> r.counter < x.counter
    ensures Distinct(s + {x})
  {
  }

  lemma OfModelAdd(s: set<Request>, x: Request)
    ensures OfModel(s + {x}, x.model) == OfModel(s, x.model) + {x}
    ensures forall m :: m != x.model ==> OfModel(s + {x}, m) == OfModel(s, m)
  {
  }

  lemma OfModelRemove(s: set<Request>, x: Request)
    ensures OfModel(s - {x}, x.model) == OfModel(s, x.model) - {x}
    ensures forall m :: m != x.model ==> OfModel(s - {x}, m) == OfModel(s, m)
  {
  }
}
