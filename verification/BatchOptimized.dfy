/** `BatchOptimizedScheduler` (scheduler/batch_optimized.py): one queue and one arrival timer per model. */
module BatchOptimized {
  import opened Requests
  import opened OrderedDict
  import opened Deques

  /** The configuration schema demands at least one request per batch and a positive waiting time. */
  datatype BatchPolicy = BatchPolicy(maxQueue: nat, maxBatch: nat, maxWaitMs: real, ttlMs: real, dropOldest: bool)
  {
    predicate Legal() {
      maxBatch >= 1 && maxWaitMs > 0.0
    }
  }

  datatype Batcher = Batcher(queues: Queues<ModelId>, firstArrival: map<ModelId, real>)

  datatype Event =
    | Submit(request: Request, now: real)
    | Resubmit(request: Request, now: real)
    | Tick(now: real)
    | Disconnect(client: ClientId)
    | NextBatch(now: real)

  ghost predicate OwnModels(b: Batcher) {
    forall m, r :: m in b.queues.at && r in b.queues.at[m] ==> r.model == m
  }

  /** A model with something queued has an arrival timer, and only models with a queue have one. */
  ghost predicate Timed(b: Batcher) {
    && (forall m :: m in b.queues.at && b.queues.at[m] != [] ==> m in b.firstArrival)
    && (forall m :: m in b.firstArrival ==> m in b.queues.at)
  }

  ghost predicate Consistent(b: Batcher) {
    WellFormed(b.queues) && OwnModels(b) && Timed(b)
  }

  /** The test of `next_batch`: a full batch, or the timer has run for long enough. */
  predicate Ready(policy: BatchPolicy, b: Batcher, m: ModelId, now: real)
    requires m in b.queues.at
  {
    b.queues.at[m] != [] &&
    (|b.queues.at[m]| >= policy.maxBatch
     || (now - (if m in b.firstArrival then b.firstArrival[m] else now)) * 1000.0 >= policy.maxWaitMs)
  }

  /** The first model, in dictionary order, that is ready; the number of models if there is none. */
  ghost function FirstReady(policy: BatchPolicy, b: Batcher, keys: seq<ModelId>, now: real): (i: nat)
    requires forall k :: k in keys ==> k in b.queues.at
    ensures i <= |keys| && forall j :: 0 <= j < i ==> !Ready(policy, b, keys[j], now)
    ensures i < |keys| ==> Ready(policy, b, keys[i], now)
  {
    if keys == [] || Ready(policy, b, keys[0], now) then 0 else 1 + FirstReady(policy, b, keys[1..], now)
  }

  /** How much of a queue fits into one batch. */
  function Fit(policy: BatchPolicy, q: seq<Request>): (n: nat)
    ensures n <= |q| && n <= policy.maxBatch && (n == |q| || n == policy.maxBatch)
  {
    if |q| < policy.maxBatch then |q| else policy.maxBatch
  }

  ghost function Batch(policy: BatchPolicy, b: Batcher, now: real): (batch: seq<Request>)
    requires WellFormed(b.queues)
  {
    var keys := b.queues.keys;
    var i := FirstReady(policy, b, keys, now);
    if i == |keys| then [] else b.queues.at[keys[i]][..Fit(policy, b.queues.at[keys[i]])]
  }

  /** A model's queue after its batch was taken at time `now`: the timer restarts for what is left. */
  function Taken(policy: BatchPolicy, b: Batcher, m: ModelId, now: real): (after: Batcher)
    requires m in b.queues.at
  {
    var q := b.queues.at[m];
    var rest := q[Fit(policy, q)..];
    Batcher(b.queues.(at := b.queues.at[m := rest]),
            if rest != [] then b.firstArrival[m := now] else b.firstArrival - {m})
  }

  ghost function Flushed(policy: BatchPolicy, b: Batcher, now: real): (after: Batcher)
    requires WellFormed(b.queues)
  {
    var keys := b.queues.keys;
    var i := FirstReady(policy, b, keys, now);
    if i == |keys| then b else Taken(policy, b, keys[i], now)
  }

  function Queue(b: Batcher, r: Request, now: real): (after: Batcher) {
    Batcher(Append(b.queues, r.model, r),
            if r.model in b.firstArrival then b.firstArrival else b.firstArrival[r.model := now])
  }

  ghost function Evicted(b: Batcher): (after: Batcher)
    requires WellFormed(b.queues)
  {
    var oldest := OldestHead(b.queues.keys, b.queues.at);
    var rest := DropHead(b.queues);
    Batcher(rest,
            if oldest.Some? && rest.at[oldest.value] == [] then b.firstArrival - {oldest.value} else b.firstArrival)
  }

  /** `tick` stops the timers of the models it finds or leaves empty. */
  ghost function Ticked(b: Batcher, keep: Request -> bool): (after: Batcher) {
    var rest := KeepOnly(b.queues, keep);
    Batcher(rest, map m | m in b.firstArrival && !(m in rest.at && rest.at[m] == []) :: b.firstArrival[m])
  }

  ghost function After(policy: BatchPolicy, b: Batcher, e: Event): (after: Batcher)
    requires WellFormed(b.queues)
  {
    match e
    case Submit(r, now) =>
      if Total(b.queues) < policy.maxQueue then Queue(b, r, now)
      else if policy.dropOldest then Queue(Evicted(b), r, now)
      else b
    case Resubmit(r, now) => Queue(b, r, now)
    case Tick(now) => Ticked(b, NotExpired(now, policy.ttlMs))
    case Disconnect(client) => b.(queues := KeepOnly(b.queues, NotFrom(client)))
    case NextBatch(now) => Flushed(policy, b, now)
  }

  lemma QueueIsConsistent(b: Batcher, r: Request, now: real)
    requires Consistent(b)
    ensures Consistent(Queue(b, r, now)) && Total(Queue(b, r, now).queues) == Total(b.queues) + 1
  {
    AppendAddsOne(b.queues, r.model, r);
  }

  lemma EvictedIsConsistent(b: Batcher)
    requires Consistent(b)
    ensures Consistent(Evicted(b))
    ensures Total(Evicted(b).queues) == if Total(b.queues) > 0 then Total(b.queues) - 1 else 0
  {
    DropHeadRemovesOne(b.queues);
    var oldest := OldestHead(b.queues.keys, b.queues.at);
    if oldest.Some? {
      var q := b.queues.at[oldest.value];
      assert forall r :: r in q[1..] ==> r in q;
    }
  }

  lemma KeepOnlyOwnModels(b: Batcher, keep: Request -> bool)
    requires WellFormed(b.queues) && OwnModels(b)
    ensures WellFormed(KeepOnly(b.queues, keep))
    ensures forall m, r :: m in b.queues.at && r in KeepOnly(b.queues, keep).at[m] ==> r.model == m
    ensures forall m :: m in b.queues.at && KeepOnly(b.queues, keep).at[m] != [] ==> b.queues.at[m] != []
  {
    forall m | m in b.queues.at
      ensures forall r :: r in Filter(b.queues.at[m], keep) ==> r in b.queues.at[m]
    {
      FilterElements(b.queues.at[m], keep);
    }
  }

  lemma FlushedIsConsistent(policy: BatchPolicy, b: Batcher, now: real)
    requires Consistent(b)
    ensures Consistent(Flushed(policy, b, now))
    ensures Total(Flushed(policy, b, now).queues) == Total(b.queues) - |Batch(policy, b, now)|
  {
    var keys := b.queues.keys;
    var i := FirstReady(policy, b, keys, now);
    if i < |keys| {
      var q := b.queues.at[keys[i]];
      var n := Fit(policy, q);
      SumUpdate(keys, b.queues.at, keys[i], q[n..]);
      assert forall r :: r in q[n..] ==> r in q;
    }
  }

  lemma AfterIsConsistent(policy: BatchPolicy, b: Batcher, e: Event)
    requires Consistent(b)
    ensures Consistent(After(policy, b, e))
  {
    match e
    case Submit(r, now) =>
      QueueIsConsistent(b, r, now);
      EvictedIsConsistent(b);
      QueueIsConsistent(Evicted(b), r, now);
    case Resubmit(r, now) => QueueIsConsistent(b, r, now);
    case Tick(now) => KeepOnlyOwnModels(b, NotExpired(now, policy.ttlMs));
    case Disconnect(client) => KeepOnlyOwnModels(b, NotFrom(client));
    case NextBatch(now) => FlushedIsConsistent(policy, b, now);
  }

  // ---------- The scheduler ----------

  class BatchOptimizedScheduler {
    const policy: BatchPolicy

    var byModel: Queues<ModelId>
    var firstArrival: map<ModelId, real>
    var total: int

    ghost function State(): (b: Batcher)
      reads this
    {
      Batcher(byModel, firstArrival)
    }

    ghost predicate Valid()
      reads this
    {
      policy.Legal() && Consistent(State()) && total == Total(byModel)
    }

    constructor (policy: BatchPolicy)
      requires policy.Legal()
      ensures Valid() && State() == Batcher(Queues([], map[]), map[]) && this.policy == policy
    {
      this.policy := policy;
      byModel, firstArrival, total := Queues([], map[]), map[], 0;
    }

    method Submit(request: Request, now: real) returns (result: SubmitResult)
      requires Valid()
      modifies this
      ensures Valid()
      ensures State() == After(policy, old(State()), Event.Submit(request, now))
      ensures result == if !policy.dropOldest && old(total) >= policy.maxQueue
                        then QueueFull(request.client) else Queued(request)
      ensures result.QueueFull? ==> unchanged(this)
      ensures result.Queued? ==>
                total == if old(total) >= policy.maxQueue && old(total) > 0 then old(total) else old(total) + 1
    {
      hide OwnModels, Timed, WellFormed, SumOfSizes, Evicted, Queue;
      if total >= policy.maxQueue {
        if policy.dropOldest {
          DropOldest();
        } else {
          return QueueFull(request.client);
        }
      }
      Resubmit(request, now);
      result := Queued(request);
    }

    method DropOldest()
      requires Valid()
      modifies this
      ensures Valid() && State() == Evicted(old(State()))
      ensures total == if old(total) > 0 then old(total) - 1 else 0
    {
      EvictedIsConsistent(State());
      DropHeadRemovesOne(byModel);
      var oldest := FindOldestHead(byModel);
      hide OwnModels, Timed, WellFormed, SumOfSizes, Total;
      if oldest.Some? {
        byModel := byModel.(at := byModel.at[oldest.value := byModel.at[oldest.value][1..]]);
        total := total - 1;
        if byModel.at[oldest.value] == [] {
          firstArrival := firstArrival - {oldest.value};
        }
      }
    }

    method Resubmit(request: Request, now: real)
      requires Valid()
      modifies this
      ensures Valid() && total == old(total) + 1
      ensures State() == After(policy, old(State()), Event.Resubmit(request, now))
    {
      QueueIsConsistent(State(), request, now);
      hide OwnModels, Timed, WellFormed, SumOfSizes, Append;
      if request.model !in firstArrival {
        firstArrival := firstArrival[request.model := now];
      }
      byModel := Append(byModel, request.model, request);
      total := total + 1;
    }

    /** `next_batch`: the oldest requests, in order, of the first model that is ready; at most a full
        batch of them. */
    method NextBatch(now: real) returns (batch: seq<Request>)
      requires Valid()
      modifies this
      ensures Valid() && total == old(total) - |batch| && |batch| <= policy.maxBatch
      ensures batch == Batch(policy, old(State()), now)
      ensures State() == After(policy, old(State()), Event.NextBatch(now))
      ensures batch != [] ==> exists m :: FifoPrefix(old(byModel), batch, byModel, m)
      ensures batch == [] <==>
                forall m :: m in old(byModel.at) && old(byModel.at)[m] != [] ==>
                  && |old(byModel.at)[m]| < policy.maxBatch
                  && (now - old(firstArrival)[m]) * 1000.0 < policy.maxWaitMs
    {
      FlushedIsConsistent(policy, State(), now);
      NothingReady(now);
      var ready := FindReady(policy, byModel, firstArrival, now);
      if ready == |byModel.keys| {
        return [];
      }
      ghost var was := State();
      var m := byModel.keys[ready];
      hide OwnModels, Timed, SumOfSizes, Ready, FirstReady;
      var taken, rest := TakeBatch(policy, byModel.at[m]);
      total := total - |taken|;
      byModel := byModel.(at := byModel.at[m := rest]);
      if rest != [] {
        firstArrival := firstArrival[m := now];
      } else {
        firstArrival := firstArrival - {m};
      }
      assert State() == Taken(policy, was, m, now);
      assert FifoPrefix(was.queues, taken, byModel, m);
      batch := taken;
    }

    /** Nothing is handed out exactly while no model has a full batch and no timer has run long enough. */
    lemma NothingReady(now: real)
      requires Valid()
      ensures Batch(policy, State(), now) == [] <==>
                forall m :: m in byModel.at && byModel.at[m] != [] ==>
                  |byModel.at[m]| < policy.maxBatch && (now - firstArrival[m]) * 1000.0 < policy.maxWaitMs
    {
      var i := FirstReady(policy, State(), byModel.keys, now);
      forall m | m in byModel.at && byModel.at[m] != []
        ensures Ready(policy, State(), m, now) <==>
                |byModel.at[m]| >= policy.maxBatch || (now - firstArrival[m]) * 1000.0 >= policy.maxWaitMs
      {
      }
      if i < |byModel.keys| {
        assert Fit(policy, byModel.at[byModel.keys[i]]) > 0;
      } else {
        assert forall m :: m in byModel.keys ==> !Ready(policy, State(), m, now);
      }
    }

    method Tick(now: real) returns (expired: nat)
      requires Valid()
      modifies this
      ensures Valid()
      ensures State() == After(policy, old(State()), Event.Tick(now))
      ensures byModel.keys == old(byModel.keys)
      ensures forall m :: m in byModel.at ==>
                m in old(byModel.at) && byModel.at[m] == Filter(old(byModel.at)[m], NotExpired(now, policy.ttlMs))
      ensures expired == old(total) - total
    {
      AfterIsConsistent(policy, State(), Event.Tick(now));
      var rest, timers, removed := TickQueues(byModel, firstArrival, NotExpired(now, policy.ttlMs));
      hide OwnModels, Timed, SumOfSizes, WellFormed, Ticked;
      byModel, firstArrival := rest, timers;
      total := total - removed;
      expired := removed;
    }

    method OnClientDisconnected(client: ClientId)
      requires Valid()
      modifies this
      ensures Valid()
      ensures State() == After(policy, old(State()), Disconnect(client))
      ensures byModel.keys == old(byModel.keys) && firstArrival == old(firstArrival)
      ensures forall m :: m in byModel.at ==>
                m in old(byModel.at) && byModel.at[m] == Filter(old(byModel.at)[m], NotFrom(client))
    {
      AfterIsConsistent(policy, State(), Disconnect(client));
      var rest, removed := FilterQueues(byModel, NotFrom(client));
      hide OwnModels, Timed, SumOfSizes, WellFormed, KeepOnly;
      byModel := rest;
      total := total - removed;
    }
  }

  /** What was queued for `m` is the batch followed by what is queued now; nothing else changed. */
  ghost predicate FifoPrefix(before: Queues<ModelId>, batch: seq<Request>, after: Queues<ModelId>, m: ModelId) {
    && m in before.at && m in after.at
    && before.at[m] == batch + after.at[m]
    && after == before.(at := before.at[m := after.at[m]])
  }

  /** The scan of `next_batch` over the models. */
  method FindReady(policy: BatchPolicy, d: Queues<ModelId>, firstArrival: map<ModelId, real>, now: real)
    returns (i: nat)
    requires WellFormed(d)
    ensures i == FirstReady(policy, Batcher(d, firstArrival), d.keys, now)
  {
    i := 0;
    while i < |d.keys|
      invariant i <= FirstReady(policy, Batcher(d, firstArrival), d.keys, now)
    {
      var model := d.keys[i];
      var q := d.at[model];
      if q != [] {
        var first := if model in firstArrival then firstArrival[model] else now;
        if |q| >= policy.maxBatch || (now - first) * 1000.0 >= policy.maxWaitMs {
          return;
        }
      }
      i := i + 1;
    }
  }

  /** The inner loop of `next_batch`. */
  method TakeBatch(policy: BatchPolicy, q: seq<Request>) returns (batch: seq<Request>, rest: seq<Request>)
    ensures batch == q[..Fit(policy, q)] && rest == q[Fit(policy, q)..]
  {
    batch, rest := [], q;
    while rest != [] && |batch| < policy.maxBatch
      invariant |batch| <= Fit(policy, q) && batch == q[..|batch|] && rest == q[|batch|..]
      decreases |rest|
    {
      batch := batch + [rest[0]];
      rest := rest[1..];
    }
  }

  /** The loop of `tick`: filter each queue, and stop the timer where nothing is left. */
  method TickQueues(d: Queues<ModelId>, firstArrival: map<ModelId, real>, keep: Request -> bool)
    returns (rest: Queues<ModelId>, timers: map<ModelId, real>, removed: nat)
    requires WellFormed(d)
    ensures Batcher(rest, timers) == Ticked(Batcher(d, firstArrival), keep)
    ensures WellFormed(rest) && Total(d) == Total(rest) + removed
  {
    rest, timers, removed := d, firstArrival, 0;
    for i := 0 to |d.keys|
      invariant FilteredUpTo(d, keep, i, rest)
      invariant WellFormed(rest) && Total(d) == Total(rest) + removed
      invariant TimersUpTo(d, keep, i, firstArrival, timers)
    {
      FilterStep(d, keep, i, rest);
      TimersStep(d, keep, i, firstArrival, timers);
      hide FilteredUpTo, WellFormed, SumOfSizes, TimersUpTo;
      var key := d.keys[i];
      var survivors := Filter(rest.at[key], keep);
      removed := removed + (|rest.at[key]| - |survivors|);
      rest := rest.(at := rest.at[key := survivors]);
      if survivors == [] {
        timers := timers - {key};
      }
    }
    FilteredAll(d, keep, rest);
    assert d.keys[..|d.keys|] == d.keys;
    assert timers == Ticked(Batcher(d, firstArrival), keep).firstArrival;
  }

  ghost predicate TimersUpTo(d: Queues<ModelId>, keep: Request -> bool, n: nat,
                             firstArrival: map<ModelId, real>, timers: map<ModelId, real>)
    requires WellFormed(d) && n <= |d.keys|
  {
    timers == map m | m in firstArrival && !(m in d.keys[..n] && Filter(d.at[m], keep) == []) :: firstArrival[m]
  }

  lemma TimersStep(d: Queues<ModelId>, keep: Request -> bool, n: nat,
                   firstArrival: map<ModelId, real>, timers: map<ModelId, real>)
    requires WellFormed(d) && n < |d.keys| && TimersUpTo(d, keep, n, firstArrival, timers)
    ensures TimersUpTo(d, keep, n + 1, firstArrival,
                       if Filter(d.at[d.keys[n]], keep) == [] then timers - {d.keys[n]} else timers)
  {
    assert d.keys[..n + 1] == d.keys[..n] + [d.keys[n]];
  }
}
