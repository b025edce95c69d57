/** What a run of the batching scheduler guarantees: timers, first-in first-out batches, and how many
    calls of `next_batch` empty it. */
module BatchFlush {
  import opened Requests
  import opened OrderedDict
  import opened Deques
  import opened BatchOptimized

  ghost function End(policy: BatchPolicy, b: Batcher, es: seq<Event>): (e: Batcher)
    requires Consistent(b)
    ensures Consistent(e)
    decreases |es|
  {
    if es == [] then b else AfterIsConsistent(policy, b, es[0]); End(policy, After(policy, b, es[0]), es[1..])
  }

  // ---------- Timers ----------

  /** In every reachable state a model with something queued has an arrival timer. */
  lemma QueuedIsTimed(policy: BatchPolicy, es: seq<Event>, m: ModelId)
    ensures var b := End(policy, Batcher(Queues([], map[]), map[]), es);
            m in b.queues.at && b.queues.at[m] != [] ==> m in b.firstArrival
  {
  }

  /** A timer runs for `m` although nothing is queued for it. */
  ghost predicate StaleAt(b: Batcher, m: ModelId) {
    m in b.firstArrival && !(m in b.queues.at && b.queues.at[m] != [])
  }

  /** `client` has queued all there is for `m`. */
  ghost predicate HoldsAlone(b: Batcher, client: ClientId, m: ModelId) {
    m in b.queues.at && b.queues.at[m] != [] && forall r :: r in b.queues.at[m] ==> r.client == client
  }

  ghost predicate Accepts(policy: BatchPolicy, b: Batcher)
    requires WellFormed(b.queues)
  {
    Total(b.queues) < policy.maxQueue || policy.dropOldest
  }

  lemma {:induction false} FilterIsEmpty(q: seq<Request>, keep: Request -> bool)
    ensures Filter(q, keep) == [] <==> forall r :: r in q ==> !keep(r)
  {
    FilterElements(q, keep);
    if Filter(q, keep) != [] {
      assert Filter(q, keep)[0] in Filter(q, keep);
    } else {
      forall r | r in q ensures !keep(r) {
        assert keep(r) ==> r in Filter(q, keep);
      }
    }
  }

  /** When a step leaves a stale timer, in any state: only the disconnect of a client that holds a queue
      alone makes one, a request for the model puts it to use, and a tick stops it. */
  lemma StaleAfterIff(policy: BatchPolicy, b: Batcher, e: Event, m: ModelId)
    requires Consistent(b)
    ensures StaleAt(After(policy, b, e), m) <==>
            match e
            case Submit(r, _) => StaleAt(b, m) && !(m == r.model && Accepts(policy, b))
            case Resubmit(r, _) => StaleAt(b, m) && m != r.model
            case Tick(_) => false
            case Disconnect(client) => StaleAt(b, m) || HoldsAlone(b, client, m)
            case NextBatch(_) => StaleAt(b, m)
  {
    hide StaleAt, OwnModels, Timed, HoldsAlone;
    match e
    case Submit(r, now) =>
      StaleAfterQueue(b, r, now, m);
      EvictedIsConsistent(b);
      StaleAfterEviction(b, m);
      StaleAfterQueue(Evicted(b), r, now, m);
    case Resubmit(r, now) => StaleAfterQueue(b, r, now, m);
    case Tick(now) => NoneStaleAfterTick(b, NotExpired(now, policy.ttlMs), m);
    case Disconnect(client) => StaleAfterDisconnect(b, client, m);
    case NextBatch(now) => StaleAfterBatch(policy, b, now, m);
  }

  lemma StaleAfterQueue(b: Batcher, r: Request, now: real, m: ModelId)
    ensures StaleAt(Queue(b, r, now), m) <==> StaleAt(b, m) && m != r.model
  {
  }

  lemma StaleAfterEviction(b: Batcher, m: ModelId)
    requires Consistent(b)
    ensures StaleAt(Evicted(b), m) <==> StaleAt(b, m)
  {
  }

  lemma NoneStaleAfterTick(b: Batcher, keep: Request -> bool, m: ModelId)
    requires Consistent(b)
    ensures !StaleAt(Ticked(b, keep), m)
  {
  }

  lemma StaleAfterDisconnect(b: Batcher, client: ClientId, m: ModelId)
    requires Consistent(b)
    ensures StaleAt(b.(queues := KeepOnly(b.queues, NotFrom(client))), m)
            <==> StaleAt(b, m) || HoldsAlone(b, client, m)
  {
    if m in b.queues.at {
      FilterIsEmpty(b.queues.at[m], NotFrom(client));
    }
  }

  lemma StaleAfterBatch(policy: BatchPolicy, b: Batcher, now: real, m: ModelId)
    requires Consistent(b)
    ensures StaleAt(Flushed(policy, b, now), m) <==> StaleAt(b, m)
  {
  }

  ghost function Empty(): (b: Batcher)
    ensures Consistent(b) && Total(b.queues) == 0
  {
    Batcher(Queues([], map[]), map[])
  }

  /** One model with a queue, and a timer. */
  ghost function OneModel(m: ModelId, q: seq<Request>, started: real): (b: Batcher) {
    Batcher(Queues([m], map[m := q]), map[m := started])
  }

  /** One model, no request, and a timer that started at time zero. */
  ghost function Stale(m: ModelId): (b: Batcher) {
    OneModel(m, [], 0.0)
  }

  lemma StaleIsConsistent(m: ModelId)
    ensures Consistent(Stale(m)) && Total(Stale(m).queues) == 0
  {
    assert [m][..0] == [];
    SumIsZero([m], Stale(m).queues.at);
  }

  lemma SubmitToEmpty(policy: BatchPolicy, r: Request)
    requires policy.maxQueue >= 1
    ensures After(policy, Empty(), Submit(r, 0.0)) == OneModel(r.model, [r], 0.0)
  {
    assert Queue(Empty(), r, 0.0) == OneModel(r.model, [r], 0.0) by {
      assert [] + [r.model] == [r.model] && [] + [r] == [r];
    }
  }

  /** A client submits and disconnects: its model has a timer and nothing queued. */
  lemma StaleIsReachable(policy: BatchPolicy, r: Request)
    requires policy.maxQueue >= 1
    ensures WellFormed(After(policy, Empty(), Submit(r, 0.0)).queues)
    ensures After(policy, After(policy, Empty(), Submit(r, 0.0)), Disconnect(r.client)) == Stale(r.model)
  {
    AfterIsConsistent(policy, Empty(), Submit(r, 0.0));
    SubmitToEmpty(policy, r);
    hide Consistent, WellFormed, Total, Queue, Empty;
    FilterIsEmpty([r], NotFrom(r.client));
    assert KeepOnly(OneModel(r.model, [r], 0.0).queues, NotFrom(r.client)).at == map[r.model := []];
  }

  /** A timer left running releases a batch early: a request alone in its queue is handed out at once,
      although no full batch has gathered and it has not waited at all. */
  lemma StaleTimerFlushesEarly(policy: BatchPolicy, s: Request)
    requires policy.Legal() && policy.maxQueue >= 1
    ensures WellFormed(Stale(s.model).queues)
    ensures var t := policy.maxWaitMs / 1000.0;
            var b := After(policy, Stale(s.model), Submit(s, t));
            WellFormed(b.queues) && Batch(policy, b, t) == [s]
  {
    var t, m := policy.maxWaitMs / 1000.0, s.model;
    StaleIsConsistent(m);
    var b := After(policy, Stale(m), Submit(s, t));
    AfterIsConsistent(policy, Stale(m), Submit(s, t));
    assert b == Batcher(Queues([m], map[m := [s]]), map[m := 0.0]) by {
      assert [] + [s] == [s];
    }
    assert Ready(policy, b, m, t);
    assert FirstReady(policy, b, [m], t) == 0;
    assert Fit(policy, [s]) == 1 && [s][..1] == [s];
  }

  // ---------- Does a partial batch wait? ----------

  /** The timer of `m` started before the request now in front of its queue arrived. */
  ghost predicate Late(b: Batcher, m: ModelId) {
    m in b.queues.at && b.queues.at[m] != [] && m in b.firstArrival
    && b.firstArrival[m] < b.queues.at[m][0].receivedAt
  }

  /** A batch that is not full is handed out only after its first request has waited for `max_wait_ms`, at
      whatever time the scheduler is asked, if and only if the timer is not late. */
  lemma PartialBatchWaitsIff(policy: BatchPolicy, b: Batcher, m: ModelId)
    requires policy.Legal() && Consistent(b) && m in b.queues.at && 0 < |b.queues.at[m]| < policy.maxBatch
    ensures (forall now :: Ready(policy, b, m, now) ==>
               (now - b.queues.at[m][0].receivedAt) * 1000.0 >= policy.maxWaitMs)
            <==> !Late(b, m)
  {
    assert m in b.firstArrival;
    assert Ready(policy, b, m, b.firstArrival[m] + policy.maxWaitMs / 1000.0);
  }

  /** The clock readings are not older than the arrivals they follow. */
  ghost predicate Timely(b: Batcher, e: Event) {
    match e
    case Submit(r, now) => r.receivedAt <= now
    case Resubmit(r, now) => r.receivedAt <= now
    case NextBatch(now) => AllArrivedBy(b.queues, now)
    case _ => true
  }

  /** The model whose oldest request an overflow eviction drops. */
  ghost predicate IsVictim(b: Batcher, m: ModelId)
    requires WellFormed(b.queues)
  {
    OldestHead(b.queues.keys, b.queues.at) == Some(m)
  }

  ghost predicate LateAfterEviction(b: Batcher, m: ModelId)
    requires Consistent(b)
  {
    if IsVictim(b, m) then |b.queues.at[m]| >= 2 && b.firstArrival[m] < b.queues.at[m][1].receivedAt
    else Late(b, m)
  }

  /** A stale timer meets a request that arrived after it had started. */
  ghost predicate MeetsStale(b: Batcher, r: Request, m: ModelId) {
    m == r.model && StaleAt(b, m) && b.firstArrival[m] < r.receivedAt
  }

  /** The first request that the filter leaves to `m` arrived after the timer had started. */
  ghost predicate LateSurvivor(b: Batcher, m: ModelId, keep: Request -> bool) {
    m in b.queues.at && m in b.firstArrival
    && var rest := Filter(b.queues.at[m], keep); rest != [] && b.firstArrival[m] < rest[0].receivedAt
  }

  /** Which events leave the timer of `m` late, in any state: those that take away the head in front of a
      later arrival and let the timer run on - an eviction, an expiry, a disconnect -, and a request
      that meets a stale timer. Handing out a batch of `m` restarts its timer. */
  lemma LateAfterIff(policy: BatchPolicy, b: Batcher, e: Event, m: ModelId)
    requires Consistent(b) && Timely(b, e)
    ensures Late(After(policy, b, e), m) <==>
            match e
            case Submit(r, _) =>
              if Total(b.queues) < policy.maxQueue then Late(b, m) || MeetsStale(b, r, m)
              else if policy.dropOldest then LateAfterEviction(b, m) || MeetsStale(b, r, m)
              else Late(b, m)
            case Resubmit(r, _) => Late(b, m) || MeetsStale(b, r, m)
            case Tick(now) => LateSurvivor(b, m, NotExpired(now, policy.ttlMs))
            case Disconnect(client) => LateSurvivor(b, m, NotFrom(client))
            case NextBatch(now) => Late(b, m) && !IsReady(policy, b, now, m)
  {
    hide StaleAt, OwnModels, Timed, Late, LateSurvivor;
    match e
    case Submit(r, now) =>
      LateAfterQueue(b, r, now, m);
      EvictedIsConsistent(b);
      LateEvicted(b, m);
      StaleAfterEviction(b, m);
      LateAfterQueue(Evicted(b), r, now, m);
      EvictionKeepsStale(b, r, m);
    case Resubmit(r, now) => LateAfterQueue(b, r, now, m);
    case Tick(now) => LateAfterTick(b, NotExpired(now, policy.ttlMs), m);
    case Disconnect(client) => LateAfterDisconnect(b, NotFrom(client), m);
    case NextBatch(now) => LateAfterBatch(policy, b, now, m);
  }

  /** `m` is the first model that is ready. */
  ghost predicate IsReady(policy: BatchPolicy, b: Batcher, now: real, m: ModelId)
    requires WellFormed(b.queues)
  {
    var i := FirstReady(policy, b, b.queues.keys, now);
    i < |b.queues.keys| && b.queues.keys[i] == m
  }

  lemma LateAfterQueue(b: Batcher, r: Request, now: real, m: ModelId)
    requires Consistent(b) && r.receivedAt <= now
    ensures Late(Queue(b, r, now), m) <==> Late(b, m) || MeetsStale(b, r, m)
  {
  }

  lemma LateEvicted(b: Batcher, m: ModelId)
    requires Consistent(b)
    ensures Late(Evicted(b), m) <==> LateAfterEviction(b, m)
  {
  }

  lemma EvictionKeepsStale(b: Batcher, r: Request, m: ModelId)
    requires Consistent(b)
    ensures MeetsStale(Evicted(b), r, m) <==> MeetsStale(b, r, m)
  {
    StaleAfterEviction(b, m);
  }

  lemma LateAfterTick(b: Batcher, keep: Request -> bool, m: ModelId)
    requires Consistent(b)
    ensures Late(Ticked(b, keep), m) <==> LateSurvivor(b, m, keep)
  {
  }

  lemma LateAfterDisconnect(b: Batcher, keep: Request -> bool, m: ModelId)
    requires Consistent(b)
    ensures Late(b.(queues := KeepOnly(b.queues, keep)), m) <==> LateSurvivor(b, m, keep)
  {
  }

  lemma LateAfterBatch(policy: BatchPolicy, b: Batcher, now: real, m: ModelId)
    requires Consistent(b) && AllArrivedBy(b.queues, now)
    ensures Late(Flushed(policy, b, now), m) <==> Late(b, m) && !IsReady(policy, b, now, m)
  {
    var keys := b.queues.keys;
    var i := FirstReady(policy, b, keys, now);
    if i < |keys| {
      var q := b.queues.at[keys[i]];
      var rest := q[Fit(policy, q)..];
      assert rest != [] ==> rest[0] in q;
    }
  }

  /** Every event of the run is timely, and none evicts, expires or disconnects. */
  ghost predicate Undisturbed(policy: BatchPolicy, b: Batcher, es: seq<Event>)
    requires Consistent(b)
    decreases |es|
  {
    es == [] ||
    (&& Timely(b, es[0])
     && !es[0].Tick? && !es[0].Disconnect? && (es[0].Submit? && policy.dropOldest ==> Total(b.queues) < policy.maxQueue)
     && (AfterIsConsistent(policy, b, es[0]); Undisturbed(policy, After(policy, b, es[0]), es[1..])))
  }

  /** In a run without evictions, expiries and disconnects no timer is late or stale, retries or not, so by
      `PartialBatchWaitsIff` every batch that is not full waits in full. */
  lemma {:induction false} UndisturbedIsNeverLate(policy: BatchPolicy, b: Batcher, es: seq<Event>)
    requires Consistent(b) && Undisturbed(policy, b, es)
    requires forall m :: !Late(b, m) && !StaleAt(b, m)
    ensures forall m :: !Late(End(policy, b, es), m) && !StaleAt(End(policy, b, es), m)
    decreases |es|
  {
    if es != [] {
      AfterIsConsistent(policy, b, es[0]);
      var a := After(policy, b, es[0]);
      forall m ensures !Late(a, m) && !StaleAt(a, m) {
        StaleAfterIff(policy, b, es[0], m);
        LateAfterIff(policy, b, es[0], m);
      }
      UndisturbedIsNeverLate(policy, a, es[1..]);
    }
  }

  /** No stale timer is needed for an early flush. A client disconnects after it has started the timer
      for another one: in no state of the run is any timer stale, and the other client's request is handed
      out alone at the very moment it arrives. */
  lemma EarlyWithoutStaleTimer(policy: BatchPolicy, a: Request, c: Request)
    requires policy.Legal() && policy.maxBatch >= 2 && policy.maxQueue >= 2
    requires a.model == c.model && a.client != c.client && c.receivedAt == policy.maxWaitMs / 1000.0
    ensures var t := c.receivedAt;
            var es := [Submit(a, 0.0), Submit(c, t), Disconnect(a.client)];
            && Batch(policy, End(policy, Empty(), es), t) == [c]
            && forall n, m :: 0 <= n <= 3 ==> !StaleAt(End(policy, Empty(), es[..n]), m)
  {
    var t, m := c.receivedAt, a.model;
    var es := [Submit(a, 0.0), Submit(c, t), Disconnect(a.client)];
    EarlyRun(policy, a, c);
    OneModelFlushes(policy, m, c, t);
    hide End, After, Batch;
    forall n, k | 0 <= n <= 3 ensures !StaleAt(End(policy, Empty(), es[..n]), k) {
      assert es[..3] == es;
      assert n == 0 || n == 1 || n == 2 || n == 3;
    }
  }

  lemma EarlyRun(policy: BatchPolicy, a: Request, c: Request)
    requires policy.Legal() && policy.maxQueue >= 2 && a.model == c.model && a.client != c.client
    ensures var es := [Submit(a, 0.0), Submit(c, c.receivedAt), Disconnect(a.client)];
            && End(policy, Empty(), es[..0]) == Empty()
            && End(policy, Empty(), es[..1]) == OneModel(a.model, [a], 0.0)
            && End(policy, Empty(), es[..2]) == OneModel(a.model, [a, c], 0.0)
            && End(policy, Empty(), es) == OneModel(a.model, [c], 0.0)
  {
    var m := a.model;
    var e0, e1, e2 := Submit(a, 0.0), Submit(c, c.receivedAt), Disconnect(a.client);
    EarlySteps(policy, a, c);
    StartOfRun(policy, Empty());
    hide After, OneModel, Empty, Consistent, End, Answers;
    var es := [e0, e1, e2];
    assert es[..0] == [] && [] + [e0] == [e0] == es[..1];
    EndOneMore(policy, Empty(), [], e0);
    assert [e0] + [e1] == [e0, e1] == es[..2];
    EndOneMore(policy, Empty(), [e0], e1);
    assert [e0, e1] + [e2] == es;
    EndOneMore(policy, Empty(), [e0, e1], e2);
  }

  lemma EarlySteps(policy: BatchPolicy, a: Request, c: Request)
    requires policy.Legal() && policy.maxQueue >= 2 && a.model == c.model && a.client != c.client
    ensures var m := a.model;
            && After(policy, Empty(), Submit(a, 0.0)) == OneModel(m, [a], 0.0)
            && Consistent(OneModel(m, [a], 0.0)) && Consistent(OneModel(m, [a, c], 0.0))
            && After(policy, OneModel(m, [a], 0.0), Submit(c, c.receivedAt)) == OneModel(m, [a, c], 0.0)
            && After(policy, OneModel(m, [a, c], 0.0), Disconnect(a.client)) == OneModel(m, [c], 0.0)
  {
    SubmitToEmpty(policy, a);
    SubmitToOne(policy, a.model, a, c, c.receivedAt);
    KeepsOther(a.model, a, c);
  }

  lemma SubmitToOne(policy: BatchPolicy, m: ModelId, a: Request, c: Request, t: real)
    requires policy.maxQueue >= 2 && a.model == m && c.model == m
    ensures Consistent(OneModel(m, [a], 0.0))
    ensures After(policy, OneModel(m, [a], 0.0), Submit(c, t)) == OneModel(m, [a, c], 0.0)
    ensures Consistent(OneModel(m, [a, c], 0.0))
  {
    var b := OneModel(m, [a], 0.0);
    assert [m][..0] == [];
    assert SumOfSizes([], b.queues.at) == 0;
    assert Total(b.queues) == 1;
    assert [a] + [c] == [a, c];
    assert Queue(b, c, t).queues.at == map[m := [a, c]];
  }

  lemma KeepsOther(m: ModelId, a: Request, c: Request)
    requires a.model == m && c.model == m && a.client != c.client
    ensures KeepOnly(OneModel(m, [a, c], 0.0).queues, NotFrom(a.client)) == OneModel(m, [c], 0.0).queues
  {
    assert [a, c][1..] == [c] && [c][1..] == [];
    assert Filter([c], NotFrom(a.client)) == [c];
    assert Filter([a, c], NotFrom(a.client)) == [c];
  }

  lemma OneModelFlushes(policy: BatchPolicy, m: ModelId, c: Request, t: real)
    requires policy.Legal() && t * 1000.0 >= policy.maxWaitMs
    ensures WellFormed(OneModel(m, [c], 0.0).queues) && Batch(policy, OneModel(m, [c], 0.0), t) == [c]
  {
    var b := OneModel(m, [c], 0.0);
    assert [m][..0] == [];
    assert Ready(policy, b, m, t);
    assert FirstReady(policy, b, [m], t) == 0;
    assert Fit(policy, [c]) == 1 && [c][..1] == [c];
  }

  // ---------- Emptying the queues ----------

  /** The number of batches of at most `k` requests that `n` requests fill. */
  ghost function Batches(n: nat, k: nat): (count: nat)
    requires k >= 1
  {
    if n == 0 then 0 else 1 + Batches(if n <= k then 0 else n - k, k)
  }

  lemma {:induction false} BatchesIsCeiling(n: nat, k: nat)
    requires k >= 1 && n > 0
    ensures (Batches(n, k) - 1) * k < n <= Batches(n, k) * k
  {
    if n > k {
      BatchesIsCeiling(n - k, k);
      assert Batches(n, k) * k == Batches(n - k, k) * k + k;
      assert (Batches(n, k) - 1) * k == (Batches(n - k, k) - 1) * k + k;
    } else {
      assert Batches(n, k) == 1;
    }
  }

  /** The sum of the batches over some models. */
  ghost function Pending(keys: seq<ModelId>, at: map<ModelId, seq<Request>>, k: nat): (count: nat)
    requires k >= 1 && forall m :: m in keys ==> m in at
  {
    if keys == [] then 0
    else Pending(keys[..|keys| - 1], at, k) + Batches(|at[keys[|keys| - 1]]|, k)
  }

  lemma {:induction false} PendingUpdate(keys: seq<ModelId>, at: map<ModelId, seq<Request>>, k: nat,
                                         key: ModelId, q: seq<Request>)
    requires k >= 1 && NoDuplicates(keys) && forall m :: m in keys ==> m in at
    ensures Pending(keys, at[key := q], k)
            == Pending(keys, at, k) + if key in keys then Batches(|q|, k) - Batches(|at[key]|, k) else 0
  {
    if keys != [] {
      var front, last := keys[..|keys| - 1], keys[|keys| - 1];
      assert keys == front + [last];
      PendingUpdate(front, at, k, key, q);
    }
  }

  lemma {:induction false} PendingIsZero(keys: seq<ModelId>, at: map<ModelId, seq<Request>>, k: nat)
    requires k >= 1 && forall m :: m in keys ==> m in at
    ensures Pending(keys, at, k) == 0 <==> forall m :: m in keys ==> at[m] == []
  {
    if keys != [] {
      var front, last := keys[..|keys| - 1], keys[|keys| - 1];
      assert keys == front + [last];
      PendingIsZero(front, at, k);
    }
  }

  ghost function Needed(policy: BatchPolicy, b: Batcher): (count: nat)
    requires policy.Legal() && WellFormed(b.queues)
  {
    Pending(b.queues.keys, b.queues.at, policy.maxBatch)
  }

  /** Every timer that matters has run for the maximal waiting time. */
  ghost predicate AllDue(policy: BatchPolicy, b: Batcher, now: real) {
    forall m :: m in b.queues.at && b.queues.at[m] != [] && m in b.firstArrival ==>
      (now - b.firstArrival[m]) * 1000.0 >= policy.maxWaitMs
  }

  /** The calls are at least the maximal waiting time apart. */
  ghost predicate Spaced(policy: BatchPolicy, ts: seq<real>) {
    forall i :: 0 <= i < |ts| - 1 ==> (ts[i + 1] - ts[i]) * 1000.0 >= policy.maxWaitMs
  }

  /** When every timer is due, one call returns exactly one of the batches that are needed. */
  lemma DueCall(policy: BatchPolicy, b: Batcher, now: real)
    requires policy.Legal() && Consistent(b) && AllDue(policy, b, now)
    ensures Consistent(Flushed(policy, b, now))
    ensures Batch(policy, b, now) != [] <==> Needed(policy, b) > 0
    ensures Needed(policy, Flushed(policy, b, now)) == if Needed(policy, b) > 0 then Needed(policy, b) - 1 else 0
  {
    FlushedIsConsistent(policy, b, now);
    PendingIsZero(b.queues.keys, b.queues.at, policy.maxBatch);
    var keys := b.queues.keys;
    var i := FirstReady(policy, b, keys, now);
    if i < |keys| {
      var q := b.queues.at[keys[i]];
      PendingUpdate(keys, b.queues.at, policy.maxBatch, keys[i], q[Fit(policy, q)..]);
    } else {
      forall m | m in keys ensures b.queues.at[m] == [] {
        var j :| 0 <= j < |keys| && keys[j] == m;
        assert !Ready(policy, b, keys[j], now);
      }
    }
  }

  lemma DueAgain(policy: BatchPolicy, b: Batcher, now: real, later: real)
    requires policy.Legal() && Consistent(b) && AllDue(policy, b, now)
    requires (later - now) * 1000.0 >= policy.maxWaitMs
    ensures AllDue(policy, Flushed(policy, b, now), later)
  {
  }

  ghost function Calls(ts: seq<real>): (calls: seq<Event>) {
    seq(|ts|, i requires 0 <= i < |ts| => NextBatch(ts[i]))
  }

  /** With no arrivals, and calls at least the maximal waiting time after enqueue and after each other,
      every call takes one batch off the sum of the rounded-up quotients. */
  lemma {:induction false} SpacedCalls(policy: BatchPolicy, b: Batcher, ts: seq<real>)
    requires policy.Legal() && Consistent(b) && Spaced(policy, ts)
    requires ts != [] ==> AllDue(policy, b, ts[0])
    ensures Needed(policy, End(policy, b, Calls(ts)))
            == if |ts| <= Needed(policy, b) then Needed(policy, b) - |ts| else 0
    decreases |ts|
  {
    if ts == [] {
      assert Calls(ts) == [];
    } else {
      DueCall(policy, b, ts[0]);
      var a := Flushed(policy, b, ts[0]);
      if |ts| > 1 {
        DueAgain(policy, b, ts[0], ts[1]);
      }
      SpacedCalls(policy, a, ts[1..]);
      CallsUnfold(policy, b, ts);
    }
  }

  /** Exactly that many calls empty the scheduler: that many do, and fewer do not. */
  lemma EmptiedIff(policy: BatchPolicy, b: Batcher, ts: seq<real>)
    requires policy.Legal() && Consistent(b) && Spaced(policy, ts)
    requires ts != [] ==> AllDue(policy, b, ts[0])
    ensures Total(End(policy, b, Calls(ts)).queues) == 0 <==> |ts| >= Needed(policy, b)
  {
    SpacedCalls(policy, b, ts);
    var e := End(policy, b, Calls(ts));
    PendingIsZero(e.queues.keys, e.queues.at, policy.maxBatch);
    TotalIsZero(e.queues);
  }

  // ---------- First in, first out ----------

  /** Everything that a run of calls returns, in order. */
  ghost function Returned(policy: BatchPolicy, b: Batcher, ts: seq<real>): (served: seq<Request>)
    requires Consistent(b)
    decreases |ts|
  {
    if ts == [] then []
    else
      FlushedIsConsistent(policy, b, ts[0]);
      Batch(policy, b, ts[0]) + Returned(policy, Flushed(policy, b, ts[0]), ts[1..])
  }

  /** One call takes a prefix of one model's queue and nothing else. */
  lemma BatchIsPrefix(policy: BatchPolicy, b: Batcher, now: real, m: ModelId)
    requires policy.Legal() && Consistent(b) && m in b.queues.at
    ensures m in Flushed(policy, b, now).queues.at
    ensures Filter(Batch(policy, b, now), (r: Request) => r.model == m) + Flushed(policy, b, now).queues.at[m]
            == b.queues.at[m]
  {
    var keys := b.queues.keys;
    var i := FirstReady(policy, b, keys, now);
    if i < |keys| {
      var q := b.queues.at[keys[i]];
      var n := Fit(policy, q);
      assert q == q[..n] + q[n..];
      assert forall r :: r in q[..n] ==> r in q;
      FilterUniform(q[..n], (r: Request) => r.model == m, keys[i] == m);
    }
  }

  /** Without arrivals, what the calls return for a model followed by what is still queued for it is
      what was queued: nothing is lost, duplicated, reordered or handed to another model. */
  lemma {:induction false} CallsAreFifo(policy: BatchPolicy, b: Batcher, ts: seq<real>, m: ModelId)
    requires policy.Legal() && Consistent(b) && m in b.queues.at
    ensures var e := End(policy, b, Calls(ts));
            m in e.queues.at
            && Filter(Returned(policy, b, ts), (r: Request) => r.model == m) + e.queues.at[m] == b.queues.at[m]
    decreases |ts|
  {
    if ts == [] {
      assert Calls(ts) == [];
      assert [] + b.queues.at[m] == b.queues.at[m];
    } else {
      FlushedIsConsistent(policy, b, ts[0]);
      BatchIsPrefix(policy, b, ts[0], m);
      CallsUnfold(policy, b, ts);
      hide Flushed, Batch, Consistent, WellFormed, Returned, End;
      var a := Flushed(policy, b, ts[0]);
      CallsAreFifo(policy, a, ts[1..], m);
      Regroup(Batch(policy, b, ts[0]), Returned(policy, a, ts[1..]), m,
              End(policy, a, Calls(ts[1..])).queues.at[m], a.queues.at[m], b.queues.at[m]);
    }
  }

  lemma CallsUnfold(policy: BatchPolicy, b: Batcher, ts: seq<real>)
    requires Consistent(b) && ts != []
    ensures WellFormed(b.queues) && Consistent(Flushed(policy, b, ts[0]))
    ensures End(policy, b, Calls(ts)) == End(policy, Flushed(policy, b, ts[0]), Calls(ts[1..]))
    ensures Returned(policy, b, ts) == Batch(policy, b, ts[0]) + Returned(policy, Flushed(policy, b, ts[0]), ts[1..])
  {
    FlushedIsConsistent(policy, b, ts[0]);
    assert Calls(ts)[1..] == Calls(ts[1..]);
    assert Calls(ts)[0] == NextBatch(ts[0]);
  }

  lemma Regroup(p: seq<Request>, q: seq<Request>, m: ModelId,
                last: seq<Request>, middle: seq<Request>, first: seq<Request>)
    requires Filter(p, (r: Request) => r.model == m) + middle == first
    requires Filter(q, (r: Request) => r.model == m) + last == middle
    ensures Filter(p + q, (r: Request) => r.model == m) + last == first
  {
    FilterAppend(p, q, (r: Request) => r.model == m);
  }

  // ---------- The scheduler object follows these runs ----------

  lemma {:induction false} EndOneMore(policy: BatchPolicy, b: Batcher, es: seq<Event>, e: Event)
    requires Consistent(b)
    ensures End(policy, b, es + [e]) == After(policy, End(policy, b, es), e)
    decreases |es|
  {
    AfterIsConsistent(policy, b, (es + [e])[0]);
    hide After, Consistent;
    if es == [] {
      assert [] + [e] == [e] && [e][1..] == [];
      assert End(policy, After(policy, b, e), []) == After(policy, b, e);
    } else {
      assert (es + [e])[1..] == es[1..] + [e] && (es + [e])[0] == es[0];
      EndOneMore(policy, After(policy, b, es[0]), es[1..], e);
    }
  }

  /** What each call of a run returns. */
  ghost function Answers(policy: BatchPolicy, b: Batcher, es: seq<Event>): (answers: seq<seq<Request>>)
    requires Consistent(b)
  {
    if es == [] then []
    else
      var front := es[..|es| - 1];
      Answers(policy, b, front) + [BatchOf(policy, End(policy, b, front), es[|es| - 1])]
  }

  lemma RunOneMore(policy: BatchPolicy, b: Batcher, es: seq<Event>, n: nat)
    requires Consistent(b) && n < |es|
    ensures End(policy, b, es[..n + 1]) == After(policy, End(policy, b, es[..n]), es[n])
    ensures Answers(policy, b, es[..n + 1])
            == Answers(policy, b, es[..n]) + [BatchOf(policy, End(policy, b, es[..n]), es[n])]
  {
    EndOneMore(policy, b, es[..n], es[n]);
    assert es[..n + 1] == es[..n] + [es[n]];
    assert (es[..n] + [es[n]])[..n] == es[..n];
  }

  /** Any sequence of calls on a scheduler is such a run. */
  method Drive(scheduler: BatchOptimizedScheduler, es: seq<Event>) returns (batches: seq<seq<Request>>)
    requires scheduler.Valid()
    modifies scheduler
    ensures scheduler.Valid() && scheduler.State() == End(scheduler.policy, old(scheduler.State()), es)
    ensures batches == Answers(scheduler.policy, old(scheduler.State()), es)
  {
    ghost var policy, start := scheduler.policy, scheduler.State();
    batches := [];
    hide Consistent, After, End, Answers, BatchOf;
    StartOfRun(policy, start);
    assert es[..0] == [];
    for n := 0 to |es|
      invariant scheduler.Valid() && scheduler.State() == End(policy, start, es[..n])
      invariant batches == Answers(policy, start, es[..n])
    {
      RunOneMore(policy, start, es, n);
      var batch := Perform(scheduler, es[n]);
      batches := batches + [batch];
    }
    assert es[..|es|] == es;
  }

  lemma StartOfRun(policy: BatchPolicy, b: Batcher)
    requires Consistent(b)
    ensures End(policy, b, []) == b && Answers(policy, b, []) == []
  {
  }

  ghost function BatchOf(policy: BatchPolicy, b: Batcher, e: Event): (batch: seq<Request>)
    requires Consistent(b)
  {
    if e.NextBatch? then Batch(policy, b, e.now) else []
  }

  method Perform(scheduler: BatchOptimizedScheduler, e: Event) returns (batch: seq<Request>)
    requires scheduler.Valid()
    modifies scheduler
    ensures scheduler.Valid() && scheduler.State() == After(scheduler.policy, old(scheduler.State()), e)
    ensures batch == BatchOf(scheduler.policy, old(scheduler.State()), e)
  {
    batch := [];
    hide OwnModels, Timed, WellFormed, Batch;
    match e {
      case Submit(r, now) => var _ := scheduler.Submit(r, now);
      case Resubmit(r, now) => scheduler.Resubmit(r, now);
      case Tick(now) => var _ := scheduler.Tick(now);
      case Disconnect(client) => scheduler.OnClientDisconnected(client);
      case NextBatch(now) => batch := scheduler.NextBatch(now);
    }
  }
}
