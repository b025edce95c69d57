/** The server as it is configured by default (server.py:129-464): the `model_deadline` scheduler with pipeline
    dispatch off. `_receive_loop` starts a dispatch loop for each model all the same, and the legacy loop
    does not yield, so that both kinds of loops drain one scheduler. */
module SharedProtocol {
  import opened Requests
  import opened ServiceOrder
  import opened Scoring
  import opened Eviction
  import opened ModelHeaps
  import opened SetSums
  import opened LocalDispatch
  import opened Pipeline
  import opened PipelineRuns
  import opened QueueBounds
  import opened LegacyProtocol

  /** An event of the per-model protocol, or the next step of the legacy loop with what it collects, if it does.
      `core.inflight` is what the tasks and the legacy loop hold together. */
  datatype SharedEvent =
    | Served(event: Event)
    | Looped(now: real, batch: seq<Request>)

  ghost function Hand(s: LoopState): (hand: set<Request>) {
    Members(InHand(s.phase))
  }

  /** What the per-model protocol would see: the dispatch tasks alone. */
  ghost function TasksOnly(s: State, hand: set<Request>): (t: State) {
    s.(inflight := s.inflight - hand)
  }

  /** `batch` is what up to `n` calls of `next_batch` return: each takes the first request of some model that
      has any. Which model is first depends on the dictionary, and is left open. */
  ghost predicate DrainedBy(queued: set<Request>, batch: seq<Request>, n: nat)
    decreases |batch|
  {
    if batch == [] then n == 0 || queued == {}
    else
      && n > 0 && IsFirst(batch[0], OfModel(queued, batch[0].model))
      && DrainedBy(queued - {batch[0]}, batch[1..], n - 1)
  }

  ghost predicate May(g: Setup, s: LoopState, e: SharedEvent) {
    && !s.phase.Stopped?
    && match e
       case Served(event) => Enabled(g.config, s.core, event) && (event.Finish? ==> event.request !in Hand(s))
       case Looped(now, batch) =>
         now >= s.core.now && (s.phase.Idle? ==> DrainedBy(s.core.queued, batch, g.maxConcurrent))
  }

  ghost function Then(g: Setup, s: LoopState, e: SharedEvent): (t: LoopState)
    requires May(g, s, e)
  {
    match e
    case Served(event) => s.(core := After(g.config, s.core, event))
    case Looped(now, batch) => AfterLoop(g, s.(core := s.core.(now := now)), batch)
  }

  ghost function AfterLoop(g: Setup, s: LoopState, batch: seq<Request>): (t: LoopState) {
    match s.phase
    case Idle => AfterCollecting(s, batch)
    case Dispatching(held) => AfterDispatching(g, s, held)
    case Settling(endings) =>
      if endings == [] then s.(phase := Idle)
      else LoopState(AfterEnding(g, s.core, endings[0]), Rest(endings))
    case Stopped(_) => s
  }

  ghost predicate Takes(g: Setup, s: LoopState, events: seq<SharedEvent>)
    decreases |events|
  {
    events == [] || (May(g, s, events[0]) && Takes(g, Then(g, s, events[0]), events[1..]))
  }

  ghost function Ends(g: Setup, s: LoopState, events: seq<SharedEvent>): (t: LoopState)
    requires Takes(g, s, events)
    decreases |events|
  {
    if events == [] then s else Ends(g, Then(g, s, events[0]), events[1..])
  }

  // ---------- What every reachable state satisfies ----------

  ghost predicate HandFits(g: Setup, s: LoopState) {
    && Hand(s) <= s.core.inflight
    && DistinctIds(InHand(s.phase)) && |InHand(s.phase)| <= g.maxConcurrent
    && (s.phase.Dispatching? || s.phase.Settling? ==> InHand(s.phase) != [])
    && (s.phase.Settling? ==> EndingsFit(g, s.phase.endings))
    && (s.phase.Stopped? ==> forall r :: r in s.phase.lost ==> r.id in s.core.fates && s.core.fates[r.id] == Crashed)
  }

  /** The permits account for the dispatch tasks; what the legacy loop holds has none. */
  ghost predicate SharedPermits(c: Config, s: State, hand: set<Request>) {
    PermitsConserved(c, TasksOnly(s, hand)) && forall r :: r in hand ==> r.model in s.permits
  }

  ghost predicate SharedBound(c: Config, s: State, extra: nat) {
    |s.queued| + |s.inflight| <= c.maxQueue + TotalLimit(c, s.permits.Keys) + extra
  }

  ghost predicate SharedInv(g: Setup, s: LoopState) {
    && CoreInv(g.config, s.core) && HandFits(g, s)
    && SharedPermits(g.config, s.core, Hand(s)) && SharedBound(g.config, s.core, g.maxConcurrent)
  }

  lemma BeginningShares(g: Setup)
    ensures SharedInv(g, Beginning)
  {
  }

  // ---------- Events of the per-model protocol ----------

  /** Whatever the permits say, every event of the per-model protocol keeps each request in one place. */
  lemma ServedKeepsCore(c: Config, s: State, e: Event)
    requires CoreInv(c, s) && Enabled(c, s, e)
    ensures CoreInv(c, After(c, s, e))
  {
    var u := s.(now := e.now);
    SameRequests(c, s, u);
    hide CoreInv;
    match e
    case Receive(now, request, evicted) => ReceiveKeepsCore(c, u, now, request, evicted);
    case Start(_, model) => StartKeepsCore(c, u, model);
    case Finish(now, r, outcome) => FinishKeepsCore(c, u, now, r, outcome);
    case Tick(now) => DropKeepsCore(c, u, Select(s.queued, HasExpired(now, c.ttlMs)), TimedOut);
    case Purge(_, client) => DropKeepsCore(c, u, Select(s.queued, From(client)), Purged);
  }

  lemma DropKeepsCore(c: Config, s: State, gone: set<Request>, fate: Fate)
    requires CoreInv(c, s) && gone <= s.queued && fate != Fate.Answered && fate != Fate.Errored
    ensures CoreInv(c, Drop(s, gone, fate))
  {
    hide OnePlace, CountersGrow, RetriesCounted, SentOnce;
    DropKeepsPlace(s, gone, fate);
    DropKeepsHistory(c, s, gone, fate);
    DropKeepsCounters(s, gone, fate);
  }

  lemma ReceiveKeepsCore(c: Config, s: State, now: real, request: Request, evicted: set<Request>)
    requires CoreInv(c, s) && Enabled(c, s, Receive(now, request, evicted))
    ensures CoreInv(c, AfterReceive(c, s, now, request, evicted))
  {
    EvictedWereQueued(c, s, now, request, evicted);
    hide OnePlace, CountersGrow, RetriesCounted, SentOnce, Score, IsOldest;
    if QueueIsFull(c, s) && !c.dropOldest {
      RejectKeepsPlace(s, AfterReject(s));
      RejectKeepsHistory(c, s);
    } else {
      DropKeepsCore(c, s, evicted, Evicted);
      var v, r := Drop(s, evicted, Evicted), Enqueued(c, s, request, now);
      AddKeepsPlace(v, r, AfterAdd(c, v, r));
      AddKeepsCounters(v, r, AfterAdd(c, v, r));
      AddKeepsHistory(c, v, r, AfterAdd(c, v, r));
    }
  }

  lemma StartKeepsCore(c: Config, s: State, model: ModelId)
    requires CoreInv(c, s) && model in s.permits && s.permits[model] > 0
    ensures CoreInv(c, AfterStart(s, model))
  {
    var t := AfterStart(s, model);
    var first := Head(OfModel(s.queued, model));
    hide OnePlace, CountersGrow, RetriesCounted, SentOnce;
    if first.Some? {
      StartKeepsPlace(s, first.value, t);
      StartKeepsHistory(c, s, first.value, t);
      SameSent(s, t);
    }
  }

  lemma SameSent(s: State, t: State)
    requires SentOnce(s) && t.sent == s.sent && t.fates == s.fates
    ensures SentOnce(t)
  {
  }

  lemma FinishKeepsCore(c: Config, s: State, now: real, r: Request, outcome: Outcome)
    requires CoreInv(c, s) && r in s.inflight && r.model in s.permits
    ensures CoreInv(c, AfterFinish(c, s, now, r, outcome))
  {
    var t := AfterFinish(c, s, now, r, outcome);
    hide OnePlace, RetriesCounted, SentOnce, Score;
    if EndOf(c, r, outcome).Some? {
      EndKeepsPlace(s, r, EndOf(c, r, outcome).value, t);
      EndKeepsHistory(c, s, r, t);
    } else {
      var again := Enqueued(c, s, r.(retries := r.retries + 1), now);
      RetryKeepsPlace(s, r, again, t);
      RetryKeepsHistory(c, s, r, again, t);
      AddKeepsCounters(s, again, t);
    }
  }

  /** The legacy loop goes on holding what it holds. */
  lemma ServedKeepsHand(g: Setup, s: LoopState, event: Event)
    requires SharedInv(g, s) && May(g, s, Served(event))
    ensures HandFits(g, Then(g, s, Served(event)))
  {
    hide CoreInv, SharedPermits, SharedBound, Score, IsOldest, Mark, Expired, DistinctIds, EndingsFit;
  }

  /** The permits change as if there were no legacy loop, and the bound is wider by what that loop may hold. */
  lemma ServedKeepsPermits(c: Config, s: State, hand: set<Request>, extra: nat, e: Event)
    requires c.Valid() && CoreInv(c, s) && Enabled(c, s, e) && (e.Finish? ==> e.request !in hand)
    requires hand <= s.inflight && |hand| <= extra && SharedPermits(c, s, hand) && SharedBound(c, s, extra)
    ensures SharedPermits(c, After(c, s, e), hand) && SharedBound(c, After(c, s, e), extra)
  {
    hide CoreInv, SharedPermits, SharedBound, IsOldest, Score, Mark, Expired;
    var u := s.(now := e.now);
    LaterPermits(c, s, hand, extra, u);
    SameRequests(c, s, u);
    match e
    case Receive(now, request, evicted) => ReceivePermits(c, u, hand, extra, now, request, evicted);
    case Start(_, model) => StartPermits(c, u, hand, extra, model);
    case Finish(now, r, outcome) => FinishPermits(c, u, hand, extra, now, r, outcome);
    case Tick(now) => FewerPermits(c, u, hand, extra, Select(s.queued, HasExpired(now, c.ttlMs)), TimedOut);
    case Purge(_, client) => FewerPermits(c, u, hand, extra, Select(s.queued, From(client)), Purged);
  }

  lemma LaterPermits(c: Config, s: State, hand: set<Request>, extra: nat, t: State)
    requires SharedPermits(c, s, hand) && SharedBound(c, s, extra) && t == s.(now := t.now)
    ensures SharedPermits(c, t, hand) && SharedBound(c, t, extra)
  {
    SamePermits(c, TasksOnly(s, hand), TasksOnly(t, hand));
  }

  /** Permits depend on the tasks only. */
  lemma SamePermits(c: Config, s: State, t: State)
    requires PermitsConserved(c, s) && t.inflight == s.inflight && t.permits == s.permits
    requires forall r :: r in t.queued ==> r.model in s.permits
    ensures PermitsConserved(c, t)
  {
  }

  lemma FewerPermits(c: Config, s: State, hand: set<Request>, extra: nat, gone: set<Request>, fate: Fate)
    requires SharedPermits(c, s, hand) && SharedBound(c, s, extra)
    ensures SharedPermits(c, Drop(s, gone, fate), hand) && SharedBound(c, Drop(s, gone, fate), extra)
  {
    hide Mark;
    SamePermits(c, TasksOnly(s, hand), TasksOnly(Drop(s, gone, fate), hand));
    SubsetSize(s.queued - gone, s.queued);
  }

  lemma TasksWithinLimits(c: Config, s: State, hand: set<Request>)
    requires SharedPermits(c, s, hand) && hand <= s.inflight
    ensures |s.inflight| <= TotalLimit(c, s.permits.Keys) + |hand|
  {
    InflightWithinLimits(c, TasksOnly(s, hand));
    assert s.inflight == hand + (s.inflight - hand);
  }

  lemma ReceivePermits(c: Config, s: State, hand: set<Request>, extra: nat, now: real, request: Request,
                       evicted: set<Request>)
    requires c.Valid() && Enabled(c, s, Receive(now, request, evicted))
    requires hand <= s.inflight && |hand| <= extra && SharedPermits(c, s, hand) && SharedBound(c, s, extra)
    ensures var t := AfterReceive(c, s, now, request, evicted);
            SharedPermits(c, t, hand) && SharedBound(c, t, extra)
  {
    EvictedWereQueued(c, s, now, request, evicted);
    hide Enabled, IsOldest, Score, Mark;
    if QueueIsFull(c, s) && !c.dropOldest {
      SamePermits(c, TasksOnly(s, hand), TasksOnly(AfterReject(s), hand));
    } else {
      var v, r := Drop(s, evicted, Evicted), Enqueued(c, s, request, now);
      FewerPermits(c, s, hand, extra, evicted, Evicted);
      TasksWithinLimits(c, s, hand);
      assert |s.queued - evicted| == |s.queued| - |evicted|;
      hide SharedPermits, TotalLimit;
      AddPermits(c, v, hand, extra, r);
    }
  }

  lemma AddPermits(c: Config, s: State, hand: set<Request>, extra: nat, r: Request)
    requires SharedPermits(c, s, hand)
    requires |s.queued| + 1 + |s.inflight| <= c.maxQueue + TotalLimit(c, s.permits.Keys) + extra
    ensures SharedPermits(c, AfterAdd(c, s, r), hand) && SharedBound(c, AfterAdd(c, s, r), extra)
  {
    var t := AfterAdd(c, s, r);
    StartedKeepsPermits(c, TasksOnly(s, hand), r, TasksOnly(t, hand));
    StartedRaisesLimit(c, s.permits, r.model);
    hide TotalLimit, PermitsConserved;
  }

  lemma StartPermits(c: Config, s: State, hand: set<Request>, extra: nat, model: ModelId)
    requires CoreInv(c, s) && model in s.permits && s.permits[model] > 0 && hand <= s.inflight
    requires SharedPermits(c, s, hand) && SharedBound(c, s, extra)
    ensures SharedPermits(c, AfterStart(s, model), hand) && SharedBound(c, AfterStart(s, model), extra)
  {
    hide CoreInv, SharedPermits, SharedBound, UniqueIds;
    QueuedUnique(c, s);
    var first := Head(OfModel(s.queued, model));
    if first.Some? {
      FirstOfModel(s.queued, model, first.value);
      hide OfModel, IsFirst;
      StartOfPermits(c, s, hand, extra, first.value, AfterStart(s, model));
    }
  }

  lemma FirstOfModel(queued: set<Request>, model: ModelId, r: Request)
    requires IsFirst(r, OfModel(queued, model))
    ensures r in queued && r.model == model
  {
  }

  lemma StartOfPermits(c: Config, s: State, hand: set<Request>, extra: nat, r: Request, t: State)
    requires SharedPermits(c, s, hand) && SharedBound(c, s, extra) && hand <= s.inflight
    requires r in s.queued && r !in s.inflight && r.model in s.permits && s.permits[r.model] > 0
    requires t == s.(queued := s.queued - {r}, inflight := s.inflight + {r},
                     permits := s.permits[r.model := s.permits[r.model] - 1], dispatched := s.dispatched + [r.id])
    ensures SharedPermits(c, t, hand) && SharedBound(c, t, extra)
  {
    hide PermitsConserved, TotalLimit;
    assert t.inflight - hand == s.inflight - hand + {r};
    TakenPermit(c, TasksOnly(s, hand), r, TasksOnly(t, hand));
    assert t.permits.Keys == s.permits.Keys;
    assert |t.queued| == |s.queued| - 1 && |t.inflight| == |s.inflight| + 1;
  }

  lemma FinishPermits(c: Config, s: State, hand: set<Request>, extra: nat, now: real, r: Request, outcome: Outcome)
    requires r in s.inflight && r !in hand && r.model in s.permits && hand <= s.inflight
    requires SharedPermits(c, s, hand) && SharedBound(c, s, extra)
    ensures var t := AfterFinish(c, s, now, r, outcome);
            SharedPermits(c, t, hand) && SharedBound(c, t, extra)
  {
    var t := AfterFinish(c, s, now, r, outcome);
    hide SharedPermits, SharedBound, Score;
    var again := Enqueued(c, s, r.(retries := r.retries + 1), now);
    var added := if EndOf(c, r, outcome).Some? then {} else {again};
    assert t.queued == s.queued + added && |added| <= 1;
    hide Enqueued, AfterFinish;
    FinishOfPermits(c, s, hand, extra, r, added, t) by {
      assert t.inflight == s.inflight - {r} && t.permits == Released(s.permits, r.model);
    }
  }

  lemma FinishOfPermits(c: Config, s: State, hand: set<Request>, extra: nat, r: Request, added: set<Request>,
                        t: State)
    requires r in s.inflight && r !in hand && r.model in s.permits && hand <= s.inflight
    requires SharedPermits(c, s, hand) && SharedBound(c, s, extra)
    requires t.inflight == s.inflight - {r} && t.permits == Released(s.permits, r.model)
    requires t.queued == s.queued + added && |added| <= 1 && forall x :: x in added ==> x.model == r.model
    ensures SharedPermits(c, t, hand) && SharedBound(c, t, extra)
  {
    assert t.inflight - hand == s.inflight - hand - {r};
    QueuedHavePermits(c, s, hand);
    hide PermitsConserved, TotalLimit;
    GivenPermit(c, TasksOnly(s, hand), r, TasksOnly(t, hand));
    assert t.permits.Keys == s.permits.Keys;
    assert |t.inflight| == |s.inflight| - 1 && |s.queued + added| <= |s.queued| + |added|;
  }

  lemma QueuedHavePermits(c: Config, s: State, hand: set<Request>)
    requires SharedPermits(c, s, hand)
    ensures forall r :: r in s.queued || r in hand ==> r.model in s.permits
  {
    assert forall r :: r in s.queued ==> r in TasksOnly(s, hand).Live();
  }

  // ---------- Steps of the legacy loop ----------

  /** What successive calls return are distinct queued requests, as many as are wanted and can be had. */
  lemma {:induction false} DrainedAreQueued(queued: set<Request>, batch: seq<Request>, n: nat)
    requires DrainedBy(queued, batch, n) && UniqueIds(queued)
    ensures Members(batch) <= queued && DistinctIds(batch)
    ensures |batch| == Least(n, |queued|)
    decreases |batch|
  {
    if batch != [] {
      var rest := batch[1..];
      DrainedAreQueued(queued - {batch[0]}, rest, n - 1);
      forall i | 0 <= i < |rest| ensures rest[i].id != batch[0].id {
        assert rest[i] in Members(rest) && !SameId(rest[i], batch[0]);
      }
      assert batch == [batch[0]] + rest;
    }
  }

  lemma CollectingShares(g: Setup, s: LoopState, batch: seq<Request>)
    requires SharedInv(g, s) && s.phase.Idle?
    requires batch != [] && DrainedBy(s.core.queued, batch, g.maxConcurrent)
    ensures SharedInv(g, AfterCollecting(s, batch))
  {
    var t := AfterCollecting(s, batch);
    QueuedUnique(g.config, s.core);
    HandIsEmpty(g, s);
    hide CoreInv, HandFits, DrainedBy, DistinctIds, SharedPermits, SharedBound, UniqueIds;
    DrainedAreQueued(s.core.queued, batch, g.maxConcurrent);
    CollectingFits(g, s, batch);
    CollectingKeepsCore(g.config, s.core, batch, t.core);
    CollectingPermits(g.config, s.core, Members(batch), g.maxConcurrent, t.core);
  }

  lemma HandIsEmpty(g: Setup, s: LoopState)
    requires s.phase.Idle?
    ensures Hand(s) == {}
  {
  }

  lemma CollectingFits(g: Setup, s: LoopState, batch: seq<Request>)
    requires batch != [] && DistinctIds(batch) && |batch| <= g.maxConcurrent
    ensures HandFits(g, AfterCollecting(s, batch)) && Hand(AfterCollecting(s, batch)) == Members(batch)
  {
    hide DistinctIds;
  }

  lemma CollectingPermits(c: Config, s: State, taken: set<Request>, extra: nat, t: State)
    requires SharedPermits(c, s, {}) && SharedBound(c, s, extra) && taken <= s.queued && s.queued !! s.inflight
    requires t.queued == s.queued - taken && t.inflight == s.inflight + taken && t.permits == s.permits
    ensures SharedPermits(c, t, taken) && SharedBound(c, t, extra)
  {
    hide TotalLimit;
    assert t.inflight - taken == s.inflight - {};
    assert |s.queued - taken| == |s.queued| - |taken| && |s.inflight + taken| == |s.inflight| + |taken|;
    SamePermits(c, TasksOnly(s, {}), TasksOnly(t, taken)) by {
      assert forall r :: r in s.queued ==> r in TasksOnly(s, {}).Live();
    }
  }

  lemma QueuedUnique(c: Config, s: State)
    requires CoreInv(c, s)
    ensures UniqueIds(s.queued) && s.queued !! s.inflight
  {
    assert s.queued <= s.Live();
  }

  /** While the hand holds distinct requests, its endings are those of the batch. */
  lemma ReturningShares(g: Setup, s: LoopState, batch: seq<Request>)
    requires SharedInv(g, s) && s.phase == Dispatching(batch) && batch != []
    ensures SharedInv(g, s.(phase := Settling(AllEndings(g, batch))))
  {
    hide CoreInv, DistinctIds, AllEndings, EndingsFit, SharedPermits, SharedBound;
    EndingsOfBatch(g, batch);
  }

  lemma LossShares(g: Setup, s: LoopState, batch: seq<Request>)
    requires SharedInv(g, s) && s.phase == Dispatching(batch)
    ensures SharedInv(g, LoopState(AfterLoss(s.core, Members(batch)), Stopped(batch)))
  {
    hide CoreInv, SharedPermits, SharedBound, AfterLoss, DistinctIds;
    LossFits(g, s, batch);
    LossKeepsCore(g.config, s.core, Members(batch));
    LossPermits(g.config, s.core, Members(batch), g.maxConcurrent);
    hide HandFits;
  }

  lemma LossPermits(c: Config, s: State, hand: set<Request>, extra: nat)
    requires SharedPermits(c, s, hand) && SharedBound(c, s, extra) && hand <= s.inflight
    ensures SharedPermits(c, AfterLoss(s, hand), {}) && SharedBound(c, AfterLoss(s, hand), extra)
  {
    assert hand - hand == {} && s.queued + {} == s.queued;
    hide SharedPermits, SharedBound, Mark;
    ReleasingPermits(c, s, hand, hand, {}, extra, AfterLoss(s, hand));
  }

  lemma LossFits(g: Setup, s: LoopState, batch: seq<Request>)
    ensures var t := LoopState(AfterLoss(s.core, Members(batch)), Stopped(batch)); HandFits(g, t) && Hand(t) == {}
  {
    var t := AfterLoss(s.core, Members(batch));
    assert forall r :: r in batch ==> r in Members(batch) && r.id in t.fates && t.fates[r.id] == Crashed;
  }

  /** The hand lets go of some requests, one of which may be queued again. */
  lemma ReleasingPermits(c: Config, s: State, hand: set<Request>, gone: set<Request>, added: set<Request>,
                         extra: nat, t: State)
    requires SharedPermits(c, s, hand) && SharedBound(c, s, extra) && gone <= hand <= s.inflight
    requires t.inflight == s.inflight - gone && t.permits == s.permits
    requires t.queued == s.queued + added && |added| <= |gone| && forall x :: x in added ==> x.model in s.permits
    ensures SharedPermits(c, t, hand - gone) && SharedBound(c, t, extra)
  {
    assert t.inflight - (hand - gone) == s.inflight - hand;
    QueuedHavePermits(c, s, hand);
    hide PermitsConserved, TotalLimit;
    SamePermits(c, TasksOnly(s, hand), TasksOnly(t, hand - gone));
    assert |s.inflight - gone| == |s.inflight| - |gone| && |s.queued + added| <= |s.queued| + |added|;
  }

  lemma SettlingShares(g: Setup, s: LoopState, endings: seq<Ending>)
    requires SharedInv(g, s) && s.phase == Settling(endings)
    ensures SharedInv(g, LoopState(AfterEnding(g, s.core, endings[0]), Rest(endings)))
  {
    var e, hand := endings[0], Hand(s);
    var t := AfterEnding(g, s.core, e);
    hide CoreInv, SharedPermits, SharedBound, AfterEnding;
    FirstHeld(g, s, endings);
    hide HandFits;
    EndingKeepsCore(g, s.core, e);
    EndingPermits(g, s.core, hand, e);
    SettlingFits(g, s, endings, t);
  }

  lemma SettlingFits(g: Setup, s: LoopState, endings: seq<Ending>, core: State)
    requires HandFits(g, s) && s.phase == Settling(endings)
    requires core.inflight == s.core.inflight - {endings[0].request}
    ensures var t := LoopState(core, Rest(endings)); HandFits(g, t) && Hand(t) == Hand(s) - {endings[0].request}
  {
    hide DistinctIds, EndingsFit;
    OneLessInHand(g, endings);
  }

  lemma FirstHeld(g: Setup, s: LoopState, endings: seq<Ending>)
    requires HandFits(g, s) && s.phase == Settling(endings)
    ensures endings != [] && Hand(s) <= s.core.inflight
    ensures var e := endings[0];
            e.request in Hand(s) && EndingFits(g, e)
  {
    assert Origins(endings)[0] == endings[0].request;
  }

  lemma EndingPermits(g: Setup, s: State, hand: set<Request>, e: Ending)
    requires SharedPermits(g.config, s, hand) && SharedBound(g.config, s, g.maxConcurrent)
    requires e.request in hand && hand <= s.inflight
    ensures var t := AfterEnding(g, s, e);
            SharedPermits(g.config, t, hand - {e.request}) && SharedBound(g.config, t, g.maxConcurrent)
  {
    var r := e.request;
    hide SharedPermits, SharedBound, Score;
    QueuedHavePermits(g.config, s, hand);
    var again := Enqueued(g.config, s, r.(retries := r.retries + 1), s.now);
    assert again.model in s.permits;
    hide Enqueued;
    var added := if e.Retried? then {again} else {};
    ReleasingPermits(g.config, s, hand, {r}, added, g.maxConcurrent, AfterEnding(g, s, e));
  }

  lemma LoopedShares(g: Setup, s: LoopState, batch: seq<Request>)
    requires SharedInv(g, s) && !s.phase.Stopped?
    requires s.phase.Idle? ==> DrainedBy(s.core.queued, batch, g.maxConcurrent)
    ensures SharedInv(g, AfterLoop(g, s, batch))
  {
    hide SharedInv, DrainedBy, AllEndings, NoneEscapes, AfterLoss, AfterEnding;
    HandNotEmpty(g, s);
    match s.phase
    case Idle =>
      if batch != [] {
        CollectingShares(g, s, batch);
      }
    case Dispatching(held) =>
      ReturningShares(g, s, held);
      LossShares(g, s, held);
    case Settling(endings) => SettlingShares(g, s, endings);
  }

  lemma HandNotEmpty(g: Setup, s: LoopState)
    requires SharedInv(g, s)
    ensures s.phase.Dispatching? || s.phase.Settling? ==> InHand(s.phase) != []
  {
  }

  // ---------- What every run guarantees ----------

  lemma SharedStepKeepsInv(g: Setup, s: LoopState, e: SharedEvent)
    requires g.Valid() && SharedInv(g, s) && May(g, s, e)
    ensures SharedInv(g, Then(g, s, e))
  {
    match e
    case Served(event) =>
      ServedKeepsCore(g.config, s.core, event);
      ServedKeepsHand(g, s, event);
      HandSize(g, s);
      hide CoreInv, After, Enabled, SharedPermits, SharedBound;
      ServedKeepsPermits(g.config, s.core, Hand(s), g.maxConcurrent, event);
    case Looped(now, batch) =>
      LaterShares(g, s, s.(core := s.core.(now := now)));
      hide SharedInv, AfterLoop, DrainedBy;
      LoopedShares(g, s.(core := s.core.(now := now)), batch);
  }

  lemma HandSize(g: Setup, s: LoopState)
    requires HandFits(g, s)
    ensures |Hand(s)| <= g.maxConcurrent
  {
    DistinctMembers(InHand(s.phase));
  }

  lemma LaterShares(g: Setup, s: LoopState, t: LoopState)
    requires SharedInv(g, s) && t == s.(core := s.core.(now := t.core.now))
    ensures SharedInv(g, t)
  {
    SameRequests(g.config, s.core, t.core);
    LaterPermits(g.config, s.core, Hand(s), g.maxConcurrent, t.core);
    hide CoreInv, SharedPermits, SharedBound, DistinctIds;
  }

  lemma {:induction false} SharedRunKeepsInv(g: Setup, s: LoopState, events: seq<SharedEvent>)
    requires g.Valid() && SharedInv(g, s) && Takes(g, s, events)
    ensures SharedInv(g, Ends(g, s, events))
    decreases |events|
  {
    hide SharedInv, May, Then;
    if events != [] {
      SharedStepKeepsInv(g, s, events[0]);
      SharedRunKeepsInv(g, Then(g, s, events[0]), events[1..]);
    }
  }

  /** Two kinds of loops drain one scheduler, and still each received request is queued, in flight or ended, in
      exactly one of these places; it is answered at most once and dispatched at most once more than it may
      be retried, and exactly so often if it was given up. */
  lemma SharedLosesNothing(g: Setup, events: seq<SharedEvent>, id: nat)
    requires g.Valid() && Takes(g, Beginning, events)
    ensures var s := Ends(g, Beginning, events).core;
            && (id < s.received ==> Places(s, id) == 1)
            && (id >= s.received ==> Places(s, id) == 0)
            && |s.queued| + |s.inflight| + |s.fates| == s.received
            && multiset(s.sent)[id] <= 1
            && (multiset(s.sent)[id] == 1 <==> id in s.fates && s.fates[id] == Fate.Answered)
            && Dispatches(s.dispatched, id) <= g.config.maxRetries + 1
            && (id in s.fates && s.fates[id] == Fate.Errored ==>
                  Dispatches(s.dispatched, id) == g.config.maxRetries + 1)
  {
    BeginningShares(g);
    SharedRunKeepsInv(g, Beginning, events);
    var s := Ends(g, Beginning, events).core;
    PlacesAreOne(s, id);
    PlacesAddUp(s);
  }

  /** The limit of a model bounds its dispatch tasks. What is in flight for it can exceed the limit by what the
      legacy loop holds, and so can the queue exceed its bound. */
  lemma SharedBounds(g: Setup, events: seq<SharedEvent>)
    requires g.Valid() && Takes(g, Beginning, events)
    ensures var s := Ends(g, Beginning, events);
            && |s.core.queued| + |s.core.inflight|
               <= g.config.maxQueue + TotalLimit(g.config, s.core.permits.Keys) + g.maxConcurrent
            && forall m :: m in s.core.permits ==>
                 && s.core.permits[m] + |OfModel(s.core.inflight - Hand(s), m)| == g.config.Limit(m)
                 && |OfModel(s.core.inflight, m)| <= g.config.Limit(m) + g.maxConcurrent
  {
    BeginningShares(g);
    SharedRunKeepsInv(g, Beginning, events);
    var s := Ends(g, Beginning, events);
    HandSize(g, s);
    hide CoreInv, TotalLimit, DistinctIds;
    forall m | m in s.core.permits
      ensures |OfModel(s.core.inflight, m)| <= |OfModel(s.core.inflight - Hand(s), m)| + |Hand(s)|
    {
      SubsetSize(OfModel(s.core.inflight, m), OfModel(s.core.inflight - Hand(s), m) + Hand(s));
    }
  }

  // ---------- A run that exceeds the limit of a model ----------

  ghost function Lifted(events: seq<Event>): (lifted: seq<SharedEvent>)
    ensures |lifted| == |events| && forall i :: 0 <= i < |events| ==> lifted[i] == Served(events[i])
  {
    seq(|events|, i requires 0 <= i < |events| => Served(events[i]))
  }

  /** While the legacy loop waits for its turn, runs are those of the per-model protocol. */
  lemma {:induction false} LiftRun(g: Setup, s: LoopState, events: seq<Event>)
    requires s.phase.Idle? && Possible(g.config, s.core, events)
    ensures Takes(g, s, Lifted(events))
    ensures Ends(g, s, Lifted(events)) == s.(core := Pipeline.Run(g.config, s.core, events))
    decreases |events|
  {
    hide Enabled, After;
    if events != [] {
      assert Lifted(events)[1..] == Lifted(events[1..]);
      LiftRun(g, s.(core := After(g.config, s.core, events[0])), events[1..]);
    }
  }

  lemma {:induction false} TakesOneMore(g: Setup, s: LoopState, events: seq<SharedEvent>, e: SharedEvent)
    requires Takes(g, s, events) && May(g, Ends(g, s, events), e)
    ensures Takes(g, s, events + [e]) && Ends(g, s, events + [e]) == Then(g, Ends(g, s, events), e)
    decreases |events|
  {
    hide May, Then;
    if events == [] {
      assert [] + [e] == [e] && [e][1..] == [];
    } else {
      assert (events + [e])[1..] == events[1..] + [e];
      TakesOneMore(g, Then(g, s, events[0]), events[1..], e);
    }
  }

  /** With one model only, successive calls follow the service order. */
  lemma {:induction false} OrderIsDrained(queued: set<Request>, model: ModelId, n: nat)
    requires Distinct(queued) && forall r :: r in queued ==> r.model == model
    ensures DrainedBy(queued, Order(queued)[..Least(n, |Order(queued)|)], n)
    decreases n
  {
    if queued != {} && n > 0 {
      var first := First(queued);
      assert OfModel(queued, model) == queued;
      OrderIsDrained(queued - {first}, model, n - 1);
      var rest := Order(queued - {first});
      assert Order(queued)[..Least(n, |Order(queued)|)] == [first] + rest[..Least(n - 1, |rest|)];
    }
  }

  /** With both kinds of loops at work, the limit of a model does not hold: its tasks can use up all permits, and
      the legacy loop takes as many again as it wants. */
  lemma LimitIsExceeded(g: Setup, model: ModelId) returns (events: seq<SharedEvent>)
    requires g.Valid()
    ensures Takes(g, Beginning, events)
    ensures |OfModel(Ends(g, Beginning, events).core.inflight, model)|
            == g.config.Limit(model) + Least(g.maxConcurrent, g.config.maxQueue)
  {
    var c := g.config;
    var run := TasksAndQueueFull(c, model);
    var s := LoopState(Pipeline.Run(c, Init, run), Idle);
    hide Inv, Enabled, After, May, Then, Possible, Pipeline.Run, Takes, Ends, OfModel;
    LiftRun(g, Beginning, run);
    var e := CollectsMore(g, s, model);
    TakesOneMore(g, Beginning, Lifted(run), e);
    events := Lifted(run) + [e];
  }

  lemma TasksAndQueueFull(c: Config, model: ModelId) returns (events: seq<Event>)
    requires c.Valid()
    ensures Possible(c, Init, events)
    ensures var s := Pipeline.Run(c, Init, events);
            && Inv(c, s) && |s.queued| == c.maxQueue && s.permits.Keys == {model} && |s.inflight| == c.Limit(model)
  {
    InitHolds(c);
    OneLimit(c, model);
    hide Inv, Enabled, After, FirstAttempts, TotalLimit;
    assert FirstAttempts(Init) by { NoneTried(); }
    var begin := Saturate(c, Init, {model});
    var fill := FillQueue(c, Pipeline.Run(c, Init, begin), model);
    RunAppend(c, Init, begin, fill);
    events := begin + fill;
  }

  lemma NoneTried()
    ensures FirstAttempts(Init)
  {
  }

  lemma OneLimit(c: Config, model: ModelId)
    ensures TotalLimit(c, {model}) == c.Limit(model)
  {
    var limit := (m: ModelId) => c.Limit(m);
    SumRemove({model}, model, limit);
    assert {model} - {model} == {};
  }

  lemma CollectsMore(g: Setup, s: LoopState, model: ModelId) returns (e: SharedEvent)
    requires g.Valid() && Inv(g.config, s.core) && s.phase.Idle?
    requires |s.core.queued| == g.config.maxQueue && s.core.permits.Keys == {model}
    requires |s.core.inflight| == g.config.Limit(model)
    ensures May(g, s, e)
    ensures |OfModel(Then(g, s, e).core.inflight, model)|
            == g.config.Limit(model) + Least(g.maxConcurrent, g.config.maxQueue)
  {
    AllForModel(g.config, s.core, model);
    hide Inv, Order, DrainedBy, Distinct, DistinctIds, Represents, Sorted, UniqueIds;
    var all := Order(s.core.queued);
    var batch := all[..Least(g.maxConcurrent, |all|)];
    OrderIsSorted(s.core.queued);
    RepresentsMembers(all, s.core.queued);
    OrderIsDrained(s.core.queued, model, g.maxConcurrent);
    DrainedAreQueued(s.core.queued, batch, g.maxConcurrent);
    DistinctMembers(batch);
    e := Looped(s.core.now, batch);
    var t := Then(g, s, e).core;
    assert t.inflight == s.core.inflight + Members(batch);
    assert OfModel(t.inflight, model) == t.inflight;
  }

  lemma AllForModel(c: Config, s: State, model: ModelId)
    requires Inv(c, s) && s.permits.Keys == {model}
    ensures forall r :: r in s.queued || r in s.inflight ==> r.model == model
    ensures Distinct(s.queued) && UniqueIds(s.queued) && s.queued !! s.inflight
  {
    QueuedUnique(c, s);
    forall r | r in s.queued || r in s.inflight ensures r.model == model {
      assert r in s.Live() && r.model in s.permits.Keys;
    }
  }
}
