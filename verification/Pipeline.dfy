/** The per-model dispatch protocol of the server (server.py:129-335, 466-482) as a transition system.
    One event is the code that runs between two awaits. */
module Pipeline {
  import opened Requests
  import opened ServiceOrder
  import opened Scoring
  import opened Eviction
  import opened ModelHeaps
  import opened SetSums

  datatype Config = Config(
    maxQueue: nat,
    dropOldest: bool,
    maxRetries: nat,
    ttlMs: real,
    weights: Weights,
    known: map<ModelId, nat>,
    defaultInflight: nat)
  {
    /** `get_model_max_inflight`. */
    function Limit(model: ModelId): (limit: nat) {
      if model in known then known[model] else defaultInflight
    }

    /** The bounds that the configuration schema imposes. */
    ghost predicate Valid() {
      maxQueue >= 1 && defaultInflight >= 1 && forall m :: m in known ==> known[m] >= 1
    }
  }

  /** How a received request ended. */
  datatype Fate = Rejected | Evicted | TimedOut | Purged | Answered | SendFailed | Errored | Crashed

  /** What became of one dispatch: the result was delivered, sending it failed, the dispatcher reported
      a failure, or an exception was raised. */
  datatype Outcome = Delivered | SendError | Failed | Raised

  /** `queued` is what the scheduler holds, `inflight` the requests of the running dispatch tasks,
      `permits` the free permits of the semaphores (one for each dispatch loop that was started).
      `fates`, `dispatched` and `sent` record history: the end of each request, the dispatches that
      were started and the responses that were delivered, by request. */
  datatype State = State(
    now: real,
    received: nat,
    counter: nat,
    queued: set<Request>,
    inflight: set<Request>,
    permits: map<ModelId, nat>,
    fates: map<nat, Fate>,
    dispatched: seq<nat>,
    sent: seq<nat>)
  {
    ghost function Live(): (live: set<Request>) {
      queued + inflight
    }
  }

  datatype Event =
    | Receive(now: real, request: Request, evicted: set<Request>)
    | Start(now: real, model: ModelId)
    | Finish(now: real, request: Request, outcome: Outcome)
    | Tick(now: real)
    | Purge(now: real, client: ClientId)

  ghost const Init := State(0.0, 0, 0, {}, {}, map[], map[], [], [])

  ghost predicate QueueIsFull(c: Config, s: State) {
    |s.queued| >= c.maxQueue
  }

  ghost predicate Enabled(c: Config, s: State, e: Event) {
    && e.now >= s.now
    && match e
       case Receive(_, request, evicted) =>
         && request.id == s.received && request.retries == 0
         && if QueueIsFull(c, s) && c.dropOldest && s.queued != {}
            then exists v :: IsOldest(v, s.queued) && evicted == {v}
            else evicted == {}
       case Start(_, model) => model in s.permits && s.permits[model] > 0
       case Finish(_, request, _) => request in s.inflight && request.model in s.permits
       case Tick(_) => true
       case Purge(_, _) => true
  }

  ghost function Enqueued(c: Config, s: State, r: Request, now: real): (q: Request) {
    r.(score := Score(c.weights, r, now), counter := s.counter)
  }

  ghost function Mark(fates: map<nat, Fate>, gone: set<Request>, fate: Fate): (marked: map<nat, Fate>) {
    fates + map r | r in gone :: r.id := fate
  }

  ghost function Drop(s: State, gone: set<Request>, fate: Fate): (t: State) {
    s.(queued := s.queued - gone, fates := Mark(s.fates, gone, fate))
  }

  ghost function After(c: Config, s: State, e: Event): (t: State)
    requires Enabled(c, s, e)
  {
    var t := s.(now := e.now);
    match e
    case Receive(now, request, evicted) => AfterReceive(c, t, now, request, evicted)
    case Start(_, model) => AfterStart(t, model)
    case Finish(now, request, outcome) => AfterFinish(c, t, now, request, outcome)
    case Tick(now) => Drop(t, Select(s.queued, HasExpired(now, c.ttlMs)), TimedOut)
    case Purge(_, client) => Drop(t, Select(s.queued, From(client)), Purged)
  }

  /** Receive, submit, and start a dispatch loop for a model seen for the first time. */
  ghost function AfterReceive(c: Config, s: State, now: real, request: Request, evicted: set<Request>): (t: State) {
    if QueueIsFull(c, s) && !c.dropOldest then AfterReject(s)
    else AfterAdd(c, Drop(s, evicted, Evicted), Enqueued(c, s, request, now))
  }

  ghost function AfterReject(s: State): (t: State) {
    s.(received := s.received + 1, fates := s.fates[s.received := Rejected])
  }

  ghost function AfterAdd(c: Config, s: State, r: Request): (t: State) {
    s.(received := s.received + 1,
       counter := s.counter + 1,
       queued := s.queued + {r},
       permits := Started(c, s.permits, r.model))
  }

  ghost function Started(c: Config, permits: map<ModelId, nat>, model: ModelId): (granted: map<ModelId, nat>) {
    if model in permits then permits else permits[model := c.Limit(model)]
  }

  /** Acquire a permit and pop; without work the permit is released at once. */
  ghost function AfterStart(s: State, model: ModelId): (t: State)
    requires model in s.permits && s.permits[model] > 0
  {
    match Head(OfModel(s.queued, model))
    case None => s
    case Some(r) =>
      s.(queued := s.queued - {r},
         inflight := s.inflight + {r},
         permits := s.permits[model := s.permits[model] - 1],
         dispatched := s.dispatched + [r.id])
  }

  /** How a dispatch ends its request; None when the request is sent back to the queue. */
  ghost function EndOf(c: Config, r: Request, outcome: Outcome): (fate: Option<Fate>) {
    match outcome
    case Delivered => Some(Answered)
    case SendError => Some(SendFailed)
    case Raised => Some(Crashed)
    case Failed => if c.maxRetries > 0 && r.retries < c.maxRetries then None else Some(Errored)
  }

  ghost function Released(permits: map<ModelId, nat>, model: ModelId): (granted: map<ModelId, nat>)
    requires model in permits
  {
    permits[model := permits[model] + 1]
  }

  /** The end of `_dispatch_single`, the release of its permit included. */
  ghost function AfterFinish(c: Config, s: State, now: real, r: Request, outcome: Outcome): (t: State)
    requires r.model in s.permits
  {
    match EndOf(c, r, outcome)
    case Some(fate) => AfterEnd(s, r, fate)
    case None => AfterRetry(s, r, Enqueued(c, s, r.(retries := r.retries + 1), now))
  }

  ghost function AfterEnd(s: State, r: Request, fate: Fate): (t: State)
    requires r.model in s.permits
  {
    s.(inflight := s.inflight - {r},
       permits := Released(s.permits, r.model),
       fates := s.fates[r.id := fate],
       sent := if fate == Answered then s.sent + [r.id] else s.sent)
  }

  ghost function AfterRetry(s: State, r: Request, again: Request): (t: State)
    requires r.model in s.permits
  {
    s.(inflight := s.inflight - {r},
       permits := Released(s.permits, r.model),
       queued := s.queued + {again},
       counter := s.counter + 1)
  }

  // ---------- Runs ----------

  /** Some interleaving of events, each enabled when it happens. */
  ghost predicate Possible(c: Config, s: State, events: seq<Event>)
    decreases |events|
  {
    events == [] || (Enabled(c, s, events[0]) && Possible(c, After(c, s, events[0]), events[1..]))
  }

  ghost function Run(c: Config, s: State, events: seq<Event>): (t: State)
    requires Possible(c, s, events)
    decreases |events|
  {
    if events == [] then s else Run(c, After(c, s, events[0]), events[1..])
  }

  // ---------- What every reachable state satisfies ----------

  ghost predicate IsLive(live: set<Request>, id: nat) {
    exists r :: r in live && r.id == id
  }

  /** Each received request is queued, in flight or ended, and in one of these places only. */
  ghost predicate OnePlace(s: State) {
    && s.queued !! s.inflight
    && UniqueIds(s.Live())
    && (forall r :: r in s.Live() ==> r.id < s.received && r.id !in s.fates)
    && (forall id :: id in s.fates ==> id < s.received)
    && (forall id :: 0 <= id < s.received && id !in s.fates ==> IsLive(s.Live(), id))
  }

  ghost predicate CountersGrow(s: State) {
    Distinct(s.queued) && forall r :: r in s.queued ==> r.counter < s.counter
  }

  /** Free permits and running dispatches add up to the limit of each started model. */
  ghost predicate PermitsConserved(c: Config, s: State) {
    && (forall r :: r in s.Live() ==> r.model in s.permits)
    && (forall m :: m in s.permits ==> s.permits[m] + |OfModel(s.inflight, m)| == c.Limit(m))
  }

  ghost function TotalLimit(c: Config, models: set<ModelId>): (limit: int) {
    Sum(models, (m: ModelId) => c.Limit(m))
  }

  ghost predicate Bounded(c: Config, s: State) {
    |s.queued| + |s.inflight| <= c.maxQueue + TotalLimit(c, s.permits.Keys)
  }

  ghost function Dispatches(log: seq<nat>, id: nat): (count: nat) {
    multiset(log)[id]
  }

  /** A waiting request was dispatched once for each retry, a running one once more; one that was given up
      had used up all its retries. */
  ghost predicate RetriesCounted(c: Config, s: State) {
    && (forall r :: r in s.queued ==> r.retries <= c.maxRetries && Dispatches(s.dispatched, r.id) == r.retries)
    && (forall r :: r in s.inflight ==> r.retries <= c.maxRetries && Dispatches(s.dispatched, r.id) == r.retries + 1)
    && (forall id :: id in s.fates ==> Dispatches(s.dispatched, id) <= c.maxRetries + 1)
    && (forall id :: id in s.fates && s.fates[id] == Errored ==> Dispatches(s.dispatched, id) == c.maxRetries + 1)
    && (forall id :: id >= s.received ==> Dispatches(s.dispatched, id) == 0)
  }

  /** Responses were delivered once for each answered request, and for no other. */
  ghost predicate SentOnce(s: State) {
    forall id :: multiset(s.sent)[id] == if id in s.fates && s.fates[id] == Answered then 1 else 0
  }

  ghost predicate Inv(c: Config, s: State) {
    OnePlace(s) && CountersGrow(s) && PermitsConserved(c, s) && Bounded(c, s) && RetriesCounted(c, s) && SentOnce(s)
  }

  // ---------- Each event keeps the invariant ----------

  lemma InitHolds(c: Config)
    ensures Inv(c, Init)
  {
  }

  lemma DropKeepsPlace(s: State, gone: set<Request>, fate: Fate)
    requires OnePlace(s) && gone <= s.queued
    ensures OnePlace(Drop(s, gone, fate))
  {
    var t := Drop(s, gone, fate);
    forall id | 0 <= id < t.received && id !in t.fates ensures IsLive(t.Live(), id) {
      assert IsLive(s.Live(), id);
      var r :| r in s.Live() && r.id == id;
      assert r in t.Live();
    }
    forall r | r in t.Live() ensures r.id !in t.fates {
      if g :| g in gone && g.id == r.id {
        assert SameId(g, r);
      }
    }
  }

  /** A request in flight ends. */
  lemma EndKeepsPlace(s: State, r: Request, fate: Fate, t: State)
    requires OnePlace(s) && r in s.inflight
    requires t.queued == s.queued && t.inflight == s.inflight - {r}
    requires t.received == s.received && t.fates == s.fates[r.id := fate]
    ensures OnePlace(t)
  {
    forall id | 0 <= id < t.received && id !in t.fates ensures IsLive(t.Live(), id) {
      assert IsLive(s.Live(), id);
      var x :| x in s.Live() && x.id == id;
      assert x in t.Live();
    }
    forall x | x in t.Live() ensures x.id !in t.fates {
      assert x in s.Live() && !SameId(x, r);
    }
  }

  /** A request in flight goes back to the queue under the same identity. */
  lemma RetryKeepsPlace(s: State, r: Request, r': Request, t: State)
    requires OnePlace(s) && r in s.inflight && r'.id == r.id
    requires t.queued == s.queued + {r'} && t.inflight == s.inflight - {r}
    requires t.received == s.received && t.fates == s.fates
    ensures OnePlace(t) && r' !in s.queued
  {
    assert r' in s.queued ==> SameId(r, r');
    forall x | x in t.Live() && x != r' ensures x in s.Live() && !SameId(x, r') && !SameId(r', x) {
      assert SameId(x, r) ==> x == r;
      assert r !in s.queued;
    }
    forall id | 0 <= id < t.received && id !in t.fates ensures IsLive(t.Live(), id) {
      assert IsLive(s.Live(), id);
      var x :| x in s.Live() && x.id == id;
      assert (if x == r then r' else x) in t.Live();
    }
    assert r' !in t.inflight by {
      assert r' in s.inflight && r' != r ==> SameId(r, r');
    }
  }

  /** A newly received request is queued. */
  lemma AddKeepsPlace(s: State, r: Request, t: State)
    requires OnePlace(s) && r.id == s.received
    requires t.queued == s.queued + {r} && t.inflight == s.inflight
    requires t.received == s.received + 1 && t.fates == s.fates
    ensures OnePlace(t) && r !in s.queued
  {
    forall x | x in s.Live() ensures !SameId(x, r) && !SameId(r, x) {
    }
    assert r !in s.Live();
    forall id | 0 <= id < t.received && id !in t.fates ensures IsLive(t.Live(), id) {
      if id == r.id {
        assert r in t.Live();
      } else {
        assert IsLive(s.Live(), id);
        var x :| x in s.Live() && x.id == id;
        assert x in t.Live();
      }
    }
  }

  lemma RejectKeepsPlace(s: State, t: State)
    requires OnePlace(s)
    requires t.queued == s.queued && t.inflight == s.inflight
    requires t.received == s.received + 1 && t.fates == s.fates[s.received := Rejected]
    ensures OnePlace(t)
  {
    assert t.Live() == s.Live();
    forall id | 0 <= id < t.received && id !in t.fates ensures IsLive(t.Live(), id) {
      assert IsLive(s.Live(), id);
    }
  }

  lemma SubsetSize<T>(s: set<T>, t: set<T>)
    requires s <= t
    ensures |s| <= |t|
  {
    assert t == s + (t - s);
  }

  /** The running dispatches never exceed the limits of the started models. */
  lemma InflightWithinLimits(c: Config, s: State)
    requires PermitsConserved(c, s)
    ensures |s.inflight| <= TotalLimit(c, s.permits.Keys)
  {
    forall r | r in s.inflight ensures r.model in s.permits.Keys {
      assert r in s.Live();
    }
    InflightWithin(c, s.inflight, s.permits.Keys);
  }

  lemma {:induction false} InflightWithin(c: Config, running: set<Request>, models: set<ModelId>)
    requires forall m :: m in models ==> |OfModel(running, m)| <= c.Limit(m)
    requires forall r :: r in running ==> r.model in models
    ensures |running| <= TotalLimit(c, models)
    decreases |models|
  {
    if models == {} {
      assert running == {};
    } else {
      var m := Pick(models);
      var mine := OfModel(running, m);
      forall k | k in models - {m} ensures OfModel(running - mine, k) == OfModel(running, k) {
      }
      InflightWithin(c, running - mine, models - {m});
      assert running == mine + (running - mine);
    }
  }

  lemma DropKeepsRest(c: Config, s: State, gone: set<Request>, fate: Fate)
    requires Inv(c, s) && gone <= s.queued && fate != Answered && fate != Errored
    ensures var t := Drop(s, gone, fate);
            CountersGrow(t) && PermitsConserved(c, t) && Bounded(c, t)
  {
    SubsetSize(s.queued - gone, s.queued);
  }

  lemma DropKeepsHistory(c: Config, s: State, gone: set<Request>, fate: Fate)
    requires OnePlace(s) && RetriesCounted(c, s) && SentOnce(s)
    requires gone <= s.queued && fate != Answered && fate != Errored
    ensures var t := Drop(s, gone, fate);
            RetriesCounted(c, t) && SentOnce(t)
  {
    var t := Drop(s, gone, fate);
    forall id | id in t.fates && id !in s.fates
      ensures t.fates[id] == fate && Dispatches(s.dispatched, id) <= c.maxRetries + 1
    {
      var r :| r in gone && r.id == id;
    }
    forall id | id in s.fates ensures id in t.fates && t.fates[id] == s.fates[id] {
      assert forall r :: r in gone ==> r in s.Live();
    }
  }

  lemma DropKeepsInv(c: Config, s: State, gone: set<Request>, fate: Fate)
    requires Inv(c, s) && gone <= s.queued && fate != Answered && fate != Errored
    ensures Inv(c, Drop(s, gone, fate))
  {
    hide OnePlace, CountersGrow, PermitsConserved, Bounded, RetriesCounted, SentOnce;
    DropKeepsPlace(s, gone, fate);
    DropKeepsRest(c, s, gone, fate);
    DropKeepsHistory(c, s, gone, fate);
  }

  lemma RejectKeepsRest(c: Config, s: State, t: State)
    requires OnePlace(s) && CountersGrow(s) && PermitsConserved(c, s) && Bounded(c, s)
    requires RetriesCounted(c, s) && SentOnce(s)
    requires t == AfterReject(s)
    ensures CountersGrow(t) && PermitsConserved(c, t) && Bounded(c, t) && RetriesCounted(c, t) && SentOnce(t)
  {
    assert s.received !in s.fates;
  }

  lemma RejectKeepsInv(c: Config, s: State)
    requires Inv(c, s)
    ensures Inv(c, AfterReject(s))
  {
    hide OnePlace, CountersGrow, PermitsConserved, Bounded, RetriesCounted, SentOnce;
    var t := AfterReject(s);
    RejectKeepsPlace(s, t);
    RejectKeepsRest(c, s, t);
  }

  ghost predicate HasRoom(c: Config, s: State) {
    |s.queued| + 1 + |s.inflight| <= c.maxQueue + TotalLimit(c, s.permits.Keys)
  }

  lemma StartedRaisesLimit(c: Config, permits: map<ModelId, nat>, model: ModelId)
    ensures TotalLimit(c, Started(c, permits, model).Keys) >= TotalLimit(c, permits.Keys)
  {
    if model !in permits {
      SumAdd(permits.Keys, model, (m: ModelId) => c.Limit(m));
      assert Started(c, permits, model).Keys == permits.Keys + {model};
    }
  }

  lemma StartedKeepsPermits(c: Config, s: State, r: Request, t: State)
    requires PermitsConserved(c, s)
    requires t.inflight == s.inflight && t.queued == s.queued + {r} && t.permits == Started(c, s.permits, r.model)
    ensures PermitsConserved(c, t)
  {
    assert forall x :: x in t.Live() ==> x == r || x in s.Live();
    if r.model !in s.permits {
      assert forall x :: x in s.inflight ==> x in s.Live();
      assert OfModel(s.inflight, r.model) == {};
    }
  }

  /** Queueing a new request, with the loop of its model started if need be. */
  lemma AddKeepsInv(c: Config, s: State, r: Request)
    requires Inv(c, s) && HasRoom(c, s)
    requires r.id == s.received && r.counter == s.counter && r.retries == 0
    ensures Inv(c, AfterAdd(c, s, r))
  {
    var t := AfterAdd(c, s, r);
    hide OnePlace, CountersGrow, PermitsConserved, RetriesCounted, SentOnce;
    AddKeepsPlace(s, r, t);
    AddKeepsCounters(s, r, t);
    StartedKeepsPermits(c, s, r, t);
    StartedRaisesLimit(c, s.permits, r.model);
    AddKeepsHistory(c, s, r, t);
  }

  lemma AddKeepsCounters(s: State, r: Request, t: State)
    requires CountersGrow(s) && r.counter == s.counter
    requires t.queued == s.queued + {r} && t.counter == s.counter + 1
    ensures CountersGrow(t)
  {
    DistinctAdd(s.queued, r);
  }

  lemma AddKeepsHistory(c: Config, s: State, r: Request, t: State)
    requires OnePlace(s) && RetriesCounted(c, s) && SentOnce(s) && r.id == s.received && r.retries == 0
    requires t.queued == s.queued + {r} && t.inflight == s.inflight && t.received == s.received + 1
    requires t.fates == s.fates && t.dispatched == s.dispatched && t.sent == s.sent
    ensures RetriesCounted(c, t) && SentOnce(t)
  {
  }

  /** Below the bound there is room for one more; an eviction makes room at the bound. */
  lemma RoomAfterEviction(c: Config, s: State, evicted: set<Request>)
    requires c.Valid() && Inv(c, s) && evicted <= s.queued
    requires QueueIsFull(c, s) ==> |evicted| == 1
    ensures HasRoom(c, Drop(s, evicted, Evicted))
  {
    InflightWithinLimits(c, s);
    assert |s.queued - evicted| == |s.queued| - |evicted|;
  }

  lemma ReceiveKeepsInv(c: Config, s: State, now: real, request: Request, evicted: set<Request>)
    requires c.Valid() && Inv(c, s) && Enabled(c, s, Receive(now, request, evicted))
    ensures Inv(c, AfterReceive(c, s, now, request, evicted))
  {
    hide Inv;
    if QueueIsFull(c, s) && !c.dropOldest {
      RejectKeepsInv(c, s);
    } else {
      assert evicted <= s.queued && (QueueIsFull(c, s) ==> |evicted| == 1);
      DropKeepsInv(c, s, evicted, Evicted);
      RoomAfterEviction(c, s, evicted);
      AddKeepsInv(c, Drop(s, evicted, Evicted), Enqueued(c, s, request, now));
    }
  }

  lemma StartKeepsInv(c: Config, s: State, model: ModelId)
    requires Inv(c, s) && model in s.permits && s.permits[model] > 0
    ensures Inv(c, AfterStart(s, model))
  {
    var mine := OfModel(s.queued, model);
    DistinctOfModel(s.queued, model);
    HeadIsFirst(mine);
    if mine != {} {
      StartOfKeepsInv(c, s, First(mine), AfterStart(s, model));
    }
  }

  lemma StartOfKeepsInv(c: Config, s: State, r: Request, t: State)
    requires Inv(c, s) && r in s.queued && r.model in s.permits && s.permits[r.model] > 0
    requires t == s.(queued := s.queued - {r}, inflight := s.inflight + {r},
                     permits := s.permits[r.model := s.permits[r.model] - 1], dispatched := s.dispatched + [r.id])
    ensures Inv(c, t)
  {
    hide OnePlace, CountersGrow, PermitsConserved, Bounded, RetriesCounted;
    StartKeepsPlace(s, r, t);
    StartKeepsPermits(c, s, r, t);
    StartKeepsHistory(c, s, r, t);
  }

  lemma StartKeepsPlace(s: State, r: Request, t: State)
    requires OnePlace(s) && CountersGrow(s) && r in s.queued
    requires t.queued == s.queued - {r} && t.inflight == s.inflight + {r}
    requires t.received == s.received && t.fates == s.fates && t.counter == s.counter
    ensures OnePlace(t) && CountersGrow(t) && r !in s.inflight
  {
    assert t.Live() == s.Live();
    forall id | 0 <= id < t.received && id !in t.fates ensures IsLive(t.Live(), id) {
      assert IsLive(s.Live(), id);
    }
  }

  lemma StartKeepsPermits(c: Config, s: State, r: Request, t: State)
    requires PermitsConserved(c, s) && Bounded(c, s) && r in s.queued && r !in s.inflight
    requires t.queued == s.queued - {r} && t.inflight == s.inflight + {r}
    requires s.permits[r.model] > 0 && t.permits == s.permits[r.model := s.permits[r.model] - 1]
    ensures PermitsConserved(c, t) && Bounded(c, t)
  {
    TakenPermit(c, s, r, t);
    assert t.permits.Keys == s.permits.Keys;
    assert |t.queued| == |s.queued| - 1 && |t.inflight| == |s.inflight| + 1;
  }

  lemma TakenPermit(c: Config, s: State, r: Request, t: State)
    requires PermitsConserved(c, s) && r in s.queued && r !in s.inflight
    requires t.queued <= s.queued && t.inflight == s.inflight + {r}
    requires s.permits[r.model] > 0 && t.permits == s.permits[r.model := s.permits[r.model] - 1]
    ensures PermitsConserved(c, t)
  {
    OfModelAdd(s.inflight, r);
  }

  lemma GivenPermit(c: Config, s: State, r: Request, t: State)
    requires PermitsConserved(c, s) && r in s.inflight && forall x :: x in t.queued ==> x.model in s.permits
    requires t.inflight == s.inflight - {r}
    requires r.model in s.permits && t.permits == s.permits[r.model := s.permits[r.model] + 1]
    ensures PermitsConserved(c, t)
  {
    OfModelRemove(s.inflight, r);
    assert r in OfModel(s.inflight, r.model);
  }

  lemma StartKeepsHistory(c: Config, s: State, r: Request, t: State)
    requires OnePlace(s) && RetriesCounted(c, s) && r in s.queued
    requires t.queued == s.queued - {r} && t.inflight == s.inflight + {r}
    requires t.received == s.received && t.fates == s.fates && t.dispatched == s.dispatched + [r.id]
    ensures RetriesCounted(c, t)
  {
    forall id ensures Dispatches(t.dispatched, id) == Dispatches(s.dispatched, id) + if id == r.id then 1 else 0 {
    }
    forall x | x in s.Live() && x != r ensures x.id != r.id {
      assert !SameId(x, r);
    }
  }

  lemma FinishKeepsInv(c: Config, s: State, now: real, r: Request, outcome: Outcome)
    requires Inv(c, s) && r in s.inflight && r.model in s.permits
    ensures Inv(c, AfterFinish(c, s, now, r, outcome))
  {
    hide Inv;
    match EndOf(c, r, outcome)
    case Some(fate) => EndKeepsInv(c, s, r, fate);
    case None => RetryKeepsInv(c, s, r, Enqueued(c, s, r.(retries := r.retries + 1), now));
  }

  lemma RetryKeepsInv(c: Config, s: State, r: Request, again: Request)
    requires Inv(c, s) && r in s.inflight && r.model in s.permits && r.retries < c.maxRetries
    requires again == r.(retries := r.retries + 1, score := again.score, counter := s.counter)
    ensures Inv(c, AfterRetry(s, r, again))
  {
    hide OnePlace, CountersGrow, PermitsConserved, Bounded, RetriesCounted, SentOnce;
    var t := AfterRetry(s, r, again);
    RetryKeepsPlace(s, r, again, t);
    AddKeepsCounters(s, again, t);
    RetryKeepsPermits(c, s, r, again, t);
    RetryKeepsHistory(c, s, r, again, t);
  }

  lemma EndKeepsInv(c: Config, s: State, r: Request, fate: Fate)
    requires Inv(c, s) && r in s.inflight && r.model in s.permits && (fate == Errored ==> r.retries >= c.maxRetries)
    ensures Inv(c, AfterEnd(s, r, fate))
  {
    hide OnePlace, CountersGrow, PermitsConserved, Bounded, RetriesCounted, SentOnce;
    var t := AfterEnd(s, r, fate);
    EndKeepsPlace(s, r, fate, t);
    EndKeepsPermits(c, s, r, t);
    EndKeepsHistory(c, s, r, t);
  }

  lemma RetryKeepsPermits(c: Config, s: State, r: Request, r': Request, t: State)
    requires PermitsConserved(c, s) && Bounded(c, s) && r in s.inflight
    requires r'.model == r.model && r' !in s.queued
    requires t.queued == s.queued + {r'} && t.inflight == s.inflight - {r}
    requires r.model in s.permits && t.permits == s.permits[r.model := s.permits[r.model] + 1]
    ensures PermitsConserved(c, t) && Bounded(c, t)
  {
    GivenPermit(c, s, r, t);
    assert t.permits.Keys == s.permits.Keys;
    assert |t.queued| == |s.queued| + 1 && |t.inflight| == |s.inflight| - 1;
  }

  lemma RetryKeepsHistory(c: Config, s: State, r: Request, r': Request, t: State)
    requires OnePlace(s) && RetriesCounted(c, s) && SentOnce(s) && r in s.inflight && r.retries < c.maxRetries
    requires r'.id == r.id && r'.retries == r.retries + 1
    requires t.queued == s.queued + {r'} && t.inflight == s.inflight - {r}
    requires t.received == s.received && t.fates == s.fates && t.dispatched == s.dispatched && t.sent == s.sent
    ensures RetriesCounted(c, t) && SentOnce(t)
  {
  }

  lemma EndKeepsPermits(c: Config, s: State, r: Request, t: State)
    requires CountersGrow(s) && PermitsConserved(c, s) && Bounded(c, s) && r in s.inflight
    requires t.queued == s.queued && t.inflight == s.inflight - {r} && t.counter == s.counter
    requires r.model in s.permits && t.permits == s.permits[r.model := s.permits[r.model] + 1]
    ensures CountersGrow(t) && PermitsConserved(c, t) && Bounded(c, t)
  {
    GivenPermit(c, s, r, t);
    assert t.permits.Keys == s.permits.Keys;
  }

  lemma EndKeepsHistory(c: Config, s: State, r: Request, t: State)
    requires OnePlace(s) && RetriesCounted(c, s) && SentOnce(s) && r in s.inflight
    requires t.queued == s.queued && t.inflight == s.inflight - {r} && t.received == s.received
    requires t.dispatched == s.dispatched && r.id in t.fates && t.fates == s.fates[r.id := t.fates[r.id]]
    requires t.sent == if t.fates[r.id] == Answered then s.sent + [r.id] else s.sent
    requires t.fates[r.id] == Errored ==> r.retries >= c.maxRetries
    ensures RetriesCounted(c, t) && SentOnce(t)
  {
    assert r in s.Live() && r.id !in s.fates;
    forall id ensures multiset(t.sent)[id] == if id in t.fates && t.fates[id] == Answered then 1 else 0 {
      assert multiset(s.sent)[id] == if id in s.fates && s.fates[id] == Answered then 1 else 0;
    }
  }

  /** Every event keeps the invariant. */
  lemma StepKeepsInv(c: Config, s: State, e: Event)
    requires c.Valid() && Inv(c, s) && Enabled(c, s, e)
    ensures Inv(c, After(c, s, e))
  {
    hide Inv;
    var t := s.(now := e.now);
    TimeKeepsInv(c, s, t);
    match e
    case Receive(now, request, evicted) => ReceiveKeepsInv(c, t, now, request, evicted);
    case Start(_, model) => StartKeepsInv(c, t, model);
    case Finish(now, r, outcome) => FinishKeepsInv(c, t, now, r, outcome);
    case Tick(now) =>
      DropKeepsInv(c, t, Select(s.queued, HasExpired(now, c.ttlMs)), TimedOut);
    case Purge(_, client) =>
      DropKeepsInv(c, t, Select(s.queued, From(client)), Purged);
  }

  lemma TimeKeepsInv(c: Config, s: State, t: State)
    requires Inv(c, s) && t == s.(now := t.now)
    ensures Inv(c, t)
  {
    assert t.Live() == s.Live();
    assert forall id :: IsLive(s.Live(), id) ==> IsLive(t.Live(), id);
  }
}
