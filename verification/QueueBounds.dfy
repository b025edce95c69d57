/** How long the queue can get: when `max_queue_size` is kept, and that the bound with retries is reached. */
module QueueBounds {
  import opened Requests
  import opened ServiceOrder
  import opened Scoring
  import opened Eviction
  import opened ModelHeaps
  import opened SetSums
  import opened Pipeline
  import opened PipelineRuns

  ghost predicate QueueSizeKept(c: Config) {
    forall events :: Possible(c, Init, events) ==> |Run(c, Init, events).queued| <= c.maxQueue
  }

  /** The queue never outgrows `max_queue_size` exactly when retries are switched off: a retry is queued
      without an overflow check. */
  lemma QueueSizeKeptIffNoRetries(c: Config)
    requires c.Valid()
    ensures QueueSizeKept(c) <==> c.maxRetries == 0
  {
    if c.maxRetries == 0 {
      forall events | Possible(c, Init, events) ensures |Run(c, Init, events).queued| <= c.maxQueue {
        InitHolds(c);
        QueueKeptWithoutRetries(c, Init, events);
      }
    } else {
      var events := RetryIntoFullQueue(c, ModelId("any"));
    }
  }

  lemma {:induction false} QueueKeptWithoutRetries(c: Config, s: State, events: seq<Event>)
    requires c.Valid() && c.maxRetries == 0 && Inv(c, s) && Possible(c, s, events)
    requires |s.queued| <= c.maxQueue
    ensures |Run(c, s, events).queued| <= c.maxQueue
    decreases |events|
  {
    if events != [] {
      StepKeepsQueueSize(c, s, events[0]);
      StepKeepsInv(c, s, events[0]);
      hide Inv, Enabled, After;
      QueueKeptWithoutRetries(c, After(c, s, events[0]), events[1..]);
    }
  }

  lemma StepKeepsQueueSize(c: Config, s: State, e: Event)
    requires c.Valid() && c.maxRetries == 0 && Enabled(c, s, e) && |s.queued| <= c.maxQueue
    ensures |After(c, s, e).queued| <= c.maxQueue
  {
    hide Score, IsOldest, Mark, Expired;
    var t := After(c, s, e);
    if e.Receive? {
      ArrivalKeepsQueueSize(c, s, e);
      hide After, Enabled;
    } else {
      SubsetSize(t.queued, s.queued);
    }
  }

  lemma ArrivalKeepsQueueSize(c: Config, s: State, e: Event)
    requires c.Valid() && Enabled(c, s, e) && e.Receive? && |s.queued| <= c.maxQueue
    ensures |After(c, s, e).queued| <= c.maxQueue
  {
    hide Score, Mark;
    if QueueIsFull(c, s) && c.dropOldest {
      assert |s.queued - e.evicted| == |s.queued| - 1;
    }
  }

  ghost function Fresh(s: State, model: ModelId): (q: Request) {
    Request(s.received, ClientId("any"), model, s.now, 0.0, None, 0.0, 50.0, 0, 0.0, 0, 0)
  }

  /** Arrivals alone can fill the queue. */
  lemma {:induction false} FillQueue(c: Config, s: State, model: ModelId) returns (events: seq<Event>)
    requires c.Valid() && Inv(c, s) && |s.queued| <= c.maxQueue && model in s.permits
    ensures Possible(c, s, events)
    ensures var t := Run(c, s, events);
            Inv(c, t) && |t.queued| == c.maxQueue && t.inflight == s.inflight && t.permits == s.permits
    decreases c.maxQueue - |s.queued|
  {
    if |s.queued| == c.maxQueue {
      events := [];
    } else {
      var e := Receive(s.now, Fresh(s, model), {});
      FillStep(c, s, model);
      hide Inv, Enabled, After, Fresh;
      StepKeepsInv(c, s, e);
      var rest := FillQueue(c, After(c, s, e), model);
      events := [e] + rest;
      assert events[1..] == rest;
    }
  }

  lemma FillStep(c: Config, s: State, model: ModelId)
    requires Inv(c, s) && |s.queued| < c.maxQueue && model in s.permits
    ensures var e := Receive(s.now, Fresh(s, model), {});
            && Enabled(c, s, e)
            && var t := After(c, s, e);
               |t.queued| == |s.queued| + 1 && t.inflight == s.inflight && t.permits == s.permits
  {
    hide OnePlace, CountersGrow, PermitsConserved, Bounded, RetriesCounted, SentOnce, Score, IsOldest, Mark;
    QueuedGrows(c, s, Receive(s.now, Fresh(s, model), {}));
  }

  lemma QueuedGrows(c: Config, s: State, e: Event)
    requires OnePlace(s) && Enabled(c, s, e) && e.Receive? && |s.queued| < c.maxQueue
    ensures After(c, s, e).queued == s.queued + {Enqueued(c, s, e.request, e.now)}
    ensures |After(c, s, e).queued| == |s.queued| + 1
  {
    var r := Enqueued(c, s, e.request, e.now);
    NewIdIsNotQueued(s, r);
    hide OnePlace, Score, IsOldest, Mark;
    assert s.queued - {} == s.queued;
    assert After(c, s, e).queued == s.queued + {r};
  }

  lemma NewIdIsNotQueued(s: State, r: Request)
    requires OnePlace(s) && r.id == s.received
    ensures r !in s.queued
  {
    assert r in s.queued ==> r in s.Live();
  }

  /** Dispatch one request, let others fill the queue, then let the dispatch fail. */
  lemma RetryIntoFullQueue(c: Config, model: ModelId) returns (events: seq<Event>)
    requires c.Valid() && c.maxRetries > 0
    ensures Possible(c, Init, events) && |Run(c, Init, events).queued| == c.maxQueue + 1
  {
    InitHolds(c);
    var begin := DispatchFresh(c, Init, model);
    var s := Run(c, Init, begin);
    var fill := FillQueue(c, s, model);
    RunAppend(c, Init, begin, fill);
    var fail := FailAll(c, Run(c, s, fill));
    RunAppend(c, Init, begin + fill, fail);
    events := begin + fill + fail;
  }

  /** No request in flight was retried. */
  ghost predicate FirstAttempts(s: State) {
    forall r :: r in s.inflight ==> r.retries == 0
  }

  /** With nothing queued and a permit to be had, one more request arrives and is dispatched at once. */
  lemma DispatchFresh(c: Config, s: State, model: ModelId) returns (events: seq<Event>)
    requires c.Valid() && Inv(c, s) && s.queued == {} && FirstAttempts(s)
    requires model in s.permits ==> s.permits[model] > 0
    ensures Possible(c, s, events)
    ensures var t := Run(c, s, events);
            && Inv(c, t) && t.queued == {} && FirstAttempts(t)
            && |t.inflight| == |s.inflight| + 1 && t.permits.Keys == s.permits.Keys + {model}
  {
    var e0, e1 := Receive(s.now, Fresh(s, model), {}), Start(s.now, model);
    var r := Enqueued(c, s, Fresh(s, model), s.now);
    FreshArrives(c, s, model);
    StartOnly(After(c, s, e0).(now := s.now), r);
    hide Inv, Score, Enabled, After, FirstAttempts;
    assert Possible(c, s, []) && Run(c, s, []) == s;
    RunSnoc(c, s, [], e0);
    RunSnoc(c, s, [] + [e0], e1);
    events := [] + [e0] + [e1];
    RunKeepsInv(c, s, events);
    FreshStarts(c, s, model);
  }

  lemma FreshArrives(c: Config, s: State, model: ModelId)
    requires c.Valid() && OnePlace(s) && s.queued == {} && (model in s.permits ==> s.permits[model] > 0)
    ensures var e, r := Receive(s.now, Fresh(s, model), {}), Enqueued(c, s, Fresh(s, model), s.now);
            && Enabled(c, s, e) && r !in s.inflight
            && var t := After(c, s, e);
               && t.now == s.now && t.queued == {r} && t.inflight == s.inflight
               && model in t.permits && t.permits[model] > 0 && t.permits.Keys == s.permits.Keys + {model}
  {
    var r := Enqueued(c, s, Fresh(s, model), s.now);
    assert r in s.inflight ==> r in s.Live();
    hide OnePlace, Score, IsOldest, Mark;
  }

  lemma FreshStarts(c: Config, s: State, model: ModelId)
    requires c.Valid() && OnePlace(s) && s.queued == {} && (model in s.permits ==> s.permits[model] > 0)
    requires FirstAttempts(s)
    ensures var e := Receive(s.now, Fresh(s, model), {});
            && Enabled(c, s, e)
            && var s1 := After(c, s, e);
               && Enabled(c, s1, Start(s.now, model))
               && var t := After(c, s1, Start(s.now, model));
                  && t.queued == {} && FirstAttempts(t)
                  && |t.inflight| == |s.inflight| + 1 && t.permits.Keys == s.permits.Keys + {model}
  {
    FreshArrives(c, s, model);
    var s1 := After(c, s, Receive(s.now, Fresh(s, model), {}));
    var r := Enqueued(c, s, Fresh(s, model), s.now);
    StartOnly(s1.(now := s.now), r);
    hide OnePlace, Score, AfterReceive;
    assert After(c, s1, Start(s.now, model)).inflight == s.inflight + {r};
  }

  /** Every running dispatch fails and is retried. */
  lemma {:induction false} FailAll(c: Config, s: State) returns (events: seq<Event>)
    requires c.Valid() && c.maxRetries > 0 && Inv(c, s) && FirstAttempts(s)
    ensures Possible(c, s, events)
    ensures var t := Run(c, s, events);
            && |t.queued| == |s.queued| + |s.inflight| && t.inflight == {} && t.permits.Keys == s.permits.Keys
    decreases |s.inflight|
  {
    if s.inflight == {} {
      events := [];
    } else {
      var r :| r in s.inflight;
      var e := Finish(s.now, r, Failed);
      FailOne(c, s, r);
      hide Inv, Enabled, After, FirstAttempts;
      var rest := FailAll(c, After(c, s, e));
      events := [e] + rest;
      assert events[1..] == rest;
    }
  }

  lemma FailOne(c: Config, s: State, r: Request)
    requires c.Valid() && c.maxRetries > 0 && Inv(c, s) && FirstAttempts(s) && r in s.inflight
    ensures var e := Finish(s.now, r, Failed);
            && Enabled(c, s, e)
            && var t := After(c, s, e);
               && Inv(c, t) && FirstAttempts(t) && |t.queued| == |s.queued| + 1
               && t.inflight == s.inflight - {r} && t.permits.Keys == s.permits.Keys
  {
    var e := Finish(s.now, r, Failed);
    ProgressIsPossible(c, s);
    FailureIsRequeued(c, s, e);
    FailureLeaves(c, s, r);
    hide OnePlace, CountersGrow, PermitsConserved, Bounded, RetriesCounted, SentOnce, FirstAttempts, Enabled, After;
    StepKeepsInv(c, s, e);
  }

  lemma FailureLeaves(c: Config, s: State, r: Request)
    requires c.maxRetries > 0 && FirstAttempts(s) && Enabled(c, s, Finish(s.now, r, Failed))
    ensures var t := After(c, s, Finish(s.now, r, Failed));
            FirstAttempts(t) && t.inflight == s.inflight - {r} && t.permits.Keys == s.permits.Keys
  {
    hide Score;
  }

  /** A start takes the only queued request. */
  lemma StartOnly(s: State, r: Request)
    requires s.queued == {r} && r.model in s.permits && s.permits[r.model] > 0
    ensures AfterStart(s, r.model).queued == {} && AfterStart(s, r.model).inflight == s.inflight + {r}
    ensures AfterStart(s, r.model).permits.Keys == s.permits.Keys
  {
    assert OfModel(s.queued, r.model) == {r};
    assert Distinct({r});
    HeadIsFirst({r});
    FirstIsUnique({r}, r);
  }

  lemma FailureIsRequeued(c: Config, s: State, e: Event)
    requires CountersGrow(s) && Enabled(c, s, e)
    requires e.Finish? && e.outcome == Failed && e.request.retries < c.maxRetries
    ensures |After(c, s, e).queued| == |s.queued| + 1
  {
    hide Score;
    var again := Enqueued(c, s, e.request.(retries := e.request.retries + 1), e.now);
    assert again !in s.queued;
    assert After(c, s, e).queued == s.queued + {again};
  }

  /** Dispatches until no permit of the given models is left. */
  lemma {:induction false} Saturate(c: Config, s: State, models: set<ModelId>) returns (events: seq<Event>)
    requires c.Valid() && Inv(c, s) && s.queued == {} && FirstAttempts(s) && s.permits.Keys <= models
    requires |s.inflight| <= TotalLimit(c, models)
    ensures Possible(c, s, events)
    ensures var t := Run(c, s, events);
            && Inv(c, t) && t.queued == {} && FirstAttempts(t)
            && t.permits.Keys == models && |t.inflight| == TotalLimit(c, models)
    decreases TotalLimit(c, models) - |s.inflight|
  {
    hide Inv, FirstAttempts, Enabled, After;
    if m :| m in models && (m in s.permits ==> s.permits[m] > 0) {
      var first := DispatchOneMore(c, s, models, m);
      var rest := Saturate(c, Run(c, s, first), models);
      RunAppend(c, s, first, rest);
      events := first + rest;
    } else {
      NoneToBeHad(c, s, models);
      events := [];
    }
  }

  lemma DispatchOneMore(c: Config, s: State, models: set<ModelId>, m: ModelId) returns (events: seq<Event>)
    requires c.Valid() && Inv(c, s) && s.queued == {} && FirstAttempts(s) && s.permits.Keys <= models
    requires m in models && (m in s.permits ==> s.permits[m] > 0)
    ensures Possible(c, s, events)
    ensures var t := Run(c, s, events);
            && Inv(c, t) && t.queued == {} && FirstAttempts(t) && t.permits.Keys <= models
            && |t.inflight| == |s.inflight| + 1 <= TotalLimit(c, models)
  {
    hide Inv, FirstAttempts, Enabled, After;
    events := DispatchFresh(c, s, m);
    WithinLimits(c, Run(c, s, events), models);
  }

  lemma NoneToBeHad(c: Config, s: State, models: set<ModelId>)
    requires Inv(c, s) && s.permits.Keys <= models
    requires forall m :: m in models ==> m in s.permits && s.permits[m] == 0
    ensures s.permits.Keys == models && |s.inflight| == TotalLimit(c, models)
  {
    InflightExact(c, s);
    hide Inv;
    assert s.permits.Keys == models;
  }

  lemma WithinLimits(c: Config, s: State, models: set<ModelId>)
    requires Inv(c, s) && s.permits.Keys <= models
    ensures |s.inflight| <= TotalLimit(c, models)
  {
    InflightWithinLimits(c, s);
    SumSubset(s.permits.Keys, models, (m: ModelId) => c.Limit(m));
  }

  /** With no permit left, the running dispatches are as many as the limits allow. */
  lemma InflightExact(c: Config, s: State)
    requires PermitsConserved(c, s) && forall m :: m in s.permits ==> s.permits[m] == 0
    ensures |s.inflight| == TotalLimit(c, s.permits.Keys)
  {
    forall r | r in s.inflight ensures r.model in s.permits.Keys {
      assert r in s.Live();
    }
    InflightAddsUp(c, s.inflight, s.permits.Keys);
  }

  lemma {:induction false} InflightAddsUp(c: Config, running: set<Request>, models: set<ModelId>)
    requires forall m :: m in models ==> |OfModel(running, m)| == c.Limit(m)
    requires forall r :: r in running ==> r.model in models
    ensures |running| == TotalLimit(c, models)
    decreases |models|
  {
    if models == {} {
      assert running == {};
    } else {
      var m := Pick(models);
      var mine := OfModel(running, m);
      forall k | k in models - {m} ensures OfModel(running - mine, k) == OfModel(running, k) {
      }
      InflightAddsUp(c, running - mine, models - {m});
      assert running == mine + (running - mine);
    }
  }

  /** The bound on queued and running requests is the best possible: with retries, a run that starts
      loops for exactly the given models fills the queue to `max_queue_size` plus all their limits. */
  lemma BoundIsReached(c: Config, models: set<ModelId>) returns (events: seq<Event>)
    requires c.Valid() && c.maxRetries > 0 && models != {}
    ensures Possible(c, Init, events)
    ensures var s := Run(c, Init, events);
            s.permits.Keys == models && |s.queued| == c.maxQueue + TotalLimit(c, models)
  {
    InitHolds(c);
    SumSubset({}, models, (m: ModelId) => c.Limit(m));
    var begin := Saturate(c, Init, models);
    var s := Run(c, Init, begin);
    var m :| m in models;
    var fill := FillQueue(c, s, m);
    RunAppend(c, Init, begin, fill);
    var fail := FailAll(c, Run(c, s, fill));
    RunAppend(c, Init, begin + fill, fail);
    events := begin + fill + fail;
  }
}
