/** How long the queue of the legacy loop can get: when `max_queue_size` is kept, and that the bound with
    retries is reached. */
module LegacyBounds {
  import opened Requests
  import opened ServiceOrder
  import opened Scoring
  import opened Eviction
  import opened LocalDispatch
  import opened Pipeline
  import opened QueueBounds
  import opened LegacyProtocol

  ghost predicate LoopQueueKept(g: Setup) {
    forall events :: Happens(g, Beginning, events) ==> |Reached(g, Beginning, events).core.queued| <= g.config.maxQueue
  }

  /** With the legacy loop, too, the queue never outgrows `max_queue_size` exactly when retries are off. */
  lemma LoopQueueKeptIffNoRetries(g: Setup)
    requires g.Valid()
    ensures LoopQueueKept(g) <==> g.config.maxRetries == 0
  {
    hide LoopInv, Allowed, Next;
    if g.config.maxRetries == 0 {
      forall events | Happens(g, Beginning, events)
        ensures |Reached(g, Beginning, events).core.queued| <= g.config.maxQueue
      {
        BeginningHolds(g);
        LoopQueueStays(g, Beginning, events);
      }
    } else {
      var events := LoopBoundIsReached(g);
    }
  }

  lemma {:induction false} LoopQueueStays(g: Setup, s: LoopState, events: seq<LoopEvent>)
    requires g.Valid() && g.config.maxRetries == 0 && LoopInv(g, s) && Happens(g, s, events)
    requires |s.core.queued| <= g.config.maxQueue
    ensures |Reached(g, s, events).core.queued| <= g.config.maxQueue
    decreases |events|
  {
    hide LoopInv, Allowed, Next;
    if events != [] {
      LoopStepKeepsQueue(g, s, events[0]);
      LoopStepKeepsInv(g, s, events[0]);
      LoopQueueStays(g, Next(g, s, events[0]), events[1..]);
    }
  }

  lemma LoopStepKeepsQueue(g: Setup, s: LoopState, e: LoopEvent)
    requires g.Valid() && g.config.maxRetries == 0 && LoopInv(g, s) && Allowed(g, s, e)
    requires |s.core.queued| <= g.config.maxQueue
    ensures |Next(g, s, e).core.queued| <= g.config.maxQueue
  {
    match e
    case Arrival(now, request, evicted) =>
      hide LoopInv, After, Enabled;
      ArrivalKeepsQueueSize(g.config, s.core, Receive(now, request, evicted));
    case Expiry(now) =>
      hide LoopInv, Expired, Mark;
      SubsetSize(Next(g, s, e).core.queued, s.core.queued);
    case Turn(now) =>
      TurnShrinksQueue(g, s.(core := s.core.(now := now))) by {
        ClockKeepsInv(g, s, s.(core := s.core.(now := now)));
      }
  }

  lemma TurnShrinksQueue(g: Setup, s: LoopState)
    requires g.config.maxRetries == 0 && LoopInv(g, s) && !s.phase.Stopped?
    ensures |AfterTurn(g, s).core.queued| <= |s.core.queued|
  {
    hide LoopInv, NoneEscapes, AllEndings, Mark, Score, Enqueued, Members, Distinct, CountersGrow, OnePlace;
    DistinctQueue(g, s);
    if s.phase.Settling? {
      FirstInHand(g, s);
    }
    SubsetSize(AfterTurn(g, s).core.queued, s.core.queued);
  }

  lemma DistinctQueue(g: Setup, s: LoopState)
    requires LoopInv(g, s)
    ensures OnePlace(s.core) && CountersGrow(s.core) && Distinct(s.core.queued) && DistinctIds(InHand(s.phase))
  {
  }

  // ---------- A run that fills the queue ----------

  /** Requests that have never been tried, for models that nobody has registered. */
  ghost predicate Hopeless(g: Setup, s: set<Request>) {
    forall r :: r in s ==> r.model !in g.registered && r.retries == 0
  }

  ghost function LongestName(models: set<ModelId>): (n: nat)
    ensures forall m :: m in models ==> |m.name| <= n
  {
    if models == {} then 0
    else
      var m :| m in models;
      var n := LongestName(models - {m});
      if n < |m.name| then |m.name| else n
  }

  ghost function Nobody(g: Setup): (m: ModelId)
    ensures m !in g.registered
  {
    ModelId(seq(LongestName(g.registered) + 1, _ => 'x'))
  }

  /** Arrivals fill the queue, whatever the loop is waiting for. */
  lemma {:induction false} FillLoopQueue(g: Setup, s: LoopState) returns (events: seq<LoopEvent>)
    requires g.Valid() && LoopInv(g, s) && !s.phase.Stopped?
    requires Hopeless(g, s.core.queued) && |s.core.queued| <= g.config.maxQueue
    ensures Happens(g, s, events)
    ensures var t := Reached(g, s, events);
            LoopInv(g, t) && t.phase == s.phase && Hopeless(g, t.core.queued) && |t.core.queued| == g.config.maxQueue
    decreases g.config.maxQueue - |s.core.queued|
  {
    hide LoopInv, Allowed, Next, Hopeless;
    if |s.core.queued| == g.config.maxQueue {
      events := [];
    } else {
      var e := OneArrives(g, s);
      LoopStepKeepsInv(g, s, e);
      var rest := FillLoopQueue(g, Next(g, s, e));
      events := [e] + rest;
      assert events[1..] == rest;
    }
  }

  lemma OneArrives(g: Setup, s: LoopState) returns (e: LoopEvent)
    requires LoopInv(g, s) && !s.phase.Stopped?
    requires Hopeless(g, s.core.queued) && |s.core.queued| < g.config.maxQueue
    ensures Allowed(g, s, e)
    ensures var t := Next(g, s, e);
            t.phase == s.phase && Hopeless(g, t.core.queued) && |t.core.queued| == |s.core.queued| + 1
  {
    var request := Fresh(s.core, Nobody(g));
    e := Arrival(s.core.now, request, {});
    assert OnePlace(s.core);
    hide LoopInv, OnePlace, After, Fresh, Enqueued, IsOldest;
    MayArrive(g.config, s.core, Nobody(g));
    QueuedGrows(g.config, s.core, Receive(s.core.now, request, {}));
  }

  lemma MayArrive(c: Config, s: State, model: ModelId)
    requires |s.queued| < c.maxQueue
    ensures Enabled(c, s, Receive(s.now, Fresh(s, model), {}))
    ensures var r := Enqueued(c, s, Fresh(s, model), s.now); r.model == model && r.retries == 0
  {
    hide Score, IsOldest;
  }

  /** The loop takes as many as it wants and can get. */
  lemma CollectHopeless(g: Setup, s: LoopState) returns (e: LoopEvent, batch: seq<Request>)
    requires g.Valid() && LoopInv(g, s) && s.phase.Idle? && Hopeless(g, s.core.queued) && s.core.queued != {}
    ensures Allowed(g, s, e)
    ensures var t := Next(g, s, e);
            && t.phase == Dispatching(batch) && |batch| == Least(g.maxConcurrent, |s.core.queued|)
            && Hopeless(g, Members(batch)) && Hopeless(g, t.core.queued) && |t.core.queued| <= |s.core.queued|
  {
    hide LoopInv, Order, Distinct, DistinctIds, OnePlace, CountersGrow, Represents, Sorted, Mark, AllEndings;
    DistinctQueue(g, s);
    e := Turn(s.core.now);
    var all := Order(s.core.queued);
    batch := all[..Least(g.maxConcurrent, |all|)];
    OrderIsSorted(s.core.queued);
    RepresentsMembers(all, s.core.queued);
    CollectedPrefix(g, s.core, batch);
    assert s.core.(now := s.core.now) == s.core;
  }

  /** Every dispatch for a model that is not registered fails, and is to be retried. */
  lemma ReturnHopeless(g: Setup, s: LoopState, batch: seq<Request>) returns (e: LoopEvent)
    requires g.config.maxRetries > 0 && LoopInv(g, s)
    requires s.phase == Dispatching(batch) && Hopeless(g, Members(batch))
    ensures Allowed(g, s, e)
    ensures var t := Next(g, s, e);
            && t.phase.Settling? && |t.phase.endings| == |batch| && AllRetried(t.phase.endings)
            && t.core.queued == s.core.queued
  {
    hide LoopInv, CoreInv, AllEndings, NoneEscapes, AllRetried, Hopeless;
    e := Turn(s.core.now);
    DistinctQueue(g, s);
    HopelessAreRetried(g, batch);
    assert s.core.(now := s.core.now) == s.core;
  }

  lemma HopelessAreRetried(g: Setup, batch: seq<Request>)
    requires g.config.maxRetries > 0 && DistinctIds(batch) && Hopeless(g, Members(batch))
    ensures NoneEscapes(batch, g.registered, g.frames)
    ensures |AllEndings(g, batch)| == |batch| && AllRetried(AllEndings(g, batch))
  {
    GroupedStayDistinct(batch);
    NoneCanEscape(g, batch);
    var grouped := Grouped(batch);
    hide Grouped, NoneEscapes, DistinctIds;
    assert forall i :: 0 <= i < |grouped| ==> grouped[i] in Members(grouped);
  }

  lemma NoneCanEscape(g: Setup, batch: seq<Request>)
    requires Hopeless(g, Members(batch))
    ensures NoneEscapes(batch, g.registered, g.frames)
  {
    assert forall r :: r in batch ==> r in Members(batch);
  }

  ghost predicate AllRetried(endings: seq<Ending>) {
    forall i :: 0 <= i < |endings| ==> endings[i].Retried?
  }

  /** Each of them is sent back to the queue. */
  lemma {:induction false} SettleRetried(g: Setup, s: LoopState) returns (events: seq<LoopEvent>)
    requires g.Valid() && LoopInv(g, s) && s.phase.Settling? && AllRetried(s.phase.endings)
    ensures Happens(g, s, events)
    ensures |Reached(g, s, events).core.queued| == |s.core.queued| + |s.phase.endings|
    decreases |s.phase.endings|
  {
    var e := Turn(s.core.now);
    OneRetried(g, s);
    LoopStepKeepsInv(g, s, e);
    hide LoopInv, Allowed, Next;
    var t := Next(g, s, e);
    var rest := [];
    if t.phase.Settling? {
      rest := SettleRetried(g, t);
    }
    events := [e] + rest;
    assert events[1..] == rest;
  }

  lemma OneRetried(g: Setup, s: LoopState)
    requires LoopInv(g, s) && s.phase.Settling? && AllRetried(s.phase.endings)
    ensures var e, endings := Turn(s.core.now), s.phase.endings;
            && endings != [] && Allowed(g, s, e)
            && var t := Next(g, s, e);
               && |t.core.queued| == |s.core.queued| + 1 && t.phase == Rest(endings)
               && (t.phase.Settling? ==> AllRetried(t.phase.endings))
  {
    hide LoopInv, AfterEnding, CountersGrow;
    FirstInHand(g, s);
    assert s.core.(now := s.core.now) == s.core;
    RetryGrows(g, s.core, s.phase.endings[0]);
  }

  lemma RetryGrows(g: Setup, s: State, e: Ending)
    requires CountersGrow(s) && e.Retried?
    ensures Distinct(s.queued) && |AfterEnding(g, s, e).queued| == |s.queued| + 1
  {
    hide Score;
    var again := Enqueued(g.config, s, e.request.(retries := e.request.retries + 1), s.now);
    assert again !in s.queued;
    assert AfterEnding(g, s, e).queued == s.queued + {again};
  }

  /** The bound on the queue is reached whenever a full queue can fill the hands of the loop: fill the queue, let
      the loop collect, fill the queue again, and let all dispatches fail. */
  lemma LoopBoundIsReached(g: Setup) returns (events: seq<LoopEvent>)
    requires g.Valid() && g.config.maxRetries > 0
    ensures Happens(g, Beginning, events)
    ensures |Reached(g, Beginning, events).core.queued|
            == g.config.maxQueue + Least(g.maxConcurrent, g.config.maxQueue)
  {
    hide LoopInv, Allowed, Next, Hopeless, AllRetried;
    assert Hopeless(g, Beginning.core.queued) by { NoneHopeless(g); }
    BeginningHolds(g);
    var e0 := FillLoopQueue(g, Beginning);
    var s0 := Reached(g, Beginning, e0);
    var e1, batch := CollectHopeless(g, s0);
    LoopStepKeepsInv(g, s0, e1);
    var s1 := Next(g, s0, e1);
    var e2 := FillLoopQueue(g, s1);
    var s2 := Reached(g, s1, e2);
    var e3 := ReturnHopeless(g, s2, batch);
    LoopStepKeepsInv(g, s2, e3);
    var e4 := SettleRetried(g, Next(g, s2, e3));
    ThenRun(g, s2, e3, e4);
    Joined(g, s1, e2, [e3] + e4);
    ThenRun(g, s0, e1, e2 + ([e3] + e4));
    Joined(g, Beginning, e0, [e1] + (e2 + ([e3] + e4)));
    events := e0 + ([e1] + (e2 + ([e3] + e4)));
  }

  lemma NoneHopeless(g: Setup)
    ensures Hopeless(g, {})
  {
  }

  lemma ThenRun(g: Setup, s: LoopState, e: LoopEvent, rest: seq<LoopEvent>)
    requires Allowed(g, s, e) && Happens(g, Next(g, s, e), rest)
    ensures Happens(g, s, [e] + rest) && Reached(g, s, [e] + rest) == Reached(g, Next(g, s, e), rest)
  {
    assert ([e] + rest)[1..] == rest;
  }

  lemma {:induction false} Joined(g: Setup, s: LoopState, p: seq<LoopEvent>, q: seq<LoopEvent>)
    requires Happens(g, s, p) && Happens(g, Reached(g, s, p), q)
    ensures Happens(g, s, p + q) && Reached(g, s, p + q) == Reached(g, Reached(g, s, p), q)
    decreases |p|
  {
    hide Allowed, Next;
    if p == [] {
      assert p + q == q;
    } else {
      assert (p + q)[1..] == p[1..] + q;
      Joined(g, Next(g, s, p[0]), p[1..], q);
    }
  }
}
