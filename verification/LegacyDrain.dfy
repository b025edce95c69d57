/** The legacy loop gets done: without arrivals it empties the queue in a number of turns that can be computed
    in advance, however the dispatches turn out. */
module LegacyDrain {
  import opened Requests
  import opened ServiceOrder
  import opened SetSums
  import opened Scoring
  import opened LocalDispatch
  import opened Pipeline
  import opened PipelineRuns
  import opened LegacyProtocol

  /** The turns that a request may still need: three for each dispatch, and `now` for the current one. */
  ghost function TurnsFor(g: Setup, now: int): (turns: Request -> int) {
    (r: Request) => 3 * (g.config.maxRetries - r.retries) + now
  }

  ghost function ThisTime(phase: Phase): (now: int) {
    if phase.Dispatching? then 2 else 1
  }

  ghost function Work(g: Setup, s: LoopState): (work: int) {
    Sum(s.core.queued, TurnsFor(g, 3)) + Sum(s.core.inflight, TurnsFor(g, ThisTime(s.phase)))
  }

  ghost predicate Busy(s: LoopState) {
    s.core.queued != {} || s.core.inflight != {}
  }

  ghost function Turns(events: seq<LoopEvent>): (count: nat)
    ensures count <= |events|
  {
    if events == [] then 0 else (if events[0].Turn? then 1 else 0) + Turns(events[1..])
  }

  /** One turn less for each request of a set. */
  lemma {:induction false} OneTurnLess(g: Setup, s: set<Request>, now: int)
    ensures Sum(s, TurnsFor(g, now)) == Sum(s, TurnsFor(g, now - 1)) + |s|
    decreases |s|
  {
    if s != {} {
      var r :| r in s;
      OneTurnLess(g, s - {r}, now);
      SumRemove(s, r, TurnsFor(g, now));
      SumRemove(s, r, TurnsFor(g, now - 1));
    }
  }

  lemma {:induction false} SumSplit(s: set<Request>, part: set<Request>, f: Request -> int)
    requires part <= s
    ensures Sum(s, f) == Sum(s - part, f) + Sum(part, f)
    decreases |part|
  {
    if part == {} {
      assert s - part == s;
    } else {
      var r :| r in part;
      SumRemove(s, r, f);
      SumRemove(part, r, f);
      SumSplit(s - {r}, part - {r}, f);
      assert s - {r} - (part - {r}) == s - part;
    }
  }

  /** Each request needs a turn at least. */
  lemma NeedsTurns(g: Setup, s: set<Request>, now: int)
    requires now >= 1 && forall r :: r in s ==> r.retries <= g.config.maxRetries
    ensures Sum(s, TurnsFor(g, now)) >= |s|
  {
    EachWeighs(s, TurnsFor(g, now));
  }

  lemma CollectingWorks(g: Setup, s: LoopState)
    requires g.Valid() && LoopInv(g, s) && s.phase.Idle? && s.core.queued != {}
    ensures Work(g, AfterTurn(g, s)) < Work(g, s)
  {
    var batch := Order(s.core.queued)[..Least(g.maxConcurrent, |Order(s.core.queued)|)];
    CollectedPrefix(g, s.core, batch);
    OrderIsSorted(s.core.queued);
    RepresentsMembers(Order(s.core.queued), s.core.queued);
    HandEmptyWhenIdle(g, s);
    hide LoopInv, DistinctIds, Order, Distinct, TurnsFor;
    CollectingTakesWork(g, s, batch);
  }

  lemma CollectingTakesWork(g: Setup, s: LoopState, batch: seq<Request>)
    requires s.phase.Idle? && s.core.inflight == {} && batch != [] && Members(batch) <= s.core.queued
    ensures Work(g, AfterCollecting(s, batch)) < Work(g, s)
  {
    assert batch[0] in Members(batch);
    assert {} + Members(batch) == Members(batch);
    hide Members, TurnsFor;
    SumSplit(s.core.queued, Members(batch), TurnsFor(g, 3));
    OneTurnLess(g, Members(batch), 3);
  }

  lemma DispatchingWorks(g: Setup, s: LoopState)
    requires LoopInv(g, s) && s.phase.Dispatching?
    ensures Work(g, AfterTurn(g, s)) < Work(g, s)
  {
    RetriesWithin(g, s);
    HandBusy(g, s);
    WorkAfterDispatching(g, s);
    hide LoopInv, AfterTurn, TurnsFor;
    OneTurnLess(g, s.core.inflight, 2);
    NeedsTurns(g, s.core.inflight, 1);
  }

  lemma WorkAfterDispatching(g: Setup, s: LoopState)
    requires s.phase.Dispatching? && Distinct(s.core.queued) && s.core.inflight == Members(s.phase.batch)
    ensures var t := AfterTurn(g, s);
            || Work(g, t) == Sum(s.core.queued, TurnsFor(g, 3)) + Sum(s.core.inflight, TurnsFor(g, 1))
            || Work(g, t) == Sum(s.core.queued, TurnsFor(g, 3))
  {
    assert s.core.inflight - Members(s.phase.batch) == {};
    hide NoneEscapes, AllEndings, Mark, TurnsFor, Distinct;
  }

  lemma HandBusy(g: Setup, s: LoopState)
    requires LoopInv(g, s) && s.phase.Dispatching?
    ensures |s.core.inflight| > 0 && s.core.inflight == Members(s.phase.batch)
  {
    assert s.phase.batch[0] in s.core.inflight;
  }

  lemma RetriesWithin(g: Setup, s: LoopState)
    requires LoopInv(g, s)
    ensures forall r :: r in s.core.queued || r in s.core.inflight ==> r.retries <= g.config.maxRetries
  {
  }

  lemma SettlingWorks(g: Setup, s: LoopState)
    requires LoopInv(g, s) && s.phase.Settling?
    ensures Work(g, AfterTurn(g, s)) < Work(g, s)
  {
    hide LoopInv, CountersGrow, Distinct, AfterTurn, AfterEnding, TurnsFor;
    NextToSettle(g, s);
    EndingWorks(g, s.core, s.phase.endings[0]);
  }

  lemma NextToSettle(g: Setup, s: LoopState)
    requires LoopInv(g, s) && s.phase.Settling?
    ensures s.phase.endings != [] && CountersGrow(s.core) && Distinct(s.core.queued)
    ensures s.phase.endings[0].request in s.core.inflight
    ensures s.phase.endings[0].request.retries <= g.config.maxRetries
    ensures AfterTurn(g, s) == LoopState(AfterEnding(g, s.core, s.phase.endings[0]), Rest(s.phase.endings))
    ensures ThisTime(Rest(s.phase.endings)) == 1
  {
    RetriesWithin(g, s);
    hide OnePlace, RetriesCounted, SentOnce, DistinctIds, Lost, EndingsFit;
    FirstInHand(g, s);
  }

  /** A settled request needs no further turn, or those of its next dispatch. */
  lemma EndingWorks(g: Setup, s: State, e: Ending)
    requires CountersGrow(s) && e.request in s.inflight && e.request.retries <= g.config.maxRetries
    ensures var t := AfterEnding(g, s, e);
            Sum(t.queued, TurnsFor(g, 3)) + Sum(t.inflight, TurnsFor(g, 1))
            < Sum(s.queued, TurnsFor(g, 3)) + Sum(s.inflight, TurnsFor(g, 1))
  {
    hide Score;
    var r := e.request;
    SumRemove(s.inflight, r, TurnsFor(g, 1));
    if e.Retried? {
      var again := Enqueued(g.config, s, r.(retries := r.retries + 1), s.now);
      assert again !in s.queued;
      SumAdd(s.queued, again, TurnsFor(g, 3));
    }
  }

  /** A turn does some of the work as long as there is any. */
  lemma TurnWorks(g: Setup, s: LoopState, e: LoopEvent)
    requires g.Valid() && LoopInv(g, s) && Allowed(g, s, e) && e.Turn? && Busy(s)
    ensures Work(g, Next(g, s, e)) < Work(g, s)
  {
    var t := s.(core := s.core.(now := e.now));
    hide LoopInv, AfterTurn, TurnsFor;
    ClockKeepsInv(g, s, t);
    HandEmptyWhenIdle(g, t);
    match t.phase
    case Idle => CollectingWorks(g, t);
    case Dispatching(_) => DispatchingWorks(g, t);
    case Settling(_) => SettlingWorks(g, t);
  }

  lemma HandEmptyWhenIdle(g: Setup, s: LoopState)
    requires LoopInv(g, s)
    ensures s.phase.Idle? ==> s.core.inflight == {}
  {
  }

  /** Expiry takes work away. */
  lemma ExpiryTakesWork(g: Setup, s: LoopState, e: LoopEvent)
    requires LoopInv(g, s) && Allowed(g, s, e) && e.Expiry?
    ensures Work(g, Next(g, s, e)) <= Work(g, s)
  {
    RetriesWithin(g, s);
    hide LoopInv, Mark, Expired;
    SumSubset(Next(g, s, e).core.queued, s.core.queued, TurnsFor(g, 3));
  }

  lemma StaysDone(g: Setup, s: LoopState, e: LoopEvent)
    requires LoopInv(g, s) && Allowed(g, s, e) && !e.Arrival? && !Busy(s)
    ensures !Busy(Next(g, s, e))
  {
  }

  /** Without arrivals, as many turns as there is work leave nothing queued and nothing held. */
  lemma {:induction false} WorkGetsDone(g: Setup, s: LoopState, events: seq<LoopEvent>)
    requires g.Valid() && LoopInv(g, s) && Happens(g, s, events)
    requires forall e :: e in events ==> !e.Arrival?
    requires Turns(events) >= Work(g, s) || !Busy(s)
    ensures !Busy(Reached(g, s, events))
    decreases |events|
  {
    if events == [] {
      RetriesWithin(g, s);
      NeedsTurns(g, s.core.queued, 3);
      NeedsTurns(g, s.core.inflight, ThisTime(s.phase));
    } else {
      var e, t := events[0], Next(g, s, events[0]);
      LoopStepKeepsInv(g, s, e);
      hide LoopInv, Allowed, Next, Work;
      if !Busy(s) {
        StaysDone(g, s, e);
      } else if e.Turn? {
        TurnWorks(g, s, e);
      } else {
        ExpiryTakesWork(g, s, e);
      }
      WorkGetsDone(g, t, events[1..]);
    }
  }

  /** Three turns for each dispatch. */
  function PerRequest(g: Setup): (turns: nat) {
    3 * (g.config.maxRetries + 1)
  }

  ghost function EnoughTurns(g: Setup, s: LoopState): (turns: int) {
    PerRequest(g) * (|s.core.queued| + |InHand(s.phase)|)
  }

  /** Every request gets its ending: after any run, `3 * (maxRetries + 1)` turns for each request that is
      queued or held bring each received request to its end, if no more arrive and the loop
      runs that long. */
  lemma EverythingEnds(g: Setup, past: seq<LoopEvent>, events: seq<LoopEvent>)
    requires g.Valid() && Happens(g, Beginning, past) && Happens(g, Reached(g, Beginning, past), events)
    requires forall e :: e in events ==> !e.Arrival?
    requires Turns(events) >= EnoughTurns(g, Reached(g, Beginning, past))
    ensures var t := Reached(g, Reached(g, Beginning, past), events);
            && t.core.queued == {} && InHand(t.phase) == [] && |t.core.fates| == t.core.received
            && forall id :: 0 <= id < t.core.received ==> id in t.core.fates
  {
    var s := Reached(g, Beginning, past);
    hide LoopInv, Allowed, Next, EnoughTurns, Work, Busy;
    BeginningHolds(g);
    LoopRunKeepsInv(g, Beginning, past);
    LoopRunKeepsInv(g, s, events);
    WorkWithin(g, s);
    WorkGetsDone(g, s, events);
    NothingLeft(g, Reached(g, s, events));
  }

  lemma NothingLeft(g: Setup, s: LoopState)
    requires LoopInv(g, s) && !Busy(s)
    ensures s.core.queued == {} && InHand(s.phase) == [] && |s.core.fates| == s.core.received
    ensures forall id :: 0 <= id < s.core.received ==> id in s.core.fates
  {
    PlacesAddUp(s.core);
    DistinctMembers(InHand(s.phase));
    forall id | 0 <= id < s.core.received ensures id in s.core.fates {
      PlacesAreOne(s.core, id);
    }
  }

  lemma {:induction false} AtMostTurns(g: Setup, s: set<Request>, now: int)
    requires now <= 3
    ensures Sum(s, TurnsFor(g, now)) <= PerRequest(g) * |s|
    decreases |s|
  {
    if s != {} {
      var r :| r in s;
      AtMostTurns(g, s - {r}, now);
      SumRemove(s, r, TurnsFor(g, now));
      assert TurnsFor(g, now)(r) <= PerRequest(g);
      hide TurnsFor, PerRequest;
      TimesSum(PerRequest(g), |s| - 1, 1);
    }
  }

  lemma TimesSum(k: int, m: nat, n: nat)
    ensures k * (m + n) == k * m + k * n
  {
  }

  lemma WorkWithin(g: Setup, s: LoopState)
    requires LoopInv(g, s)
    ensures Work(g, s) <= EnoughTurns(g, s)
  {
    hide OnePlace, CountersGrow, RetriesCounted, SentOnce, PhaseFits, WithinBound, TurnsFor, PerRequest;
    DistinctMembers(InHand(s.phase));
    AtMostTurns(g, s.core.queued, 3);
    AtMostTurns(g, s.core.inflight, ThisTime(s.phase));
    TimesSum(PerRequest(g), |s.core.queued|, |InHand(s.phase)|);
  }
}
