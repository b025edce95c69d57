/** What every run of the dispatch protocol guarantees, whatever the interleaving of its events. */
module PipelineRuns {
  import opened Requests
  import opened ServiceOrder
  import opened Scoring
  import opened Eviction
  import opened ModelHeaps
  import opened SetSums
  import opened Pipeline

  lemma {:induction false} RunKeepsInv(c: Config, s: State, events: seq<Event>)
    requires c.Valid() && Inv(c, s) && Possible(c, s, events)
    ensures Inv(c, Run(c, s, events))
    decreases |events|
  {
    if events != [] {
      StepKeepsInv(c, s, events[0]);
      RunKeepsInv(c, After(c, s, events[0]), events[1..]);
    }
  }

  // ---------- Exactly one place, exactly one fate ----------

  ghost function Places(s: State, id: nat): (places: nat) {
    (if IsLive(s.queued, id) then 1 else 0)
    + (if IsLive(s.inflight, id) then 1 else 0)
    + (if id in s.fates then 1 else 0)
  }

  /** After any run each received request is queued, in flight or ended, in exactly one of these places,
      as a single entry, and it was answered at most once. */
  lemma EachRequestInOnePlace(c: Config, events: seq<Event>, id: nat)
    requires c.Valid() && Possible(c, Init, events)
    ensures var s := Run(c, Init, events);
            && (id < s.received ==> Places(s, id) == 1)
            && (id >= s.received ==> Places(s, id) == 0)
            && (forall a, b :: a in s.Live() && b in s.Live() && a.id == id && b.id == id ==> a == b)
            && multiset(s.sent)[id] <= 1
            && (multiset(s.sent)[id] == 1 <==> id in s.fates && s.fates[id] == Answered)
  {
    InitHolds(c);
    RunKeepsInv(c, Init, events);
    hide OnePlace, SentOnce;
    PlacesAreOne(Run(c, Init, events), id);
  }

  lemma PlacesAreOne(s: State, id: nat)
    requires OnePlace(s) && SentOnce(s)
    ensures id < s.received ==> Places(s, id) == 1
    ensures id >= s.received ==> Places(s, id) == 0
    ensures forall a, b :: a in s.Live() && b in s.Live() && a.id == id && b.id == id ==> a == b
    ensures multiset(s.sent)[id] <= 1
    ensures multiset(s.sent)[id] == 1 <==> id in s.fates && s.fates[id] == Answered
  {
    forall a, b | a in s.Live() && b in s.Live() && a.id == id && b.id == id ensures a == b {
      assert SameId(a, b);
    }
    if id < s.received && id !in s.fates {
      assert IsLive(s.Live(), id);
    }
  }

  ghost function Ids(s: set<Request>): (ids: set<nat>) {
    set r | r in s :: r.id
  }

  lemma {:induction false} IdsCount(s: set<Request>)
    requires UniqueIds(s)
    ensures |Ids(s)| == |s|
    decreases |s|
  {
    if s != {} {
      var x :| x in s;
      IdsCount(s - {x});
      forall y | y in s - {x} ensures y.id != x.id {
        assert !SameId(x, y);
      }
      assert Ids(s) == Ids(s - {x}) + {x.id};
    }
  }

  ghost function Below(n: nat): (s: set<nat>)
    ensures |s| == n && forall i :: i in s <==> 0 <= i < n
  {
    if n == 0 then {} else Below(n - 1) + {n - 1}
  }

  /** Conservation: what is queued, running and ended adds up to what was received. */
  lemma RequestsConserved(c: Config, events: seq<Event>)
    requires c.Valid() && Possible(c, Init, events)
    ensures var s := Run(c, Init, events); |s.queued| + |s.inflight| + |s.fates| == s.received
  {
    InitHolds(c);
    RunKeepsInv(c, Init, events);
    var s := Run(c, Init, events);
    PlacesAddUp(s);
  }

  lemma PlacesAddUp(s: State)
    requires OnePlace(s)
    ensures |s.queued| + |s.inflight| + |s.fates| == s.received
  {
    IdsCount(s.Live());
    AllIdsPlaced(s);
    hide OnePlace;
    assert |s.fates.Keys| == |s.fates|;
    assert |Ids(s.Live()) + s.fates.Keys| == |Ids(s.Live())| + |s.fates.Keys|;
  }

  lemma AllIdsPlaced(s: State)
    requires OnePlace(s)
    ensures Below(s.received) == Ids(s.Live()) + s.fates.Keys && Ids(s.Live()) !! s.fates.Keys
    ensures |s.Live()| == |s.queued| + |s.inflight|
  {
    forall id | id in Below(s.received) && id !in s.fates ensures id in Ids(s.Live()) {
      assert IsLive(s.Live(), id);
    }
  }

  /** The histories of `s` are kept in `t`. */
  ghost predicate Extends(t: State, s: State) {
    && (forall id :: id in s.fates ==> id in t.fates && t.fates[id] == s.fates[id])
    && s.sent <= t.sent && s.dispatched <= t.dispatched
  }

  lemma DropExtends(s: State, gone: set<Request>, fate: Fate)
    requires OnePlace(s) && gone <= s.queued
    ensures Extends(Drop(s, gone, fate), s)
  {
    assert forall r :: r in gone ==> r in s.Live();
  }

  lemma ReceiveExtends(c: Config, s: State, now: real, request: Request, evicted: set<Request>)
    requires OnePlace(s) && request.id == s.received && evicted <= s.queued
    ensures Extends(AfterReceive(c, s, now, request, evicted), s)
  {
    DropExtends(s, evicted, Evicted);
  }

  lemma FinishExtends(c: Config, s: State, now: real, r: Request, outcome: Outcome)
    requires OnePlace(s) && r in s.inflight && r.model in s.permits
    ensures Extends(AfterFinish(c, s, now, r, outcome), s)
  {
    assert r in s.Live();
  }

  lemma StepExtends(c: Config, s: State, e: Event)
    requires Inv(c, s) && Enabled(c, s, e)
    ensures Extends(After(c, s, e), s)
  {
    var t := s.(now := e.now);
    TimeKeepsInv(c, s, t);
    hide Extends, OnePlace;
    assert Extends(After(c, s, e), t) by {
      match e
      case Receive(now, request, evicted) => ReceiveExtends(c, t, now, request, evicted);
      case Start(_, model) => StartExtends(t, model);
      case Finish(now, r, outcome) => FinishExtends(c, t, now, r, outcome);
      case Tick(now) => DropExtends(t, Select(s.queued, HasExpired(now, c.ttlMs)), TimedOut);
      case Purge(_, client) => DropExtends(t, Select(s.queued, From(client)), Purged);
    }
    ExtendsWithoutTime(After(c, s, e), t, s);
  }

  lemma StartExtends(s: State, model: ModelId)
    requires model in s.permits && s.permits[model] > 0
    ensures Extends(AfterStart(s, model), s)
  {
  }

  lemma ExtendsWithoutTime(u: State, t: State, s: State)
    requires Extends(u, t) && t == s.(now := t.now)
    ensures Extends(u, s)
  {
  }

  /** A fate is final: no later event changes it, and no response is taken back. */
  lemma {:induction false} FatesAreFinal(c: Config, s: State, events: seq<Event>)
    requires c.Valid() && Inv(c, s) && Possible(c, s, events)
    ensures Extends(Run(c, s, events), s)
    decreases |events|
  {
    if events != [] {
      StepExtends(c, s, events[0]);
      StepKeepsInv(c, s, events[0]);
      FatesAreFinal(c, After(c, s, events[0]), events[1..]);
    }
  }

  // ---------- Bounds ----------

  /** Queue length over whole runs, under both overflow policies, although a retry skips the overflow
      check; and the semaphore equation for each started model. */
  lemma QueueAndPermitBounds(c: Config, events: seq<Event>)
    requires c.Valid() && Possible(c, Init, events)
    ensures var s := Run(c, Init, events);
            && |s.queued| + |s.inflight| <= c.maxQueue + TotalLimit(c, s.permits.Keys)
            && |s.inflight| <= TotalLimit(c, s.permits.Keys)
            && (forall m :: m in s.permits && m in c.known ==> s.permits[m] + |OfModel(s.inflight, m)| == c.known[m])
            && (forall m :: m in s.permits && m !in c.known ==>
                  s.permits[m] + |OfModel(s.inflight, m)| == c.defaultInflight)
  {
    InitHolds(c);
    RunKeepsInv(c, Init, events);
    InflightWithinLimits(c, Run(c, Init, events));
  }

  /** A request is retried at most `maxRetries` times and dispatched at most once more; it is given up only
      when all of that was in vain. */
  lemma DispatchesBounded(c: Config, events: seq<Event>, id: nat)
    requires c.Valid() && Possible(c, Init, events)
    ensures var s := Run(c, Init, events);
            && Dispatches(s.dispatched, id) <= c.maxRetries + 1
            && (id in s.fates && s.fates[id] == Errored ==> Dispatches(s.dispatched, id) == c.maxRetries + 1)
            && (forall r :: r in s.Live() ==> r.retries <= c.maxRetries)
  {
    InitHolds(c);
    RunKeepsInv(c, Init, events);
    var s := Run(c, Init, events);
    if id < s.received && id !in s.fates {
      assert IsLive(s.Live(), id);
    }
  }

  lemma {:induction false} RunAppend(c: Config, s: State, p: seq<Event>, q: seq<Event>)
    requires Possible(c, s, p) && Possible(c, Run(c, s, p), q)
    ensures Possible(c, s, p + q) && Run(c, s, p + q) == Run(c, Run(c, s, p), q)
    decreases |p|
  {
    hide Enabled, After;
    if p == [] {
      assert p + q == q;
    } else {
      RunAppend(c, After(c, s, p[0]), p[1..], q);
      assert (p + q)[1..] == p[1..] + q;
    }
  }

  lemma RunSnoc(c: Config, s: State, events: seq<Event>, e: Event)
    requires Possible(c, s, events) && Enabled(c, Run(c, s, events), e)
    ensures Possible(c, s, events + [e]) && Run(c, s, events + [e]) == After(c, Run(c, s, events), e)
  {
    var t := Run(c, s, events);
    assert [e][1..] == [];
    assert Possible(c, After(c, t, e), []);
    RunAppend(c, s, events, [e]);
  }

  // ---------- No stuck request ----------

  /** An event that serves a request or ends a dispatch. */
  ghost predicate Progress(s: State, e: Event) {
    (e.Start? && OfModel(s.queued, e.model) != {}) || e.Finish?
  }

  /** No request is stuck behind a lost permit or a model without a loop: for each waiting request, a
      dispatch for its own model can start now, or all permits of its model are held by running
      dispatches; and each running dispatch can finish now, with any outcome. */
  lemma NoRequestStuck(c: Config, events: seq<Event>)
    requires c.Valid() && Possible(c, Init, events)
    ensures var s := Run(c, Init, events);
            && (forall r :: r in s.queued ==>
                  && r.model in s.permits
                  && (if s.permits[r.model] > 0
                      then Enabled(c, s, Start(s.now, r.model)) && Progress(s, Start(s.now, r.model))
                      else |OfModel(s.inflight, r.model)| == c.Limit(r.model) > 0))
            && (forall r, outcome :: r in s.inflight ==>
                  Enabled(c, s, Finish(s.now, r, outcome)) && Progress(s, Finish(s.now, r, outcome)))
  {
    InitHolds(c);
    RunKeepsInv(c, Init, events);
    ProgressIsPossible(c, Run(c, Init, events));
  }

  lemma ProgressIsPossible(c: Config, s: State)
    requires c.Valid() && PermitsConserved(c, s)
    ensures forall r :: r in s.queued ==>
              && r.model in s.permits
              && (if s.permits[r.model] > 0
                  then Enabled(c, s, Start(s.now, r.model)) && Progress(s, Start(s.now, r.model))
                  else |OfModel(s.inflight, r.model)| == c.Limit(r.model) > 0)
    ensures forall r, outcome :: r in s.inflight ==>
              Enabled(c, s, Finish(s.now, r, outcome)) && Progress(s, Finish(s.now, r, outcome))
  {
    forall r | r in s.queued
      ensures r.model in s.permits && r in OfModel(s.queued, r.model)
      ensures s.permits[r.model] + |OfModel(s.inflight, r.model)| == c.Limit(r.model) > 0
    {
      assert r in s.Live();
    }
    forall r | r in s.inflight ensures r.model in s.permits {
      assert r in s.Live();
    }
  }

  // ---------- Termination of retries ----------

  ghost function WaitingWeight(c: Config): (weight: Request -> int) {
    (r: Request) => 2 * (c.maxRetries - r.retries) + 2
  }

  ghost function RunningWeight(c: Config): (weight: Request -> int) {
    (r: Request) => 2 * (c.maxRetries - r.retries) + 1
  }

  ghost function Measure(c: Config, s: State): (measure: int) {
    Sum(s.queued, WaitingWeight(c)) + Sum(s.inflight, RunningWeight(c))
  }

  lemma MeasureNonNegative(c: Config, s: State)
    requires RetriesCounted(c, s)
    ensures Measure(c, s) >= 0
  {
    SumSubset({}, s.queued, WaitingWeight(c));
    SumSubset({}, s.inflight, RunningWeight(c));
  }

  /** Without arrivals no event adds work, and each start and finish removes some. */
  lemma ProgressDecreases(c: Config, s: State, e: Event)
    requires Inv(c, s) && Enabled(c, s, e) && !e.Receive?
    ensures Measure(c, After(c, s, e)) <= Measure(c, s)
    ensures Progress(s, e) ==> Measure(c, After(c, s, e)) < Measure(c, s)
  {
    var t := After(c, s, e);
    var waiting, running := WaitingWeight(c), RunningWeight(c);
    match e
    case Receive(_, _, _) =>
    case Start(_, model) =>
      DistinctOfModel(s.queued, model);
      HeadIsFirst(OfModel(s.queued, model));
      if OfModel(s.queued, model) != {} {
        var r := First(OfModel(s.queued, model));
        SumRemove(s.queued, r, waiting);
        SumAdd(s.inflight, r, running);
      }
    case Finish(now, r, outcome) =>
      SumRemove(s.inflight, r, running);
      if EndOf(c, r, outcome) == None {
        var again := Enqueued(c, s, r.(retries := r.retries + 1), now);
        assert again !in s.queued;
        SumAdd(s.queued, again, waiting);
      }
    case Tick(_) =>
      SumSubset(t.queued, s.queued, waiting);
    case Purge(_, _) =>
      SumSubset(t.queued, s.queued, waiting);
  }

  ghost function ProgressCount(c: Config, s: State, events: seq<Event>): (count: nat)
    requires Possible(c, s, events)
    decreases |events|
  {
    if events == [] then 0
    else (if Progress(s, events[0]) then 1 else 0) + ProgressCount(c, After(c, s, events[0]), events[1..])
  }

  /** Retries end: without arrivals the dispatches that can still start or finish are bounded by a
      measure of the work that waits and runs now. */
  lemma {:induction false} DispatchTerminates(c: Config, s: State, events: seq<Event>)
    requires c.Valid() && Inv(c, s) && Possible(c, s, events)
    requires forall e :: e in events ==> !e.Receive?
    ensures ProgressCount(c, s, events) + Measure(c, Run(c, s, events)) <= Measure(c, s)
    ensures ProgressCount(c, s, events) <= Measure(c, s)
    decreases |events|
  {
    MeasureNonNegative(c, s);
    if events != [] {
      ProgressDecreases(c, s, events[0]);
      StepKeepsInv(c, s, events[0]);
      DispatchTerminates(c, After(c, s, events[0]), events[1..]);
    }
  }

  /** Every request gets its ending: without arrivals, as many dispatch starts and finishes as the measure of
      the work allows leave nothing queued and nothing running. */
  lemma EverythingEnds(c: Config, past: seq<Event>, events: seq<Event>)
    requires c.Valid() && Possible(c, Init, past) && Possible(c, Run(c, Init, past), events)
    requires forall e :: e in events ==> !e.Receive?
    requires ProgressCount(c, Run(c, Init, past), events) >= Measure(c, Run(c, Init, past))
    ensures var t := Run(c, Run(c, Init, past), events);
            && t.queued == {} && t.inflight == {} && |t.fates| == t.received
            && forall id :: 0 <= id < t.received ==> id in t.fates
  {
    hide Inv, Enabled, After, Measure, ProgressCount;
    var s := Run(c, Init, past);
    InitHolds(c);
    RunKeepsInv(c, Init, past);
    RunKeepsInv(c, s, events);
    DispatchTerminates(c, s, events);
    NoWorkLeft(c, Run(c, s, events));
  }

  lemma NoWorkLeft(c: Config, s: State)
    requires Inv(c, s) && Measure(c, s) <= 0
    ensures s.queued == {} && s.inflight == {} && |s.fates| == s.received
    ensures forall id :: 0 <= id < s.received ==> id in s.fates
  {
    EachWeighs(s.queued, WaitingWeight(c));
    EachWeighs(s.inflight, RunningWeight(c));
    PlacesAddUp(s);
    forall id | 0 <= id < s.received ensures id in s.fates {
      PlacesAreOne(s, id);
    }
  }

  lemma {:induction false} EachWeighs(s: set<Request>, weight: Request -> int)
    requires forall r :: r in s ==> weight(r) >= 1
    ensures Sum(s, weight) >= |s|
    decreases |s|
  {
    if s != {} {
      var r :| r in s;
      EachWeighs(s - {r}, weight);
      SumRemove(s, r, weight);
    }
  }

  // ---------- Service order ----------

  /** Of two requests that wait for the same model, a dispatch never takes the one that the other precedes. */
  lemma PrecededNotStarted(c: Config, s: State, e: Event, a: Request, b: Request)
    requires Inv(c, s) && Enabled(c, s, e) && e.Start?
    requires a in s.queued && b in s.queued && a.model == b.model && Before(a, b)
    ensures b in After(c, s, e).queued
  {
    var mine := OfModel(s.queued, e.model);
    DistinctOfModel(s.queued, e.model);
    HeadIsFirst(mine);
    if a.model == e.model {
      PrecedingServedFirst(mine, a, b);
    }
  }

  /** `a` is queued in every state of the run but possibly the last. */
  ghost predicate StaysQueued(c: Config, s: State, events: seq<Event>, a: Request)
    requires Possible(c, s, events)
    decreases |events|
  {
    events == [] || (a in s.queued && StaysQueued(c, After(c, s, events[0]), events[1..], a))
  }

  lemma PrecededStep(c: Config, s: State, e: Event, a: Request, b: Request)
    requires Inv(c, s) && Enabled(c, s, e) && a in s.queued && a.model == b.model && Before(a, b)
    requires b !in s.inflight
    ensures b !in After(c, s, e).inflight
  {
    hide Score, Distinct, IsOldest;
    if e.Start? && b in s.queued {
      PrecededNotStarted(c, s, e, a, b);
      hide Inv;
    } else {
      hide Inv;
      OthersStayOut(c, s, e, b);
    }
  }

  /** Only a start puts a request into flight, and only one that is queued. */
  lemma OthersStayOut(c: Config, s: State, e: Event, b: Request)
    requires Enabled(c, s, e) && (e.Start? ==> b !in s.queued) && b !in s.inflight
    ensures b !in After(c, s, e).inflight
  {
    hide Score, IsOldest;
  }

  lemma {:induction false} PrecededStaysOut(c: Config, s: State, events: seq<Event>, a: Request, b: Request)
    requires c.Valid() && Inv(c, s) && Possible(c, s, events) && StaysQueued(c, s, events, a)
    requires a.model == b.model && Before(a, b) && b !in s.inflight
    ensures b !in Run(c, s, events).inflight
    decreases |events|
  {
    hide Inv, Enabled, After;
    if events != [] {
      PrecededStep(c, s, events[0], a, b);
      StepKeepsInv(c, s, events[0]);
      PrecededStaysOut(c, After(c, s, events[0]), events[1..], a, b);
    }
  }

  /** The service order holds over whole runs, whatever the weights: let one request wait after any run.
      Whatever follows, as long as it waits, no request for its model that it precedes is dispatched,
      whether that one waits already or is still to come. */
  lemma PrecededWaits(c: Config, past: seq<Event>, events: seq<Event>, a: Request, b: Request)
    requires c.Valid() && Possible(c, Init, past) && Possible(c, Run(c, Init, past), events)
    requires a in Run(c, Init, past).queued && b !in Run(c, Init, past).inflight
    requires a.model == b.model && Before(a, b)
    requires StaysQueued(c, Run(c, Init, past), events, a)
    ensures b !in Run(c, Run(c, Init, past), events).inflight
  {
    var s := Run(c, Init, past);
    InitHolds(c);
    RunKeepsInv(c, Init, past);
    PrecededStaysOut(c, s, events, a, b);
  }

  /** When `r`, queued at the end of the run, was enqueued for the last time; `before` is that time for what
      was queued at the start. */
  ghost function EnqueuedAt(c: Config, s: State, events: seq<Event>, r: Request, before: real): (at: real)
    requires Possible(c, s, events)
    decreases |events|
  {
    if events == [] then before
    else EnqueuedAt(c, After(c, s, events[0]), events[1..], r, if r in s.queued then before else events[0].now)
  }

  /** What an event adds to the queue, it scores at its own time. */
  lemma ScoredWhenEnqueued(c: Config, s: State, e: Event, r: Request)
    requires Enabled(c, s, e) && r in After(c, s, e).queued && r !in s.queued
    ensures r.score == Score(c.weights, r, e.now)
  {
    hide IsOldest, Mark;
    if e.Receive? {
      SameScore(c.weights, r, e.request, e.now);
    } else if e.Finish? {
      SameScore(c.weights, r, e.request.(retries := e.request.retries + 1), e.now);
    }
  }

  /** The score does not depend on the fields that enqueueing assigns. */
  lemma SameScore(w: Weights, r: Request, q: Request, t: real)
    ensures r == q.(score := r.score, counter := r.counter) ==> Score(w, r, t) == Score(w, q, t)
  {
  }

  /** A queued request carries the score of the time when it was enqueued. */
  lemma {:induction false} QueuedKeepScore(c: Config, s: State, events: seq<Event>, r: Request, before: real)
    requires Possible(c, s, events)
    requires r in s.queued ==> r.score == Score(c.weights, r, before)
    requires r in Run(c, s, events).queued
    ensures r.score == Score(c.weights, r, EnqueuedAt(c, s, events, r, before))
    decreases |events|
  {
    if events != [] {
      var t := After(c, s, events[0]);
      if r in t.queued && r !in s.queued {
        ScoredWhenEnqueued(c, s, events[0], r);
      }
      hide Score, After, Enabled;
      QueuedKeepScore(c, t, events[1..], r, if r in s.queued then before else events[0].now);
    }
  }

  /** Score dominance decides service over whole runs. After any run, let `a` and `b` wait for the same
      model, and let `a`, when it was enqueued, have been at least as late, urgent, near its end,
      high-priority and aged as `b` when `b` was; let `a` have been enqueued earlier, or have a strictly
      larger score. Then, whatever follows, `b` is not dispatched as long as `a` waits. */
  lemma DominatedWaits(c: Config, past: seq<Event>, events: seq<Event>, a: Request, b: Request)
    requires c.Valid() && NonNegative(c.weights)
    requires Possible(c, Init, past) && Possible(c, Run(c, Init, past), events)
    requires a in Run(c, Init, past).queued && b in Run(c, Init, past).queued && a.model == b.model
    requires Dominates(a, EnqueuedAt(c, Init, past, a, 0.0), b, EnqueuedAt(c, Init, past, b, 0.0))
    requires a.counter < b.counter || a.score > b.score
    requires StaysQueued(c, Run(c, Init, past), events, a)
    ensures b !in Run(c, Run(c, Init, past), events).inflight
  {
    hide Enabled, After, Dominates, Score;
    InitHolds(c);
    RunKeepsInv(c, Init, past);
    QueuedKeepScore(c, Init, past, a, 0.0);
    QueuedKeepScore(c, Init, past, b, 0.0);
    DominanceScores(c.weights, a, EnqueuedAt(c, Init, past, a, 0.0), b, EnqueuedAt(c, Init, past, b, 0.0));
    PrecededWaits(c, past, events, a, b);
  }
}
