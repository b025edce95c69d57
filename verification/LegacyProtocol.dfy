/** The server with the single-heap scheduler and the legacy loop (server.py:129-193, 363-472) as a transition
    system. One event is the code that runs between two awaits: messages may arrive and requests expire
    while the loop waits for the dispatcher or for a response to be sent. The scheduler ignores clients
    that fall silent. */
module LegacyProtocol {
  import opened Requests
  import opened ServiceOrder
  import opened Scoring
  import opened Eviction
  import opened DeadlineAware
  import opened LocalDispatch
  import opened Pipeline
  import opened PipelineRuns

  /** What stays fixed: the configuration, the models with a callable, the frames of the requests, what the
      callables do, and which responses can be sent. */
  datatype Setup = Setup(
    config: Config,
    maxConcurrent: nat,
    registered: set<ModelId>,
    frames: Frames,
    call: Callable,
    delivered: nat -> bool)
  {
    ghost predicate Valid() {
      config.Valid() && maxConcurrent >= 1
    }
  }

  /** Where the loop stands: about to collect, waiting for the dispatcher, going through the results, or ended
      by an exception that cost it a batch. What a result will lead to is fixed when the dispatcher has returned. */
  datatype Phase = Idle | Dispatching(batch: seq<Request>) | Settling(endings: seq<Ending>)
                 | Stopped(lost: seq<Request>)

  /** `core.inflight` is what the loop holds; no per-model loop is started, so there are no permits. */
  datatype LoopState = LoopState(core: State, phase: Phase)

  datatype LoopEvent =
    | Arrival(now: real, request: Request, evicted: set<Request>)
    | Expiry(now: real)
    | Turn(now: real)

  ghost const Beginning := LoopState(Init, Idle)

  ghost function InHand(phase: Phase): (q: seq<Request>) {
    match phase
    case Dispatching(batch) => batch
    case Settling(endings) => Origins(endings)
    case _ => []
  }

  ghost predicate Allowed(g: Setup, s: LoopState, e: LoopEvent) {
    && !s.phase.Stopped?
    && match e
       case Arrival(now, request, evicted) => Enabled(g.config, s.core, Receive(now, request, evicted))
       case Expiry(now) => Enabled(g.config, s.core, Tick(now))
       case Turn(now) => now >= s.core.now && Distinct(s.core.queued)
  }

  ghost function Next(g: Setup, s: LoopState, e: LoopEvent): (t: LoopState)
    requires Allowed(g, s, e)
  {
    match e
    case Arrival(now, request, evicted) =>
      s.(core := After(g.config, s.core, Receive(now, request, evicted)).(permits := s.core.permits))
    case Expiry(now) => s.(core := After(g.config, s.core, Tick(now)))
    case Turn(now) => AfterTurn(g, s.(core := s.core.(now := now)))
  }

  ghost function AfterTurn(g: Setup, s: LoopState): (t: LoopState)
    requires Distinct(s.core.queued)
  {
    match s.phase
    case Idle => AfterCollecting(s, Order(s.core.queued)[..Least(g.maxConcurrent, |Order(s.core.queued)|)])
    case Dispatching(batch) => AfterDispatching(g, s, batch)
    case Settling(endings) =>
      if endings == [] then s.(phase := Idle)
      else LoopState(AfterEnding(g, s.core, endings[0]), Rest(endings))
    case Stopped(_) => s
  }

  /** The collected requests leave the queue; without any the loop tries again later. */
  ghost function AfterCollecting(s: LoopState, batch: seq<Request>): (t: LoopState) {
    if batch == [] then s
    else
      LoopState(
        s.core.(queued := s.core.queued - Members(batch),
                inflight := s.core.inflight + Members(batch),
                dispatched := s.core.dispatched + Identities(batch)),
        Dispatching(batch))
  }

  /** The dispatcher returns one result per request, or an exception ends the loop and with it `run`. */
  ghost function AfterDispatching(g: Setup, s: LoopState, batch: seq<Request>): (t: LoopState) {
    if NoneEscapes(batch, g.registered, g.frames) then s.(phase := Settling(AllEndings(g, batch)))
    else LoopState(AfterLoss(s.core, Members(batch)), Stopped(batch))
  }

  ghost function AllEndings(g: Setup, batch: seq<Request>): (es: seq<Ending>) {
    EndingsOf(Grouped(batch), g.registered, g.frames, g.call, g.config.maxRetries, g.delivered)
  }

  ghost function AfterLoss(s: State, hand: set<Request>): (t: State) {
    s.(inflight := s.inflight - hand, fates := Mark(s.fates, hand, Crashed))
  }

  function Rest(endings: seq<Ending>): (phase: Phase)
    requires endings != []
  {
    if |endings| == 1 then Idle else Settling(endings[1..])
  }

  function FateOf(e: Ending): (fate: Option<Fate>) {
    match e
    case Answered(_) => Some(Fate.Answered)
    case SendFailed(_) => Some(Fate.SendFailed)
    case Errored(_) => Some(Fate.Errored)
    case Retried(_) => None
  }

  /** One result is settled: the request ends, or it is sent back to the queue. */
  ghost function AfterEnding(g: Setup, s: State, e: Ending): (t: State) {
    var r := e.request;
    match FateOf(e)
    case Some(fate) =>
      s.(inflight := s.inflight - {r},
         fates := s.fates[r.id := fate],
         sent := if fate == Fate.Answered then s.sent + [r.id] else s.sent)
    case None =>
      s.(inflight := s.inflight - {r},
         queued := s.queued + {Enqueued(g.config, s, r.(retries := r.retries + 1), s.now)},
         counter := s.counter + 1)
  }

  function Least(a: nat, b: nat): (n: nat)
    ensures n <= a && n <= b && (n == a || n == b)
  {
    if a <= b then a else b
  }

  function Members(q: seq<Request>): (s: set<Request>)
    ensures forall r :: r in s <==> r in q
  {
    set r | r in q
  }

  function Identities(q: seq<Request>): (ids: seq<nat>)
    ensures |ids| == |q| && forall i :: 0 <= i < |q| ==> ids[i] == q[i].id
  {
    seq(|q|, i requires 0 <= i < |q| => q[i].id)
  }

  // ---------- Runs ----------

  ghost predicate Happens(g: Setup, s: LoopState, events: seq<LoopEvent>)
    decreases |events|
  {
    events == [] || (Allowed(g, s, events[0]) && Happens(g, Next(g, s, events[0]), events[1..]))
  }

  ghost function Reached(g: Setup, s: LoopState, events: seq<LoopEvent>): (t: LoopState)
    requires Happens(g, s, events)
    decreases |events|
  {
    if events == [] then s else Reached(g, Next(g, s, events[0]), events[1..])
  }

  // ---------- What every reachable state satisfies ----------

  /** What the loop holds is what it is dispatching or settling, without duplicates and within its limit. */
  ghost predicate HandHolds(g: Setup, s: LoopState) {
    && s.core.inflight == Members(InHand(s.phase))
    && DistinctIds(InHand(s.phase))
    && |InHand(s.phase)| <= g.maxConcurrent
  }

  /** Some request was lost to an exception. */
  ghost predicate Lost(fates: map<nat, Fate>) {
    exists id :: id in fates && fates[id] == Crashed
  }

  ghost predicate LostAre(fates: map<nat, Fate>, batch: seq<Request>) {
    forall id :: id in fates && fates[id] == Crashed <==> IsLive(Members(batch), id)
  }

  /** A request is retried while it has retries left, given up when it has none, and answered when its response
      can be sent. */
  ghost predicate EndingFits(g: Setup, e: Ending) {
    match e
    case Answered(r) => g.delivered(r.id)
    case SendFailed(r) => !g.delivered(r.id)
    case Retried(r) => r.retries < g.config.maxRetries
    case Errored(r) => r.retries >= g.config.maxRetries
  }

  ghost predicate EndingsFit(g: Setup, endings: seq<Ending>) {
    forall i :: 0 <= i < |endings| ==> EndingFits(g, endings[i])
  }

  /** Exactly those were answered for which the response could be sent. */
  ghost predicate AnswersFit(g: Setup, fates: map<nat, Fate>) {
    forall id :: id in fates ==>
      (fates[id] == Fate.Answered ==> g.delivered(id)) && (fates[id] == Fate.SendFailed ==> !g.delivered(id))
  }

  /** The loop holds something exactly while it dispatches or settles; a request that is to be retried has a
      retry left; and requests are lost only at the end of the loop, which a batch brings about of which some
      observation cannot be reconstructed. */
  ghost predicate PhaseFits(g: Setup, s: LoopState) {
    && (s.phase.Dispatching? || s.phase.Settling? ==> InHand(s.phase) != [])
    && (s.phase.Settling? ==> EndingsFit(g, s.phase.endings))
    && (if s.phase.Stopped?
        then LostAre(s.core.fates, s.phase.lost) && !NoneEscapes(s.phase.lost, g.registered, g.frames)
        else !Lost(s.core.fates))
  }

  ghost predicate WithinBound(g: Setup, s: LoopState) {
    |s.core.queued| + |InHand(s.phase)| <= g.config.maxQueue + g.maxConcurrent
  }

  ghost predicate CoreInv(c: Config, s: State) {
    OnePlace(s) && CountersGrow(s) && RetriesCounted(c, s) && SentOnce(s)
  }

  ghost predicate LoopInv(g: Setup, s: LoopState) {
    CoreInv(g.config, s.core) && HandHolds(g, s) && PhaseFits(g, s) && WithinBound(g, s)
  }

  lemma BeginningHolds(g: Setup)
    ensures LoopInv(g, Beginning)
  {
  }

  // ---------- Lists of distinct requests ----------

  lemma {:induction false} DistinctMembers(q: seq<Request>)
    requires DistinctIds(q)
    ensures Represents(q, Members(q)) && UniqueIds(Members(q)) && |Members(q)| == |q|
  {
    if q == [] {
      assert Members(q) == {};
    } else {
      var front, last := q[..|q| - 1], q[|q| - 1];
      assert q == front + [last];
      DistinctMembers(front);
      assert Members(q) == Members(front) + {last};
      AddRepresents(front, q, Members(front), last);
      forall r | r in Members(front) ensures !SameId(r, last) && !SameId(last, r) {
        var i :| 0 <= i < |front| && front[i] == r;
        assert q[i] == r;
      }
    }
  }

  /** Grouping by model keeps the requests distinct. */
  lemma GroupedStayDistinct(batch: seq<Request>)
    requires DistinctIds(batch)
    ensures DistinctIds(Grouped(batch)) && Members(Grouped(batch)) == Members(batch)
    ensures |Grouped(batch)| == |batch|
  {
    DistinctMembers(batch);
    GroupedSameRequests(batch);
    DifferentIds(Grouped(batch), Members(batch));
    RepresentsMembers(Grouped(batch), Members(batch));
    DistinctMembers(Grouped(batch));
  }

  lemma {:induction false} CountIdentities(log: seq<nat>, q: seq<Request>, id: nat)
    requires DistinctIds(q)
    ensures Dispatches(log + Identities(q), id) == Dispatches(log, id) + if IsLive(Members(q), id) then 1 else 0
  {
    if q == [] {
      assert log + Identities(q) == log;
    } else {
      var front, last := q[..|q| - 1], q[|q| - 1];
      assert q == front + [last];
      CountIdentities(log, front, id);
      assert log + Identities(q) == log + Identities(front) + [last.id];
      IsLiveOneMore(front, last, id);
    }
  }

  lemma IsLiveOneMore(front: seq<Request>, last: Request, id: nat)
    requires DistinctIds(front + [last])
    ensures IsLive(Members(front + [last]), id) <==> IsLive(Members(front), id) || id == last.id
    ensures IsLive(Members(front), id) ==> id != last.id
  {
    var q := front + [last];
    assert last in Members(q);
    if IsLive(Members(front), id) {
      var r :| r in Members(front) && r.id == id;
      var i :| 0 <= i < |front| && front[i] == r;
      assert q[i] == r && q[|front|] == last && r in Members(q);
    }
    if IsLive(Members(q), id) && id != last.id {
      var r :| r in Members(q) && r.id == id;
      assert r in Members(front);
    }
  }

  // ---------- Every event keeps the invariant ----------

  lemma ArrivalKeepsCore(g: Setup, s: LoopState, e: LoopEvent)
    requires LoopInv(g, s) && Allowed(g, s, e) && e.Arrival?
    ensures var t := Next(g, s, e).core;
            CoreInv(g.config, t)
  {
    var c, was, u := g.config, s.core, s.core.(now := e.now);
    SameRequests(c, was, u);
    hide OnePlace, CountersGrow, RetriesCounted, SentOnce, LoopInv, Score, Mark, IsOldest;
    if QueueIsFull(c, u) && !c.dropOldest {
      RejectKeepsPlace(u, AfterReject(u));
      RejectKeepsHistory(c, u);
    } else {
      EvictedWereQueued(c, s.core, e.now, e.request, e.evicted);
      DropKeepsPlace(u, e.evicted, Evicted);
      DropKeepsHistory(c, u, e.evicted, Evicted);
      DropKeepsCounters(u, e.evicted, Evicted);
      var v, r := Drop(u, e.evicted, Evicted), Enqueued(c, u, e.request, e.now);
      var t := AfterAdd(c, v, r).(permits := was.permits);
      AddKeepsPlace(v, r, t);
      AddKeepsCounters(v, r, t);
      AddKeepsHistory(c, v, r, t);
    }
  }

  lemma SameRequests(c: Config, s: State, t: State)
    requires CoreInv(c, s)
    requires t == s.(now := t.now)
    ensures CoreInv(c, t)
  {
    assert t.Live() == s.Live();
    assert forall id :: IsLive(s.Live(), id) ==> IsLive(t.Live(), id);
  }

  lemma EvictedWereQueued(c: Config, s: State, now: real, request: Request, evicted: set<Request>)
    requires Enabled(c, s, Receive(now, request, evicted))
    ensures evicted <= s.queued && |evicted| <= 1
    ensures QueueIsFull(c, s) && c.dropOldest && s.queued != {} ==> |evicted| == 1
  {
  }

  lemma DropKeepsCounters(s: State, gone: set<Request>, fate: Fate)
    requires CountersGrow(s)
    ensures CountersGrow(Drop(s, gone, fate))
  {
  }

  lemma RejectKeepsHistory(c: Config, s: State)
    requires CoreInv(c, s)
    ensures var t := AfterReject(s); CountersGrow(t) && RetriesCounted(c, t) && SentOnce(t)
  {
    assert s.received !in s.fates;
  }

  lemma ArrivalKeepsRest(g: Setup, s: LoopState, e: LoopEvent)
    requires g.Valid() && LoopInv(g, s) && Allowed(g, s, e) && e.Arrival?
    ensures var t := Next(g, s, e); HandHolds(g, t) && PhaseFits(g, t) && WithinBound(g, t)
  {
    var c, was, t := g.config, s.core, Next(g, s, e).core;
    hide CoreInv, Score, IsOldest, DistinctIds, EndingsFit, LostAre, Lost, Mark;
    EvictedWereQueued(c, was, e.now, e.request, e.evicted);
    MarkLosesNone(was.fates, e.evicted, Evicted);
    RejectLosesNone(was.fates, was.received);
    assert |was.queued - e.evicted| == |was.queued| - |e.evicted|;
  }

  lemma RejectLosesNone(fates: map<nat, Fate>, id: nat)
    requires !Lost(fates)
    ensures !Lost(fates[id := Rejected])
  {
  }

  lemma MarkLosesNone(fates: map<nat, Fate>, gone: set<Request>, fate: Fate)
    requires !Lost(fates) && fate != Crashed
    ensures !Lost(Mark(fates, gone, fate))
  {
  }

  lemma ExpiryKeepsCore(c: Config, s: State, now: real)
    requires CoreInv(c, s) && Enabled(c, s, Tick(now))
    ensures CoreInv(c, After(c, s, Tick(now)))
  {
    var u := s.(now := now);
    var gone := Select(s.queued, HasExpired(now, c.ttlMs));
    SameRequests(c, s, u);
    DropKeepsPlace(u, gone, TimedOut);
    DropKeepsHistory(c, u, gone, TimedOut);
    DropKeepsCounters(u, gone, TimedOut);
    hide OnePlace, CountersGrow, RetriesCounted, SentOnce, Expired, Mark;
  }

  lemma ExpiryKeepsInv(g: Setup, s: LoopState, e: LoopEvent)
    requires LoopInv(g, s) && Allowed(g, s, e) && e.Expiry?
    ensures LoopInv(g, Next(g, s, e))
  {
    var gone := Select(s.core.queued, HasExpired(e.now, g.config.ttlMs));
    hide CoreInv, DistinctIds, EndingsFit, LostAre, Mark, Lost, Expired;
    ExpiryKeepsCore(g.config, s.core, e.now);
    MarkLosesNone(s.core.fates, gone, TimedOut);
    SubsetSize(s.core.queued - gone, s.core.queued);
  }

  /** What is left when a prefix of a list of distinct objects was taken. */
  lemma LeftBehind(all: seq<Request>, before: set<Request>, n: nat, after: set<Request>)
    requires n <= |all| && Represents(all, before) && Represents(all[n..], after) && UniqueIds(before)
    ensures DistinctIds(all[..n]) && after == before - Members(all[..n]) && Members(all[..n]) <= before
    ensures |after| == |before| - n && |all| == |before|
    ensures forall r, x :: r in all[..n] && x in after ==> r.id != x.id
  {
    DifferentIds(all, before);
    RepresentsMembers(all, before);
    RepresentsMembers(all[n..], after);
    forall r, x | r in all[..n] && x in after ensures r.id != x.id {
      var i :| 0 <= i < n && all[i] == r;
      var j :| 0 <= j < |all| - n && all[n..][j] == x;
      assert all[n + j] == x;
    }
    assert all == all[..n] + all[n..];
  }

  lemma {:induction false} RestRepresents(all: seq<Request>, s: set<Request>, n: nat)
    requires Represents(all, s) && n <= |all|
    ensures Represents(all[n..], s - Members(all[..n]))
  {
    if n == 0 {
      assert all[0..] == all && s - Members(all[..0]) == s;
    } else {
      HeadRepresents(all, s);
      RestRepresents(all[1..], s - {all[0]}, n - 1);
      assert all[1..][n - 1..] == all[n..];
      assert all[..n] == [all[0]] + all[1..][..n - 1];
      assert s - Members(all[..n]) == s - {all[0]} - Members(all[1..][..n - 1]);
    }
  }

  /** The collected requests are distinct objects, and what stays queued is the rest. */
  lemma CollectedPrefix(g: Setup, s: State, batch: seq<Request>)
    requires OnePlace(s) && CountersGrow(s)
    requires batch == Order(s.queued)[..Least(g.maxConcurrent, |Order(s.queued)|)]
    ensures DistinctIds(batch) && Members(batch) <= s.queued && |batch| <= g.maxConcurrent
    ensures |s.queued - Members(batch)| == |s.queued| - |batch|
  {
    var all, n := Order(s.queued), |batch|;
    OrderIsSorted(s.queued);
    RestRepresents(all, s.queued, n);
    assert UniqueIds(s.queued) by {
      assert s.queued <= s.Live();
    }
    hide OnePlace, CountersGrow;
    LeftBehind(all, s.queued, n, s.queued - Members(batch));
  }

  lemma CollectingKeepsCore(c: Config, s: State, batch: seq<Request>, t: State)
    requires CoreInv(c, s)
    requires DistinctIds(batch) && Members(batch) <= s.queued
    requires t == s.(queued := s.queued - Members(batch), inflight := s.inflight + Members(batch),
                     dispatched := s.dispatched + Identities(batch))
    ensures CoreInv(c, t)
  {
    assert t.Live() == s.Live();
    assert OnePlace(t) by {
      hide RetriesCounted, SentOnce;
      assert forall id :: IsLive(s.Live(), id) ==> IsLive(t.Live(), id);
    }
    CollectingKeepsCounts(c, s, batch, t);
    hide OnePlace, RetriesCounted, SentOnce;
  }

  lemma CollectingKeepsCounts(c: Config, s: State, batch: seq<Request>, t: State)
    requires OnePlace(s) && RetriesCounted(c, s)
    requires DistinctIds(batch) && Members(batch) <= s.queued
    requires t == s.(queued := s.queued - Members(batch), inflight := s.inflight + Members(batch),
                     dispatched := s.dispatched + Identities(batch))
    ensures RetriesCounted(c, t)
  {
    forall id ensures Dispatches(t.dispatched, id)
                      == Dispatches(s.dispatched, id) + if IsLive(Members(batch), id) then 1 else 0
    {
      CountIdentities(s.dispatched, batch, id);
    }
    hide Dispatches;
    forall r, x | r in Members(batch) && x in t.queued + s.inflight ensures r.id != x.id {
      assert r in s.Live() && x in s.Live() && (SameId(r, x) ==> r == x);
    }
    forall r | r in Members(batch) ensures IsLive(Members(batch), r.id) && r in s.Live() {
    }
  }

  lemma CollectingKeepsRest(g: Setup, s: LoopState, batch: seq<Request>)
    requires HandHolds(g, s) && PhaseFits(g, s) && WithinBound(g, s) && s.phase.Idle? && batch != []
    requires DistinctIds(batch) && |batch| <= g.maxConcurrent
    requires |s.core.queued - Members(batch)| == |s.core.queued| - |batch|
    ensures var t := AfterCollecting(s, batch); HandHolds(g, t) && PhaseFits(g, t) && WithinBound(g, t)
  {
    hide Lost, DistinctIds;
  }

  lemma CollectingKeepsInv(g: Setup, s: LoopState)
    requires g.Valid() && LoopInv(g, s) && s.phase.Idle?
    ensures LoopInv(g, AfterTurn(g, s))
  {
    var batch := Order(s.core.queued)[..Least(g.maxConcurrent, |Order(s.core.queued)|)];
    if batch != [] {
      CollectedPrefix(g, s.core, batch);
      hide DistinctIds, Order, Distinct, PhaseFits, WithinBound, OnePlace, CountersGrow, RetriesCounted, SentOnce;
      CollectingKeepsCore(g.config, s.core, batch, AfterCollecting(s, batch).core);
      CollectingKeepsRest(g, s, batch);
    }
  }

  /** The endings are those of the batch: its requests, each once. */
  lemma EndingsOfBatch(g: Setup, batch: seq<Request>)
    requires DistinctIds(batch)
    ensures var es := AllEndings(g, batch);
            && Origins(es) == Grouped(batch) && DistinctIds(Origins(es)) && Members(Origins(es)) == Members(batch)
            && |es| == |batch| && EndingsFit(g, es)
  {
    GroupedStayDistinct(batch);
    hide DistinctIds, Grouped, Succeeds;
    assert Origins(AllEndings(g, batch)) == Grouped(batch);
  }

  lemma ReturningKeepsInv(g: Setup, s: LoopState, batch: seq<Request>)
    requires LoopInv(g, s) && s.phase == Dispatching(batch)
    ensures LoopInv(g, s.(phase := Settling(AllEndings(g, batch))))
  {
    hide CoreInv, DistinctIds, Lost, LostAre, NoneEscapes, AllEndings, EndingsFit;
    EndingsOfBatch(g, batch);
  }

  lemma LossKeepsInv(g: Setup, s: LoopState, batch: seq<Request>)
    requires LoopInv(g, s) && s.phase == Dispatching(batch) && !NoneEscapes(batch, g.registered, g.frames)
    ensures LoopInv(g, LoopState(AfterLoss(s.core, Members(batch)), Stopped(batch)))
  {
    hide CoreInv, Lost, LostAre, NoneEscapes, Mark;
    LossKeepsCore(g.config, s.core, Members(batch));
    LossIsMarked(s.core, batch);
  }

  lemma LossIsMarked(s: State, batch: seq<Request>)
    requires !Lost(s.fates)
    ensures LostAre(AfterLoss(s, Members(batch)).fates, batch)
  {
  }

  lemma DispatchingKeepsInv(g: Setup, s: LoopState)
    requires LoopInv(g, s) && s.phase.Dispatching?
    ensures LoopInv(g, AfterTurn(g, s))
  {
    var batch := s.phase.batch;
    hide LoopInv, AllEndings, AfterLoss;
    if NoneEscapes(batch, g.registered, g.frames) {
      ReturningKeepsInv(g, s, batch);
    } else {
      LossKeepsInv(g, s, batch);
    }
  }

  lemma LossKeepsCore(c: Config, s: State, hand: set<Request>)
    requires CoreInv(c, s) && hand <= s.inflight
    ensures CoreInv(c, AfterLoss(s, hand))
  {
    LossKeepsPlace(s, hand);
    LossKeepsHistory(c, s, hand);
    hide OnePlace, RetriesCounted, SentOnce, Mark;
  }

  lemma LossKeepsPlace(s: State, hand: set<Request>)
    requires OnePlace(s) && hand <= s.inflight
    ensures OnePlace(AfterLoss(s, hand))
  {
    var t := AfterLoss(s, hand);
    forall id | 0 <= id < t.received && id !in t.fates ensures IsLive(t.Live(), id) {
      assert IsLive(s.Live(), id);
      var r :| r in s.Live() && r.id == id;
      assert r in t.Live();
    }
    forall r | r in t.Live() ensures r.id !in t.fates {
      if x :| x in hand && x.id == r.id {
        assert SameId(x, r);
      }
    }
  }

  lemma LossKeepsHistory(c: Config, s: State, hand: set<Request>)
    requires OnePlace(s) && RetriesCounted(c, s) && SentOnce(s) && hand <= s.inflight
    ensures RetriesCounted(c, AfterLoss(s, hand)) && SentOnce(AfterLoss(s, hand))
  {
    var t := AfterLoss(s, hand);
    forall id | id in t.fates && id !in s.fates
      ensures t.fates[id] == Crashed && Dispatches(s.dispatched, id) <= c.maxRetries + 1
    {
      var r :| r in hand && r.id == id;
    }
    forall id | id in s.fates ensures id in t.fates && t.fates[id] == s.fates[id] {
      assert forall r :: r in hand ==> r in s.Live();
    }
  }

  lemma EndingKeepsCore(g: Setup, s: State, e: Ending)
    requires CoreInv(g.config, s)
    requires e.request in s.inflight && EndingFits(g, e)
    ensures var t := AfterEnding(g, s, e);
            && CoreInv(g.config, t) && (!Lost(s.fates) ==> !Lost(t.fates))
            && t.inflight == s.inflight - {e.request} && |t.queued| <= |s.queued| + 1
  {
    var c, t, r := g.config, AfterEnding(g, s, e), e.request;
    hide OnePlace, RetriesCounted, SentOnce, Score;
    if e.Retried? {
      var again := Enqueued(c, s, r.(retries := r.retries + 1), s.now);
      RetryKeepsPlace(s, r, again, t);
      RetryKeepsHistory(c, s, r, again, t);
      AddKeepsCounters(s, again, t);
    } else {
      EndKeepsPlace(s, r, FateOf(e).value, t);
      EndKeepsHistory(c, s, r, t);
    }
  }

  lemma SettlingKeepsRest(g: Setup, s: LoopState, endings: seq<Ending>, core: State)
    requires HandHolds(g, s) && PhaseFits(g, s) && WithinBound(g, s) && s.phase == Settling(endings)
    requires endings != [] && core.inflight == s.core.inflight - {endings[0].request} && !Lost(core.fates)
    requires |core.queued| <= |s.core.queued| + 1
    ensures var t := LoopState(core, Rest(endings)); HandHolds(g, t) && PhaseFits(g, t) && WithinBound(g, t)
  {
    OneLessInHand(g, endings);
    hide DistinctIds, Lost, EndingsFit;
  }

  lemma SettlingKeepsInv(g: Setup, s: LoopState)
    requires LoopInv(g, s) && s.phase.Settling?
    ensures LoopInv(g, AfterTurn(g, s))
  {
    var endings := s.phase.endings;
    hide CoreInv, HandHolds, PhaseFits, WithinBound, AfterEnding;
    FirstInHand(g, s);
    EndingKeepsCore(g, s.core, endings[0]);
    SettlingKeepsRest(g, s, endings, AfterEnding(g, s.core, endings[0]));
  }

  lemma FirstInHand(g: Setup, s: LoopState)
    requires LoopInv(g, s) && s.phase.Settling?
    ensures CountersGrow(s.core) && s.phase.endings != [] && !Lost(s.core.fates)
    ensures var e := s.phase.endings[0];
            e.request in s.core.inflight && EndingFits(g, e)
  {
    hide OnePlace, CountersGrow, RetriesCounted, SentOnce, WithinBound, DistinctIds, Lost;
    assert Origins(s.phase.endings)[0] == s.phase.endings[0].request;
  }

  lemma OneLessInHand(g: Setup, endings: seq<Ending>)
    requires endings != [] && DistinctIds(Origins(endings)) && EndingsFit(g, endings)
    ensures var rest := InHand(Rest(endings));
            && DistinctIds(rest) && |rest| == |endings| - 1 && (Rest(endings).Settling? ==> rest != [])
            && Members(rest) == Members(Origins(endings)) - {endings[0].request}
    ensures Rest(endings).Settling? ==> EndingsFit(g, Rest(endings).endings)
  {
    var all, rest := Origins(endings), InHand(Rest(endings));
    assert rest == all[1..];
    assert all == [all[0]] + all[1..];
    assert forall r :: r in rest ==> r.id != all[0].id;
  }

  /** Every event keeps the invariant. */
  lemma LoopStepKeepsInv(g: Setup, s: LoopState, e: LoopEvent)
    requires g.Valid() && LoopInv(g, s) && Allowed(g, s, e)
    ensures LoopInv(g, Next(g, s, e))
  {
    match e
    case Arrival(_, _, _) =>
      ArrivalKeepsCore(g, s, e);
      ArrivalKeepsRest(g, s, e);
      hide Next, Allowed, CoreInv, HandHolds, PhaseFits, WithinBound;
    case Expiry(_) =>
      ExpiryKeepsInv(g, s, e);
    case Turn(now) =>
      var t := s.(core := s.core.(now := now));
      ClockKeepsInv(g, s, t);
      hide LoopInv, AfterTurn;
      match t.phase
      case Idle => CollectingKeepsInv(g, t);
      case Dispatching(_) => DispatchingKeepsInv(g, t);
      case Settling(_) => SettlingKeepsInv(g, t);
  }

  lemma ClockKeepsInv(g: Setup, s: LoopState, t: LoopState)
    requires LoopInv(g, s) && t == s.(core := s.core.(now := t.core.now))
    ensures LoopInv(g, t)
  {
    SameRequests(g.config, s.core, t.core);
  }

  lemma {:induction false} LoopRunKeepsInv(g: Setup, s: LoopState, events: seq<LoopEvent>)
    requires g.Valid() && LoopInv(g, s) && Happens(g, s, events)
    ensures LoopInv(g, Reached(g, s, events))
    decreases |events|
  {
    hide LoopInv, Allowed, Next;
    if events != [] {
      LoopStepKeepsInv(g, s, events[0]);
      LoopRunKeepsInv(g, Next(g, s, events[0]), events[1..]);
    }
  }

  /** An event gives out answers only as the responses can be sent. */
  lemma StepKeepsAnswers(g: Setup, s: LoopState, e: LoopEvent)
    requires LoopInv(g, s) && Allowed(g, s, e) && AnswersFit(g, s.core.fates)
    ensures AnswersFit(g, Next(g, s, e).core.fates)
  {
    var fates := s.core.fates;
    hide LoopInv, AnswersFit, Mark, Score, IsOldest, NoneEscapes, AllEndings, Distinct, EndingFits, Expired;
    match e
    case Arrival(_, _, evicted) =>
      MarkKeepsAnswers(g, fates, evicted, Evicted);
      EndKeepsAnswers(g, fates, s.core.received, Rejected);
    case Expiry(now) => MarkKeepsAnswers(g, fates, Select(s.core.queued, HasExpired(now, g.config.ttlMs)), TimedOut);
    case Turn(now) =>
      TurnKeepsAnswers(g, s.(core := s.core.(now := now))) by {
        ClockKeepsInv(g, s, s.(core := s.core.(now := now)));
      }
      hide AfterTurn;
  }

  lemma TurnKeepsAnswers(g: Setup, s: LoopState)
    requires LoopInv(g, s) && AnswersFit(g, s.core.fates) && Distinct(s.core.queued)
    ensures AnswersFit(g, AfterTurn(g, s).core.fates)
  {
    hide LoopInv, AnswersFit, Mark, Score, NoneEscapes, AllEndings, Distinct, Order, EndingFits;
    match s.phase
    case Dispatching(batch) => MarkKeepsAnswers(g, s.core.fates, Members(batch), Crashed);
    case Settling(endings) =>
      FirstInHand(g, s);
      EndingKeepsAnswers(g, s.core, endings[0]);
    case _ =>
  }

  lemma EndingKeepsAnswers(g: Setup, s: State, e: Ending)
    requires AnswersFit(g, s.fates) && EndingFits(g, e)
    ensures AnswersFit(g, AfterEnding(g, s, e).fates)
  {
  }

  lemma MarkKeepsAnswers(g: Setup, fates: map<nat, Fate>, gone: set<Request>, fate: Fate)
    requires AnswersFit(g, fates) && fate != Fate.Answered && fate != Fate.SendFailed
    ensures AnswersFit(g, Mark(fates, gone, fate))
  {
  }

  lemma EndKeepsAnswers(g: Setup, fates: map<nat, Fate>, id: nat, fate: Fate)
    requires AnswersFit(g, fates) && fate != Fate.Answered && fate != Fate.SendFailed
    ensures AnswersFit(g, fates[id := fate])
  {
  }

  lemma {:induction false} RunKeepsAnswers(g: Setup, s: LoopState, events: seq<LoopEvent>)
    requires g.Valid() && LoopInv(g, s) && Happens(g, s, events) && AnswersFit(g, s.core.fates)
    ensures AnswersFit(g, Reached(g, s, events).core.fates)
    decreases |events|
  {
    hide LoopInv, Allowed, Next, AnswersFit;
    if events != [] {
      LoopStepKeepsInv(g, s, events[0]);
      StepKeepsAnswers(g, s, events[0]);
      RunKeepsAnswers(g, Next(g, s, events[0]), events[1..]);
    }
  }

  /** What an event adds to the queue, it scores at its own time. */
  lemma QueuedIsScored(g: Setup, s: LoopState, e: LoopEvent, q: Request)
    requires Allowed(g, s, e) && q in Next(g, s, e).core.queued && q !in s.core.queued
    ensures q.score == Score(g.config.weights, q, e.now)
  {
    hide Score, IsOldest, Mark, Expired, NoneEscapes, AllEndings, Order, Distinct;
    match e
    case Arrival(now, request, _) => SameScore(g.config.weights, q, request, now);
    case Expiry(_) =>
    case Turn(now) =>
      if s.phase.Settling? && s.phase.endings != [] {
        var r := s.phase.endings[0].request;
        SameScore(g.config.weights, q, r.(retries := r.retries + 1), now);
      }
  }

  // ---------- What every run guarantees ----------

  /** After any run each received request is queued, held by the loop or ended, in exactly one of these places
      and as a single entry; it was answered at most once and dispatched at most once more than it may be
      retried. The requests without an ending are exactly those of the batch that ended the loop. */
  lemma LoopLosesNothing(g: Setup, events: seq<LoopEvent>, id: nat)
    requires g.Valid() && Happens(g, Beginning, events)
    ensures var s := Reached(g, Beginning, events);
            && (id < s.core.received ==> Places(s.core, id) == 1)
            && (id >= s.core.received ==> Places(s.core, id) == 0)
            && s.core.inflight == Members(InHand(s.phase))
            && multiset(s.core.sent)[id] <= 1
            && (multiset(s.core.sent)[id] == 1 <==> id in s.core.fates && s.core.fates[id] == Fate.Answered)
            && Dispatches(s.core.dispatched, id) <= g.config.maxRetries + 1
            && (id in s.core.fates && s.core.fates[id] == Crashed
                <==> s.phase.Stopped? && IsLive(Members(s.phase.lost), id))
            && (s.phase.Stopped? ==> !NoneEscapes(s.phase.lost, g.registered, g.frames))
  {
    BeginningHolds(g);
    LoopRunKeepsInv(g, Beginning, events);
    var s := Reached(g, Beginning, events);
    PlacesAreOne(s.core, id);
  }

  /** How requests end: one is given up only after its last retry, and a response counts as sent exactly when
      it could be sent. */
  lemma LoopEndsRightly(g: Setup, events: seq<LoopEvent>, id: nat)
    requires g.Valid() && Happens(g, Beginning, events) && id in Reached(g, Beginning, events).core.fates
    ensures var s := Reached(g, Beginning, events).core;
            && (s.fates[id] == Fate.Errored ==> Dispatches(s.dispatched, id) == g.config.maxRetries + 1)
            && (s.fates[id] == Fate.Answered ==> g.delivered(id))
            && (s.fates[id] == Fate.SendFailed ==> !g.delivered(id))
  {
    BeginningHolds(g);
    LoopRunKeepsInv(g, Beginning, events);
    RunKeepsAnswers(g, Beginning, events);
  }

  /** Conservation and the bound on the queue: although a retry skips the overflow check, the queue and
      what the loop holds stay within the two limits together. */
  lemma LoopIsBounded(g: Setup, events: seq<LoopEvent>)
    requires g.Valid() && Happens(g, Beginning, events)
    ensures var s := Reached(g, Beginning, events);
            && |s.core.queued| + |InHand(s.phase)| + |s.core.fates| == s.core.received
            && |s.core.queued| + |InHand(s.phase)| <= g.config.maxQueue + g.maxConcurrent
            && |InHand(s.phase)| <= g.maxConcurrent
  {
    BeginningHolds(g);
    LoopRunKeepsInv(g, Beginning, events);
    var s := Reached(g, Beginning, events);
    PlacesAddUp(s.core);
    DistinctMembers(InHand(s.phase));
  }
}
