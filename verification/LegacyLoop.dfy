/** The part of `Server` that receives, expires and runs the legacy loop (server.py:129-193, 363-472), with
    `DeadlineAwareScheduler` in place. Each method is the code between two awaits; the clock reading and the
    decoded message are parameters. */
module LegacyLoop {
  import opened Requests
  import opened ServiceOrder
  import opened Scoring
  import opened Eviction
  import opened DeadlineAware
  import opened LocalDispatch
  import opened Pipeline
  import opened LegacyProtocol

  /** Taking one more element from the front of what is left of a list. */
  lemma TakeNext(all: seq<Request>, k: nat, one: seq<Request>, rest: seq<Request>)
    requires k <= |all| && all[k..] == one + rest && |one| == 1
    ensures k < |all| && all[..k] + one == all[..k + 1] && rest == all[k + 1..]
  {
    assert all[k..][0] == one[0] && all[k..][1..] == rest;
  }

  /** The collecting loop: the requests that would be served next, as many as are wanted. They are distinct
      objects, because the scheduler never holds one twice. */
  method CollectFrom(scheduler: DeadlineAwareScheduler, maxConcurrent: nat) returns (batch: seq<Request>)
    requires scheduler.Valid() && maxConcurrent >= 1
    modifies scheduler
    ensures scheduler.Valid()
    ensures var n := Least(maxConcurrent, |old(scheduler.Served())|);
            batch == old(scheduler.Served())[..n] && scheduler.Served() == old(scheduler.Served())[n..]
    ensures scheduler.contents == old(scheduler.contents) - Members(batch)
    ensures scheduler.counter == old(scheduler.counter)
    ensures DistinctIds(batch) && forall r, x :: r in batch && x in scheduler.contents ==> r.id != x.id
  {
    hide StoresHeap, Order, Distinct, Represents, UniqueIds, Sorted, DistinctIds, Members;
    scheduler.ServedIsOrder();
    ghost var before, all := scheduler.contents, scheduler.Served();
    batch := [];
    while |batch| < maxConcurrent
      invariant scheduler.Valid() && |batch| <= |all| && |batch| <= maxConcurrent
      invariant scheduler.counter == old(scheduler.counter)
      invariant batch == all[..|batch|] && scheduler.Served() == all[|batch|..]
      decreases maxConcurrent - |batch|
    {
      scheduler.ServedIsOrder();
      RepresentsMembers(scheduler.Served(), scheduler.contents);
      var more := scheduler.NextBatch();
      if more == [] {
        break;
      }
      TakeNext(all, |batch|, more, scheduler.Served());
      batch := batch + more;
    }
    scheduler.ServedIsOrder();
    LeftBehind(all, before, |batch|, scheduler.contents);
  }

  // ---------- What the steps of the methods add up to ----------

  lemma ArrivalIsEvent(g: Setup, s: LoopState, request: Request, t: real, result: SubmitResult,
                       evicted: set<Request>, v: LoopState)
    requires g.Valid() && !s.phase.Stopped? && v.phase == s.phase
    requires t >= s.core.now && request.id == s.core.received && request.retries == 0
    requires v.core.now == t && v.core.received == s.core.received + 1 && v.core.inflight == s.core.inflight
    requires v.core.permits == s.core.permits && v.core.dispatched == s.core.dispatched && v.core.sent == s.core.sent
    requires result.QueueFull? <==> !g.config.dropOldest && QueueIsFull(g.config, s.core)
    requires result.QueueFull? ==>
               && evicted == {} && v.core.queued == s.core.queued && v.core.counter == s.core.counter
               && v.core.fates == s.core.fates[s.core.received := Rejected]
    requires result.Queued? ==>
               && v.core.queued == s.core.queued - evicted + {Enqueued(g.config, s.core, request, t)}
               && v.core.counter == s.core.counter + 1 && v.core.fates == Mark(s.core.fates, evicted, Evicted)
    requires !QueueIsFull(g.config, s.core) ==> evicted == {}
    requires g.config.dropOldest && QueueIsFull(g.config, s.core) ==>
               exists x :: IsOldest(x, s.core.queued) && evicted == {x}
    ensures Allowed(g, s, Arrival(t, request, evicted)) && v == Next(g, s, Arrival(t, request, evicted))
  {
    hide Score, IsOldest, Mark;
  }

  lemma ExpiryIsEvent(g: Setup, s: LoopState, t: real, v: LoopState)
    requires !s.phase.Stopped? && t >= s.core.now && v.phase == s.phase
    requires v.core == s.core.(now := t, queued := Select(s.core.queued, NotExpired(t, g.config.ttlMs)),
                               fates := Mark(s.core.fates, Select(s.core.queued, HasExpired(t, g.config.ttlMs)),
                                             TimedOut))
    ensures Allowed(g, s, Expiry(t)) && v == Next(g, s, Expiry(t))
  {
    hide Mark, Expired;
    assert v.core.queued == s.core.queued - Select(s.core.queued, HasExpired(t, g.config.ttlMs));
  }

  /** A turn is the step of the phase that the loop is in. */
  lemma TurnIsEvent(g: Setup, s: LoopState, t: real, v: LoopState)
    requires !s.phase.Stopped? && t >= s.core.now && Distinct(s.core.queued)
    requires v == AfterTurn(g, s.(core := s.core.(now := t)))
    ensures Allowed(g, s, Turn(t)) && v == Next(g, s, Turn(t))
  {
  }

  /** Collecting is the turn of the idle phase. */
  lemma CollectingIsTurn(g: Setup, s: LoopState, batch: seq<Request>, v: LoopState)
    requires s.phase.Idle? && Distinct(s.core.queued)
    requires batch == Order(s.core.queued)[..Least(g.maxConcurrent, |Order(s.core.queued)|)]
    requires batch == [] ==> v.phase == Idle && v.core.inflight == s.core.inflight
                             && v.core.dispatched == s.core.dispatched
    requires batch != [] ==>
               && v.phase == Dispatching(batch) && v.core.inflight == s.core.inflight + Members(batch)
               && v.core.dispatched == s.core.dispatched + Identities(batch)
    requires v.core.queued == s.core.queued - Members(batch)
    requires v.core == s.core.(queued := v.core.queued, inflight := v.core.inflight, dispatched := v.core.dispatched)
    ensures v == AfterTurn(g, s)
  {
    hide Order, Least, Distinct;
    if batch == [] {
      assert Members(batch) == {};
    }
  }

  // ---------- Commands and events ----------

  /** What the environment makes the server do next: a message comes in, the timer fires, or what the loop
      waits for is there. */
  datatype Command = Incoming(now: real, message: Request) | Timer(now: real) | Resume(now: real)

  /** Nothing happens once the loop has ended, and the clock never goes back. */
  ghost predicate Can(s: LoopState, command: Command) {
    !s.phase.Stopped? && command.now >= s.core.now
  }

  /** The event that the command causes; which request an arrival evicts is not up to the command. */
  ghost predicate Causes(s: LoopState, command: Command, e: LoopEvent) {
    match command
    case Incoming(t, message) =>
      && e.Arrival? && e.now == t
      && e.request == message.(id := s.core.received, score := 0.0, retries := 0, counter := 0)
    case Timer(t) => e == Expiry(t)
    case Resume(t) => e == Turn(t)
  }

  class LegacyServer {
    const setup: Setup
    const scheduler: DeadlineAwareScheduler

    /** Object identities handed out so far. */
    var received: nat

    /** The latest clock reading; the clock never goes back. */
    var now: real

    /** Where the loop stands, with the batch or the results that it holds. */
    var phase: Phase

    ghost var inHand: set<Request>
    ghost var fates: map<nat, Fate>
    ghost var dispatched: seq<nat>
    ghost var sent: seq<nat>

    ghost predicate Valid()
      reads this, scheduler
    {
      && setup.Valid() && scheduler.Valid()
      && scheduler.weights == setup.config.weights && scheduler.maxQueue == setup.config.maxQueue
      && scheduler.ttlMs == setup.config.ttlMs && scheduler.dropOldest == setup.config.dropOldest
    }

    ghost function View(): (s: LoopState)
      reads this, scheduler
    {
      LoopState(State(now, received, scheduler.counter, scheduler.contents, inHand, map[], fates, dispatched, sent),
                phase)
    }

    constructor (setup: Setup, sameFrames: (Request, Request) -> bool)
      requires setup.Valid()
      ensures Valid() && fresh(scheduler) && this.setup == setup && View() == Beginning
    {
      this.setup := setup;
      var c := setup.config;
      scheduler := new DeadlineAwareScheduler(c.weights, c.maxQueue, c.ttlMs, c.dropOldest, sameFrames);
      received, now, phase := 0, 0.0, Idle;
      inHand, fates, dispatched, sent := {}, map[], [], [];
    }

    /** `_receive_loop` after a message was decoded. */
    method Receive(message: Request, t: real) returns (ghost e: LoopEvent)
      requires Valid() && LoopInv(setup, View()) && !phase.Stopped? && t >= now
      modifies this, scheduler
      ensures Valid() && Causes(old(View()), Incoming(t, message), e)
      ensures Allowed(setup, old(View()), e) && View() == Next(setup, old(View()), e)
    {
      hide Score, StoresHeap, IsOldest, Mark, Allowed, Next, LoopInv, Filter, Order;
      ghost var was := View();
      NewIdentity(setup, was);
      var request := message.(id := received, score := 0.0, retries := 0, counter := 0);
      scheduler.LengthIsSize();
      received := received + 1;
      now := t;
      ghost var evicted;
      var result;
      result, evicted := scheduler.Submit(request, t);
      if result.QueueFull? {
        fates := fates[request.id := Rejected];
      } else {
        fates := Mark(fates, evicted, Evicted);
      }
      e := Arrival(t, request, evicted);
      ArrivalIsEvent(setup, was, request, t, result, evicted, View());
    }

    /** `_tick_loop`. */
    method Tick(t: real) returns (ghost e: LoopEvent)
      requires Valid() && !phase.Stopped? && t >= now
      modifies this, scheduler
      ensures Valid() && e == Expiry(t)
      ensures Allowed(setup, old(View()), e) && View() == Next(setup, old(View()), e)
    {
      hide StoresHeap, Expired, Allowed, Next, Mark;
      ghost var was := View();
      e := Expiry(t);
      now := t;
      var _ := scheduler.Tick(t);
      fates := Mark(fates, Select(was.core.queued, HasExpired(t, setup.config.ttlMs)), TimedOut);
      ExpiryIsEvent(setup, was, t, View());
    }

    /** `_dispatch_loop` up to its next await: it collects, or goes on with what the dispatcher has returned, or
        with the next result. */
    method RunLoop(t: real) returns (ghost e: LoopEvent)
      requires Valid() && LoopInv(setup, View()) && !phase.Stopped? && t >= now
      modifies this, scheduler
      ensures Valid() && e == Turn(t)
      ensures Allowed(setup, old(View()), e) && View() == Next(setup, old(View()), e)
    {
      hide StoresHeap, Allowed, Next, AfterTurn, LoopInv;
      ghost var was := View();
      scheduler.FreshAndDistinct();
      e := Turn(t);
      now := t;
      ClockKeepsInv(setup, was, View());
      match phase {
        case Idle => CollectBatch();
        case Dispatching(batch) => FinishDispatch(batch);
        case Settling(endings) => SettleNext(endings);
      }
      TurnIsEvent(setup, was, t, View());
    }

    /** From the top of the loop to `await dispatch`. */
    method CollectBatch()
      requires Valid() && phase.Idle?
      modifies this, scheduler
      ensures Valid() && Distinct(old(scheduler.contents)) && View() == AfterTurn(setup, old(View()))
    {
      hide StoresHeap, Order, Distinct, DistinctIds, AfterTurn, Least, Members, Identities;
      ghost var was := View();
      scheduler.FreshAndDistinct();
      var batch := CollectFrom(scheduler, setup.maxConcurrent);
      if batch != [] {
        inHand, dispatched := inHand + Members(batch), dispatched + Identities(batch);
        phase := Dispatching(batch);
      }
      CollectingIsTurn(setup, was, batch, View());
    }

    /** What comes of a batch when the dispatcher is done. An exception leaves the loop, and nothing is
        settled. */
    method FinishDispatch(batch: seq<Request>)
      requires Valid() && phase == Dispatching(batch) && LoopInv(setup, View())
      modifies this
      ensures Valid() && Distinct(scheduler.contents) && View() == AfterTurn(setup, old(View()))
    {
      hide StoresHeap, Distinct, NoneEscapes, Grouped, Succeeds, Mark;
      scheduler.FreshAndDistinct();
      var endings :=
        LegacyRound(batch, setup.registered, setup.frames, setup.call, setup.config.maxRetries, setup.delivered);
      if endings.Some? {
        phase := Settling(endings.value);
      } else {
        fates, inHand := Mark(fates, Members(batch), Crashed), inHand - Members(batch);
        phase := Stopped(batch);
      }
    }

    /** One result: what came of sending its response is counted, or the failed request is retried. */
    method SettleNext(endings: seq<Ending>)
      requires Valid() && phase == Settling(endings) && LoopInv(setup, View())
      modifies this, scheduler
      ensures Valid() && Distinct(old(scheduler.contents)) && View() == AfterTurn(setup, old(View()))
    {
      hide StoresHeap, LoopInv, Distinct, AfterTurn, Rest, Enqueued, FateOf;
      ghost var was := View();
      SettlingFacts(setup, was, endings);
      var r := endings[0].request;
      if endings[0].Retried? {
        Retry(r);
      } else {
        Conclude(endings[0]);
      }
      inHand := inHand - {r};
      phase := Rest(endings);
      EndingIsTurn(setup, was, endings, View());
    }

    method Conclude(e: Ending)
      requires !e.Retried?
      modifies `fates, `sent
      ensures fates == old(fates)[e.request.id := FateOf(e).value]
      ensures sent == if e.Answered? then old(sent) + [e.request.id] else old(sent)
    {
      fates := fates[e.request.id := FateOf(e).value];
      if e.Answered? {
        sent := sent + [e.request.id];
      }
    }

    method Retry(r: Request)
      requires Valid() && forall x :: x in scheduler.contents ==> x.id != r.id
      modifies scheduler
      ensures Valid() && scheduler.counter == old(scheduler.counter) + 1
      ensures scheduler.contents
              == old(scheduler.contents)
                 + {Enqueued(setup.config, old(View()).core, r.(retries := r.retries + 1), now)}
    {
      hide StoresHeap, Score;
      var _ := scheduler.Resubmit(r.(retries := r.retries + 1), now);
    }

    /** Perform a command, unless it cannot happen now. */
    method Perform(command: Command) returns (ghost events: seq<LoopEvent>)
      requires Valid() && LoopInv(setup, View())
      modifies this, scheduler
      ensures Valid() && LoopInv(setup, View())
      ensures Responds(setup, old(View()), command, events)
      ensures View() == if events == [] then old(View()) else Next(setup, old(View()), events[0])
    {
      hide Allowed, Next, LoopInv, Causes;
      events := [];
      if phase.Stopped? || command.now < now {
        return;
      }
      ghost var was := View();
      ghost var e;
      match command {
        case Incoming(t, message) => e := Receive(message, t);
        case Timer(t) => e := Tick(t);
        case Resume(t) => e := RunLoop(t);
      }
      CommandsCause(was, command, e);
      LoopStepKeepsInv(setup, was, e);
      events := [e];
    }

    /** Any schedule of commands drives the server through the run that follows it. */
    method Serve(schedule: seq<Command>) returns (ghost events: seq<LoopEvent>)
      requires Valid() && LoopInv(setup, View())
      modifies this, scheduler
      ensures Valid() && LoopInv(setup, View())
      ensures Follows(setup, old(View()), schedule, events) && Happens(setup, old(View()), events)
      ensures View() == Reached(setup, old(View()), events)
    {
      hide Allowed, Next, LoopInv, Responds;
      ghost var start := View();
      events := [];
      for i := 0 to |schedule|
        invariant Valid() && LoopInv(setup, View())
        invariant Follows(setup, start, schedule[..i], events) && Happens(setup, start, events)
        invariant View() == Reached(setup, start, events)
      {
        ghost var more := Perform(schedule[i]);
        FollowsOneMore(setup, start, schedule[..i], events, schedule[i], more);
        assert schedule[..i + 1] == schedule[..i] + [schedule[i]];
        events := events + more;
      }
      assert schedule[..|schedule|] == schedule;
    }
  }

  /** The event caused by a command that can happen, and nothing otherwise. */
  ghost predicate Responds(g: Setup, s: LoopState, command: Command, events: seq<LoopEvent>) {
    if Can(s, command) then |events| == 1 && Allowed(g, s, events[0]) && Causes(s, command, events[0])
    else events == []
  }

  lemma CommandsCause(s: LoopState, command: Command, e: LoopEvent)
    ensures command.Timer? && e == Expiry(command.now) ==> Causes(s, command, e)
    ensures command.Resume? && e == Turn(command.now) ==> Causes(s, command, e)
  {
  }

  /** The run is the schedule, command by command. */
  ghost predicate Follows(g: Setup, s: LoopState, schedule: seq<Command>, events: seq<LoopEvent>)
    decreases |schedule|
  {
    if schedule == [] then events == []
    else if Can(s, schedule[0]) then
      && events != [] && Responds(g, s, schedule[0], [events[0]])
      && Allowed(g, s, events[0])
      && Follows(g, Next(g, s, events[0]), schedule[1..], events[1..])
    else Follows(g, s, schedule[1..], events)
  }

  lemma {:induction false} FollowsOneMore(g: Setup, s: LoopState, schedule: seq<Command>, events: seq<LoopEvent>,
                                          command: Command, more: seq<LoopEvent>)
    requires Follows(g, s, schedule, events) && Happens(g, s, events)
    requires Responds(g, Reached(g, s, events), command, more)
    ensures Follows(g, s, schedule + [command], events + more) && Happens(g, s, events + more)
    ensures Reached(g, s, events + more)
            == if more == [] then Reached(g, s, events) else Next(g, Reached(g, s, events), more[0])
    decreases |schedule|
  {
    hide Allowed, Next, Causes, Can;
    if schedule == [] {
      assert events + more == more && [command][1..] == [] && schedule + [command] == [command];
      if more != [] {
        assert more[1..] == [] && more == [more[0]];
      }
    } else {
      assert (schedule + [command])[1..] == schedule[1..] + [command];
      if Can(s, schedule[0]) {
        assert (events + more)[1..] == events[1..] + more;
        FollowsOneMore(g, Next(g, s, events[0]), schedule[1..], events[1..], command, more);
      } else {
        FollowsOneMore(g, s, schedule[1..], events, command, more);
      }
    }
  }

  lemma SettlingFacts(g: Setup, s: LoopState, endings: seq<Ending>)
    requires LoopInv(g, s) && s.phase == Settling(endings)
    ensures endings != [] && Distinct(s.core.queued)
    ensures forall x :: x in s.core.queued ==> x.id != endings[0].request.id
  {
    FirstInHand(g, s);
    OthersInQueue(g, s, endings[0].request);
  }

  lemma EndingIsTurn(g: Setup, s: LoopState, endings: seq<Ending>, v: LoopState)
    requires s.phase == Settling(endings) && endings != [] && Distinct(s.core.queued) && v.phase == Rest(endings)
    requires v.core.now == s.core.now && v.core.received == s.core.received && v.core.permits == s.core.permits
    requires v.core.dispatched == s.core.dispatched
    requires var e := endings[0]; var r := e.request;
             && v.core.inflight == s.core.inflight - {r}
             && v.core.sent == (if e.Answered? then s.core.sent + [r.id] else s.core.sent)
             && (e.Retried? ==>
                   && v.core.queued
                      == s.core.queued + {Enqueued(g.config, s.core, r.(retries := r.retries + 1), s.core.now)}
                   && v.core.counter == s.core.counter + 1 && v.core.fates == s.core.fates)
             && (!e.Retried? ==>
                   && v.core.queued == s.core.queued && v.core.counter == s.core.counter
                   && v.core.fates == s.core.fates[r.id := FateOf(e).value])
    ensures v == AfterTurn(g, s)
  {
    hide Score;
  }

  lemma NewIdentity(g: Setup, s: LoopState)
    requires LoopInv(g, s)
    ensures forall r :: r in s.core.queued ==> r.id != s.core.received
  {
    assert forall r :: r in s.core.queued ==> r in s.core.Live();
  }

  lemma OthersInQueue(g: Setup, s: LoopState, r: Request)
    requires LoopInv(g, s) && r in s.core.inflight
    ensures forall x :: x in s.core.queued ==> x.id != r.id
  {
    forall x | x in s.core.queued ensures x.id != r.id {
      assert x in s.core.Live() && r in s.core.Live() && (SameId(x, r) ==> x == r);
    }
  }
}
