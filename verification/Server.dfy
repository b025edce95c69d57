/** The part of `Server` that runs the per-model dispatch protocol (server.py:129-335, 466-482), with
    pipeline dispatch enabled and the `model_deadline` scheduler in place. Each method is the code
    between two awaits; the clock reading, the decoded message and the outcome of a dispatch are
    parameters. */
module ServerProtocol {
  import opened Requests
  import opened ServiceOrder
  import opened Scoring
  import opened Eviction
  import opened ModelHeaps
  import opened ModelDeadline
  import opened Pipeline
  import opened PipelineRuns

  /** What the environment makes the server do next. */
  datatype Command =
    | Incoming(now: real, message: Request)
    | Acquire(now: real, model: ModelId)
    | Complete(now: real, request: Request, outcome: Outcome)
    | Timer(now: real)
    | Silent(now: real, client: ClientId)

  /** What the steps of `Receive` add up to. */
  lemma ReceiveIsEvent(c: Config, s: State, request: Request, t: real, result: SubmitResult,
                       evicted: set<Request>, v: State)
    requires t >= s.now && request.id == s.received && request.retries == 0
    requires v.now == t && v.received == s.received + 1 && v.inflight == s.inflight
    requires v.dispatched == s.dispatched && v.sent == s.sent
    requires result.QueueFull? <==> !c.dropOldest && QueueIsFull(c, s)
    requires result.QueueFull? ==>
               && evicted == {} && v.queued == s.queued && v.counter == s.counter
               && v.fates == s.fates[s.received := Rejected] && v.permits == s.permits
    requires result.Queued? ==>
               && v.queued == s.queued - evicted + {Enqueued(c, s, request, t)} && v.counter == s.counter + 1
               && v.fates == Mark(s.fates, evicted, Evicted) && v.permits == Started(c, s.permits, request.model)
    requires !QueueIsFull(c, s) || s.queued == {} ==> evicted == {}
    requires c.dropOldest && QueueIsFull(c, s) && s.queued != {} ==>
               exists x :: IsOldest(x, s.queued) && evicted == {x}
    ensures Enabled(c, s, Receive(t, request, evicted)) && v == After(c, s, Receive(t, request, evicted))
  {
    hide Score, IsOldest, Mark;
  }

  /** What the steps of `DispatchFinish` add up to. */
  lemma FinishIsEvent(c: Config, s: State, r: Request, t: real, outcome: Outcome, v: State)
    requires t >= s.now && r in s.inflight && r.model in s.permits
    requires v.now == t && v.received == s.received && v.dispatched == s.dispatched
    requires v.inflight == s.inflight - {r} && v.permits == Released(s.permits, r.model)
    requires v.sent == if outcome == Delivered then s.sent + [r.id] else s.sent
    requires EndOf(c, r, outcome).Some? ==>
               v.queued == s.queued && v.counter == s.counter && v.fates == s.fates[r.id := EndOf(c, r, outcome).value]
    requires EndOf(c, r, outcome).None? ==>
               && v.queued == s.queued + {Enqueued(c, s, r.(retries := r.retries + 1), t)}
               && v.counter == s.counter + 1 && v.fates == s.fates
    ensures Enabled(c, s, Finish(t, r, outcome)) && v == After(c, s, Finish(t, r, outcome))
  {
    hide Score;
  }

  /** What the steps of `DispatchStart` add up to. */
  lemma StartIsEvent(c: Config, s: State, model: ModelId, t: real, batch: seq<Request>, v: State)
    requires t >= s.now && model in s.permits && s.permits[model] > 0 && Distinct(OfModel(s.queued, model))
    requires batch == [] <==> OfModel(s.queued, model) == {}
    requires batch == [] ==> v == s.(now := t)
    requires batch != [] ==>
               && IsFirst(batch[0], OfModel(s.queued, model))
               && v == s.(now := t, queued := s.queued - {batch[0]}, inflight := s.inflight + {batch[0]},
                          permits := s.permits[model := s.permits[model] - 1],
                          dispatched := s.dispatched + [batch[0].id])
    ensures Enabled(c, s, Start(t, model)) && v == After(c, s, Start(t, model))
  {
    var mine := OfModel(s.queued, model);
    HeadIsFirst(mine);
    if batch != [] {
      FirstIsUnique(mine, batch[0]);
    }
  }

  lemma TickIsEvent(c: Config, s: State, t: real, v: State)
    requires t >= s.now
    requires v == s.(now := t, queued := Select(s.queued, NotExpired(t, c.ttlMs)),
                     fates := Mark(s.fates, Select(s.queued, HasExpired(t, c.ttlMs)), TimedOut))
    ensures Enabled(c, s, Event.Tick(t)) && v == After(c, s, Event.Tick(t))
  {
    hide Mark, Expired;
    assert v.queued == s.queued - Select(s.queued, HasExpired(t, c.ttlMs));
  }

  lemma PurgeIsEvent(c: Config, s: State, t: real, client: ClientId, v: State)
    requires t >= s.now
    requires v == s.(now := t, queued := Select(s.queued, NotFrom(client)),
                     fates := Mark(s.fates, Select(s.queued, From(client)), Purged))
    ensures Enabled(c, s, Purge(t, client)) && v == After(c, s, Purge(t, client))
  {
    hide Mark;
    assert v.queued == s.queued - Select(s.queued, From(client));
  }

  // ---------- Commands and events ----------

  /** The command can happen in this state: the clock has not gone back, a permit is free, the task runs. */
  ghost predicate Can(s: State, command: Command) {
    && command.now >= s.now
    && match command
       case Acquire(_, model) => model in s.permits && s.permits[model] > 0
       case Complete(_, request, _) => request in s.inflight && request.model in s.permits
       case _ => true
  }

  /** The event that the command causes; which request an arrival evicts is not up to the command. */
  ghost predicate Causes(s: State, command: Command, e: Event) {
    match command
    case Incoming(t, message) =>
      e.Receive? && e.now == t && e.request == message.(id := s.received, score := 0.0, retries := 0, counter := 0)
    case Acquire(t, model) => e == Start(t, model)
    case Complete(t, request, outcome) => e == Finish(t, request, outcome)
    case Timer(t) => e == Tick(t)
    case Silent(t, client) => e == Purge(t, client)
  }

  /** The run is the schedule, command by command: each command that can happen when its turn comes
      causes the next event, and the others cause none. */
  ghost predicate Follows(c: Config, s: State, schedule: seq<Command>, events: seq<Event>)
    decreases |schedule|, 0
  {
    if schedule == [] then events == []
    else
      var n, k := |schedule| - 1, |events| - 1;
      || (Reaches(c, s, schedule[..n], events) && !Can(Run(c, s, events), schedule[n]))
      || (events != [] && Reaches(c, s, schedule[..n], events[..k])
          && Can(Run(c, s, events[..k]), schedule[n]) && Causes(Run(c, s, events[..k]), schedule[n], events[k]))
  }

  ghost predicate Reaches(c: Config, s: State, schedule: seq<Command>, events: seq<Event>)
    decreases |schedule|, 1
  {
    Follows(c, s, schedule, events) && Possible(c, s, events)
  }

  lemma FollowsSkip(c: Config, s: State, schedule: seq<Command>, events: seq<Event>, n: nat)
    requires n < |schedule| && Reaches(c, s, schedule[..n], events)
    requires !Can(Run(c, s, events), schedule[n])
    ensures Follows(c, s, schedule[..n + 1], events)
  {
    assert schedule[..n + 1][..n] == schedule[..n];
  }

  lemma FollowsStep(c: Config, s: State, schedule: seq<Command>, events: seq<Event>, n: nat, e: Event)
    requires n < |schedule| && Reaches(c, s, schedule[..n], events)
    requires Can(Run(c, s, events), schedule[n]) && Causes(Run(c, s, events), schedule[n], e)
    ensures Follows(c, s, schedule[..n + 1], events + [e])
  {
    assert schedule[..n + 1][..n] == schedule[..n];
    assert (events + [e])[..|events|] == events;
  }

  class Server {
    const config: Config
    const scheduler: ModelDeadlineScheduler

    /** `_model_sems`: the free permits of each model whose dispatch loop was started. */
    var sems: map<ModelId, nat>

    /** The requests held by running `_dispatch_single` tasks. */
    var tasks: set<Request>

    /** Object identities handed out so far. */
    var received: nat

    /** The latest clock reading; the clock never goes back. */
    var now: real

    ghost var fates: map<nat, Fate>
    ghost var dispatched: seq<nat>
    ghost var sent: seq<nat>

    ghost predicate Valid()
      reads this, scheduler
    {
      && scheduler.Valid()
      && scheduler.weights == config.weights && scheduler.maxQueue == config.maxQueue
      && scheduler.ttlMs == config.ttlMs && scheduler.dropOldest == config.dropOldest
    }

    ghost function View(): (s: State)
      reads this, scheduler
    {
      State(now, received, scheduler.counter, scheduler.contents, tasks, sems, fates, dispatched, sent)
    }

    constructor (config: Config)
      ensures Valid() && fresh(scheduler) && this.config == config && View() == Init
    {
      this.config := config;
      scheduler := new ModelDeadlineScheduler(config.weights, config.maxQueue, config.ttlMs, config.dropOldest);
      sems, tasks, received := map[], {}, 0;
      now, fates, dispatched, sent := 0.0, map[], [], [];
    }

    /** `_receive_loop` after a message was decoded: submit it, and start the dispatch loop of its model
        unless the queue rejected it. */
    method Receive(message: Request, t: real) returns (ghost e: Event)
      requires Valid() && t >= now
      modifies this, scheduler
      ensures Valid()
      ensures e.Receive? && e.now == t
              && e.request == message.(id := old(received), score := 0.0, retries := 0, counter := 0)
      ensures Enabled(config, old(View()), e) && View() == After(config, old(View()), e)
    {
      hide Score, Stores, IsOldest, Mark, Enabled, After;
      ghost var was := View();
      var request := message.(id := received, score := 0.0, retries := 0, counter := 0);
      received := received + 1;
      now := t;
      ghost var evicted;
      var result;
      result, evicted := scheduler.Submit(request, t);
      if result.QueueFull? {
        fates := fates[request.id := Rejected];
      } else {
        fates := Mark(fates, evicted, Evicted);
        EnsureModelDispatch(request.model);
      }
      e := Event.Receive(t, request, evicted);
      ReceiveIsEvent(config, was, request, t, result, evicted, View());
    }

    /** `_ensure_model_dispatch`. */
    method EnsureModelDispatch(model: ModelId)
      modifies `sems
      ensures sems == Started(config, old(sems), model)
    {
      if model in sems {
        return;
      }
      sems := sems[model := config.Limit(model)];
    }

    /** One turn of `_model_dispatch_loop` once `sem.acquire()` has returned. */
    method DispatchStart(model: ModelId, t: real) returns (ghost e: Event)
      requires Valid() && t >= now
      requires model in sems && sems[model] > 0
      modifies this, scheduler
      ensures Valid() && e == Start(t, model)
      ensures Enabled(config, old(View()), e) && View() == After(config, old(View()), e)
    {
      hide Stores, Distinct, IsFirst, Order, Enabled, After;
      ghost var was := View();
      e := Start(t, model);
      now := t;
      scheduler.DistinctContents(model);
      sems := sems[model := sems[model] - 1];
      var batch := scheduler.NextBatchForModel(model);
      if batch == [] {
        sems := sems[model := sems[model] + 1];
      } else {
        tasks := tasks + {batch[0]};
        dispatched := dispatched + [batch[0].id];
      }
      StartIsEvent(config, was, model, t, batch, View());
    }

    /** The rest of `_dispatch_single` once the dispatcher has returned or raised. */
    method DispatchFinish(request: Request, outcome: Outcome, t: real) returns (ghost e: Event)
      requires Valid() && t >= now
      requires request in tasks && request.model in sems
      modifies this, scheduler
      ensures Valid() && e == Finish(t, request, outcome)
      ensures Enabled(config, old(View()), e) && View() == After(config, old(View()), e)
    {
      hide Score, Stores, Enabled, After;
      ghost var was := View();
      e := Finish(t, request, outcome);
      now := t;
      match outcome {
        case Delivered =>
          sent := sent + [request.id];
          fates := fates[request.id := Answered];
        case SendError =>
          fates := fates[request.id := SendFailed];
        case Failed =>
          if config.maxRetries > 0 && request.retries < config.maxRetries {
            var _ := scheduler.Resubmit(request.(retries := request.retries + 1), t);
          } else {
            fates := fates[request.id := Errored];
          }
        case Raised =>
          fates := fates[request.id := Crashed];
      }
      tasks := tasks - {request};
      sems := sems[request.model := sems[request.model] + 1];
      FinishIsEvent(config, was, request, t, outcome, View());
    }

    /** The first half of `_tick_loop`. */
    method Tick(t: real) returns (ghost e: Event)
      requires Valid() && t >= now
      modifies this, scheduler
      ensures Valid() && e == Event.Tick(t)
      ensures Enabled(config, old(View()), e) && View() == After(config, old(View()), e)
    {
      hide Stores, Expired, Enabled, After;
      ghost var was := View();
      e := Event.Tick(t);
      now := t;
      var _ := scheduler.Tick(t);
      ghost var gone := Select(was.queued, HasExpired(t, config.ttlMs));
      fates := Mark(fates, gone, TimedOut);
      TickIsEvent(config, was, t, View());
    }

    /** The second half of `_tick_loop`, for one client that has been silent for too long. */
    method Disconnect(client: ClientId, t: real) returns (ghost e: Event)
      requires Valid() && t >= now
      modifies this, scheduler
      ensures Valid() && e == Purge(t, client)
      ensures Enabled(config, old(View()), e) && View() == After(config, old(View()), e)
    {
      hide Stores, Enabled, After;
      ghost var was := View();
      e := Purge(t, client);
      now := t;
      scheduler.OnClientDisconnected(client);
      ghost var gone := Select(was.queued, From(client));
      fates := Mark(fates, gone, Purged);
      PurgeIsEvent(config, was, t, client, View());
    }

    /** Perform a command, unless it cannot happen now. */
    method Perform(command: Command) returns (ghost e: Option<Event>)
      requires Valid()
      modifies this, scheduler
      ensures Valid()
      ensures e.Some? <==> Can(old(View()), command)
      ensures e.None? ==> View() == old(View())
      ensures e.Some? ==>
                && Causes(old(View()), command, e.value)
                && Enabled(config, old(View()), e.value) && View() == After(config, old(View()), e.value)
    {
      hide Enabled, After;
      e := None;
      if command.now < now {
        return;
      }
      ghost var event;
      match command {
        case Incoming(t, message) =>
          event := Receive(message, t);
          e := Some(event);
        case Acquire(t, model) =>
          if model in sems && sems[model] > 0 {
            event := DispatchStart(model, t);
            e := Some(event);
          }
        case Complete(t, request, outcome) =>
          if request in tasks && request.model in sems {
            event := DispatchFinish(request, outcome, t);
            e := Some(event);
          }
        case Timer(t) =>
          event := Tick(t);
          e := Some(event);
        case Silent(t, client) =>
          event := Disconnect(client, t);
          e := Some(event);
      }
    }

    /** Any schedule of commands drives the server through the run of the protocol that follows it, so
        everything proved about runs holds of the server; its invariant holds at the end. */
    method Serve(schedule: seq<Command>) returns (ghost events: seq<Event>)
      requires Valid() && config.Valid() && Inv(config, View())
      modifies this, scheduler
      ensures Valid()
      ensures Possible(config, old(View()), events) && View() == Run(config, old(View()), events)
      ensures Follows(config, old(View()), schedule, events)
      ensures Inv(config, View())
    {
      hide Enabled, After, Inv, Can, Causes, Follows;
      ghost var start := View();
      events := [];
      FollowsNothing(config, start);
      assert schedule[..0] == [];
      for i := 0 to |schedule|
        invariant Valid()
        invariant Possible(config, start, events) && View() == Run(config, start, events)
        invariant Follows(config, start, schedule[..i], events)
      {
        ghost var s := View();
        ghost var e := Perform(schedule[i]);
        if e.Some? {
          RunSnoc(config, start, events, e.value);
          FollowsStep(config, start, schedule, events, i, e.value);
          events := events + [e.value];
        } else {
          FollowsSkip(config, start, schedule, events, i);
        }
      }
      assert schedule[..|schedule|] == schedule;
      RunKeepsInv(config, start, events);
    }
  }

  lemma FollowsNothing(c: Config, s: State)
    ensures Follows(c, s, [], [])
  {
  }
}
