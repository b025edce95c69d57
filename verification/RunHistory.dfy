/** Why each request is where it is: what the events of a run, as the environment sees them, say about the end of
    a request and about its retries. */
module RunHistory {
  import opened Requests
  import opened ServiceOrder
  import opened Scoring
  import opened Eviction
  import opened ModelHeaps
  import opened Pipeline
  import opened PipelineRuns

  // ---------- One finished dispatch ----------

  /** A finished dispatch sends its request back to the queue if and only if the dispatcher reported a failure
      and a retry is left; otherwise the request ends, in the way that the outcome says. */
  lemma FinishRetriesIff(c: Config, s: State, t: real, r: Request, o: Outcome)
    requires Inv(c, s) && Enabled(c, s, Finish(t, r, o))
    ensures var u := After(c, s, Finish(t, r, o));
            var again := o == Failed && r.retries < c.maxRetries;
            && (IsLive(u.queued, r.id) <==> again)
            && (r.id in u.fates <==> !again)
            && (!again ==>
                  && u.queued == s.queued
                  && (u.fates[r.id] == Answered <==> o == Delivered)
                  && (u.fates[r.id] == SendFailed <==> o == SendError)
                  && (u.fates[r.id] == Crashed <==> o == Raised)
                  && (u.fates[r.id] == Errored <==> o == Failed))
            && u.inflight == s.inflight - {r}
            && (forall id :: id != r.id ==> (id in u.fates <==> id in s.fates))
  {
    NotElsewhere(s, r);
    hide Inv, After, Enabled, IsLive;
    if o == Failed && r.retries < c.maxRetries {
      RetryIsQueued(c, s, t, r);
    } else {
      EndIsFinal(c, s, t, r, o);
    }
  }

  lemma RetryIsQueued(c: Config, s: State, t: real, r: Request)
    requires Enabled(c, s, Finish(t, r, Failed)) && r.retries < c.maxRetries
    ensures var u := After(c, s, Finish(t, r, Failed));
            IsLive(u.queued, r.id) && u.fates == s.fates && u.inflight == s.inflight - {r}
  {
    hide Score;
    var again := Enqueued(c, s, r.(retries := r.retries + 1), t);
    assert again.id == r.id && again in After(c, s, Finish(t, r, Failed)).queued;
  }

  lemma EndIsFinal(c: Config, s: State, t: real, r: Request, o: Outcome)
    requires Enabled(c, s, Finish(t, r, o)) && !(o == Failed && r.retries < c.maxRetries)
    ensures var u := After(c, s, Finish(t, r, o));
            && u.queued == s.queued && u.inflight == s.inflight - {r}
            && r.id in u.fates && u.fates == s.fates[r.id := u.fates[r.id]]
            && (u.fates[r.id] == Answered <==> o == Delivered) && (u.fates[r.id] == SendFailed <==> o == SendError)
            && (u.fates[r.id] == Crashed <==> o == Raised) && (u.fates[r.id] == Errored <==> o == Failed)
  {
  }

  /** A running request is nowhere else. */
  lemma NotElsewhere(s: State, r: Request)
    requires OnePlace(s) && r in s.inflight
    ensures r.id !in s.fates && !IsLive(s.queued, r.id)
  {
    assert r in s.Live();
    forall x | x in s.queued ensures x.id != r.id {
      assert x in s.Live() && (SameId(x, r) ==> x == r);
    }
  }

  // ---------- Retries are failures ----------

  /** The failures that the dispatchers reported, by request. */
  ghost function Failures(events: seq<Event>): (log: seq<nat>) {
    if events == [] then []
    else
      var front, last := Failures(events[..|events| - 1]), events[|events| - 1];
      if last.Finish? && last.outcome == Failed then front + [last.request.id] else front
  }

  /** A live request has failed once for each of its retries, and one that was given up once more than it may be
      retried. */
  ghost predicate FailuresCounted(c: Config, s: State, log: seq<nat>) {
    && (forall r :: r in s.Live() ==> multiset(log)[r.id] == r.retries)
    && (forall id :: id in s.fates && s.fates[id] == Errored ==> multiset(log)[id] == c.maxRetries + 1)
    && (forall id :: id in s.fates && s.fates[id] != Errored ==> multiset(log)[id] <= c.maxRetries)
    && (forall id :: id >= s.received ==> multiset(log)[id] == 0)
  }

  lemma FinishCountsFailure(c: Config, s: State, e: Event, log: seq<nat>)
    requires Inv(c, s) && Enabled(c, s, e) && e.Finish? && FailuresCounted(c, s, log)
    ensures FailuresCounted(c, After(c, s, e), if e.outcome == Failed then log + [e.request.id] else log)
  {
    hide FailuresCounted, OnePlace, CountersGrow, PermitsConserved, Bounded, RetriesCounted, SentOnce, Score;
    var r, u := e.request, After(c, s, e);
    OthersDiffer(c, s, r);
    if e.outcome == Failed && r.retries < c.maxRetries {
      var again := Enqueued(c, s, r.(retries := r.retries + 1), e.now);
      RetryCounts(c, s, r, again, u, log);
    } else {
      EndCounts(c, s, r, u, log, e.outcome == Failed);
    }
  }

  lemma OthersDiffer(c: Config, s: State, r: Request)
    requires Inv(c, s) && r in s.inflight
    ensures r in s.Live() && r !in s.queued && r.id < s.received && r.id !in s.fates && r.retries <= c.maxRetries
    ensures forall x :: x in s.Live() && x != r ==> x.id != r.id
  {
    assert r in s.Live();
    forall x | x in s.Live() && x != r ensures x.id != r.id {
      assert !SameId(x, r);
    }
  }

  lemma RetryCounts(c: Config, s: State, r: Request, again: Request, u: State, log: seq<nat>)
    requires FailuresCounted(c, s, log) && r in s.Live() && r.id !in s.fates && r.id < s.received
    requires forall x :: x in s.Live() && x != r ==> x.id != r.id
    requires again.id == r.id && again.retries == r.retries + 1
    requires u.queued == s.queued + {again} && u.inflight == s.inflight - {r} && r !in s.queued
    requires u.received == s.received && u.fates == s.fates
    ensures FailuresCounted(c, u, log + [r.id])
  {
    assert u.Live() <= s.Live() - {r} + {again};
    CountOneMore(log, r.id);
  }

  lemma EndCounts(c: Config, s: State, r: Request, u: State, log: seq<nat>, failed: bool)
    requires FailuresCounted(c, s, log) && r in s.Live() && r.id !in s.fates && r.id < s.received
    requires r.retries <= c.maxRetries && (failed ==> r.retries >= c.maxRetries)
    requires forall x :: x in s.Live() && x != r ==> x.id != r.id
    requires u.queued == s.queued && u.inflight == s.inflight - {r} && r !in s.queued && u.received == s.received
    requires r.id in u.fates && u.fates == s.fates[r.id := u.fates[r.id]] && (u.fates[r.id] == Errored <==> failed)
    ensures FailuresCounted(c, u, if failed then log + [r.id] else log)
  {
    assert u.Live() <= s.Live() - {r};
    CountOneMore(log, r.id);
  }

  lemma CountOneMore(log: seq<nat>, id: nat)
    ensures forall x :: multiset(log + [id])[x] == multiset(log)[x] + if x == id then 1 else 0
  {
  }

  lemma OthersCountNothing(c: Config, s: State, e: Event, log: seq<nat>)
    requires Inv(c, s) && Enabled(c, s, e) && !e.Finish? && FailuresCounted(c, s, log)
    ensures FailuresCounted(c, After(c, s, e), log)
  {
    hide Inv, FailuresCounted, Score, IsOldest, Expired, Distinct, Mark;
    var u := s.(now := e.now);
    LiveBounds(c, s);
    SameLiveCounts(c, s, u, log);
    match e
    case Receive(now, request, evicted) => ReceiveCountsNothing(c, u, now, request, evicted, log);
    case Start(_, model) => StartCountsNothing(c, u, model, log);
    case Tick(now) => DropCountsNothing(c, u, Select(s.queued, HasExpired(now, c.ttlMs)), TimedOut, log);
    case Purge(_, client) => DropCountsNothing(c, u, Select(s.queued, From(client)), Purged, log);
  }

  lemma SameLiveCounts(c: Config, s: State, t: State, log: seq<nat>)
    requires FailuresCounted(c, s, log)
    requires t.Live() == s.Live() && t.fates == s.fates && t.received == s.received
    ensures FailuresCounted(c, t, log)
  {
  }

  lemma StartCountsNothing(c: Config, s: State, model: ModelId, log: seq<nat>)
    requires FailuresCounted(c, s, log) && model in s.permits && s.permits[model] > 0
    ensures FailuresCounted(c, AfterStart(s, model), log)
  {
    var t := AfterStart(s, model);
    hide FailuresCounted;
    assert t.Live() == s.Live();
    SameLiveCounts(c, s, t, log);
  }

  lemma LiveBounds(c: Config, s: State)
    requires Inv(c, s)
    ensures forall r :: r in s.Live() ==> r.retries <= c.maxRetries && r.id < s.received
  {
  }

  lemma DropCountsNothing(c: Config, s: State, gone: set<Request>, fate: Fate, log: seq<nat>)
    requires FailuresCounted(c, s, log) && gone <= s.queued && fate != Errored
    requires forall r :: r in s.Live() ==> r.retries <= c.maxRetries
    ensures FailuresCounted(c, Drop(s, gone, fate), log)
  {
  }

  lemma ReceiveCountsNothing(c: Config, s: State, now: real, request: Request, evicted: set<Request>,
                             log: seq<nat>)
    requires FailuresCounted(c, s, log) && Enabled(c, s, Receive(now, request, evicted))
    requires forall r :: r in s.Live() ==> r.retries <= c.maxRetries
    ensures FailuresCounted(c, AfterReceive(c, s, now, request, evicted), log)
  {
    assert evicted <= s.queued;
    hide Enabled, Score, IsOldest;
    DropCountsNothing(c, s, evicted, Evicted, log);
  }

  /** After any run, the retries of each queued or running request are the failures that were reported for it,
      and a request was given up exactly when it had failed once more than it may be retried. */
  lemma {:induction false} RetriesAreFailures(c: Config, events: seq<Event>)
    requires c.Valid() && Possible(c, Init, events)
    ensures FailuresCounted(c, Run(c, Init, events), Failures(events))
    decreases |events|
  {
    hide Enabled, After, FailuresCounted, Inv;
    if events == [] {
      NothingCounted(c);
    } else {
      var front, e := events[..|events| - 1], events[|events| - 1];
      RunFront(c, Init, events);
      RetriesAreFailures(c, front);
      InitHolds(c);
      RunKeepsInv(c, Init, front);
      if e.Finish? {
        FinishCountsFailure(c, Run(c, Init, front), e, Failures(front));
      } else {
        OthersCountNothing(c, Run(c, Init, front), e, Failures(front));
      }
    }
  }

  lemma NothingCounted(c: Config)
    ensures FailuresCounted(c, Init, [])
  {
  }

  /** A run is a shorter run and one more event. */
  lemma {:induction false} RunFront(c: Config, s: State, events: seq<Event>)
    requires events != [] && Possible(c, s, events)
    ensures var front, e := events[..|events| - 1], events[|events| - 1];
            && Possible(c, s, front) && Enabled(c, Run(c, s, front), e)
            && Run(c, s, events) == After(c, Run(c, s, front), e)
    decreases |events|
  {
    hide Enabled, After;
    if |events| > 1 {
      var rest := events[1..];
      RunFront(c, After(c, s, events[0]), rest);
      assert events[..|events| - 1][1..] == rest[..|rest| - 1];
    }
  }

  // ---------- Requests are what was received ----------

  /** `r` is a message of the run, but for what the server assigns. */
  ghost predicate CameIn(events: seq<Event>, r: Request) {
    exists i :: 0 <= i < |events| && events[i].Receive?
                && r == events[i].request.(retries := r.retries, score := r.score, counter := r.counter)
  }

  lemma CameInBefore(events: seq<Event>, e: Event, r: Request, q: Request)
    requires CameIn(events, r) && q == r.(retries := q.retries, score := q.score, counter := q.counter)
    ensures CameIn(events + [e], q)
  {
    var i :| 0 <= i < |events| && events[i].Receive?
             && r == events[i].request.(retries := r.retries, score := r.score, counter := r.counter);
    assert (events + [e])[i] == events[i];
  }

  lemma ComesInNow(events: seq<Event>, e: Event, r: Request)
    requires e.Receive? && r == e.request.(retries := r.retries, score := r.score, counter := r.counter)
    ensures CameIn(events + [e], r)
  {
    assert (events + [e])[|events|] == e;
  }

  /** What an event leaves queued or running was so before, or is the arriving message, or the retried request. */
  lemma WhereItCameFrom(c: Config, s: State, e: Event, q: Request) returns (r: Option<Request>)
    requires Enabled(c, s, e) && q in After(c, s, e).Live()
    ensures r.Some? ==>
              r.value in s.Live() && q == r.value.(retries := q.retries, score := q.score, counter := q.counter)
    ensures r.None? ==>
              e.Receive? && q == e.request.(retries := q.retries, score := q.score, counter := q.counter)
  {
    hide Score, IsOldest, Mark, Expired;
    if q in s.Live() {
      r := Some(q);
    } else if e.Receive? {
      r := None;
    } else {
      assert e.Finish?;
      r := Some(e.request);
    }
  }

  /** Whatever is queued or running came in as a message, and only its retries, its score and its counter have
      changed since. */
  lemma {:induction false} LiveCameIn(c: Config, events: seq<Event>)
    requires Possible(c, Init, events)
    ensures forall q :: q in Run(c, Init, events).Live() ==> CameIn(events, q)
    decreases |events|
  {
    hide Enabled, After, CameIn;
    if events != [] {
      var front, e := events[..|events| - 1], events[|events| - 1];
      RunFront(c, Init, events);
      LiveCameIn(c, front);
      assert events == front + [e];
      forall q | q in Run(c, Init, events).Live() ensures CameIn(events, q) {
        var r := WhereItCameFrom(c, Run(c, Init, front), e, q);
        if r.Some? {
          CameInBefore(front, e, r.value, q);
        } else {
          ComesInNow(front, e, q);
        }
      }
    }
  }

  // ---------- Every end has its cause ----------

  ghost predicate Waits(s: State, id: nat, r: Request) {
    r in s.queued && r.id == id
  }

  /** The event `e`, when it happens in the state `s`, brings the request `id` to this end. */
  ghost predicate Causes(c: Config, s: State, e: Event, id: nat, fate: Fate) {
    match fate
    case Rejected => e.Receive? && e.request.id == id && |s.queued| >= c.maxQueue && !c.dropOldest
    case Evicted =>
      && e.Receive? && |s.queued| >= c.maxQueue && c.dropOldest
      && exists r :: Waits(s, id, r) && r in e.evicted && IsOldest(r, s.queued)
    case TimedOut => e.Tick? && exists r :: Waits(s, id, r) && e.now > r.receivedAt + c.ttlMs / 1000.0
    case Purged => e.Purge? && exists r :: Waits(s, id, r) && r.client == e.client
    case Answered => e.Finish? && e.request.id == id && e.outcome == Delivered
    case SendFailed => e.Finish? && e.request.id == id && e.outcome == SendError
    case Crashed => e.Finish? && e.request.id == id && e.outcome == Raised
    case Errored =>
      e.Finish? && e.request.id == id && e.outcome == Failed && e.request.retries >= c.maxRetries
  }

  /** A request that has not ended yet ends with an event if and only if that event is a cause. */
  lemma EndsIffCaused(c: Config, s: State, e: Event, id: nat, fate: Fate)
    requires c.Valid() && Inv(c, s) && Enabled(c, s, e) && id !in s.fates
    ensures var u := After(c, s, e); id in u.fates && u.fates[id] == fate <==> Causes(c, s, e, id, fate)
  {
    hide Inv, Mark, Score, IsOldest;
    match e
    case Receive(_, _, _) => ReceiveEndsIff(c, s, e, id, fate);
    case Start(_, model) =>
    case Finish(t, r, o) => FinishEndsIff(c, s, e, id, fate);
    case Tick(now) =>
      TickEndsIff(c, s, e, id);
      MarkedIff(s.fates, Select(s.queued, HasExpired(now, c.ttlMs)), TimedOut, id);
      hide Expired, Select;
    case Purge(_, client) =>
      PurgeEndsIff(s, e, id);
      MarkedIff(s.fates, Select(s.queued, From(client)), Purged, id);
      hide Select;
  }

  lemma FinishEndsIff(c: Config, s: State, e: Event, id: nat, fate: Fate)
    requires Enabled(c, s, e) && e.Finish? && id !in s.fates
    ensures var u := After(c, s, e); id in u.fates && u.fates[id] == fate <==> Causes(c, s, e, id, fate)
  {
    hide Score;
  }

  lemma MarkedIff(fates: map<nat, Fate>, gone: set<Request>, fate: Fate, id: nat)
    requires id !in fates
    ensures id in Mark(fates, gone, fate) <==> IsLive(gone, id)
    ensures id in Mark(fates, gone, fate) ==> Mark(fates, gone, fate)[id] == fate
  {
  }

  lemma TickEndsIff(c: Config, s: State, e: Event, id: nat)
    requires e.Tick?
    ensures IsLive(Select(s.queued, HasExpired(e.now, c.ttlMs)), id) <==> Causes(c, s, e, id, TimedOut)
  {
    forall r ensures HasExpired(e.now, c.ttlMs)(r) <==> e.now > r.receivedAt + c.ttlMs / 1000.0 {
      ExpiryIsADeadline(r, e.now, c.ttlMs);
    }
    hide Expired;
    if IsLive(Select(s.queued, HasExpired(e.now, c.ttlMs)), id) {
      var r :| r in Select(s.queued, HasExpired(e.now, c.ttlMs)) && r.id == id;
      assert Waits(s, id, r);
    }
  }

  lemma PurgeEndsIff(s: State, e: Event, id: nat)
    requires e.Purge?
    ensures IsLive(Select(s.queued, From(e.client)), id) <==> exists r :: Waits(s, id, r) && r.client == e.client
  {
    if IsLive(Select(s.queued, From(e.client)), id) {
      var r :| r in Select(s.queued, From(e.client)) && r.id == id;
      assert Waits(s, id, r);
    }
  }

  lemma ReceiveEndsIff(c: Config, s: State, e: Event, id: nat, fate: Fate)
    requires c.Valid() && Inv(c, s) && Enabled(c, s, e) && e.Receive? && id !in s.fates
    ensures var u := After(c, s, e); id in u.fates && u.fates[id] == fate <==> Causes(c, s, e, id, fate)
  {
    hide Inv, Mark, Score, IsOldest, After, Waits;
    EvictionEndsIff(c, s, e, id);
    FatesOfReceive(c, s, e);
    MarkedIff(s.fates, e.evicted, Evicted, id);
  }

  lemma FatesOfReceive(c: Config, s: State, e: Event)
    requires Enabled(c, s, e) && e.Receive?
    ensures After(c, s, e).fates
            == if |s.queued| >= c.maxQueue && !c.dropOldest then s.fates[e.request.id := Rejected]
               else Mark(s.fates, e.evicted, Evicted)
    ensures |s.queued| >= c.maxQueue && !c.dropOldest ==> e.evicted == {}
  {
    hide Mark, Score, IsOldest;
  }

  lemma EvictionEndsIff(c: Config, s: State, e: Event, id: nat)
    requires c.Valid() && Enabled(c, s, e) && e.Receive?
    ensures IsLive(e.evicted, id) <==> Causes(c, s, e, id, Evicted)
  {
    if IsLive(e.evicted, id) {
      var r :| r in e.evicted && r.id == id;
      assert Waits(s, id, r);
    }
  }

  /** What has ended is in no event's reach. */
  lemma EndedHasNoCause(c: Config, s: State, e: Event, id: nat, fate: Fate)
    requires c.Valid() && Inv(c, s) && Enabled(c, s, e) && id in s.fates
    ensures !Causes(c, s, e, id, fate)
  {
    hide Inv, IsOldest, Distinct;
    OutOfReach(c, s, id);
  }

  lemma OutOfReach(c: Config, s: State, id: nat)
    requires Inv(c, s) && id in s.fates
    ensures id < s.received && forall r :: r in s.queued || r in s.inflight ==> r.id != id
  {
    assert forall r :: r in s.queued || r in s.inflight ==> r in s.Live();
  }

  ghost function StateAt(c: Config, s: State, events: seq<Event>, i: nat): (t: State)
    requires Possible(c, s, events) && i <= |events|
    decreases i
  {
    if i == 0 then s else StateAt(c, After(c, s, events[0]), events[1..], i - 1)
  }

  /** The event at place `i` of the run brings the request to this end. */
  ghost predicate CausedAt(c: Config, s: State, events: seq<Event>, id: nat, fate: Fate, i: nat)
    requires Possible(c, s, events)
  {
    i < |events| && Causes(c, StateAt(c, s, events, i), events[i], id, fate)
  }

  /** Every end of a request has its cause in the run, and every cause its effect: whatever the interleaving, a
      request is rejected, evicted, expired, purged, answered, unsendable, crashed or given up if and only
      if an event of the run, at the time when it happened, said so. */
  lemma {:induction false} EveryEndIsCaused(c: Config, s: State, events: seq<Event>, id: nat, fate: Fate)
    requires c.Valid() && Inv(c, s) && Possible(c, s, events) && id !in s.fates
    ensures var t := Run(c, s, events);
            id in t.fates && t.fates[id] == fate <==> exists i :: CausedAt(c, s, events, id, fate, i)
    decreases |events|
  {
    hide Enabled, After, Inv, Causes;
    if events != [] {
      var e, t, rest := events[0], After(c, s, events[0]), events[1..];
      StepKeepsInv(c, s, e);
      EndsIffCaused(c, s, e, id, fate);
      LaterCauses(c, s, events, id, fate);
      assert CausedAt(c, s, events, id, fate, 0) <==> Causes(c, s, e, id, fate);
      if id in t.fates {
        EndsForGood(c, t, rest, id);
        EndedIsOver(c, t, rest, id, fate);
      } else {
        EveryEndIsCaused(c, t, rest, id, fate);
      }
    }
  }

  lemma LaterCauses(c: Config, s: State, events: seq<Event>, id: nat, fate: Fate)
    requires events != [] && Possible(c, s, events)
    ensures forall i: nat :: CausedAt(c, s, events, id, fate, i + 1)
                             <==> CausedAt(c, After(c, s, events[0]), events[1..], id, fate, i)
    ensures forall i: nat :: i > 0 && CausedAt(c, s, events, id, fate, i) ==>
              CausedAt(c, After(c, s, events[0]), events[1..], id, fate, i - 1)
  {
    hide Enabled, After, Causes;
  }

  lemma EndsForGood(c: Config, s: State, events: seq<Event>, id: nat)
    requires c.Valid() && Inv(c, s) && Possible(c, s, events) && id in s.fates
    ensures var t := Run(c, s, events); id in t.fates && t.fates[id] == s.fates[id]
  {
    FatesAreFinal(c, s, events);
  }

  lemma {:induction false} EndedIsOver(c: Config, s: State, events: seq<Event>, id: nat, fate: Fate)
    requires c.Valid() && Inv(c, s) && Possible(c, s, events) && id in s.fates
    ensures !exists i :: CausedAt(c, s, events, id, fate, i)
    decreases |events|
  {
    hide Enabled, After, Inv, Causes;
    if events != [] {
      EndedHasNoCause(c, s, events[0], id, fate);
      StepKeepsInv(c, s, events[0]);
      EndsForGood(c, s, [events[0]], id) by { OneStep(c, s, events[0]); }
      OneStep(c, s, events[0]);
      LaterCauses(c, s, events, id, fate);
      EndedIsOver(c, After(c, s, events[0]), events[1..], id, fate);
      assert !CausedAt(c, s, events, id, fate, 0);
    }
  }

  lemma OneStep(c: Config, s: State, e: Event)
    requires Enabled(c, s, e)
    ensures Possible(c, s, [e]) && Run(c, s, [e]) == After(c, s, e)
  {
    assert [e][1..] == [];
    assert Possible(c, After(c, s, e), []);
  }

  // ---------- Dispatch loops ----------

  /** The event at place `i` of the run is the arrival of a request for the model that the queue takes. */
  ghost predicate Accepted(c: Config, s: State, events: seq<Event>, model: ModelId, i: nat)
    requires Possible(c, s, events)
  {
    && i < |events| && events[i].Receive? && events[i].request.model == model
    && (|StateAt(c, s, events, i).queued| < c.maxQueue || c.dropOldest)
  }

  lemma StartsLoopIff(c: Config, s: State, e: Event, model: ModelId)
    requires Enabled(c, s, e)
    ensures model in After(c, s, e).permits <==>
            || model in s.permits
            || (e.Receive? && e.request.model == model && (|s.queued| < c.maxQueue || c.dropOldest))
  {
    hide Score, IsOldest, Mark, Expired;
  }

  /** A model has a dispatch loop if and only if a request for it was taken into the queue; a rejected one starts
      none. */
  lemma {:induction false} LoopsAreStarted(c: Config, s: State, events: seq<Event>, model: ModelId)
    requires Possible(c, s, events)
    ensures model in Run(c, s, events).permits <==>
            model in s.permits || exists i :: Accepted(c, s, events, model, i)
    decreases |events|
  {
    hide Enabled, After;
    if events != [] {
      var e, t, rest := events[0], After(c, s, events[0]), events[1..];
      StartsLoopIff(c, s, e, model);
      LoopsAreStarted(c, t, rest, model);
      LaterAccepted(c, s, events, model);
      assert Accepted(c, s, events, model, 0) <==>
             e.Receive? && e.request.model == model && (|s.queued| < c.maxQueue || c.dropOldest);
    }
  }

  lemma LaterAccepted(c: Config, s: State, events: seq<Event>, model: ModelId)
    requires events != [] && Possible(c, s, events)
    ensures forall i: nat :: Accepted(c, s, events, model, i + 1)
                             <==> Accepted(c, After(c, s, events[0]), events[1..], model, i)
    ensures forall i: nat :: i > 0 && Accepted(c, s, events, model, i) ==>
              Accepted(c, After(c, s, events[0]), events[1..], model, i - 1)
  {
    hide Enabled, After;
  }
}
