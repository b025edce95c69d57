/** How far "anti-starvation" by age goes (scheduler/model_deadline.py:64-66): a waiting request is never
    scored again, so its age counts only as of the moment when it was queued. */
module Starvation {
  import opened Requests
  import opened ServiceOrder
  import opened Scoring
  import opened Eviction
  import opened ModelHeaps
  import opened Pipeline
  import opened PipelineRuns

  /** `low` waits alone, nothing runs, and its model has a permit to be had. */
  ghost predicate Waits(s: State, low: Request) {
    && s.queued == {low} && s.inflight == {} && low.counter < s.counter
    && low.model in s.permits && s.permits[low.model] > 0
  }

  /** A request that scores higher arrives, is dispatched at once, and is answered. */
  lemma Overtakes(c: Config, s: State, low: Request, message: Request, t: real) returns (events: seq<Event>)
    requires Waits(s, low) && c.maxQueue >= 2 && t >= s.now
    requires message.id == s.received && message.retries == 0 && message.model == low.model
    requires Score(c.weights, message, t) > low.score
    ensures Possible(c, s, events)
    ensures var u := Run(c, s, events);
            Waits(u, low) && u.now == t && u.received == s.received + 1 && u.sent == s.sent + [message.id]
  {
    var high := Enqueued(c, s, message, t);
    var e0, e1, e2 := Receive(t, message, {}), Start(t, low.model), Finish(t, high, Delivered);
    var s1 := ArrivesBehind(c, s, low, message, t);
    var s2 := IsTaken(c, s1, low, high);
    var u := IsAnswered(c, s2, low, high);
    hide Enabled, After, Score, Waits;
    assert Possible(c, s, []) && Run(c, s, []) == s;
    RunSnoc(c, s, [], e0);
    RunSnoc(c, s, [] + [e0], e1);
    RunSnoc(c, s, [] + [e0] + [e1], e2);
    events := [] + [e0] + [e1] + [e2];
  }

  lemma ArrivesBehind(c: Config, s: State, low: Request, message: Request, t: real) returns (u: State)
    requires Waits(s, low) && c.maxQueue >= 2 && t >= s.now
    requires message.id == s.received && message.retries == 0 && message.model == low.model
    ensures Enabled(c, s, Receive(t, message, {})) && u == After(c, s, Receive(t, message, {}))
    ensures u == s.(now := t, received := s.received + 1, counter := s.counter + 1,
                    queued := {low, Enqueued(c, s, message, t)})
  {
    hide Score, IsOldest;
    u := After(c, s, Receive(t, message, {}));
    assert Mark(s.fates, {}, Evicted) == s.fates;
  }

  lemma IsTaken(c: Config, s: State, low: Request, high: Request) returns (u: State)
    requires s.queued == {low, high} && s.inflight == {} && low.model == high.model
    requires high.score > low.score && low.counter < high.counter
    requires low.model in s.permits && s.permits[low.model] > 0
    ensures Enabled(c, s, Start(s.now, low.model)) && u == After(c, s, Start(s.now, low.model))
    ensures u == s.(queued := {low}, inflight := {high}, permits := u.permits, dispatched := u.dispatched)
    ensures u.permits == s.permits[low.model := s.permits[low.model] - 1]
  {
    u := After(c, s, Start(s.now, low.model));
    assert OfModel(s.queued, low.model) == {low, high} && Distinct({low, high});
    assert IsFirst(high, {low, high});
    FirstIsUnique({low, high}, high);
    HeadIsFirst({low, high});
    assert {low, high} - {high} == {low};
  }

  lemma IsAnswered(c: Config, s: State, low: Request, high: Request) returns (u: State)
    requires s.queued == {low} && s.inflight == {high} && low.counter < s.counter
    requires low.model == high.model && low.model in s.permits
    ensures Enabled(c, s, Finish(s.now, high, Delivered)) && u == After(c, s, Finish(s.now, high, Delivered))
    ensures Waits(u, low) && u.now == s.now && u.received == s.received && u.sent == s.sent + [high.id]
  {
    u := After(c, s, Finish(s.now, high, Delivered));
  }

  /** What a request scores when it is queued in the moment in which it arrives does not depend on the time. */
  lemma ArrivalScore(w: Weights, r: Request, id: nat, t: real)
    ensures Score(w, r.(id := id, receivedAt := t, retries := 0), t) == Score(w, r.(receivedAt := 0.0), 0.0)
  {
    var a, b := r.(id := id, receivedAt := t, retries := 0), r.(receivedAt := 0.0);
    assert RelativeAge(a, t) == RelativeAge(b, 0.0);
  }

  lemma IsReceivedFirst(c: Config, low: Request) returns (events: seq<Event>, waiting: Request)
    requires c.Valid()
    ensures Possible(c, Init, events)
    ensures waiting == low.(id := 0, receivedAt := 0.0, retries := 0, counter := 0, score := waiting.score)
    ensures waiting.score == Score(c.weights, low.(receivedAt := 0.0), 0.0)
    ensures var s := Run(c, Init, events); Waits(s, waiting) && s.received == 1 && s.now == 0.0 && s.sent == []
  {
    var first := low.(id := 0, receivedAt := 0.0, retries := 0);
    var e := Receive(0.0, first, {});
    ArrivalScore(c.weights, low, 0, 0.0);
    hide Score, IsOldest;
    waiting := Enqueued(c, Init, first, 0.0);
    assert Mark(map[], {}, Evicted) == map[];
    assert Possible(c, Init, []) && Run(c, Init, []) == Init;
    RunSnoc(c, Init, [], e);
    events := [] + [e];
  }

  /** The arrival of the `n`-th message, one every `delta` seconds. */
  function At(delta: real, n: nat): (t: real)
    ensures t == delta * n as real
  {
    if n == 0 then 0.0 else At(delta, n - 1) + delta
  }

  function UpTo(n: nat): (ids: seq<nat>)
    ensures |ids| == n && forall i :: 0 <= i < n ==> ids[i] == i + 1
  {
    if n == 0 then [] else UpTo(n - 1) + [n]
  }

  /** However long it waits, a request is overtaken by any number of requests that arrive later: let one message
      score higher than the other on its arrival. Then for any `n` there is a run in which the lower one is
      received first, `n` like the higher one are received after it, one every `delta` seconds, and all of
      them are answered while the first still waits. */
  lemma {:induction false} OvertakenBy(c: Config, low: Request, high: Request, delta: real, n: nat)
    returns (events: seq<Event>, waiting: Request)
    requires c.Valid() && c.maxQueue >= 2 && delta >= 0.0 && low.model == high.model
    requires Score(c.weights, high.(receivedAt := 0.0), 0.0) > Score(c.weights, low.(receivedAt := 0.0), 0.0)
    ensures Possible(c, Init, events)
    ensures waiting == low.(id := 0, receivedAt := 0.0, retries := 0, counter := 0, score := waiting.score)
    ensures waiting.score == Score(c.weights, low.(receivedAt := 0.0), 0.0)
    ensures var s := Run(c, Init, events);
            && s.queued == {waiting} && s.inflight == {} && s.received == n + 1
            && s.now == At(delta, n) && s.sent == UpTo(n)
            && Waits(s, waiting)
  {
    if n == 0 {
      events, waiting := IsReceivedFirst(c, low);
    } else {
      var before;
      before, waiting := OvertakenBy(c, low, high, delta, n - 1);
      var s, t := Run(c, Init, before), At(delta, n);
      var message := high.(id := n, receivedAt := t, retries := 0);
      ArrivalScore(c.weights, high, n, t);
      hide Waits, Score;
      var three := Overtakes(c, s, waiting, message, t);
      RunAppend(c, Init, before, three);
      events := before + three;
    }
  }
}
