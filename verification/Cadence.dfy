/** `CadenceTracker` (tracking/cadence.py): the exponential moving average of the intervals between the
    requests of a client. */
module Cadence {
  import opened Requests

  /** The configuration schema keeps the smoothing factor strictly between 0 and 1. */
  type Factor = x: real | 0.0 < x < 1.0 witness 0.3

  /** The intervals between successive times. */
  ghost function Intervals(times: seq<real>): (xs: seq<real>)
    ensures |xs| == if times == [] then 0 else |times| - 1
    ensures forall i :: 0 <= i < |xs| ==> xs[i] == times[i + 1] - times[i]
  {
    if |times| <= 1 then [] else Intervals(times[..|times| - 1]) + [times[|times| - 1] - times[|times| - 2]]
  }

  /** A new value with weight `alpha`, an old one with the remaining weight. */
  function Mix(alpha: Factor, x: real, y: real): (mixed: real) {
    alpha * x + (1.0 - alpha) * y
  }

  /** The first value, then each further value mixed in. */
  ghost function Ema(alpha: Factor, xs: seq<real>): (average: real)
    requires xs != []
  {
    if |xs| == 1 then xs[0] else Mix(alpha, xs[|xs| - 1], Ema(alpha, xs[..|xs| - 1]))
  }

  ghost function Power(b: real, n: nat): (power: real) {
    if n == 0 then 1.0 else b * Power(b, n - 1)
  }

  lemma MixBetween(alpha: Factor, x: real, y: real, lo: real, hi: real)
    requires lo <= x <= hi && lo <= y <= hi
    ensures lo <= Mix(alpha, x, y) <= hi
  {
    Scaled(alpha, x - lo);
    Scaled(alpha, hi - x);
    Scaled(1.0 - alpha, y - lo);
    Scaled(1.0 - alpha, hi - y);
  }

  lemma Scaled(a: real, b: real)
    requires a >= 0.0 && b >= 0.0
    ensures a * b >= 0.0
  {
  }

  /** The average lies between the smallest and the largest interval. */
  lemma {:induction false} EmaBetween(alpha: Factor, xs: seq<real>, lo: real, hi: real)
    requires xs != [] && forall i :: 0 <= i < |xs| ==> lo <= xs[i] <= hi
    ensures lo <= Ema(alpha, xs) <= hi
  {
    hide Mix;
    if |xs| > 1 {
      EmaBetween(alpha, xs[..|xs| - 1], lo, hi);
      MixBetween(alpha, xs[|xs| - 1], Ema(alpha, xs[..|xs| - 1]), lo, hi);
    }
  }

  /** The past is forgotten geometrically: two trackers that see the same `n` further intervals differ by
      the n-th power of `1 - alpha` times what they differed by. */
  lemma EmaForgets(alpha: Factor, p: seq<real>, q: seq<real>, more: seq<real>)
    requires p != [] && q != []
    ensures Ema(alpha, p + more) - Ema(alpha, q + more)
            == Power(1.0 - alpha, |more|) * (Ema(alpha, p) - Ema(alpha, q))
  {
    EmaDifference(alpha, p, q, more);
    hide Ema, Power;
  }

  function Times(a: real, b: real): (product: real) {
    a * b
  }

  lemma {:induction false} EmaDifference(alpha: Factor, p: seq<real>, q: seq<real>, more: seq<real>)
    requires p != [] && q != []
    ensures Ema(alpha, p + more) - Ema(alpha, q + more)
            == Times(Power(1.0 - alpha, |more|), Ema(alpha, p) - Ema(alpha, q))
  {
    if more == [] {
      assert p + more == p && q + more == q;
    } else {
      hide Mix, Ema, Power, Times;
      var front, x := more[..|more| - 1], more[|more| - 1];
      EmaDifference(alpha, p, q, front);
      assert p + more == p + front + [x] && q + more == q + front + [x];
      EmaOneMore(alpha, p + front, x);
      EmaOneMore(alpha, q + front, x);
      Contracts(alpha, x, Ema(alpha, p + front), Ema(alpha, q + front), |front|, Ema(alpha, p) - Ema(alpha, q));
    }
  }

  lemma EmaOneMore(alpha: Factor, xs: seq<real>, x: real)
    requires xs != []
    ensures Ema(alpha, xs + [x]) == Mix(alpha, x, Ema(alpha, xs))
  {
    hide Mix;
    assert (xs + [x])[..|xs|] == xs;
  }

  /** Mixing the same value into both shrinks a difference by `1 - alpha`. */
  lemma Contracts(alpha: Factor, x: real, a: real, b: real, n: nat, d: real)
    requires a - b == Times(Power(1.0 - alpha, n), d)
    ensures Mix(alpha, x, a) - Mix(alpha, x, b) == Times(Power(1.0 - alpha, n + 1), d)
  {
    var k, w := 1.0 - alpha, Power(1.0 - alpha, n);
    assert k * a - k * b == k * (a - b);
    assert k * (w * d) == (k * w) * d;
  }

  /** What the tracker knows about a client whose requests came at the times `ts`. */
  ghost predicate Tracks(alpha: Factor, ts: seq<real>, last: Option<real>, learned: Option<real>, samples: nat) {
    && last == (if ts == [] then None else Some(ts[|ts| - 1]))
    && learned == (if |ts| < 2 then None else Some(Ema(alpha, Intervals(ts))))
    && samples == (if ts == [] then 0 else |ts| - 1)
  }

  /** One more request. */
  lemma TracksOneMore(alpha: Factor, ts: seq<real>, last: Option<real>, learned: Option<real>, samples: nat, now: real)
    requires Tracks(alpha, ts, last, learned, samples)
    ensures last.None? ==> Tracks(alpha, ts + [now], Some(now), learned, samples)
    ensures last.Some? && learned.None? ==> Tracks(alpha, ts + [now], Some(now), Some(now - last.value), samples + 1)
    ensures last.Some? && learned.Some? ==>
              Tracks(alpha, ts + [now], Some(now),
                     Some(Mix(alpha, now - last.value, learned.value)), samples + 1)
  {
    hide Mix;
    if last.Some? {
      assert (ts + [now])[..|ts|] == ts;
      assert Intervals(ts + [now]) == Intervals(ts) + [now - last.value];
      if learned.Some? {
        EmaOneMore(alpha, Intervals(ts), now - last.value);
      }
    }
  }

  function Lookup<V>(m: map<ClientId, V>, c: ClientId): (found: Option<V>) {
    if c in m then Some(m[c]) else None
  }

  class CadenceTracker {
    const alpha: Factor

    var cadence: map<ClientId, real>
    var lastRequest: map<ClientId, real>
    var sampleCount: map<ClientId, nat>

    /** The times of all requests of each client. */
    ghost var times: map<ClientId, seq<real>>

    ghost function TimesOf(c: ClientId): (times: seq<real>)
      reads this
    {
      if c in times then times[c] else []
    }

    function SampleCount(c: ClientId): (count: nat)
      reads this
    {
      if c in sampleCount then sampleCount[c] else 0
    }

    ghost predicate Valid()
      reads this
    {
      forall c: ClientId :: Tracks(alpha, TimesOf(c), Lookup(lastRequest, c), Lookup(cadence, c), SampleCount(c))
    }

    constructor (alpha: Factor)
      ensures Valid() && times == map[] && this.alpha == alpha
    {
      this.alpha := alpha;
      cadence, lastRequest, sampleCount, times := map[], map[], map[], map[];
    }

    /** `on_request`. */
    method OnRequest(client: ClientId, now: real)
      requires Valid()
      modifies this
      ensures Valid()
      ensures times == old(times)[client := old(TimesOf(client)) + [now]]
    {
      TracksOneMore(alpha, TimesOf(client), Lookup(lastRequest, client), Lookup(cadence, client),
                    SampleCount(client), now);
      hide Tracks, Mix;
      ghost var ts := TimesOf(client) + [now];
      if client in lastRequest {
        var interval := now - lastRequest[client];
        if client in cadence {
          cadence := cadence[client := Mix(alpha, interval, cadence[client])];
        } else {
          cadence := cadence[client := interval];
        }
        sampleCount := sampleCount[client := SampleCount(client) + 1];
      }
      lastRequest := lastRequest[client := now];
      times := times[client := ts];
    }

    /** `learned_cadence`: the moving average of the intervals, once there is one. */
    method LearnedCadence(client: ClientId) returns (learned: Option<real>)
      requires Valid()
      ensures learned == if |TimesOf(client)| < 2 then None else Some(Ema(alpha, Intervals(TimesOf(client))))
    {
      learned := Lookup(cadence, client);
    }

    /** `time_until_next`: how long until the learned interval has passed since the last request, negative
        when it has passed already; zero while nothing is learned. */
    method TimeUntilNext(client: ClientId, now: real) returns (t: real)
      requires Valid()
      ensures var ts := TimesOf(client);
              t == if |ts| < 2 then 0.0 else Ema(alpha, Intervals(ts)) - (now - ts[|ts| - 1])
    {
      assert Tracks(alpha, TimesOf(client), Lookup(lastRequest, client), Lookup(cadence, client), SampleCount(client));
      if client !in cadence {
        return 0.0;
      }
      var elapsed := now - lastRequest[client];
      t := cadence[client] - elapsed;
    }

    /** What is learned lies between the shortest and the longest interval seen. */
    lemma LearnedBetween(client: ClientId, lo: real, hi: real)
      requires Valid() && client in cadence
      requires forall x :: x in Intervals(TimesOf(client)) ==> lo <= x <= hi
      ensures lo <= cadence[client] <= hi
    {
      assert Tracks(alpha, TimesOf(client), Lookup(lastRequest, client), Lookup(cadence, client), SampleCount(client));
      var xs := Intervals(TimesOf(client));
      forall i | 0 <= i < |xs| ensures lo <= xs[i] <= hi {
        assert xs[i] in xs;
      }
      EmaBetween(alpha, xs, lo, hi);
    }
  }
}
