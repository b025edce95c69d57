/** The overflow eviction of the round-robin and the batching scheduler looks at queue heads only. While
    requests arrive through `submit`, in the order of their arrival times, that is as good as looking
    at every queued request; `resubmit` breaks it. */
module HeadEviction {
  import opened Requests
  import opened OrderedDict
  import opened Deques
  import RR = RoundRobin
  import Fair = RoundRobinFairness
  import BO = BatchOptimized
  import Flush = BatchFlush

  /** No queued request is older than `v`. */
  ghost predicate NoneOlder<K(!new)>(d: Queues<K>, v: Request) {
    forall k, r :: k in d.at && r in d.at[k] ==> v.receivedAt <= r.receivedAt
  }

  /** The victim of `_drop_oldest`. */
  ghost function Victim<K(!new)>(d: Queues<K>): (victim: Option<Request>)
    requires WellFormed(d)
  {
    var oldest := OldestHead(d.keys, d.at);
    if oldest.None? then None else Some(d.at[oldest.value][0])
  }

  /** In any state, the victim is a globally oldest request exactly when some queue has one in front. */
  lemma VictimIsOldestIff<K(!new)>(d: Queues<K>)
    requires WellFormed(d)
    ensures Victim(d).Some? && NoneOlder(d, Victim(d).value)
            <==> exists k :: k in d.at && d.at[k] != [] && NoneOlder(d, d.at[k][0])
  {
    OldestHeadExists(d.keys, d.at);
    if k :| k in d.at && d.at[k] != [] && NoneOlder(d, d.at[k][0]) {
      OldestHeadIsFirstOldest(d.keys, d.at);
      assert Victim(d).value.receivedAt <= d.at[k][0].receivedAt;
    }
  }

  /** Whether queueing `r` under `key` keeps the head scan right: the queue was empty, so that `r` itself is
      a head, or some head is at least as old as `r`. */
  ghost predicate KeepsScanRight<K(!new)>(d: Queues<K>, key: K, r: Request) {
    (key in d.at ==> d.at[key] == [])
    || exists k :: k in d.at && d.at[k] != [] && d.at[k][0].receivedAt <= r.receivedAt
  }

  /** While the queues are in arrival order, queueing one more request, of whatever age, leaves a globally
      oldest victim if and only if its queue was empty or some head is at least as old. */
  lemma VictimAfterAppendIff<K(!new)>(d: Queues<K>, key: K, r: Request)
    requires WellFormed(d) && AllInArrivalOrder(d)
    ensures WellFormed(Append(d, key, r)) && Victim(Append(d, key, r)).Some?
    ensures NoneOlder(Append(d, key, r), Victim(Append(d, key, r)).value) <==> KeepsScanRight(d, key, r)
  {
    AppendAddsOne(d, key, r);
    var a := Append(d, key, r);
    var q := a.at[key];
    assert q[|q| - 1] == r && r in q;
    SomeVictim(a, key);
    if KeepsScanRight(d, key, r) {
      var k := RightHead(d, key, r);
      hide KeepsScanRight, AllInArrivalOrder, WellFormed, Victim;
      VictimIsOldestIff(a);
    } else {
      YoungerHeads(d, key, r);
      hide KeepsScanRight, AllInArrivalOrder, WellFormed;
      assert Victim(a).value.receivedAt > r.receivedAt;
    }
  }

  lemma SomeVictim<K(!new)>(d: Queues<K>, key: K)
    requires WellFormed(d) && key in d.at && d.at[key] != []
    ensures Victim(d).Some? && exists k :: k in d.at && d.at[k] != [] && d.at[k][0] == Victim(d).value
  {
    OldestHeadExists(d.keys, d.at);
  }

  /** A queue whose head is globally oldest once `r` is queued. */
  lemma RightHead<K(!new)>(d: Queues<K>, key: K, r: Request) returns (k: K)
    requires WellFormed(d) && AllInArrivalOrder(d) && KeepsScanRight(d, key, r)
    ensures var a := Append(d, key, r);
            k in a.at && a.at[k] != [] && NoneOlder(a, a.at[k][0])
  {
    var a := Append(d, key, r);
    HeadScanFindsOldest(d);
    var oldest := OldestHead(d.keys, d.at);
    if oldest.Some? && d.at[oldest.value][0].receivedAt <= r.receivedAt {
      k := oldest.value;
    } else {
      k := key;
      assert forall j :: j in d.at && d.at[j] != [] ==> d.at[j][0] in d.at[j];
      assert a.at[key] == [r];
    }
  }

  lemma YoungerHeads<K(!new)>(d: Queues<K>, key: K, r: Request)
    requires WellFormed(d) && !KeepsScanRight(d, key, r)
    ensures var a := Append(d, key, r);
            forall k :: k in a.at && a.at[k] != [] ==> a.at[k][0].receivedAt > r.receivedAt
  {
  }

  /** Whether queueing `r` under `key` keeps the queues in arrival order: the queue is empty, or its last
      request is at least as old as `r`. */
  ghost predicate GoesBehindOlder<K(!new)>(d: Queues<K>, key: K, r: Request) {
    key in d.at && d.at[key] != [] ==> d.at[key][|d.at[key]| - 1].receivedAt <= r.receivedAt
  }

  lemma AppendInOrderIff<K(!new)>(d: Queues<K>, key: K, r: Request)
    requires AllInArrivalOrder(d)
    ensures AllInArrivalOrder(Append(d, key, r)) <==> GoesBehindOlder(d, key, r)
  {
    var a := Append(d, key, r);
    var q := a.at[key];
    if GoesBehindOlder(d, key, r) {
      forall k | k in a.at ensures InArrivalOrder(a.at[k]) {
        assert k in d.at ==> InArrivalOrder(d.at[k]);
      }
    } else {
      assert !InArrivalOrder(q) by {
        assert q[|q| - 2].receivedAt > q[|q| - 1].receivedAt;
      }
    }
  }

  /** The eviction would take a globally oldest request, if it took one. */
  ghost predicate ScanRight<K(!new)>(d: Queues<K>)
    requires WellFormed(d)
  {
    Victim(d).Some? ==> NoneOlder(d, Victim(d).value)
  }

  // ---------- Round robin ----------

  /** Requests enter by `submit` only, and no later one has an earlier arrival time. */
  ghost predicate SubmittedInOrder(es: seq<RR.Event>, last: real) {
    es == [] ||
    match es[0]
    case Submit(r) => last <= r.receivedAt && SubmittedInOrder(es[1..], r.receivedAt)
    case Resubmit(_) => false
    case _ => SubmittedInOrder(es[1..], last)
  }

  ghost predicate Ordered<K(!new)>(d: Queues<K>, last: real) {
    AllInArrivalOrder(d) && AllArrivedBy(d, last)
  }

  lemma DropHeadKeepsOrder<K(!new)>(d: Queues<K>, last: real)
    requires WellFormed(d) && Ordered(d, last)
    ensures WellFormed(DropHead(d)) && Ordered(DropHead(d), last)
  {
    DropHeadRemovesOne(d);
    var oldest := OldestHead(d.keys, d.at);
    if oldest.Some? {
      SuffixKeepsOrder(d, oldest.value, 1, last);
    }
  }

  lemma SuffixKeepsOrder<K(!new)>(d: Queues<K>, key: K, n: nat, last: real)
    requires WellFormed(d) && Ordered(d, last) && key in d.at && n <= |d.at[key]|
    ensures Ordered(d.(at := d.at[key := d.at[key][n..]]), last)
  {
    var q := d.at[key];
    assert InArrivalOrder(q) && forall r :: r in q[n..] ==> r in q;
  }

  lemma AppendKeepsOrder<K(!new)>(d: Queues<K>, key: K, r: Request, last: real)
    requires WellFormed(d) && Ordered(d, last) && last <= r.receivedAt
    ensures Ordered(Append(d, key, r), r.receivedAt)
  {
    AppendKeepsArrivalOrder(d, key, r);
  }

  lemma RotationStepKeepsOrder(policy: RR.Policy, d: RR.Rotation, e: RR.Event, last: real)
    requires RR.Consistent(d) && Ordered(d, last) && !e.Resubmit?
    requires e.Submit? ==> last <= e.request.receivedAt
    ensures Ordered(RR.After(policy, d, e), if e.Submit? then e.request.receivedAt else last)
  {
    hide Ordered;
    match e
    case Connect(client) => EnterKeepsOrder(d, client, last);
    case Disconnect(client) => WithoutKeepsOrder(d, client, last);
    case Submit(r) => SubmitKeepsOrder(policy, d, r, last);
    case Tick(now) => KeepOnlyKeepsOrder(d, NotExpired(now, policy.ttlMs), last);
    case NextBatch => RotatedKeepsOrder(d, last);
  }

  lemma EnterKeepsOrder(d: RR.Rotation, client: ClientId, last: real)
    requires Ordered(d, last)
    ensures Ordered(Enter(d, client), last)
  {
  }

  lemma WithoutKeepsOrder(d: RR.Rotation, client: ClientId, last: real)
    requires Ordered(d, last)
    ensures Ordered(RR.Without(d, client), last)
  {
  }

  lemma KeepOnlyKeepsOrder<K(!new)>(d: Queues<K>, keep: Request -> bool, last: real)
    requires Ordered(d, last)
    ensures Ordered(KeepOnly(d, keep), last)
  {
    KeepOnlyKeepsArrivalOrder(d, keep, last);
  }

  lemma RotatedKeepsOrder(d: RR.Rotation, last: real)
    requires RR.Consistent(d) && Ordered(d, last)
    ensures Ordered(RR.Rotated(d), last)
  {
    var i := RR.FirstBusy(d.keys, d.at);
    if i < |d.keys| {
      SuffixKeepsOrder(d, d.keys[i], 1, last);
    }
  }

  lemma SubmitKeepsOrder(policy: RR.Policy, d: RR.Rotation, r: Request, last: real)
    requires RR.Consistent(d) && Ordered(d, last) && last <= r.receivedAt
    ensures Ordered(RR.After(policy, d, RR.Submit(r)), r.receivedAt)
  {
    AppendKeepsOrder(d, r.client, r, last);
    DropHeadKeepsOrder(d, last);
    AppendKeepsOrder(DropHead(d), r.client, r, last);
    LaterBound(d, last, r.receivedAt);
  }

  lemma {:induction false} RotationStaysOrdered(policy: RR.Policy, d: RR.Rotation, es: seq<RR.Event>, last: real)
    requires RR.Consistent(d) && Ordered(d, last) && SubmittedInOrder(es, last)
    ensures AllInArrivalOrder(Fair.End(policy, d, es))
    decreases |es|
  {
    if es != [] {
      var e := es[0];
      RR.AfterIsConsistent(policy, d, e);
      RotationStepKeepsOrder(policy, d, e, last);
      RotationStaysOrdered(policy, RR.After(policy, d, e), es[1..], if e.Submit? then e.request.receivedAt else last);
    }
  }

  /** After any run in which requests are submitted in order, whatever else happens, round robin
      evicts a globally oldest request, and always finds one if anything is queued. */
  lemma RoundRobinEvictsOldest(policy: RR.Policy, es: seq<RR.Event>, start: real)
    requires SubmittedInOrder(es, start)
    ensures var d := Fair.End(policy, Queues([], map[]), es);
            && (Victim(d).None? <==> Total(d) == 0)
            && (Victim(d).Some? ==> NoneOlder(d, Victim(d).value))
  {
    var d := Fair.End(policy, Queues([], map[]), es);
    RotationStaysOrdered(policy, Queues([], map[]), es, start);
    HeadScanFindsOldest(d);
    TotalIsZero(d);
  }

  /** What the failing runs lead to: one queue with a younger request in front of an elder one. */
  ghost function Hidden<K(!new)>(key: K, young: Request, elder: Request): (e: Queues<K>) {
    Queues([key], map[key := [young, elder]])
  }

  lemma HiddenIsMissed<K(!new)>(key: K, young: Request, elder: Request)
    requires elder.receivedAt < young.receivedAt
    ensures var d := Hidden(key, young, elder);
            WellFormed(d) && Victim(d) == Some(young) && !NoneOlder(d, young)
  {
    var d := Hidden(key, young, elder);
    assert [key][..0] == [];
    assert OldestHead([], d.at).None?;
    assert elder in d.at[key];
  }

  ghost function Alone<K(!new)>(key: K, q: seq<Request>): (e: Queues<K>) {
    Queues([key], map[key := q])
  }

  lemma AloneTotal<K(!new)>(key: K, q: seq<Request>)
    ensures WellFormed(Alone(key, q)) && Total(Alone(key, q)) == |q|
  {
    assert [key][..0] == [];
    assert SumOfSizes([], Alone(key, q).at) == 0;
  }

  lemma AloneAppend<K(!new)>(key: K, q: seq<Request>, r: Request)
    ensures Append(Alone(key, q), key, r) == Alone(key, q + [r])
    ensures q == [] ==> Append(Queues([], map[]), key, r) == Alone(key, [r])
  {
    assert [] + [key] == [key] && [] + [r] == [r];
  }

  /** A request that is dispatched and then sent back goes behind a younger one of its client, and the
      younger one is evicted: a run from the empty scheduler. */
  lemma ResubmitHidesOldest(policy: RR.Policy, elder: Request, young: Request)
    requires policy.maxQueue >= 1 && elder.receivedAt < young.receivedAt && elder.client == young.client
    ensures var es := [RR.Submit(elder), RR.NextBatch, RR.Submit(young), RR.Resubmit(elder)];
            var d := Fair.End(policy, Queues([], map[]), es);
            Victim(d) == Some(young) && !NoneOlder(d, young)
  {
    var c, d0: RR.Rotation := young.client, Queues([], map[]);
    var e0, e1, e2, e3 := RR.Submit(elder), RR.NextBatch, RR.Submit(young), RR.Resubmit(elder);
    hide RR.After, Append, Victim, NoneOlder, Alone;
    QueuedAlone(policy, c, [], elder);
    ServedAlone(policy, c, [elder]);
    QueuedAlone(policy, c, [], young);
    QueuedAlone(policy, c, [young], elder);
    assert [young] + [elder] == [young, elder] && [elder][1..] == [];
    assert [] + [elder] == [elder] && [] + [young] == [young];
    Fair.RunOneMore(policy, d0, [], e0, c);
    Fair.RunOneMore(policy, d0, [] + [e0], e1, c);
    Fair.RunOneMore(policy, d0, [] + [e0] + [e1], e2, c);
    Fair.RunOneMore(policy, d0, [] + [e0] + [e1] + [e2], e3, c);
    assert [] + [e0] + [e1] + [e2] + [e3] == [e0, e1, e2, e3];
    HiddenIsMissed(c, young, elder);
    HiddenIsAlone(c, young, elder);
  }

  lemma HiddenIsAlone<K(!new)>(key: K, young: Request, elder: Request)
    ensures Hidden(key, young, elder) == Alone(key, [young, elder])
  {
  }

  lemma QueuedAlone(policy: RR.Policy, c: ClientId, q: seq<Request>, r: Request)
    requires r.client == c && |q| <= policy.maxQueue
    ensures WellFormed(Alone(c, q))
    ensures |q| < policy.maxQueue ==> RR.After(policy, Alone(c, q), RR.Submit(r)) == Alone(c, q + [r])
    ensures RR.After(policy, Alone(c, q), RR.Resubmit(r)) == Alone(c, q + [r])
    ensures q == [] && policy.maxQueue > 0 ==> RR.After(policy, Queues([], map[]), RR.Submit(r)) == Alone(c, [r])
  {
    AloneTotal(c, q);
    AloneAppend(c, q, r);
    hide Alone, Append;
  }

  lemma ServedAlone(policy: RR.Policy, c: ClientId, q: seq<Request>)
    requires q != [] && forall r :: r in q ==> r.client == c
    ensures RR.Consistent(Alone(c, q)) && RR.After(policy, Alone(c, q), RR.NextBatch) == Alone(c, q[1..])
  {
    AloneTotal(c, q);
    var d := Alone(c, q);
    assert RR.FirstBusy([c], d.at) == 0;
    assert [c][1..] + [c][..1] == [c];
  }

  /** Whatever follows without a resubmission, and with submissions in arrival order, the eviction takes a
      globally oldest request. */
  ghost predicate StaysRight(policy: RR.Policy, d: RR.Rotation)
    requires RR.Consistent(d)
  {
    forall es, start :: AllArrivedBy(d, start) && SubmittedInOrder(es, start) ==> ScanRight(Fair.End(policy, d, es))
  }

  /** From queues in arrival order, one resubmission spoils some later eviction if and only if it puts the
      request behind a younger one of its own client. */
  lemma ResubmitStaysRightIff(policy: RR.Policy, d: RR.Rotation, r: Request)
    requires RR.Consistent(d) && AllInArrivalOrder(d)
    ensures RR.Consistent(RR.After(policy, d, RR.Resubmit(r)))
    ensures StaysRight(policy, RR.After(policy, d, RR.Resubmit(r))) <==> GoesBehindOlder(d, r.client, r)
  {
    var a := RR.After(policy, d, RR.Resubmit(r));
    RR.AfterIsConsistent(policy, d, RR.Resubmit(r));
    AppendInOrderIff(d, r.client, r);
    if GoesBehindOlder(d, r.client, r) {
      InOrderStaysRight(policy, a);
    } else {
      var es := Expose(policy, d, r);
      var start := LatestOf(a.keys, a.at);
      assert AllArrivedBy(a, start);
      QuietIsInOrder(es, start);
    }
  }

  lemma InOrderStaysRight(policy: RR.Policy, d: RR.Rotation)
    requires RR.Consistent(d) && AllInArrivalOrder(d)
    ensures StaysRight(policy, d)
  {
    forall es, start | AllArrivedBy(d, start) && SubmittedInOrder(es, start)
      ensures ScanRight(Fair.End(policy, d, es))
    {
      RotationStaysOrdered(policy, d, es, start);
      HeadScanFindsOldest(Fair.End(policy, d, es));
    }
  }

  /** A time by which everything queued under some keys had arrived. */
  ghost function LatestOf<K(!new)>(keys: seq<K>, at: map<K, seq<Request>>): (t: real)
    requires forall k :: k in keys ==> k in at
    ensures forall k, r :: k in keys && r in at[k] ==> r.receivedAt <= t
  {
    if keys == [] then 0.0
    else
      assert keys == [keys[0]] + keys[1..];
      var t, u := LatestOf(keys[1..], at), LatestIn(at[keys[0]]);
      if t < u then u else t
  }

  ghost function LatestIn(q: seq<Request>): (t: real)
    ensures forall r :: r in q ==> r.receivedAt <= t
  {
    if q == [] then 0.0
    else
      var t, r := LatestIn(q[1..]), q[0];
      assert q == [q[0]] + q[1..];
      if t < r.receivedAt then r.receivedAt else t
  }

  /** Events that add nothing. */
  ghost predicate Quiet(es: seq<RR.Event>) {
    forall e :: e in es ==> e.Disconnect? || e.NextBatch?
  }

  lemma {:induction false} QuietIsInOrder(es: seq<RR.Event>, start: real)
    requires Quiet(es)
    ensures SubmittedInOrder(es, start)
  {
    if es != [] {
      assert es == [es[0]] + es[1..];
      assert es[0] in es;
      QuietIsInOrder(es[1..], start);
    }
  }

  lemma {:induction false} EndOfConcat(policy: RR.Policy, d: RR.Rotation, p: seq<RR.Event>, q: seq<RR.Event>)
    requires RR.Consistent(d)
    ensures Fair.End(policy, d, p + q) == Fair.End(policy, Fair.End(policy, d, p), q)
    decreases |p|
  {
    if p == [] {
      assert p + q == q;
    } else {
      RR.AfterIsConsistent(policy, d, p[0]);
      assert (p + q)[0] == p[0] && (p + q)[1..] == p[1..] + q;
      EndOfConcat(policy, RR.After(policy, d, p[0]), p[1..], q);
    }
  }

  /** Everybody else disconnects. */
  lemma {:induction false} Isolate(policy: RR.Policy, d: RR.Rotation, c: ClientId) returns (es: seq<RR.Event>)
    requires RR.Consistent(d) && c in d.at
    ensures Quiet(es) && Fair.End(policy, d, es) == Alone(c, d.at[c])
    decreases d.at.Keys
  {
    if x :| x in d.at && x != c {
      var e := RR.Disconnect(x);
      RR.AfterIsConsistent(policy, d, e);
      var a := RR.After(policy, d, e);
      assert a.at.Keys == d.at.Keys - {x};
      var rest := Isolate(policy, a, c);
      es := [e] + rest;
      assert es[0] == e && es[1..] == rest;
    } else {
      OnlyKey(d.keys, c);
      assert d.at == map[c := d.at[c]];
      es := [];
    }
  }

  lemma OnlyKey(keys: seq<ClientId>, c: ClientId)
    requires NoDuplicates(keys) && c in keys && forall k :: k in keys ==> k == c
    ensures keys == [c]
  {
    assert keys[0] in keys && keys[|keys| - 1] in keys;
    if |keys| > 1 {
      FirstIsNotLast(keys);
    }
  }

  lemma FirstIsNotLast(keys: seq<ClientId>)
    requires NoDuplicates(keys) && |keys| > 1
    ensures keys[0] != keys[|keys| - 1]
  {
    assert keys[0] == keys[..|keys| - 1][0];
  }

  /** A client on its own is served until two of its requests are left. */
  lemma {:induction false} ServeToLastTwo(policy: RR.Policy, c: ClientId, q: seq<Request>)
    returns (es: seq<RR.Event>)
    requires |q| >= 2 && forall r :: r in q ==> r.client == c
    ensures RR.Consistent(Alone(c, q)) && Quiet(es)
    ensures Fair.End(policy, Alone(c, q), es) == Alone(c, q[|q| - 2..])
  {
    AloneTotal(c, q);
    if |q| == 2 {
      es := [];
    } else {
      ServedAlone(policy, c, q);
      var rest := ServeToLastTwo(policy, c, q[1..]);
      es := [RR.NextBatch] + rest;
      assert es[0] == RR.NextBatch && es[1..] == rest;
      assert q[1..][|q[1..]| - 2..] == q[|q| - 2..];
    }
  }

  /** What the resubmission hid comes to light: the others leave, and the client is served until the
      younger request stands in front of the elder one. */
  lemma Expose(policy: RR.Policy, d: RR.Rotation, r: Request) returns (es: seq<RR.Event>)
    requires RR.Consistent(d) && !GoesBehindOlder(d, r.client, r)
    ensures RR.Consistent(RR.After(policy, d, RR.Resubmit(r)))
    ensures Quiet(es)
    ensures !ScanRight(Fair.End(policy, RR.After(policy, d, RR.Resubmit(r)), es))
  {
    var a, c := RR.After(policy, d, RR.Resubmit(r)), r.client;
    RR.AfterIsConsistent(policy, d, RR.Resubmit(r));
    var q := a.at[c];
    var young := d.at[c][|d.at[c]| - 1];
    assert q == d.at[c] + [r] && q[|q| - 2..] == [young, r];
    var alone := Isolate(policy, a, c);
    var serve := ServeToLastTwo(policy, c, q);
    es := alone + serve;
    EndOfConcat(policy, a, alone, serve);
    HiddenIsMissed(c, young, r);
  }

  /** The guard of `VictimAfterAppendIff` does not last. In this run from the empty scheduler every submission
      is in arrival order and the guard holds at the only resubmission, because the first request is
      still in front of its queue; once it is served, the younger of the two others is the victim. */
  lemma GuardDoesNotLast(policy: RR.Policy, first: Request, elder: Request, young: Request)
    requires policy.maxQueue >= 2 && first.client != elder.client && elder.client == young.client
    requires first.receivedAt <= elder.receivedAt < young.receivedAt
    ensures var es := [RR.Connect(elder.client), RR.Submit(first), RR.Submit(elder), RR.NextBatch, RR.Submit(young)];
            var d := Fair.End(policy, Queues([], map[]), es);
            && SubmittedInOrder(es, first.receivedAt) && KeepsScanRight(d, elder.client, elder)
            && var a := RR.After(policy, RR.After(policy, d, RR.Resubmit(elder)), RR.NextBatch);
               WellFormed(a) && Victim(a) == Some(young) && !NoneOlder(a, young)
  {
    var a, b := first.client, elder.client;
    GuardRun(policy, first, elder, young);
    TwoServed(policy, a, [first], b, [young, elder]);
    TwoMissed(a, b, elder, young);
    assert [first][1..] == [];
    var d := Two(a, [first], b, [young]);
    assert KeepsScanRight(d, b, elder) by {
      assert d.at[a][0] == first;
    }
    TwoAppend(b, [young], a, [first], elder);
    assert [young] + [elder] == [young, elder];
    assert RR.After(policy, d, RR.Resubmit(elder)) == Two(a, [first], b, [young, elder]);
    InOrderFive(RR.Connect(b), RR.Submit(first), RR.Submit(elder), RR.NextBatch, RR.Submit(young), first.receivedAt);
  }

  lemma GuardRun(policy: RR.Policy, first: Request, elder: Request, young: Request)
    requires policy.maxQueue >= 2 && first.client != elder.client && elder.client == young.client
    ensures var es := [RR.Connect(elder.client), RR.Submit(first), RR.Submit(elder), RR.NextBatch, RR.Submit(young)];
            Fair.End(policy, Queues([], map[]), es) == Two(first.client, [first], elder.client, [young])
  {
    hide RR.After, Two, Alone, RR.Consistent, Fair.End, WellFormed, Total;
    var a, b, d0: RR.Rotation := first.client, elder.client, Queues([], map[]);
    Connects(policy, b);
    SubmitsFirst(policy, b, first);
    SubmitsToTwo(policy, b, [], a, [first], elder);
    TwoTotal(b, [elder], a, [first]);
    TwoServed(policy, b, [elder], a, [first]);
    SubmitsToTwo(policy, b, [], a, [first], young);
    assert [] + [elder] == [elder] && [] + [young] == [young] && [elder][1..] == [];
    var ds := [d0, Alone(b, []), Two(b, [], a, [first]), Two(b, [elder], a, [first]),
               Two(a, [first], b, []), Two(a, [first], b, [young])];
    var es := [RR.Connect(b), RR.Submit(first), RR.Submit(elder), RR.NextBatch, RR.Submit(young)];
    forall i | 0 <= i < |es| ensures WellFormed(ds[i]) && RR.After(policy, ds[i], es[i]) == ds[i + 1] {
      assert i == 0 || i == 1 || i == 2 || i == 3 || i == 4;
    }
    EndOfSteps(policy, ds, es);
  }

  /** A run given state by state. */
  lemma {:induction false} EndOfSteps(policy: RR.Policy, ds: seq<RR.Rotation>, es: seq<RR.Event>)
    requires |ds| == |es| + 1 && RR.Consistent(ds[0])
    requires forall i :: 0 <= i < |es| ==> WellFormed(ds[i]) && RR.After(policy, ds[i], es[i]) == ds[i + 1]
    ensures Fair.End(policy, ds[0], es) == ds[|es|]
    decreases |es|
  {
    if es != [] {
      RR.AfterIsConsistent(policy, ds[0], es[0]);
      EndOfSteps(policy, ds[1..], es[1..]);
    }
  }

  ghost function Two(k1: ClientId, q1: seq<Request>, k2: ClientId, q2: seq<Request>): (d: RR.Rotation) {
    Queues([k1, k2], map[k1 := q1, k2 := q2])
  }

  lemma TwoTotal(k1: ClientId, q1: seq<Request>, k2: ClientId, q2: seq<Request>)
    requires k1 != k2
    ensures WellFormed(Two(k1, q1, k2, q2)) && Total(Two(k1, q1, k2, q2)) == |q1| + |q2|
  {
    var d := Two(k1, q1, k2, q2);
    assert [k1, k2][..1] == [k1] && [k1][..0] == [];
    assert SumOfSizes([], d.at) == 0 && SumOfSizes([k1], d.at) == |q1|;
  }

  lemma TwoServed(policy: RR.Policy, k1: ClientId, q1: seq<Request>, k2: ClientId, q2: seq<Request>)
    requires k1 != k2 && q1 != []
    requires (forall r :: r in q1 ==> r.client == k1) && forall r :: r in q2 ==> r.client == k2
    ensures RR.Consistent(Two(k1, q1, k2, q2))
    ensures RR.After(policy, Two(k1, q1, k2, q2), RR.NextBatch) == Two(k2, q2, k1, q1[1..])
  {
    TwoTotal(k1, q1, k2, q2);
    var d := Two(k1, q1, k2, q2);
    assert RR.FirstBusy(d.keys, d.at) == 0;
    assert [k1, k2][1..] + [k1, k2][..1] == [k2, k1];
  }

  lemma TwoMissed(a: ClientId, b: ClientId, elder: Request, young: Request)
    requires a != b && elder.receivedAt < young.receivedAt
    ensures var d := Two(b, [young, elder], a, []);
            WellFormed(d) && Victim(d) == Some(young) && !NoneOlder(d, young)
  {
    var d := Two(b, [young, elder], a, []);
    TwoTotal(b, [young, elder], a, []);
    assert [b, a][..1] == [b] && [b][..0] == [];
    assert OldestHead([], d.at).None? && OldestHead([b], d.at) == Some(b);
    assert elder in d.at[b];
  }

  lemma Connects(policy: RR.Policy, c: ClientId)
    ensures var d0: RR.Rotation := Queues([], map[]);
            WellFormed(d0) && RR.Consistent(d0) && RR.After(policy, d0, RR.Connect(c)) == Alone(c, [])
    ensures Fair.End(policy, Queues([], map[]), []) == Queues([], map[])
  {
    assert [] + [c] == [c];
  }

  lemma SubmitsFirst(policy: RR.Policy, c: ClientId, r: Request)
    requires policy.maxQueue >= 1 && r.client != c
    ensures WellFormed(Alone(c, [])) && RR.After(policy, Alone(c, []), RR.Submit(r)) == Two(c, [], r.client, [r])
  {
    AloneTotal(c, []);
    assert [c] + [r.client] == [c, r.client] && [] + [r] == [r];
  }

  /** A request for one of two clients, in either place of the rotation. */
  lemma TwoAppend(b: ClientId, q: seq<Request>, a: ClientId, p: seq<Request>, r: Request)
    requires a != b
    ensures Append(Two(b, q, a, p), b, r) == Two(b, q + [r], a, p)
    ensures Append(Two(a, p, b, q), b, r) == Two(a, p, b, q + [r])
  {
  }

  lemma SubmitsToTwo(policy: RR.Policy, b: ClientId, q: seq<Request>, a: ClientId, p: seq<Request>, r: Request)
    requires a != b && r.client == b && |q| + |p| < policy.maxQueue
    ensures WellFormed(Two(b, q, a, p)) && WellFormed(Two(a, p, b, q))
    ensures RR.After(policy, Two(b, q, a, p), RR.Submit(r)) == Two(b, q + [r], a, p)
    ensures RR.After(policy, Two(a, p, b, q), RR.Submit(r)) == Two(a, p, b, q + [r])
  {
    TwoTotal(b, q, a, p);
    TwoTotal(a, p, b, q);
    TwoAppend(b, q, a, p, r);
    hide Two, Append, WellFormed;
  }

  lemma InOrderFive(e0: RR.Event, e1: RR.Event, e2: RR.Event, e3: RR.Event, e4: RR.Event, start: real)
    requires e0.Connect? && e1.Submit? && e2.Submit? && e3.NextBatch? && e4.Submit?
    requires start <= e1.request.receivedAt <= e2.request.receivedAt <= e4.request.receivedAt
    ensures SubmittedInOrder([e0, e1, e2, e3, e4], start)
  {
    assert [e0, e1, e2, e3, e4][1..] == [e1, e2, e3, e4] && [e1, e2, e3, e4][1..] == [e2, e3, e4];
    assert [e2, e3, e4][1..] == [e3, e4] && [e3, e4][1..] == [e4] && [e4][1..] == [];
    assert SubmittedInOrder([], e4.request.receivedAt);
    assert SubmittedInOrder([e4], e2.request.receivedAt);
    assert SubmittedInOrder([e3, e4], e2.request.receivedAt);
    assert SubmittedInOrder([e2, e3, e4], e1.request.receivedAt);
    assert SubmittedInOrder([e1, e2, e3, e4], start);
  }

  // ---------- Batching ----------

  ghost predicate QueuedInOrder(es: seq<BO.Event>, last: real) {
    es == [] ||
    match es[0]
    case Submit(r, _) => last <= r.receivedAt && QueuedInOrder(es[1..], r.receivedAt)
    case Resubmit(_, _) => false
    case _ => QueuedInOrder(es[1..], last)
  }

  lemma BatcherStepKeepsOrder(policy: BO.BatchPolicy, b: BO.Batcher, e: BO.Event, last: real)
    requires BO.Consistent(b) && Ordered(b.queues, last) && !e.Resubmit?
    requires e.Submit? ==> last <= e.request.receivedAt
    ensures Ordered(BO.After(policy, b, e).queues, if e.Submit? then e.request.receivedAt else last)
  {
    hide Ordered;
    match e
    case Submit(r, now) =>
      AppendKeepsOrder(b.queues, r.model, r, last);
      DropHeadKeepsOrder(b.queues, last);
      AppendKeepsOrder(DropHead(b.queues), r.model, r, last);
      LaterBound(b.queues, last, r.receivedAt);
    case Tick(now) => KeepOnlyKeepsOrder(b.queues, NotExpired(now, policy.ttlMs), last);
    case Disconnect(client) => KeepOnlyKeepsOrder(b.queues, NotFrom(client), last);
    case NextBatch(now) => FlushedKeepsOrder(policy, b, now, last);
  }

  lemma LaterBound<K(!new)>(d: Queues<K>, last: real, later: real)
    requires Ordered(d, last) && last <= later
    ensures Ordered(d, later)
  {
  }

  lemma FlushedKeepsOrder(policy: BO.BatchPolicy, b: BO.Batcher, now: real, last: real)
    requires BO.Consistent(b) && Ordered(b.queues, last)
    ensures Ordered(BO.Flushed(policy, b, now).queues, last)
  {
    var keys := b.queues.keys;
    var i := BO.FirstReady(policy, b, keys, now);
    if i < |keys| {
      SuffixKeepsOrder(b.queues, keys[i], BO.Fit(policy, b.queues.at[keys[i]]), last);
    }
  }

  lemma {:induction false} BatcherStaysOrdered(policy: BO.BatchPolicy, b: BO.Batcher, es: seq<BO.Event>, last: real)
    requires BO.Consistent(b) && Ordered(b.queues, last) && QueuedInOrder(es, last)
    ensures AllInArrivalOrder(Flush.End(policy, b, es).queues)
    decreases |es|
  {
    if es != [] {
      var e := es[0];
      BO.AfterIsConsistent(policy, b, e);
      BatcherStepKeepsOrder(policy, b, e, last);
      BatcherStaysOrdered(policy, BO.After(policy, b, e), es[1..], if e.Submit? then e.request.receivedAt else last);
    }
  }

  lemma BatchingEvictsOldest(policy: BO.BatchPolicy, es: seq<BO.Event>, start: real)
    requires QueuedInOrder(es, start)
    ensures var d := Flush.End(policy, Flush.Empty(), es).queues;
            && (Victim(d).None? <==> Total(d) == 0)
            && (Victim(d).Some? ==> NoneOlder(d, Victim(d).value))
  {
    var d := Flush.End(policy, Flush.Empty(), es).queues;
    BatcherStaysOrdered(policy, Flush.Empty(), es, start);
    HeadScanFindsOldest(d);
    TotalIsZero(d);
  }

  /** The same run of the batching scheduler: an elder request is flushed at a time when it has waited
      long enough, a younger one arrives, and the elder one is sent back. */
  lemma ResubmitHidesOldestBatch(policy: BO.BatchPolicy, elder: Request, young: Request, t0: real, t: real)
    requires policy.Legal() && policy.maxQueue >= 1 && (t - t0) * 1000.0 >= policy.maxWaitMs
    requires elder.receivedAt < young.receivedAt && elder.model == young.model
    ensures var es := [BO.Submit(elder, t0), BO.NextBatch(t), BO.Submit(young, t), BO.Resubmit(elder, t)];
            var d := Flush.End(policy, Flush.Empty(), es).queues;
            Victim(d) == Some(young) && !NoneOlder(d, young)
  {
    var m, b0 := young.model, Flush.Empty();
    var e0, e1, e2, e3 := BO.Submit(elder, t0), BO.NextBatch(t), BO.Submit(young, t), BO.Resubmit(elder, t);
    var b1 := BO.Batcher(Alone(m, [elder]), map[m := t0]);
    var b2 := BO.Batcher(Alone(m, []), map[]);
    var b3 := BO.Batcher(Alone(m, [young]), map[m := t]);
    AloneTotal(m, []);
    AloneAppend(m, [], elder);
    AloneAppend(m, [], young);
    AloneAppend(m, [young], elder);
    assert [young] + [elder] == [young, elder] && [] + [young] == [young];
    assert BO.After(policy, b0, e0) == b1;
    FlushedAlone(policy, elder, t0, t);
    assert BO.After(policy, b2, e2) == b3;
    assert BO.After(policy, b3, e3).queues == Hidden(m, young, elder);
    hide BO.After, Append;
    Flush.EndOneMore(policy, b0, [], e0);
    Flush.EndOneMore(policy, b0, [] + [e0], e1);
    Flush.EndOneMore(policy, b0, [] + [e0] + [e1], e2);
    Flush.EndOneMore(policy, b0, [] + [e0] + [e1] + [e2], e3);
    assert [] + [e0] + [e1] + [e2] + [e3] == [e0, e1, e2, e3];
    HiddenIsMissed(m, young, elder);
  }

  lemma FlushedAlone(policy: BO.BatchPolicy, r: Request, t0: real, t: real)
    requires policy.Legal() && (t - t0) * 1000.0 >= policy.maxWaitMs
    ensures var b := BO.Batcher(Alone(r.model, [r]), map[r.model := t0]);
            WellFormed(b.queues) && BO.After(policy, b, BO.NextBatch(t)) == BO.Batcher(Alone(r.model, []), map[])
  {
    var b := BO.Batcher(Alone(r.model, [r]), map[r.model := t0]);
    AloneTotal(r.model, [r]);
    assert BO.Ready(policy, b, r.model, t);
    assert BO.FirstReady(policy, b, [r.model], t) == 0;
    assert BO.Fit(policy, [r]) == 1 && [r][1..] == [];
    assert BO.Taken(policy, b, r.model, t).queues.at == map[r.model := []];
    assert BO.Taken(policy, b, r.model, t).firstArrival == map[];
  }

  lemma AppendArrivedBy<K(!new)>(d: Queues<K>, key: K, r: Request, t: real)
    requires AllArrivedBy(d, t) && r.receivedAt <= t
    ensures AllArrivedBy(Append(d, key, r), t)
  {
  }

  /** Whatever follows without a resubmission, and with submissions in arrival order, the eviction takes a
      globally oldest request. */
  ghost predicate BatchStaysRight(policy: BO.BatchPolicy, b: BO.Batcher)
    requires BO.Consistent(b)
  {
    forall es, start :: AllArrivedBy(b.queues, start) && QueuedInOrder(es, start) ==>
      ScanRight(Flush.End(policy, b, es).queues)
  }

  ghost predicate NoneSimultaneous<K(!new)>(d: Queues<K>, r: Request) {
    forall k, x :: k in d.at && x in d.at[k] ==> x.receivedAt != r.receivedAt
  }

  /** From queues in arrival order, one resubmission to the batching scheduler spoils some later eviction if and
      only if it puts the request behind a younger one of its own model. This is so under the policy that
      evicts, always; under the other, where an eviction is only imagined, unless something else arrived at
      the very same time or the request has expired already. */
  lemma BatchResubmitStaysRightIff(policy: BO.BatchPolicy, b: BO.Batcher, r: Request, now: real)
    requires BO.Consistent(b) && AllInArrivalOrder(b.queues)
    requires policy.dropOldest || (NoneSimultaneous(b.queues, r) && !Expired(r, now, policy.ttlMs))
    ensures BO.Consistent(BO.After(policy, b, BO.Resubmit(r, now)))
    ensures BatchStaysRight(policy, BO.After(policy, b, BO.Resubmit(r, now)))
            <==> GoesBehindOlder(b.queues, r.model, r)
  {
    var a := BO.After(policy, b, BO.Resubmit(r, now));
    BO.AfterIsConsistent(policy, b, BO.Resubmit(r, now));
    assert a.queues == Append(b.queues, r.model, r);
    AppendInOrderIff(b.queues, r.model, r);
    hide BO.After, BO.Consistent, AllInArrivalOrder, ScanRight, QueuedInOrder, NoneSimultaneous, Expired, Append;
    if GoesBehindOlder(b.queues, r.model, r) {
      hide GoesBehindOlder;
      InOrderStaysRightBatch(policy, a);
    } else {
      var start := LatestOf(a.queues.keys, a.queues.at);
      assert AllArrivedBy(a.queues, start);
      var es := BatchExpose(policy, b.queues, r, a, start);
      assert !BatchStaysRight(policy, a);
    }
  }

  lemma InOrderStaysRightBatch(policy: BO.BatchPolicy, b: BO.Batcher)
    requires BO.Consistent(b) && AllInArrivalOrder(b.queues)
    ensures BatchStaysRight(policy, b)
  {
    forall es, start | AllArrivedBy(b.queues, start) && QueuedInOrder(es, start)
      ensures ScanRight(Flush.End(policy, b, es).queues)
    {
      BatcherStaysOrdered(policy, b, es, start);
      HeadScanFindsOldest(Flush.End(policy, b, es).queues);
    }
  }

  lemma BatchExpose(policy: BO.BatchPolicy, d: Queues<ModelId>, r: Request, a: BO.Batcher, start: real)
    returns (es: seq<BO.Event>)
    requires WellFormed(d) && AllInArrivalOrder(d) && !GoesBehindOlder(d, r.model, r)
    requires policy.dropOldest || NoneSimultaneous(d, r)
    requires BO.Consistent(a) && a.queues == Append(d, r.model, r) && AllArrivedBy(a.queues, start)
    ensures QueuedInOrder(es, start) && !ScanRight(Flush.End(policy, a, es).queues)
  {
    hide BO.Consistent, AllInArrivalOrder, NoneSimultaneous, ScanRight, QueuedInOrder, NotExpired, KeepOnly;
    if policy.dropOldest {
      var n := |d.at[r.model]|;
      assert Inverted(a.queues, r.model, n - 1, n);
      es := EvictUntilWrong(policy, a, r.model, n - 1, n, start);
    } else {
      var t := r.receivedAt + policy.ttlMs / 1000.0;
      es := [BO.Tick(t)];
      hide Append, GoesBehindOlder;
      EndOfTick(policy, a, t);
      ExpiryExposes(d, r, policy.ttlMs);
    }
  }

  // ---------- Evictions bring an inversion to light ----------

  ghost function ArrivedBy(t: real): (keep: Request -> bool) {
    (r: Request) => r.receivedAt <= t
  }

  /** How many queued requests arrived by `t`. */
  ghost function Olds<K(!new)>(d: Queues<K>, t: real): (count: nat)
    requires WellFormed(d)
  {
    Total(KeepOnly(d, ArrivedBy(t)))
  }

  lemma OneOldLess<K(!new)>(d: Queues<K>, t: real)
    requires WellFormed(d) && Victim(d).Some? && Victim(d).value.receivedAt <= t
    ensures WellFormed(DropHead(d)) && Olds(DropHead(d), t) == Olds(d, t) - 1
  {
    var key := OldestHead(d.keys, d.at).value;
    var rest := Filter(d.at[key][1..], ArrivedBy(t));
    var kept := KeepOnly(d, ArrivedBy(t)).at;
    assert kept[key] == [d.at[key][0]] + rest;
    assert KeepOnly(DropHead(d), ArrivedBy(t)).at == kept[key := rest];
    SumUpdate(d.keys, kept, key, rest);
  }

  lemma SameOlds<K(!new)>(d: Queues<K>, key: K, r: Request, t: real)
    requires WellFormed(d) && key in d.at && r.receivedAt > t
    ensures WellFormed(Append(d, key, r)) && Olds(Append(d, key, r), t) == Olds(d, t)
  {
    AppendAddsOne(d, key, r);
    FilterAppend(d.at[key], [r], ArrivedBy(t));
    var kept := Filter(d.at[key], ArrivedBy(t));
    assert kept + [] == kept;
    assert KeepOnly(Append(d, key, r), ArrivedBy(t)) == KeepOnly(d, ArrivedBy(t));
  }

  /** Two requests of one queue out of order: the later one is older. */
  ghost predicate Inverted(d: Queues<ModelId>, key: ModelId, i: nat, j: nat) {
    key in d.at && i < j < |d.at[key]| && d.at[key][j].receivedAt < d.at[key][i].receivedAt
  }

  /** One more submission, to the queue with the inversion, of a request younger than the inverted pair. */
  lemma SubmissionStep(policy: BO.BatchPolicy, b: BO.Batcher, key: ModelId, i: nat, j: nat, late: real)
    returns (e: BO.Event, i': nat, j': nat)
    requires BO.Consistent(b) && policy.dropOldest && Inverted(b.queues, key, i, j)
    requires AllArrivedBy(b.queues, late) && ScanRight(b.queues)
    ensures e.Submit? && e.request.receivedAt == late
    ensures var a, t := BO.After(policy, b, e), b.queues.at[key][j].receivedAt;
            && BO.Consistent(a) && AllArrivedBy(a.queues, late) && Inverted(a.queues, key, i', j')
            && a.queues.at[key][j'].receivedAt == t
            && (if Total(b.queues) < policy.maxQueue
                then Olds(a.queues, t) == Olds(b.queues, t) && Total(a.queues) == Total(b.queues) + 1
                else Olds(a.queues, t) < Olds(b.queues, t))
  {
    var d, x := b.queues, b.queues.at[key][j];
    e := BO.Submit(x.(receivedAt := late, model := key), 0.0);
    hide AllArrivedBy, ScanRight, Olds, Inverted;
    BO.AfterIsConsistent(policy, b, e);
    if Total(d) < policy.maxQueue {
      i', j' := i, j;
      StillInverted(d, key, i, j, e.request);
    } else {
      i', j' := EvictedInFront(d, key, i, j, late);
      StillInverted(DropHead(d), key, i', j', e.request);
    }
  }

  lemma StillInverted(d: Queues<ModelId>, key: ModelId, i: nat, j: nat, r: Request)
    requires WellFormed(d) && Inverted(d, key, i, j) && AllArrivedBy(d, r.receivedAt)
    ensures var a := Append(d, key, r);
            && WellFormed(a) && AllArrivedBy(a, r.receivedAt) && Inverted(a, key, i, j) && a.at[key][j] == d.at[key][j]
            && Total(a) == Total(d) + 1 && Olds(a, d.at[key][j].receivedAt) == Olds(d, d.at[key][j].receivedAt)
  {
    AppendAddsOne(d, key, r);
    AppendArrivedBy(d, key, r, r.receivedAt);
    assert d.at[key][i] in d.at[key] && d.at[key][j] in d.at[key];
    SameOlds(d, key, r, d.at[key][j].receivedAt);
  }

  /** A globally oldest victim is not the younger one of the pair: it stands in front of both, or elsewhere. */
  lemma EvictedInFront(d: Queues<ModelId>, key: ModelId, i: nat, j: nat, late: real) returns (i': nat, j': nat)
    requires WellFormed(d) && Inverted(d, key, i, j) && ScanRight(d) && AllArrivedBy(d, late)
    ensures var e, t := DropHead(d), d.at[key][j].receivedAt;
            && WellFormed(e) && AllArrivedBy(e, late) && Inverted(e, key, i', j') && e.at[key][j'] == d.at[key][j]
            && Olds(e, t) == Olds(d, t) - 1
  {
    SomeVictim(d, key);
    var victim := OldestHead(d.keys, d.at).value;
    assert d.at[key][j] in d.at[key];
    assert d.at[victim][0].receivedAt <= d.at[key][j].receivedAt;
    OneOldLess(d, d.at[key][j].receivedAt);
    DropHeadKeepsArrived(d, late);
    hide Olds, AllArrivedBy, ScanRight, NoneOlder, WellFormed, Victim;
    i', j' := if victim == key then i - 1 else i, if victim == key then j - 1 else j;
  }

  lemma DropHeadKeepsArrived<K(!new)>(d: Queues<K>, t: real)
    requires WellFormed(d) && AllArrivedBy(d, t)
    ensures AllArrivedBy(DropHead(d), t)
  {
    var oldest := OldestHead(d.keys, d.at);
    if oldest.Some? {
      assert forall x :: x in d.at[oldest.value][1..] ==> x in d.at[oldest.value];
    }
  }

  /** Submissions evict one oldest request after the other, until a younger one than some other is taken. */
  lemma {:induction false} EvictUntilWrong(policy: BO.BatchPolicy, b: BO.Batcher, key: ModelId, i: nat, j: nat,
                                           late: real)
    returns (es: seq<BO.Event>)
    requires BO.Consistent(b) && policy.dropOldest && Inverted(b.queues, key, i, j)
    requires AllArrivedBy(b.queues, late)
    ensures QueuedInOrder(es, late) && !ScanRight(Flush.End(policy, b, es).queues)
    decreases Olds(b.queues, b.queues.at[key][j].receivedAt), policy.maxQueue - Total(b.queues)
  {
    if !ScanRight(b.queues) {
      es := [];
    } else {
      var e, i', j' := SubmissionStep(policy, b, key, i, j, late);
      hide ScanRight, Olds, BO.After, BO.Consistent, AllArrivedBy;
      var rest := EvictUntilWrong(policy, BO.After(policy, b, e), key, i', j', late);
      es := [e] + rest;
      assert es[1..] == rest;
    }
  }

  /** When the time to live of `r` ends, everything older has expired, and every head is younger. */
  lemma ExpiryExposes(d: Queues<ModelId>, r: Request, ttlMs: real)
    requires WellFormed(d) && AllInArrivalOrder(d) && !GoesBehindOlder(d, r.model, r) && NoneSimultaneous(d, r)
    ensures var e := KeepOnly(Append(d, r.model, r), NotExpired(r.receivedAt + ttlMs / 1000.0, ttlMs));
            WellFormed(e) && !ScanRight(e)
  {
    var keep := NotExpired(r.receivedAt + ttlMs / 1000.0, ttlMs);
    AppendAddsOne(d, r.model, r);
    assert WellFormed(KeepOnly(Append(d, r.model, r), keep));
    hide NoneSimultaneous, KeepOnly, NotExpired, AllInArrivalOrder, GoesBehindOlder, ScanRight, WellFormed, Append;
    ExpiresOlder(r, ttlMs);
    YoungerHeadsAfterExpiry(d, r, keep);
    OlderIsMissed(KeepOnly(Append(d, r.model, r), keep), r.model, r);
  }

  lemma OlderIsMissed(d: Queues<ModelId>, key: ModelId, r: Request)
    requires WellFormed(d) && key in d.at && r in d.at[key]
    requires forall k :: k in d.at && d.at[k] != [] ==> d.at[k][0].receivedAt > r.receivedAt
    ensures !ScanRight(d)
  {
    SomeVictim(d, key);
  }

  lemma ExpiresOlder(r: Request, ttlMs: real)
    ensures forall x :: NotExpired(r.receivedAt + ttlMs / 1000.0, ttlMs)(x) <==> x.receivedAt >= r.receivedAt
  {
  }

  lemma EndOfTick(policy: BO.BatchPolicy, b: BO.Batcher, now: real)
    requires BO.Consistent(b)
    ensures Flush.End(policy, b, [BO.Tick(now)]).queues == KeepOnly(b.queues, NotExpired(now, policy.ttlMs))
    ensures forall last :: QueuedInOrder([BO.Tick(now)], last)
  {
    var e := BO.Tick(now);
    assert [e][1..] == [];
    BO.AfterIsConsistent(policy, b, e);
    assert Flush.End(policy, BO.After(policy, b, e), []) == BO.After(policy, b, e);
    forall last ensures QueuedInOrder([e], last) {
      assert QueuedInOrder([], last);
    }
  }

  lemma YoungerHeadsAfterExpiry(d: Queues<ModelId>, r: Request, keep: Request -> bool)
    requires WellFormed(d) && AllInArrivalOrder(d) && !GoesBehindOlder(d, r.model, r) && NoneSimultaneous(d, r)
    requires forall x :: keep(x) <==> x.receivedAt >= r.receivedAt
    ensures var e := KeepOnly(Append(d, r.model, r), keep);
            && r.model in e.at && r in e.at[r.model]
            && forall k :: k in e.at && e.at[k] != [] ==> e.at[k][0].receivedAt > r.receivedAt
  {
    var e, q := KeepOnly(Append(d, r.model, r), keep), d.at[r.model];
    FilterAppend(q, [r], keep);
    FilterElements(q, keep);
    assert q[|q| - 1] in Filter(q, keep);
    assert e.at[r.model] == Filter(q, keep) + [r];
    forall k | k in e.at && e.at[k] != [] ensures e.at[k][0].receivedAt > r.receivedAt {
      FilterElements(d.at[k], keep);
      assert e.at[k][0] in Filter(d.at[k], keep);
    }
  }
}
