/** Whole runs of the round-robin scheduler: how long a client waits, and how often others are served
    meanwhile. */
module RoundRobinFairness {
  import opened Requests
  import opened OrderedDict
  import opened Deques
  import opened RoundRobin

  /** The place of a client in the rotation; the number of clients if it is absent. */
  ghost function Place(keys: seq<ClientId>, c: ClientId): (i: nat)
    ensures i <= |keys| && (i < |keys| <==> c in keys) && (i < |keys| ==> keys[i] == c)
    ensures c !in keys[..i]
  {
    if keys == [] || keys[0] == c then 0 else 1 + Place(keys[1..], c)
  }

  /** How often `c` is served in a run from `d`. */
  ghost function Services(policy: Policy, d: Rotation, es: seq<Event>, c: ClientId): (count: nat)
    requires Consistent(d)
    decreases |es|
  {
    if es == [] then 0
    else
      AfterIsConsistent(policy, d, es[0]);
      ServedBy(d, es[0], c) + Services(policy, After(policy, d, es[0]), es[1..], c)
  }

  ghost function ServedBy(d: Rotation, e: Event, c: ClientId): (n: nat)
    requires Consistent(d)
    ensures n <= 1
  {
    if e.NextBatch? && Batch(d) != [] && Batch(d)[0].client == c then 1 else 0
  }

  ghost function End(policy: Policy, d: Rotation, es: seq<Event>): (e: Rotation)
    requires Consistent(d)
    ensures Consistent(e)
    decreases |es|
  {
    if es == [] then d else AfterIsConsistent(policy, d, es[0]); End(policy, After(policy, d, es[0]), es[1..])
  }

  ghost function Calls(es: seq<Event>): (count: nat) {
    if es == [] then 0 else (if es[0].NextBatch? then 1 else 0) + Calls(es[1..])
  }

  ghost predicate Busy(d: Rotation, c: ClientId) {
    c in d.at && d.at[c] != []
  }

  /** Something of `c` is queued in every state of the run. */
  ghost predicate StaysBusy(policy: Policy, d: Rotation, es: seq<Event>, c: ClientId)
    requires Consistent(d)
    decreases |es|
  {
    Busy(d, c) && (es == [] || (AfterIsConsistent(policy, d, es[0]);
                                StaysBusy(policy, After(policy, d, es[0]), es[1..], c)))
  }

  // ---------- One step ----------

  lemma {:induction false} PlaceOfAppended(keys: seq<ClientId>, k: ClientId, c: ClientId)
    requires k !in keys
    ensures Place(keys + [k], c) == if c in keys then Place(keys, c) else if c == k then |keys| else |keys| + 1
  {
    var i := Place(keys + [k], c);
    if c in keys {
      PlaceIsUnique(keys + [k], c, Place(keys, c));
    } else if c == k {
      PlaceIsUnique(keys + [k], c, |keys|);
    }
  }

  lemma {:induction false} PlaceIsUnique(keys: seq<ClientId>, c: ClientId, i: nat)
    requires i < |keys| && keys[i] == c && c !in keys[..i]
    ensures Place(keys, c) == i
  {
    var j := Place(keys, c);
    assert forall k :: 0 <= k < i ==> keys[k] in keys[..i];
    assert forall k :: 0 <= k < j ==> keys[k] in keys[..j];
  }

  /** Taking a client out of the rotation keeps the order of the others. */
  lemma {:induction false} PlaceAfterRemoval(keys: seq<ClientId>, gone: ClientId, c: ClientId, x: ClientId)
    requires c != gone && c in keys
    ensures var rest := Filter(keys, (k: ClientId) => k != gone);
            && Place(rest, c) <= Place(keys, c)
            && (Place(rest, x) < Place(rest, c) ==> Place(keys, x) < Place(keys, c))
  {
    var others := (k: ClientId) => k != gone;
    if keys[0] != c {
      PlaceAfterRemoval(keys[1..], gone, c, x);
    }
    if others(keys[0]) {
      assert Filter(keys, others)[1..] == Filter(keys[1..], others);
    }
  }

  /** Rotating past somebody else brings a client forward by what was rotated away, and puts whoever
      was rotated away behind it. */
  lemma PlaceAfterRotation(keys: seq<ClientId>, n: nat, c: ClientId, x: ClientId)
    requires NoDuplicates(keys) && c in keys && n <= Place(keys, c)
    ensures var rotated := keys[n..] + keys[..n];
            && Place(rotated, c) == Place(keys, c) - n
            && (Place(rotated, x) < Place(rotated, c) ==> n <= Place(keys, x) < Place(keys, c))
  {
    var rotated := keys[n..] + keys[..n];
    RotationKeepsKeys(keys, n);
    var i := Place(keys, c) - n;
    forall j | 0 <= j < i ensures rotated[j] != c {
      assert rotated[j] == keys[..Place(keys, c)][n + j];
    }
    PlaceIsUnique(rotated, c, i);
    var j := Place(rotated, x);
    if j < i {
      NoDuplicatesAt(keys, n + j);
      PlaceIsUnique(keys, x, n + j);
    }
  }

  /** In one step that does not serve `c` but leaves it busy, `c` moves forward with every call of
      `next_batch`; a client that was not ahead of `c` does not get ahead; a client that is served was
      ahead of `c` and is behind it afterwards. */
  lemma UnservedStep(policy: Policy, d: Rotation, e: Event, c: ClientId, x: ClientId)
    requires Consistent(d) && Busy(d, c) && Busy(After(policy, d, e), c) && ServedBy(d, e, c) == 0 && x != c
    ensures var a := After(policy, d, e);
            && Place(a.keys, c) + (if e.NextBatch? then 1 else 0) <= Place(d.keys, c)
            && (Place(a.keys, x) < Place(a.keys, c) ==> Place(d.keys, x) < Place(d.keys, c) && ServedBy(d, e, x) == 0)
            && (ServedBy(d, e, x) == 1 ==> Place(d.keys, x) < Place(d.keys, c))
  {
    hide Place, Rotated, Full, OwnRequests, WellFormed;
    if e.NextBatch? {
      UnservedCall(d, c, x);
    } else {
      QuietStep(policy, d, e, c, x);
    }
  }

  /** `c` does not move back, and `x` does not get ahead of it. */
  ghost predicate KeepsPlaces(before: seq<ClientId>, after: seq<ClientId>, c: ClientId, x: ClientId) {
    && Place(after, c) <= Place(before, c)
    && (Place(after, x) < Place(after, c) ==> Place(before, x) < Place(before, c))
  }

  lemma QuietStep(policy: Policy, d: Rotation, e: Event, c: ClientId, x: ClientId)
    requires Consistent(d) && !e.NextBatch? && c in d.at && c in After(policy, d, e).at
    ensures KeepsPlaces(d.keys, After(policy, d, e).keys, c, x)
  {
    match e
    case Connect(client) => EnterKeepsPlaces(d, client, c, x);
    case Disconnect(client) => PlaceAfterRemoval(d.keys, client, c, x);
    case Submit(r) => SubmitKeepsPlaces(policy, d, r, c, x);
    case Resubmit(r) => EnterKeepsPlaces(d, r.client, c, x);
    case Tick(now) =>
  }

  lemma SubmitKeepsPlaces(policy: Policy, d: Rotation, r: Request, c: ClientId, x: ClientId)
    requires Consistent(d) && c in d.at
    ensures KeepsPlaces(d.keys, After(policy, d, Submit(r)).keys, c, x)
  {
    EnterKeepsPlaces(d, r.client, c, x);
    DropHeadRemovesOne(d);
    EnterKeepsPlaces(DropHead(d), r.client, c, x);
    hide Place, SumOfSizes, OldestHead, WellFormed;
    assert DropHead(d).keys == d.keys;
  }

  lemma EnterKeepsPlaces(d: Rotation, client: ClientId, c: ClientId, x: ClientId)
    requires WellFormed(d) && c in d.at
    ensures KeepsPlaces(d.keys, Enter(d, client).keys, c, x)
  {
    if client !in d.at {
      PlaceOfAppended(d.keys, client, c);
      PlaceOfAppended(d.keys, client, x);
    }
  }

  lemma BatchOwner(d: Rotation)
    requires Consistent(d) && Batch(d) != []
    ensures Batch(d)[0].client == d.keys[FirstBusy(d.keys, d.at)]
  {
    var c := d.keys[FirstBusy(d.keys, d.at)];
    assert d.at[c][0] in d.at[c];
  }

  /** Whom a call serves is the first busy client, who stands in front of every other busy client. */
  lemma ServedIsAhead(d: Rotation, c: ClientId, x: ClientId)
    requires Consistent(d) && Busy(d, c) && ServedBy(d, NextBatch, c) == 0
    ensures FirstBusy(d.keys, d.at) < Place(d.keys, c)
    ensures ServedBy(d, NextBatch, x) == 1 ==> Place(d.keys, x) == FirstBusy(d.keys, d.at)
  {
    var i := FirstBusy(d.keys, d.at);
    assert i <= Place(d.keys, c) < |d.keys|;
    BatchOwner(d);
    NoDuplicatesAt(d.keys, i);
    PlaceIsUnique(d.keys, d.keys[i], i);
  }

  lemma UnservedCall(d: Rotation, c: ClientId, x: ClientId)
    requires Consistent(d) && Busy(d, c) && ServedBy(d, NextBatch, c) == 0 && x != c
    ensures var a := Rotated(d);
            && Place(a.keys, c) < Place(d.keys, c)
            && (Place(a.keys, x) < Place(a.keys, c) ==>
                  Place(d.keys, x) < Place(d.keys, c) && ServedBy(d, NextBatch, x) == 0)
            && (ServedBy(d, NextBatch, x) == 1 ==> Place(d.keys, x) < Place(d.keys, c))
  {
    ServedIsAhead(d, c, x);
    var i := FirstBusy(d.keys, d.at);
    assert Rotated(d).keys == d.keys[i + 1..] + d.keys[..i + 1];
    hide OwnRequests, Place, Rotated, ServedBy, Batch;
    PlaceAfterRotation(d.keys, i + 1, c, x);
  }

  /** Who is served goes behind everybody. */
  lemma ServedCall(d: Rotation, c: ClientId)
    requires Consistent(d) && ServedBy(d, NextBatch, c) == 1
    ensures Place(Rotated(d).keys, c) == |d.keys| - 1
  {
    BatchOwner(d);
    hide OwnRequests;
    var i := FirstBusy(d.keys, d.at);
    var rotated := d.keys[i + 1..] + d.keys[..i + 1];
    RotationKeepsKeys(d.keys, i + 1);
    NoDuplicatesAt(rotated, |rotated| - 1);
    PlaceIsUnique(rotated, c, |rotated| - 1);
  }

  // ---------- Whole runs ----------

  /** Bounded waiting: while a busy client at place p goes unserved, `next_batch` is called at most p
      times, less the place the client has in the end; whatever else happens in between. */
  lemma {:induction false} UnservedRun(policy: Policy, d: Rotation, es: seq<Event>, c: ClientId)
    requires Consistent(d) && StaysBusy(policy, d, es, c) && Services(policy, d, es, c) == 0
    ensures Calls(es) + Place(End(policy, d, es).keys, c) <= Place(d.keys, c)
    decreases |es|
  {
    if es != [] {
      AfterIsConsistent(policy, d, es[0]);
      var x := ClientId(c.name + "'");
      assert |x.name| == |c.name| + 1;
      assert Busy(After(policy, d, es[0]), c);
      UnservedStep(policy, d, es[0], c, x);
      UnservedRun(policy, After(policy, d, es[0]), es[1..], c);
    }
  }

  lemma BoundedWaiting(policy: Policy, d: Rotation, es: seq<Event>, c: ClientId)
    requires Consistent(d) && StaysBusy(policy, d, es, c)
    requires Calls(es) >= Place(d.keys, c) + 1
    ensures Services(policy, d, es, c) >= 1
  {
    if Services(policy, d, es, c) == 0 {
      UnservedRun(policy, d, es, c);
    }
  }

  /** Fair shares: while `c` stays busy, nobody is served more than once more often than `c`; and
      a client that is behind `c` or absent at the start, even if it reconnects, never more often. */
  lemma {:induction false} FairShare(policy: Policy, d: Rotation, es: seq<Event>, c: ClientId, x: ClientId)
    requires Consistent(d) && StaysBusy(policy, d, es, c) && x != c
    ensures Services(policy, d, es, x)
            <= Services(policy, d, es, c) + if Place(d.keys, x) < Place(d.keys, c) then 1 else 0
    decreases |es|
  {
    if es != [] {
      var e, a := es[0], After(policy, d, es[0]);
      AfterIsConsistent(policy, d, e);
      assert Busy(a, c);
      FairShare(policy, a, es[1..], c, x);
      if ServedBy(d, e, c) == 0 {
        UnservedStep(policy, d, e, c, x);
      }
    }
  }

  /** Two clients that both stay busy are served equally often, give or take one. */
  lemma EqualShares(policy: Policy, d: Rotation, es: seq<Event>, c: ClientId, x: ClientId)
    requires Consistent(d) && StaysBusy(policy, d, es, c) && StaysBusy(policy, d, es, x)
    ensures -1 <= Services(policy, d, es, c) - Services(policy, d, es, x) <= 1
  {
    if c != x {
      FairShare(policy, d, es, c, x);
      FairShare(policy, d, es, x, c);
    }
  }

  /** Overtaking: from one service of `c` to the next nobody else is served twice. */
  lemma Overtaking(policy: Policy, d: Rotation, es: seq<Event>, c: ClientId, x: ClientId)
    requires Consistent(d) && ServedBy(d, NextBatch, c) == 1 && x != c
    requires Consistent(Rotated(d)) && StaysBusy(policy, Rotated(d), es, c)
    requires Services(policy, Rotated(d), es, c) == 0
    ensures Services(policy, Rotated(d), es, x) <= 1 && Calls(es) < |d.keys|
  {
    FairShare(policy, Rotated(d), es, c, x);
    UnservedRun(policy, Rotated(d), es, c);
    ServedCall(d, c);
  }

  // ---------- The scheduler object follows these runs ----------

  lemma {:induction false} RunOneMore(policy: Policy, d: Rotation, es: seq<Event>, e: Event, c: ClientId)
    requires Consistent(d)
    ensures End(policy, d, es + [e]) == After(policy, End(policy, d, es), e)
    ensures Services(policy, d, es + [e], c) == Services(policy, d, es, c) + ServedBy(End(policy, d, es), e, c)
    decreases |es|
  {
    AfterIsConsistent(policy, d, (es + [e])[0]);
    if es == [] {
      assert [] + [e] == [e] && [e][1..] == [];
      assert End(policy, After(policy, d, e), []) == After(policy, d, e);
    } else {
      assert (es + [e])[1..] == es[1..] + [e] && (es + [e])[0] == es[0];
      RunOneMore(policy, After(policy, d, es[0]), es[1..], e, c);
    }
  }

  function OfClient(q: seq<Request>, c: ClientId): (mine: seq<Request>) {
    Filter(q, (r: Request) => r.client == c)
  }

  /** Any sequence of calls on a scheduler is such a run, and what `next_batch` returned to it counts
      the services of each client. */
  method Drive(scheduler: RoundRobinScheduler, es: seq<Event>) returns (served: seq<Request>)
    requires scheduler.Valid()
    modifies scheduler
    ensures scheduler.Valid() && scheduler.queues == End(scheduler.policy, old(scheduler.queues), es)
    ensures forall c :: |OfClient(served, c)| == Services(scheduler.policy, old(scheduler.queues), es, c)
  {
    ghost var policy, start := scheduler.policy, scheduler.queues;
    served := [];
    for n := 0 to |es|
      invariant scheduler.Valid() && scheduler.queues == End(policy, start, es[..n])
      invariant forall c :: |OfClient(served, c)| == Services(policy, start, es[..n], c)
    {
      ghost var d := scheduler.queues;
      hide Consistent, After, End, Services, OfClient;
      var batch := Perform(scheduler, es[n]);
      assert es[..n + 1] == es[..n] + [es[n]];
      ServicesCounted(policy, start, es[..n], es[n], served, batch);
      served := served + batch;
    }
    assert es[..|es|] == es;
  }

  lemma ServicesCounted(policy: Policy, start: Rotation, es: seq<Event>, e: Event,
                        served: seq<Request>, batch: seq<Request>)
    requires Consistent(start)
    requires batch == if e.NextBatch? then Batch(End(policy, start, es)) else []
    requires forall c :: |OfClient(served, c)| == Services(policy, start, es, c)
    ensures End(policy, start, es + [e]) == After(policy, End(policy, start, es), e)
    ensures forall c :: |OfClient(served + batch, c)| == Services(policy, start, es + [e], c)
  {
    RunOneMore(policy, start, es, e, ClientId(""));
    hide End, Services, After;
    forall c ensures |OfClient(served + batch, c)| == Services(policy, start, es + [e], c) {
      RunOneMore(policy, start, es, e, c);
      FilterAppend(served, batch, (r: Request) => r.client == c);
    }
  }

  method Perform(scheduler: RoundRobinScheduler, e: Event) returns (batch: seq<Request>)
    requires scheduler.Valid()
    modifies scheduler
    ensures scheduler.Valid() && scheduler.queues == After(scheduler.policy, old(scheduler.queues), e)
    ensures batch == if e.NextBatch? then Batch(old(scheduler.queues)) else []
  {
    hide Consistent;
    batch := [];
    match e {
      case Connect(client) => scheduler.OnClientConnected(client);
      case Disconnect(client) => scheduler.OnClientDisconnected(client);
      case Submit(r) => var _ := scheduler.Submit(r);
      case Resubmit(r) => scheduler.Resubmit(r);
      case Tick(now) => var _ := scheduler.Tick(now);
      case NextBatch => batch := scheduler.NextBatch();
    }
  }
}
