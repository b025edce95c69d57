/** `RoundRobinScheduler` (scheduler/round_robin.py): an ordered dictionary of client queues that
    `next_batch` rotates. */
module RoundRobin {
  import opened Requests
  import opened OrderedDict
  import opened Deques

  datatype Policy = Policy(maxQueue: nat, ttlMs: real, dropOldest: bool)

  datatype Event =
    | Connect(client: ClientId)
    | Disconnect(client: ClientId)
    | Submit(request: Request)
    | Resubmit(request: Request)
    | Tick(now: real)
    | NextBatch

  type Rotation = Queues<ClientId>

  /** Every queue holds requests of its own client only. */
  ghost predicate Consistent(d: Rotation) {
    WellFormed(d) && OwnRequests(d)
  }

  ghost predicate OwnRequests(d: Rotation) {
    forall c, r :: c in d.at && r in d.at[c] ==> r.client == c
  }

  /** The first client with something queued; the number of clients if there is none. */
  ghost function FirstBusy(keys: seq<ClientId>, at: map<ClientId, seq<Request>>): (i: nat)
    requires forall k :: k in keys ==> k in at
    ensures i <= |keys| && forall j :: 0 <= j < i ==> at[keys[j]] == []
    ensures i < |keys| ==> at[keys[i]] != []
  {
    if keys == [] || at[keys[0]] != [] then 0 else 1 + FirstBusy(keys[1..], at)
  }

  ghost predicate Full(policy: Policy, d: Rotation)
    requires WellFormed(d)
  {
    Total(d) >= policy.maxQueue
  }

  /** Whom `next_batch` serves. */
  ghost function Batch(d: Rotation): (batch: seq<Request>)
    requires WellFormed(d)
  {
    var i := FirstBusy(d.keys, d.at);
    if i == |d.keys| then [] else [d.at[d.keys[i]][0]]
  }

  /** The served client goes behind everybody; the idle clients before it went there just before it. */
  ghost function Rotated(d: Rotation): (after: Rotation)
    requires WellFormed(d)
  {
    var i := FirstBusy(d.keys, d.at);
    if i == |d.keys| then d
    else
      var c := d.keys[i];
      Queues(d.keys[i + 1..] + d.keys[..i + 1], d.at[c := d.at[c][1..]])
  }

  function Without(d: Rotation, client: ClientId): (after: Rotation) {
    Queues(Filter(d.keys, (k: ClientId) => k != client), d.at - {client})
  }

  ghost function After(policy: Policy, d: Rotation, e: Event): (after: Rotation)
    requires WellFormed(d)
  {
    match e
    case Connect(client) => Enter(d, client)
    case Disconnect(client) => Without(d, client)
    case Submit(r) =>
      if !Full(policy, d) then Append(d, r.client, r)
      else if policy.dropOldest then DropHeadRemovesOne(d); Append(DropHead(d), r.client, r)
      else d
    case Resubmit(r) => Append(d, r.client, r)
    case Tick(now) => KeepOnly(d, NotExpired(now, policy.ttlMs))
    case NextBatch => Rotated(d)
  }

  lemma WithoutIsConsistent(d: Rotation, client: ClientId)
    requires Consistent(d)
    ensures Consistent(Without(d, client))
  {
    NoDuplicatesFilter(d.keys, (k: ClientId) => k != client);
    FilterElements(d.keys, (k: ClientId) => k != client);
  }

  lemma DropHeadIsConsistent(d: Rotation)
    requires Consistent(d)
    ensures Consistent(DropHead(d))
  {
    DropHeadRemovesOne(d);
  }

  lemma EnterIsConsistent(d: Rotation, client: ClientId)
    requires Consistent(d)
    ensures Consistent(Enter(d, client))
  {
    EnterKeepsTotal(d, client);
  }

  lemma AppendIsConsistent(d: Rotation, r: Request)
    requires Consistent(d)
    ensures Consistent(Append(d, r.client, r))
  {
    AppendAddsOne(d, r.client, r);
  }

  lemma KeepOnlyIsConsistent(d: Rotation, keep: Request -> bool)
    requires Consistent(d)
    ensures Consistent(KeepOnly(d, keep))
  {
    forall c | c in d.at ensures forall r :: r in Filter(d.at[c], keep) ==> r in d.at[c] {
      FilterElements(d.at[c], keep);
    }
  }

  lemma RotatedIsConsistent(d: Rotation)
    requires Consistent(d)
    ensures Consistent(Rotated(d))
  {
    var i := FirstBusy(d.keys, d.at);
    if i < |d.keys| {
      RotationKeepsKeys(d.keys, i + 1);
      var q := d.at[d.keys[i]];
      assert forall r :: r in q[1..] ==> r in q;
    }
  }

  lemma RotationKeepsKeys(keys: seq<ClientId>, n: nat)
    requires NoDuplicates(keys) && n <= |keys|
    ensures NoDuplicates(keys[n..] + keys[..n])
    ensures forall k :: k in keys[n..] + keys[..n] <==> k in keys
  {
    assert keys == keys[..n] + keys[n..];
    NoDuplicatesConcat(keys[..n], keys[n..]);
    NoDuplicatesConcat(keys[n..], keys[..n]);
  }

  lemma AfterIsConsistent(policy: Policy, d: Rotation, e: Event)
    requires Consistent(d)
    ensures Consistent(After(policy, d, e))
  {
    match e
    case Connect(client) => EnterIsConsistent(d, client);
    case Disconnect(client) => WithoutIsConsistent(d, client);
    case Submit(r) =>
      DropHeadIsConsistent(d);
      AppendIsConsistent(d, r);
      AppendIsConsistent(DropHead(d), r);
    case Resubmit(r) => AppendIsConsistent(d, r);
    case Tick(now) => KeepOnlyIsConsistent(d, NotExpired(now, policy.ttlMs));
    case NextBatch => RotatedIsConsistent(d);
  }

  // ---------- The scheduler ----------

  class RoundRobinScheduler {
    const policy: Policy

    var queues: Rotation
    var total: int

    ghost predicate Valid()
      reads this
    {
      Consistent(queues) && total == Total(queues)
    }

    constructor (policy: Policy)
      ensures Valid() && queues == Queues([], map[]) && this.policy == policy
    {
      this.policy := policy;
      queues, total := Queues([], map[]), 0;
    }

    method Submit(request: Request) returns (result: SubmitResult)
      requires Valid()
      modifies this
      ensures Valid()
      ensures queues == After(policy, old(queues), Event.Submit(request))
      ensures result == if !policy.dropOldest && old(total) >= policy.maxQueue
                        then QueueFull(request.client) else Queued(request)
      ensures result.QueueFull? ==> unchanged(this)
      ensures result.Queued? ==>
                total == if old(total) >= policy.maxQueue && old(total) > 0 then old(total) else old(total) + 1
    {
      hide OwnRequests, WellFormed, SumOfSizes, DropHead, Append;
      if total >= policy.maxQueue {
        if policy.dropOldest {
          DropOldest();
        } else {
          return QueueFull(request.client);
        }
      }
      Resubmit(request);
      result := Queued(request);
    }

    method DropOldest()
      requires Valid()
      modifies this
      ensures Valid() && queues == DropHead(old(queues))
      ensures total == if old(total) > 0 then old(total) - 1 else 0
    {
      DropHeadIsConsistent(queues);
      DropHeadRemovesOne(queues);
      var oldest := FindOldestHead(queues);
      if oldest.Some? {
        queues := queues.(at := queues.at[oldest.value := queues.at[oldest.value][1..]]);
        total := total - 1;
      }
    }

    method Resubmit(request: Request)
      requires Valid()
      modifies this
      ensures Valid() && total == old(total) + 1
      ensures queues == After(policy, old(queues), Event.Resubmit(request))
    {
      AppendIsConsistent(queues, request);
      AppendAddsOne(queues, request.client, request);
      queues := Append(queues, request.client, request);
      total := total + 1;
    }

    /** `next_batch`: exactly one request if anything is queued, and nothing otherwise. */
    method NextBatch() returns (batch: seq<Request>)
      requires Valid()
      modifies this
      ensures Valid()
      ensures batch == Batch(old(queues)) && queues == After(policy, old(queues), Event.NextBatch)
      ensures |batch| == if old(total) > 0 then 1 else 0
      ensures total == old(total) - |batch|
    {
      RotatedTotal(queues);
      RotatedIsConsistent(queues);
      hide OwnRequests, WellFormed, SumOfSizes, Rotated;
      if total == 0 {
        IdleRotation(queues);
        return [];
      }
      var rest, request := Rotate(queues);
      total := total - 1;
      queues := rest;
      batch := [request];
    }

    method Tick(now: real) returns (expired: nat)
      requires Valid()
      modifies this
      ensures Valid()
      ensures queues == After(policy, old(queues), Event.Tick(now))
      ensures queues.keys == old(queues.keys)
      ensures forall c :: c in queues.at ==>
                c in old(queues.at) && queues.at[c] == Filter(old(queues.at)[c], NotExpired(now, policy.ttlMs))
      ensures expired == old(total) - total
    {
      var keep := NotExpired(now, policy.ttlMs);
      KeepOnlyIsConsistent(queues, keep);
      var rest, removed := FilterQueues(queues, keep);
      queues := rest;
      total := total - removed;
      expired := removed;
    }

    method OnClientConnected(client: ClientId)
      requires Valid()
      modifies this
      ensures Valid() && total == old(total)
      ensures queues == After(policy, old(queues), Connect(client))
    {
      EnterIsConsistent(queues, client);
      EnterKeepsTotal(queues, client);
      queues := Enter(queues, client);
    }

    method OnClientDisconnected(client: ClientId)
      requires Valid()
      modifies this
      ensures Valid()
      ensures queues == After(policy, old(queues), Disconnect(client))
    {
      WithoutIsConsistent(queues, client);
      WithoutTotal(queues, client);
      if client in queues.at {
        total := total - |queues.at[client]|;
        queues := Without(queues, client);
      }
    }
  }

  /** The loop of `next_batch`: take clients from the front and put them back at the end, until one of
      them has something queued. */
  method Rotate(d: Rotation) returns (e: Rotation, request: Request)
    requires WellFormed(d) && Batch(d) != []
    ensures e == Rotated(d) && [request] == Batch(d)
  {
    e := d;
    var n := |d.keys|;
    for skipped := 0 to n
      invariant e == Queues(d.keys[skipped..] + d.keys[..skipped], d.at)
      invariant skipped <= FirstBusy(d.keys, d.at) < n
    {
      var client := e.keys[0];
      var q := e.at[client];
      e := Queues(e.keys[1..], e.at - {client});
      if q != [] {
        e := Queues(e.keys + [client], e.at[client := q[1..]]);
        ServedRotation(d, skipped, client, e);
        return e, q[0];
      }
      e := Queues(e.keys + [client], e.at[client := q]);
      SkippedRotation(d, skipped, client, e);
    }
  }

  lemma IdleRotation(d: Rotation)
    requires Consistent(d) && Batch(d) == []
    ensures Rotated(d) == d
  {
  }

  lemma RotatedTotal(d: Rotation)
    requires Consistent(d)
    ensures WellFormed(Rotated(d)) && Total(Rotated(d)) == Total(d) - |Batch(d)|
    ensures Batch(d) == [] <==> Total(d) == 0
  {
    RotatedIsConsistent(d);
    TotalIsZero(d);
    hide OwnRequests, SumOfSizes, NoDuplicates;
    var i := FirstBusy(d.keys, d.at);
    if i < |d.keys| {
      var e := Rotated(d);
      var c := d.keys[i];
      SumUpdate(d.keys, d.at, c, d.at[c][1..]);
      SumRotated(d.keys, e.at, i + 1);
    }
  }

  lemma SumRotated(keys: seq<ClientId>, at: map<ClientId, seq<Request>>, n: nat)
    requires n <= |keys| && forall k :: k in keys ==> k in at
    ensures forall k :: k in keys[n..] + keys[..n] ==> k in at
    ensures SumOfSizes(keys[n..] + keys[..n], at) == SumOfSizes(keys, at)
  {
    var p, q := keys[..n], keys[n..];
    assert keys == p + q;
    SumConcat(p, q, at);
    SumConcat(q, p, at);
  }

  lemma ServedRotation(d: Rotation, i: nat, client: ClientId, e: Rotation)
    requires WellFormed(d) && i < |d.keys| && client == d.keys[i] && d.at[client] != []
    requires i <= FirstBusy(d.keys, d.at)
    requires e == Queues((d.keys[i..] + d.keys[..i])[1..] + [client], (d.at - {client})[client := d.at[client][1..]])
    ensures e == Rotated(d) && Batch(d) == [d.at[client][0]]
  {
    assert i == FirstBusy(d.keys, d.at);
    assert (d.keys[i..] + d.keys[..i])[1..] + [client] == d.keys[i + 1..] + d.keys[..i + 1];
    assert e.at == d.at[client := d.at[client][1..]];
  }

  lemma SkippedRotation(d: Rotation, i: nat, client: ClientId, e: Rotation)
    requires WellFormed(d) && i < |d.keys| && client == d.keys[i] && d.at[client] == []
    requires i <= FirstBusy(d.keys, d.at) < |d.keys|
    requires e == Queues((d.keys[i..] + d.keys[..i])[1..] + [client], (d.at - {client})[client := d.at[client]])
    ensures e == Queues(d.keys[i + 1..] + d.keys[..i + 1], d.at) && i + 1 <= FirstBusy(d.keys, d.at)
  {
    assert (d.keys[i..] + d.keys[..i])[1..] + [client] == d.keys[i + 1..] + d.keys[..i + 1];
    assert e.at == d.at;
  }

  lemma WithoutTotal(d: Rotation, client: ClientId)
    requires Consistent(d)
    ensures WellFormed(Without(d, client))
    ensures Total(Without(d, client)) == Total(d) - if client in d.at then |d.at[client]| else 0
    ensures client !in d.at ==> Without(d, client) == d
  {
    WithoutIsConsistent(d, client);
    SumWithout(d.keys, d.at, client);
    if client !in d.at {
      FilterUniform(d.keys, (k: ClientId) => k != client, true);
    }
  }

  lemma {:induction false} SumWithout(keys: seq<ClientId>, at: map<ClientId, seq<Request>>, client: ClientId)
    requires NoDuplicates(keys) && forall k :: k in keys ==> k in at
    ensures forall k :: k in Filter(keys, (k: ClientId) => k != client) ==> k in at - {client}
    ensures SumOfSizes(Filter(keys, (k: ClientId) => k != client), at - {client})
            == SumOfSizes(keys, at) - if client in keys then |at[client]| else 0
  {
    var others := (k: ClientId) => k != client;
    FilterElements(keys, others);
    if keys != [] {
      var front, last := keys[..|keys| - 1], keys[|keys| - 1];
      assert keys == front + [last];
      SumWithout(front, at, client);
      FilterAppend(front, [last], others);
      var kept := Filter(front, others);
      if last != client {
        assert Filter(keys, others) == kept + [last];
        assert (kept + [last])[..|kept|] == kept;
      } else {
        assert Filter(keys, others) == kept + [] == kept;
      }
    }
  }
}
