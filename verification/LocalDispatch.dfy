/** `LocalDispatcher.dispatch` (dispatch/local.py) and the legacy loop that collects a batch, has it
    dispatched and settles the results (server.py:363-464). */
module LocalDispatch {
  import opened Requests
  import opened OrderedDict
  import opened Deques
  import opened NumpyArrays
  import opened Tensors

  /** What a model callable does with an observation: it raises, or turning its value into a response
      raises, or there is a response. */
  datatype Run = Raises(error: string) | Returns(response: string)

  type Callable = (Request, map<string, Value>) -> Run

  /** The decoded envelope and the payload of the request with a given identity. */
  type Frames = nat -> (Envelope, Bytes)

  /** `reqId` identifies the request that the result belongs to; `body` is the response or the error. */
  datatype DispatchResult = DispatchResult(client: ClientId, reqId: nat, success: bool, body: string)

  /** What the dispatcher reconstructs for a request; None when that raises. */
  ghost function Observed(r: Request, frames: Frames): (obs: Option<map<string, Value>>) {
    Rebuilt(frames(r.id).0, frames(r.id).1)
  }

  /** The observation is reconstructed outside the `try` block: a failure there ends the whole dispatch. */
  ghost predicate Escapes(r: Request, registered: set<ModelId>, frames: Frames) {
    r.model in registered && Observed(r, frames).None?
  }

  ghost function ResultOf(r: Request, registered: set<ModelId>, frames: Frames, call: Callable): (d: DispatchResult)
    requires !Escapes(r, registered, frames)
  {
    if r.model !in registered then NoModel(r)
    else Answer(r, call(r, Observed(r, frames).value))
  }

  function NoModel(r: Request): (d: DispatchResult) {
    DispatchResult(r.client, r.id, false, "No model registered for '" + r.model.name + "'")
  }

  function Answer(r: Request, run: Run): (d: DispatchResult) {
    match run
    case Raises(error) => DispatchResult(r.client, r.id, false, error)
    case Returns(response) => DispatchResult(r.client, r.id, true, response)
  }

  ghost predicate NoneEscapes(q: seq<Request>, registered: set<ModelId>, frames: Frames) {
    forall r :: r in q ==> !Escapes(r, registered, frames)
  }

  ghost function ResultsOf(q: seq<Request>, registered: set<ModelId>, frames: Frames, call: Callable)
    : (rs: seq<DispatchResult>)
    requires NoneEscapes(q, registered, frames)
    ensures |rs| == |q| && forall i :: 0 <= i < |q| ==> rs[i] == ResultOf(q[i], registered, frames, call)
  {
    seq(|q|, i requires 0 <= i < |q| => ResultOf(q[i], registered, frames, call))
  }

  /** Each result is for the client and the request in the same place; it is a success exactly when the model is
      registered and the callable returned, and carries the response, or the error that was raised. */
  lemma ResultsBelong(q: seq<Request>, registered: set<ModelId>, frames: Frames, call: Callable, i: nat)
    requires NoneEscapes(q, registered, frames) && i < |q|
    ensures var r, d := q[i], ResultsOf(q, registered, frames, call)[i];
            && d.client == r.client && d.reqId == r.id
            && (r.model !in registered ==> !d.success)
            && (r.model in registered ==>
                  && Observed(r, frames).Some?
                  && match call(r, Observed(r, frames).value)
                     case Returns(response) => d.success && d.body == response
                     case Raises(error) => !d.success && d.body == error)
  {
    assert !Escapes(q[i], registered, frames);
  }

  // ---------- Stable grouping ----------

  function ForModel(q: seq<Request>, m: ModelId): (mine: seq<Request>) {
    Filter(q, (r: Request) => r.model == m)
  }

  /** The models of a list of requests in the order in which they are first seen. */
  ghost function FirstSeen(q: seq<Request>): (ms: seq<ModelId>)
    ensures forall m :: m in ms <==> exists r :: r in q && r.model == m
  {
    if q == [] then []
    else
      var front, last := q[..|q| - 1], q[|q| - 1];
      assert q == front + [last];
      var ms := FirstSeen(front);
      if last.model in ms then ms else ms + [last.model]
  }

  /** The requests model by model, each model's requests in their original order. */
  ghost function GroupedBy(q: seq<Request>, ms: seq<ModelId>): (grouped: seq<Request>) {
    if ms == [] then [] else GroupedBy(q, ms[..|ms| - 1]) + ForModel(q, ms[|ms| - 1])
  }

  ghost function Grouped(q: seq<Request>): (grouped: seq<Request>) {
    GroupedBy(q, FirstSeen(q))
  }

  lemma {:induction false} FirstSeenOnce(q: seq<Request>)
    ensures NoDuplicates(FirstSeen(q))
  {
    if q != [] {
      FirstSeenOnce(q[..|q| - 1]);
      if q[|q| - 1].model !in FirstSeen(q[..|q| - 1]) {
        NoDuplicatesAppend(FirstSeen(q[..|q| - 1]), q[|q| - 1].model);
      }
    }
  }

  /** Within one model, grouping changes no order and loses nothing. */
  lemma {:induction false} GroupedFilter(q: seq<Request>, ms: seq<ModelId>, m: ModelId)
    requires NoDuplicates(ms)
    ensures ForModel(GroupedBy(q, ms), m) == if m in ms then ForModel(q, m) else []
  {
    if ms != [] {
      var front, last := ms[..|ms| - 1], ms[|ms| - 1];
      assert ms == front + [last];
      GroupedFilter(q, front, m);
      FilterAppend(GroupedBy(q, front), ForModel(q, last), (r: Request) => r.model == m);
      FilterTwice(q, last, m);
      assert ForModel(q, m) + [] == ForModel(q, m);
    }
  }

  lemma {:induction false} FilterTwice(q: seq<Request>, last: ModelId, m: ModelId)
    ensures ForModel(ForModel(q, last), m) == if m == last then ForModel(q, m) else []
  {
    if q != [] {
      FilterTwice(q[1..], last, m);
    }
  }

  lemma StableGrouping(q: seq<Request>, m: ModelId)
    ensures ForModel(Grouped(q), m) == ForModel(q, m)
  {
    FirstSeenOnce(q);
    GroupedFilter(q, FirstSeen(q), m);
    if m !in FirstSeen(q) {
      FilterUniform(q, (r: Request) => r.model == m, false);
    }
  }

  /** In the list, a request for the model `a` comes before any for the model `b`. */
  ghost predicate SeenBefore(q: seq<Request>, a: ModelId, b: ModelId) {
    exists p :: 0 <= p < |q| && q[p].model == a && forall x :: 0 <= x <= p ==> q[x].model != b
  }

  lemma SeenBeforeStays(front: seq<Request>, last: Request, a: ModelId, b: ModelId)
    ensures SeenBefore(front, a, b) ==> SeenBefore(front + [last], a, b)
    ensures (exists r :: r in front && r.model == a) && (forall r :: r in front ==> r.model != b) ==>
              SeenBefore(front + [last], a, b)
  {
    var q := front + [last];
    assert forall x :: 0 <= x < |front| ==> q[x] == front[x];
    if SeenBefore(front, a, b) {
      var p :| 0 <= p < |front| && front[p].model == a && forall x :: 0 <= x <= p ==> front[x].model != b;
      assert q[p].model == a;
    }
    if (exists r :: r in front && r.model == a) && forall r :: r in front ==> r.model != b {
      var r :| r in front && r.model == a;
      var p :| 0 <= p < |front| && front[p] == r;
      assert q[p].model == a;
    }
  }

  lemma {:induction false} FirstSeenInOrder(q: seq<Request>)
    ensures forall x, y :: 0 <= x < y < |FirstSeen(q)| ==> SeenBefore(q, FirstSeen(q)[x], FirstSeen(q)[y])
  {
    if q != [] {
      var front, last := q[..|q| - 1], q[|q| - 1];
      assert q == front + [last];
      FirstSeenInOrder(front);
      var before, all := FirstSeen(front), FirstSeen(q);
      hide SeenBefore;
      forall x, y | 0 <= x < y < |all| ensures SeenBefore(q, all[x], all[y]) {
        SeenBeforeStays(front, last, all[x], all[y]);
        assert all[x] == before[x] && before[x] in before;
        if y < |before| {
          assert SeenBefore(front, before[x], before[y]);
        }
      }
    }
  }

  /** The models of a grouped list follow the order of the groups. */
  lemma {:induction false} GroupsInOrder(q: seq<Request>, ms: seq<ModelId>, i: nat, j: nat)
    requires i < j < |GroupedBy(q, ms)|
    ensures exists x, y :: 0 <= x <= y < |ms|
                           && GroupedBy(q, ms)[i].model == ms[x] && GroupedBy(q, ms)[j].model == ms[y]
  {
    var n := |ms| - 1;
    var front, mine := GroupedBy(q, ms[..n]), ForModel(q, ms[n]);
    FilterElements(q, (r: Request) => r.model == ms[n]);
    assert forall k :: 0 <= k < |mine| ==> mine[k] in mine;
    if j < |front| {
      GroupsInOrder(q, ms[..n], i, j);
      var x, y :| 0 <= x <= y < n && front[i].model == ms[..n][x] && front[j].model == ms[..n][y];
      assert ms[x] == ms[..n][x] && ms[y] == ms[..n][y];
    } else if i < |front| {
      var x := GroupOf(q, ms[..n], i);
      assert ms[x] == ms[..n][x];
    } else {
      assert GroupedBy(q, ms)[i].model == ms[n] && GroupedBy(q, ms)[j].model == ms[n];
    }
  }

  lemma {:induction false} GroupOf(q: seq<Request>, ms: seq<ModelId>, i: nat) returns (x: nat)
    requires i < |GroupedBy(q, ms)|
    ensures x < |ms| && GroupedBy(q, ms)[i].model == ms[x]
  {
    var n := |ms| - 1;
    var front, mine := GroupedBy(q, ms[..n]), ForModel(q, ms[n]);
    if i < |front| {
      x := GroupOf(q, ms[..n], i);
    } else {
      FilterElements(q, (r: Request) => r.model == ms[n]);
      assert mine[i - |front|] in mine;
      x := n;
    }
  }

  /** Grouping takes the models in the order in which they were first seen, and does not mix them: of two requests for
      different models, the one whose model was seen first comes first. */
  lemma GroupedInFirstSeenOrder(q: seq<Request>, i: nat, j: nat)
    requires i < j < |Grouped(q)| && Grouped(q)[i].model != Grouped(q)[j].model
    ensures SeenBefore(q, Grouped(q)[i].model, Grouped(q)[j].model)
  {
    GroupsInOrder(q, FirstSeen(q), i, j);
    FirstSeenInOrder(q);
  }

  lemma {:induction false} CountInModel(q: seq<Request>, r: Request)
    ensures multiset(q)[r] == multiset(ForModel(q, r.model))[r]
  {
    if q != [] {
      CountInModel(q[1..], r);
      assert q == [q[0]] + q[1..];
    }
  }

  /** Grouping is a permutation. */
  lemma GroupedSameRequests(q: seq<Request>)
    ensures multiset(Grouped(q)) == multiset(q)
  {
    forall r: Request ensures multiset(Grouped(q))[r] == multiset(q)[r] {
      CountInModel(Grouped(q), r);
      CountInModel(q, r);
      StableGrouping(q, r.model);
    }
  }

  /** `by_model[req.model_id].append(req)` for one request after the other. */
  method GroupByModel(requests: seq<Request>) returns (byModel: Queues<ModelId>)
    ensures byModel.keys == FirstSeen(requests)
    ensures forall m :: m in byModel.keys <==> m in byModel.at
    ensures forall m :: m in byModel.at ==> byModel.at[m] == ForModel(requests, m)
  {
    byModel := Queues([], map[]);
    for i := 0 to |requests|
      invariant byModel.keys == FirstSeen(requests[..i])
      invariant forall m :: m in byModel.keys <==> m in byModel.at
      invariant forall m :: m in byModel.at ==> byModel.at[m] == ForModel(requests[..i], m)
    {
      GroupOneMore(requests, i, byModel);
      byModel := Append(byModel, requests[i].model, requests[i]);
    }
    assert requests[..|requests|] == requests;
  }

  lemma GroupOneMore(requests: seq<Request>, i: nat, d: Queues<ModelId>)
    requires i < |requests| && d.keys == FirstSeen(requests[..i])
    requires forall m :: m in d.keys <==> m in d.at
    requires forall m :: m in d.at ==> d.at[m] == ForModel(requests[..i], m)
    ensures var e := Append(d, requests[i].model, requests[i]);
            && e.keys == FirstSeen(requests[..i + 1])
            && (forall m :: m in e.keys <==> m in e.at)
            && (forall m :: m in e.at ==> e.at[m] == ForModel(requests[..i + 1], m))
  {
    var r, seen := requests[i], requests[..i];
    assert requests[..i + 1] == seen + [r];
    assert (seen + [r])[..|seen|] == seen;
    var e := Append(d, r.model, r);
    forall m | m in e.at ensures e.at[m] == ForModel(seen + [r], m) {
      FilterAppend(seen, [r], (x: Request) => x.model == m);
      if m == r.model && m !in d.at {
        FilterUniform(seen, (x: Request) => x.model == m, false);
      }
      assert ForModel(seen, m) + [] == ForModel(seen, m);
    }
  }

  // ---------- Dispatch ----------

  /** `dispatch`: one result per request, model by model, unless the observation of a request for a
      registered model cannot be reconstructed; then there is none. */
  method Dispatch(requests: seq<Request>, registered: set<ModelId>, frames: Frames, call: Callable)
    returns (results: Option<seq<DispatchResult>>)
    ensures results.None? <==> !NoneEscapes(requests, registered, frames)
    ensures results.Some? ==>
              && NoneEscapes(Grouped(requests), registered, frames)
              && results.value == ResultsOf(Grouped(requests), registered, frames, call)
  {
    var byModel := GroupByModel(requests);
    var out := [];
    NoneEscapesPermuted(requests, registered, frames);
    for i := 0 to |byModel.keys|
      invariant NoneEscapes(GroupedBy(requests, byModel.keys[..i]), registered, frames)
      invariant out == ResultsOf(GroupedBy(requests, byModel.keys[..i]), registered, frames, call)
    {
      OneMoreModel(requests, byModel.keys, i, registered, frames, call);
      hide ForModel, GroupedBy, ResultsOf, NoneEscapes, FirstSeen;
      var answers := DispatchModel(byModel.at[byModel.keys[i]], registered, frames, call);
      if answers.None? {
        EscapesAmong(requests, byModel.keys[i], registered, frames);
        return None;
      }
      out := out + answers.value;
    }
    assert byModel.keys[..|byModel.keys|] == byModel.keys;
    results := Some(out);
  }

  lemma OneMoreModel(q: seq<Request>, ms: seq<ModelId>, i: nat, registered: set<ModelId>, frames: Frames,
                     call: Callable)
    requires i < |ms| && NoneEscapes(GroupedBy(q, ms[..i]), registered, frames)
    ensures NoneEscapes(ForModel(q, ms[i]), registered, frames) ==>
              && NoneEscapes(GroupedBy(q, ms[..i + 1]), registered, frames)
              && ResultsOf(GroupedBy(q, ms[..i + 1]), registered, frames, call)
                 == ResultsOf(GroupedBy(q, ms[..i]), registered, frames, call)
                    + ResultsOf(ForModel(q, ms[i]), registered, frames, call)
  {
    assert ms[..i + 1][..i] == ms[..i];
    assert GroupedBy(q, ms[..i + 1]) == GroupedBy(q, ms[..i]) + ForModel(q, ms[i]);
  }

  lemma EscapesAmong(q: seq<Request>, m: ModelId, registered: set<ModelId>, frames: Frames)
    requires !NoneEscapes(ForModel(q, m), registered, frames)
    ensures !NoneEscapes(q, registered, frames)
  {
    FilterElements(q, (r: Request) => r.model == m);
  }

  lemma NoneEscapesPermuted(q: seq<Request>, registered: set<ModelId>, frames: Frames)
    ensures NoneEscapes(Grouped(q), registered, frames) <==> NoneEscapes(q, registered, frames)
  {
    GroupedSameRequests(q);
    assert forall r :: r in q <==> r in multiset(q);
    assert forall r :: r in Grouped(q) <==> r in multiset(Grouped(q));
  }

  /** The inner loops of `dispatch`, for the requests of one model. */
  method DispatchModel(q: seq<Request>, registered: set<ModelId>, frames: Frames, call: Callable)
    returns (results: Option<seq<DispatchResult>>)
    ensures results.None? <==> !NoneEscapes(q, registered, frames)
    ensures results.Some? ==> results.value == ResultsOf(q, registered, frames, call)
  {
    var out := [];
    for i := 0 to |q|
      invariant NoneEscapes(q[..i], registered, frames)
      invariant out == ResultsOf(q[..i], registered, frames, call)
    {
      var r := q[i];
      assert q[..i + 1] == q[..i] + [r];
      if r.model !in registered {
        out := out + [NoModel(r)];
      } else {
        var obs := Reconstruct(frames(r.id).0, frames(r.id).1);
        if obs.None? {
          assert Escapes(r, registered, frames) && r in q;
          return None;
        }
        out := out + [Answer(r, call(r, obs.value))];
      }
    }
    assert q[..|q|] == q;
    results := Some(out);
  }

  /** For frames that the server has admitted, a batch loses all its results exactly when it holds a request
      for a registered model with a tensor whose length and shape do not agree. */
  lemma LostIffMisSized(q: seq<Request>, registered: set<ModelId>, frames: Frames)
    requires forall r :: r in q ==> Admitted(frames(r.id).0.tensors, |frames(r.id).1|)
    ensures NoneEscapes(q, registered, frames)
            <==> forall r :: r in q && r.model in registered ==> AllAgree(frames(r.id).0.tensors)
  {
    forall r | r in q
      ensures Observed(r, frames).Some? <==> AllAgree(frames(r.id).0.tensors)
    {
      AcceptedReadsIff(frames(r.id).0.tensors, frames(r.id).1);
    }
  }

  /** Twelve bytes said to be two 32-bit numbers: the server admits them, and they end the dispatch. */
  lemma MisSizedEscapes(r: Request, registered: set<ModelId>, frames: Frames)
    requires r.model in registered
    requires frames(r.id).0 == Envelope([Tensor("x", Float32, [2], 0, 12)], map[]) && |frames(r.id).1| == 12
    ensures Admitted(frames(r.id).0.tensors, |frames(r.id).1|) && Escapes(r, registered, frames)
  {
    var t, payload := Tensor("x", Float32, [2], 0, 12), frames(r.id).1;
    assert [2][..0] == [] && Product([2]) == 2;
    assert FirstNegative([2]) == 1;
    assert Slice(payload, 0, 12) == payload;
    assert ReadTensor(t, payload).None?;
    assert [t][..0] == [];
    assert ReadAll([t], payload).None?;
  }

  // ---------- The legacy loop ----------

  ghost function Concat(replies: seq<seq<Request>>): (joined: seq<Request>) {
    if replies == [] then [] else Concat(replies[..|replies| - 1]) + replies[|replies| - 1]
  }

  ghost predicate DistinctIds(q: seq<Request>) {
    forall i, j :: 0 <= i < j < |q| ==> q[i].id != q[j].id
  }

  lemma {:induction false} ConcatPrefix(replies: seq<seq<Request>>, n: nat)
    requires n <= |replies|
    ensures Concat(replies[..n]) <= Concat(replies)
    decreases |replies|
  {
    if n == |replies| {
      assert replies[..n] == replies;
    } else {
      assert replies[..|replies| - 1][..n] == replies[..n];
      ConcatPrefix(replies[..|replies| - 1], n);
    }
  }

  /** What the scheduler hands out on its `k`-th call; once the list is used up it has nothing ready. */
  function Reply(replies: seq<seq<Request>>, k: nat): (reply: seq<Request>) {
    if k < |replies| then replies[k] else []
  }

  /** The collecting loop, for any scheduler: successive non-empty replies are joined until there is
      enough, or nothing more is ready. */
  method Collect(replies: seq<seq<Request>>, maxConcurrent: nat, largest: nat)
    returns (batch: seq<Request>, taken: nat)
    requires maxConcurrent >= 1 && forall i :: 0 <= i < |replies| ==> |replies[i]| <= largest
    ensures taken <= |replies| && batch == Concat(replies[..taken])
    ensures forall i :: 0 <= i < taken ==> replies[i] != []
    ensures |batch| >= maxConcurrent || Reply(replies, taken) == []
    ensures taken > 0 ==> |batch| <= maxConcurrent - 1 + largest
    ensures taken > 1 ==> |Concat(replies[..taken - 1])| < maxConcurrent
    ensures DistinctIds(Concat(replies)) ==> DistinctIds(batch)
  {
    batch, taken := Reply(replies, 0), 0;
    if batch == [] {
      return;
    }
    taken := 1;
    assert replies[..1][..0] == [] && replies[..1][0] == replies[0];
    assert Concat([]) + batch == batch;
    while |batch| < maxConcurrent
      invariant 1 <= taken <= |replies| && batch == Concat(replies[..taken])
      invariant forall i :: 0 <= i < taken ==> replies[i] != []
      invariant |batch| <= maxConcurrent - 1 + largest
      invariant taken > 1 ==> |Concat(replies[..taken - 1])| < maxConcurrent
      decreases |replies| - taken
    {
      hide DistinctIds;
      var more := Reply(replies, taken);
      if more == [] {
        break;
      }
      assert replies[..taken + 1][..taken] == replies[..taken];
      batch := batch + more;
      taken := taken + 1;
    }
    ConcatPrefix(replies, taken);
  }

  /** How the legacy loop is done with a request. */
  datatype Ending =
    | Answered(request: Request)
    | SendFailed(request: Request)
    | Retried(request: Request)
    | Errored(request: Request)

  /** `delivered` says, for the identity of a request, whether sending its response works. */
  function EndingOf(r: Request, success: bool, maxRetries: nat, delivered: nat -> bool): (ending: Ending) {
    if success then (if delivered(r.id) then Answered(r) else SendFailed(r))
    else if r.retries < maxRetries then Retried(r)
    else Errored(r)
  }

  lemma SameIdSamePlace(q: seq<Request>, a: nat, b: nat)
    requires DistinctIds(q) && a < |q| && b < |q| && q[a].id == q[b].id
    ensures a == b
  {
  }

  /** `batch_by_id`. */
  function ById(batch: seq<Request>): (m: map<nat, Request>)
    ensures forall k :: k in m ==> m[k] in batch && m[k].id == k
    ensures forall r :: r in batch ==> r.id in m
  {
    if batch == [] then map[] else ById(batch[..|batch| - 1])[batch[|batch| - 1].id := batch[|batch| - 1]]
  }

  /** The loop over the results. */
  method Settle(batch: seq<Request>, results: seq<DispatchResult>, maxRetries: nat, delivered: nat -> bool,
                ghost grouped: seq<Request>)
    returns (endings: seq<Ending>)
    requires DistinctIds(batch) && multiset(grouped) == multiset(batch)
    requires |results| == |grouped| && forall i :: 0 <= i < |grouped| ==> results[i].reqId == grouped[i].id
    ensures |endings| == |grouped|
    ensures forall i :: 0 <= i < |grouped| ==>
              endings[i] == EndingOf(grouped[i], results[i].success, maxRetries, delivered)
  {
    var byId := ById(batch);
    hide DistinctIds, ById;
    endings := [];
    for i := 0 to |results|
      invariant |endings| == i
      invariant forall j :: 0 <= j < i ==>
                  endings[j] == EndingOf(grouped[j], results[j].success, maxRetries, delivered)
    {
      LookupFinds(batch, byId, grouped, i);
      var original := byId[results[i].reqId];
      endings := endings + [EndingOf(original, results[i].success, maxRetries, delivered)];
    }
  }

  /** The lookup never misses, and finds the request that the result is for. */
  lemma LookupFinds(batch: seq<Request>, byId: map<nat, Request>, grouped: seq<Request>, i: nat)
    requires DistinctIds(batch) && multiset(grouped) == multiset(batch) && i < |grouped|
    requires byId == ById(batch)
    ensures grouped[i].id in byId && byId[grouped[i].id] == grouped[i]
  {
    assert grouped[i] in multiset(batch);
    var a :| 0 <= a < |batch| && batch[a] == grouped[i];
    var b :| 0 <= b < |batch| && batch[b] == byId[grouped[i].id];
    SameIdSamePlace(batch, a, b);
  }

  /** The dispatch of a request succeeds. */
  ghost predicate Succeeds(r: Request, registered: set<ModelId>, frames: Frames, call: Callable) {
    r.model in registered && Observed(r, frames).Some? && call(r, Observed(r, frames).value).Returns?
  }

  /** What every request of a batch comes to, in the order of the results. */
  ghost function EndingsOf(q: seq<Request>, registered: set<ModelId>, frames: Frames, call: Callable,
                           maxRetries: nat, delivered: nat -> bool): (es: seq<Ending>)
    ensures |es| == |q|
    ensures forall i :: 0 <= i < |q| ==>
              es[i] == EndingOf(q[i], Succeeds(q[i], registered, frames, call), maxRetries, delivered)
  {
    seq(|q|, i requires 0 <= i < |q| =>
      EndingOf(q[i], Succeeds(q[i], registered, frames, call), maxRetries, delivered))
  }

  /** One turn of the legacy loop, from a collected batch to its endings. Every request of the batch has
      exactly one ending, and it is retried exactly when its dispatch failed and it has retries left;
      unless an observation cannot be reconstructed, and then no request has an ending at all, and the
      exception leaves the loop. */
  method LegacyRound(batch: seq<Request>, registered: set<ModelId>, frames: Frames, call: Callable,
                     maxRetries: nat, delivered: nat -> bool)
    returns (endings: Option<seq<Ending>>)
    requires DistinctIds(batch)
    ensures endings.None? <==> !NoneEscapes(batch, registered, frames)
    ensures endings.Some? ==>
              endings.value == EndingsOf(Grouped(batch), registered, frames, call, maxRetries, delivered)
  {
    GroupedSameRequests(batch);
    var results := Dispatch(batch, registered, frames, call);
    if results.None? {
      return None;
    }
    ghost var grouped := Grouped(batch);
    var settled := Settle(batch, results.value, maxRetries, delivered, grouped);
    forall i | 0 <= i < |grouped|
      ensures results.value[i].success == Succeeds(grouped[i], registered, frames, call)
    {
      assert results.value[i] == ResultOf(grouped[i], registered, frames, call);
      assert !Escapes(grouped[i], registered, frames);
    }
    assert settled == EndingsOf(grouped, registered, frames, call, maxRetries, delivered);
    endings := Some(settled);
  }

  ghost function Origins(endings: seq<Ending>): (q: seq<Request>)
    ensures |q| == |endings| && forall i :: 0 <= i < |q| ==> q[i] == endings[i].request
  {
    seq(|endings|, i requires 0 <= i < |endings| => endings[i].request)
  }

  /** The endings of a turn belong, one for one, to the requests of its batch, and each follows from how the
      dispatch went: it is retried exactly when it failed and has a retry left. */
  lemma OneEndingEach(batch: seq<Request>, registered: set<ModelId>, frames: Frames, call: Callable,
                      maxRetries: nat, delivered: nat -> bool)
    ensures var es := EndingsOf(Grouped(batch), registered, frames, call, maxRetries, delivered);
            && multiset(Origins(es)) == multiset(batch)
            && forall e :: e in es ==>
                 var ok := Succeeds(e.request, registered, frames, call);
                 && (e.Retried? <==> !ok && e.request.retries < maxRetries)
                 && (e.Errored? <==> !ok && e.request.retries >= maxRetries)
                 && (e.Answered? <==> ok && delivered(e.request.id))
                 && (e.SendFailed? <==> ok && !delivered(e.request.id))
  {
    GroupedSameRequests(batch);
    var es := EndingsOf(Grouped(batch), registered, frames, call, maxRetries, delivered);
    assert Origins(es) == Grouped(batch);
    hide Succeeds, Grouped;
    forall e | e in es
      ensures var ok := Succeeds(e.request, registered, frames, call);
              && (e.Retried? <==> !ok && e.request.retries < maxRetries)
              && (e.Errored? <==> !ok && e.request.retries >= maxRetries)
              && (e.Answered? <==> ok && delivered(e.request.id))
              && (e.SendFailed? <==> ok && !delivered(e.request.id))
    {
      var i :| 0 <= i < |es| && es[i] == e;
    }
  }
}
