/** The inference request and the order in which requests are served
    (scheduler/request.py, and the expiry test of scheduler/base.py). */
module Requests {

  datatype Option<+T> = None | Some(value: T)

  datatype ClientId = ClientId(name: string)

  datatype ModelId = ModelId(name: string)

  /** A latency budget; the source divides by it. */
  type Budget = x: real | x > 0.0 witness 50.0

  /** `id` stands for the identity of the Python object together with the frames it carries
      (identity, envelope, payload), which no scheduler looks into. The fields `score` and `counter`
      are assigned when the request is enqueued, `retries` when it is sent back to the queue. */
  datatype Request = Request(
    id: nat,
    client: ClientId,
    model: ModelId,
    receivedAt: real,
    urgency: real,
    steps: Option<nat>,
    timeUntilNext: real,
    budgetMs: Budget,
    priority: nat,
    score: real,
    retries: nat,
    counter: nat)

  /** What `submit` does: queue the request, or raise `QueueFullError` (scheduler/base.py:13-22). */
  datatype SubmitResult = Queued(request: Request) | QueueFull(client: ClientId)

  /** `__lt__`: the higher score first, the earlier enqueued first among equal scores. */
  predicate Before(a: Request, b: Request) {
    if a.score != b.score then a.score > b.score else a.counter < b.counter
  }

  /** The total preorder behind `Before`. */
  predicate AtMost(a: Request, b: Request) {
    !Before(b, a)
  }

  /** `_is_expired`, with the clock reading as a parameter. */
  predicate Expired(r: Request, now: real, ttlMs: real) {
    (now - r.receivedAt) * 1000.0 > ttlMs
  }

  /** Expiry is a deadline: a request lives for `ttlMs` milliseconds after its arrival, the end included. */
  lemma ExpiryIsADeadline(r: Request, now: real, ttlMs: real)
    ensures Expired(r, now, ttlMs) <==> now > r.receivedAt + ttlMs / 1000.0
  {
  }

  /** What an eviction keeps. */
  function Except(victim: Request): (keep: Request -> bool) {
    (r: Request) => r != victim
  }

  /** What `tick` drops and what it keeps. */
  function HasExpired(now: real, ttlMs: real): (test: Request -> bool) {
    (r: Request) => Expired(r, now, ttlMs)
  }

  function NotExpired(now: real, ttlMs: real): (keep: Request -> bool) {
    (r: Request) => !Expired(r, now, ttlMs)
  }

  /** What `on_client_disconnected` drops and what it keeps. */
  function From(client: ClientId): (test: Request -> bool) {
    (r: Request) => r.client == client
  }

  function NotFrom(client: ClientId): (keep: Request -> bool) {
    (r: Request) => r.client != client
  }

  /** A Python list comprehension that keeps some elements of a list. */
  function Filter<T>(q: seq<T>, keep: T -> bool): (r: seq<T>)
    ensures |r| <= |q|
  {
    if q == [] then []
    else if keep(q[0]) then [q[0]] + Filter(q[1..], keep)
    else Filter(q[1..], keep)
  }

  lemma {:induction false} FilterElements<T(!new)>(q: seq<T>, keep: T -> bool)
    ensures forall x :: x in Filter(q, keep) <==> x in q && keep(x)
  {
    if q != [] {
      FilterElements(q[1..], keep);
      assert q == [q[0]] + q[1..];
    }
  }

  lemma {:induction false} FilterAppend<T(!new)>(p: seq<T>, q: seq<T>, keep: T -> bool)
    ensures Filter(p + q, keep) == Filter(p, keep) + Filter(q, keep)
  {
    if p == [] {
      assert p + q == q;
    } else {
      var s, rest := p + q, p[1..];
      assert s[1..] == rest + q;
      FilterAppend(rest, q, keep);
      if keep(p[0]) {
        assert Filter(p, keep) == [p[0]] + Filter(rest, keep);
        assert Filter(s, keep) == [p[0]] + Filter(rest + q, keep);
      }
    }
  }

  /** Two filters that agree on the elements of a list keep the same. */
  lemma {:induction false} FilterAgree<T(!new)>(q: seq<T>, f: T -> bool, g: T -> bool)
    requires forall x :: x in q ==> f(x) == g(x)
    ensures Filter(q, f) == Filter(q, g)
  {
    if q != [] {
      FilterAgree(q[1..], f, g);
    }
  }

  /** A list filtered twice. */
  lemma {:induction false} FilterFilter<T(!new)>(q: seq<T>, f: T -> bool, g: T -> bool, both: T -> bool)
    requires forall x :: both(x) <==> f(x) && g(x)
    ensures Filter(Filter(q, f), g) == Filter(q, both)
  {
    if q != [] {
      FilterFilter(q[1..], f, g, both);
    }
  }

  /** A filter that treats all elements alike keeps all of them or none. */
  lemma {:induction false} FilterUniform<T(!new)>(q: seq<T>, keep: T -> bool, yes: bool)
    requires forall x :: x in q ==> keep(x) == yes
    ensures Filter(q, keep) == if yes then q else []
  {
    if q != [] {
      FilterUniform(q[1..], keep, yes);
      assert q == [q[0]] + q[1..];
      assert q[0] in q;
    }
  }

  lemma ConcatAssociates<T>(p: seq<T>, q: seq<T>, r: seq<T>)
    ensures p + (q + r) == (p + q) + r
  {
  }

  ghost function Select<T(!new)>(s: set<T>, keep: T -> bool): (kept: set<T>) {
    set x | x in s && keep(x)
  }

  ghost predicate SameId(a: Request, b: Request) {
    a.id == b.id
  }

  /** No two requests of `s` are the same Python object. */
  ghost predicate UniqueIds(s: set<Request>) {
    forall a, b {:trigger SameId(a, b)} :: a in s && b in s && SameId(a, b) ==> a == b
  }

  /** What a set of evicted requests leaves. */
  ghost function NotIn(gone: set<Request>): (keep: Request -> bool) {
    (r: Request) => r !in gone
  }

  /** Replacing `gone` by a new request, seen from both ends. */
  lemma SelectReplaced(s: set<Request>, gone: set<Request>, x: Request)
    requires x !in s
    ensures Select(s, NotIn(gone)) == s - gone == Select(s - gone + {x}, Except(x))
  {
  }

  lemma SelectExcept(s: set<Request>, victim: Request)
    ensures Select(s, Except(victim)) == s - {victim}
  {
  }

  /** The list `q` holds exactly the elements of `s`, each once. */
  ghost predicate Represents<T>(q: seq<T>, s: set<T>) {
    multiset(q) == multiset(s)
  }

  lemma RepresentsMembers<T(!new)>(q: seq<T>, s: set<T>)
    requires Represents(q, s)
    ensures |q| == |s| && forall x :: x in q <==> x in s
  {
    assert |q| == |multiset(q)| == |multiset(s)|;
    assert forall x :: x in q <==> x in multiset(q);
  }

  lemma AddRepresents<T>(p: seq<T>, q: seq<T>, s: set<T>, x: T)
    requires multiset(q) == multiset(p) + multiset{x} && Represents(p, s) && x !in s
    ensures Represents(q, s + {x})
  {
    assert multiset(s + {x}) == multiset(s) + multiset{x};
  }

  lemma RemoveRepresents<T>(p: seq<T>, q: seq<T>, s: set<T>, x: T)
    requires multiset(p) == multiset(q) + multiset{x} && Represents(p, s)
    ensures x in s && Represents(q, s - {x})
  {
    assert multiset(s)[x] == multiset(q)[x] + 1;
    assert multiset(q) == multiset(s) - multiset{x};
    assert multiset(s - {x}) == multiset(s) - multiset{x};
  }

  lemma HeadRepresents<T>(q: seq<T>, s: set<T>)
    requires q != [] && Represents(q, s)
    ensures q[0] in s && Represents(q[1..], s - {q[0]})
  {
    assert q == [q[0]] + q[1..];
    RemoveRepresents(q, q[1..], s, q[0]);
  }

  lemma {:induction false} FilterRepresents<T(!new)>(q: seq<T>, s: set<T>, keep: T -> bool)
    requires Represents(q, s)
    ensures Represents(Filter(q, keep), Select(s, keep))
  {
    if q == [] {
      assert |multiset(s)| == 0;
      assert Select(s, keep) == {};
    } else {
      var t := s - {q[0]};
      HeadRepresents(q, s);
      FilterRepresents(q[1..], t, keep);
      assert Select(s, keep) == if keep(q[0]) then Select(t, keep) + {q[0]} else Select(t, keep);
    }
  }
}
