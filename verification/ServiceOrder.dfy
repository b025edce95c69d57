/** The order in which a set of queued requests is served, independent of any heap layout. */
module ServiceOrder {
  import opened Requests

  /** No two queued requests share an enqueue counter, so `Before` is a strict total order on them. */
  ghost predicate Distinct(s: set<Request>) {
    forall a, b {:trigger SameCounter(a, b)} :: a in s && b in s && SameCounter(a, b) ==> a == b
  }

  ghost predicate SameCounter(a: Request, b: Request) {
    a.counter == b.counter
  }

  lemma DistinctSubset(s: set<Request>, t: set<Request>)
    requires Distinct(s) && t <= s
    ensures Distinct(t)
  {
  }

  ghost predicate IsFirst(x: Request, s: set<Request>) {
    x in s && forall y :: y in s && y != x ==> Before(x, y)
  }

  lemma {:induction false} FirstExists(s: set<Request>)
    requires s != {} && Distinct(s)
    ensures exists x :: IsFirst(x, s)
  {
    var y :| y in s;
    var t := s - {y};
    if t == {} {
      assert s == {y};
      assert IsFirst(y, s);
    } else {
      FirstExists(t);
      var x :| IsFirst(x, t);
      assert s == t + {y};
      assert !SameCounter(x, y);
      assert if Before(x, y) then IsFirst(x, s) else IsFirst(y, s);
    }
  }

  ghost function First(s: set<Request>): (x: Request)
    requires s != {} && Distinct(s)
    ensures IsFirst(x, s)
  {
    FirstExists(s);
    var x :| IsFirst(x, s);
    x
  }

  /** The request that precedes all others, if there is one: what a pop returns. */
  ghost function Head(s: set<Request>): (x: Option<Request>)
    ensures x.Some? ==> IsFirst(x.value, s)
  {
    if exists x :: IsFirst(x, s) then
      var x :| IsFirst(x, s);
      Some(x)
    else None
  }

  lemma HeadIsFirst(s: set<Request>)
    requires Distinct(s)
    ensures Head(s) == if s == {} then None else Some(First(s))
  {
    if s != {} {
      FirstExists(s);
    }
  }

  lemma FirstIsUnique(s: set<Request>, x: Request)
    requires Distinct(s) && IsFirst(x, s)
    ensures First(s) == x
  {
  }

  /** The service order: repeatedly the request that precedes all others. */
  ghost function Order(s: set<Request>): (q: seq<Request>)
    requires Distinct(s)
    decreases |s|
  {
    if s == {} then [] else [First(s)] + Order(s - {First(s)})
  }

  lemma {:induction false} OrderIsSorted(s: set<Request>)
    requires Distinct(s)
    ensures Represents(Order(s), s) && Sorted(Order(s))
    decreases |s|
  {
    if s != {} {
      var x := First(s);
      OrderIsSorted(s - {x});
      var rest := Order(s - {x});
      RepresentsMembers(rest, s - {x});
      AddRepresents(rest, Order(s), s - {x}, x);
      assert s - {x} + {x} == s;
      forall i | 0 <= i < |rest| ensures Before(x, rest[i]) {
        assert rest[i] in rest;
      }
    }
  }

  ghost predicate Sorted(q: seq<Request>) {
    forall i, j :: 0 <= i < j < |q| ==> Before(q[i], q[j])
  }

  /** A sorted list of the elements of `s` can only be the service order of `s`. */
  lemma {:induction false} SortedIsOrder(q: seq<Request>, s: set<Request>)
    requires Distinct(s) && Represents(q, s) && Sorted(q)
    ensures q == Order(s)
  {
    RepresentsMembers(q, s);
    if q != [] {
      HeadRepresents(q, s);
      assert IsFirst(q[0], s);
      assert First(s) == q[0];
      SortedIsOrder(q[1..], s - {q[0]});
    }
  }

  lemma {:induction false} SortedFilter(q: seq<Request>, keep: Request -> bool)
    requires Sorted(q)
    ensures Sorted(Filter(q, keep))
  {
    if q != [] {
      SortedFilter(q[1..], keep);
      FilterElements(q[1..], keep);
      var rest := Filter(q[1..], keep);
      forall i | 0 <= i < |rest| ensures Before(q[0], rest[i]) {
        assert rest[i] in rest;
      }
    }
  }

  /** Removing requests never reorders the survivors: what is left is served in the old order
      with the removed requests left out. */
  lemma RemovalKeepsOrder(s: set<Request>, keep: Request -> bool)
    requires Distinct(s)
    ensures Order(Select(s, keep)) == Filter(Order(s), keep)
  {
    OrderIsSorted(s);
    FilterRepresents(Order(s), s, keep);
    SortedFilter(Order(s), keep);
    SortedIsOrder(Filter(Order(s), keep), Select(s, keep));
  }

  /** Nor does a submission reorder anything: without the new request, the order is the old one without
      the evicted ones. */
  lemma SubmitKeepsOrder(s: set<Request>, gone: set<Request>, x: Request)
    requires Distinct(s) && Distinct(s - gone + {x}) && x !in s
    ensures Filter(Order(s - gone + {x}), Except(x)) == Filter(Order(s), NotIn(gone))
  {
    SelectReplaced(s, gone, x);
    RemovalKeepsOrder(s, NotIn(gone));
    RemovalKeepsOrder(s - gone + {x}, Except(x));
  }

  /** Of two queued requests, the one that precedes the other is served first. */
  lemma PrecedingServedFirst(s: set<Request>, a: Request, b: Request)
    requires Distinct(s) && a in s && b in s && Before(a, b)
    ensures First(s) != b && |Order(s)| == |s|
    ensures exists i, j :: 0 <= i < j < |s| && Order(s)[i] == a && Order(s)[j] == b
  {
    OrderIsSorted(s);
    var q := Order(s);
    RepresentsMembers(q, s);
    hide Represents, Order, Distinct;
    var i :| 0 <= i < |q| && q[i] == a;
    var j :| 0 <= j < |q| && q[j] == b;
    assert i < j by {
      assert j < i ==> Before(b, a);
    }
  }

  /** What `heappop` returns is the first request in service order. */
  lemma PoppedIsFirst(h: seq<Request>, s: set<Request>, x: Request, g: seq<Request>)
    requires Represents(h, s) && Distinct(s)
    requires multiset(h) == multiset(g) + multiset{x}
    requires forall y :: y in h ==> AtMost(x, y)
    ensures IsFirst(x, s) && x == First(s) && Represents(g, s - {x})
    ensures Order(s) == [x] + Order(s - {x})
  {
    RepresentsMembers(h, s);
    RemoveRepresents(h, g, s, x);
    forall y | y in s && y != x ensures Before(x, y) {
      assert y in h && !SameCounter(x, y);
    }
  }
}
