/** The list operations of Python's `heapq`, on which every deadline scheduler rests:
    the hole-moving loops `_siftdown` and `_siftup`, and `heappush`, `heappop`, `heapify`.
    A list is a sequence that the methods reassign. */
module BinaryHeap {
  import opened Requests

  function Parent(i: int): (p: int)
    requires 0 < i
    ensures 0 <= p < i
  {
    (i - 1) / 2
  }

  /** Every link whose upper end is at `start` or later is in order. */
  ghost predicate HeapFrom(h: seq<Request>, start: nat) {
    forall i {:trigger Parent(i)} :: 0 < i < |h| && start <= Parent(i) ==> AtMost(h[Parent(i)], h[i])
  }

  ghost predicate IsHeap(h: seq<Request>) {
    HeapFrom(h, 0)
  }

  /** As `HeapFrom`, except for the link above `hole`. */
  ghost predicate HeapExceptAbove(h: seq<Request>, start: nat, hole: nat) {
    forall i {:trigger Parent(i)} :: 0 < i < |h| && start <= Parent(i) && i != hole ==> AtMost(h[Parent(i)], h[i])
  }

  /** As `HeapFrom`, except for the links above and below `hole`. */
  ghost predicate HeapExceptAround(h: seq<Request>, start: nat, hole: nat) {
    forall i {:trigger Parent(i)} :: 0 < i < |h| && start <= Parent(i) && i != hole && Parent(i) != hole
                ==> AtMost(h[Parent(i)], h[i])
  }

  /** The parent of the hole may stand above the children of the hole. */
  ghost predicate Bridged(h: seq<Request>, start: nat, hole: nat) {
    start < hole < |h| ==>
      forall c {:trigger Parent(c)} :: 0 < c < |h| && Parent(c) == hole ==> AtMost(h[Parent(hole)], h[c])
  }

  /** Walking up from `pos` meets `start`. */
  ghost predicate Descends(start: nat, pos: nat) {
    pos == start || (start < pos && Descends(start, Parent(pos)))
  }

  lemma SwapKeepsItems(h: seq<Request>, i: nat, j: nat)
    requires i < |h| && j < |h|
    ensures multiset(h[i := h[j]][j := h[i]]) == multiset(h)
  {
  }

  /** Exchanging an item with a parent it precedes moves the broken link one level up. */
  lemma RiseStep(h: seq<Request>, start: nat, p: nat, g: seq<Request>)
    requires start < p < |h| && Descends(start, p)
    requires HeapExceptAbove(h, start, p) && Bridged(h, start, p)
    requires Before(h[p], h[Parent(p)])
    requires g == h[p := h[Parent(p)]][Parent(p) := h[p]]
    ensures HeapExceptAbove(g, start, Parent(p)) && Bridged(g, start, Parent(p))
  {
    var q := Parent(p);
    forall i | 0 < i < |g| && start <= Parent(i) && i != q
      ensures AtMost(g[Parent(i)], g[i])
    {
      assert i != p ==> AtMost(h[Parent(i)], h[i]);
    }
    if start < q {
      assert Descends(start, q) && Descends(start, Parent(q));
      assert AtMost(h[Parent(q)], h[q]);
      forall c | 0 < c < |g| && Parent(c) == q
        ensures AtMost(g[Parent(q)], g[c])
      {
        assert c != p ==> AtMost(h[q], h[c]);
      }
    }
  }

  /** Pulling the smaller child into the hole moves the hole one level down. */
  lemma SinkStep(h: seq<Request>, start: nat, p: nat, c: nat, g: seq<Request>)
    requires start <= p < c < |h| && Parent(c) == p
    requires HeapExceptAround(h, start, p) && Bridged(h, start, p)
    requires forall i :: 0 < i < |h| && Parent(i) == p ==> AtMost(h[c], h[i])
    requires g == h[p := h[c]]
    ensures HeapExceptAround(g, start, c) && Bridged(g, start, c)
  {
    forall i | 0 < i < |g| && start <= Parent(i) && i != c && Parent(i) != c
      ensures AtMost(g[Parent(i)], g[i])
    {
      assert Parent(i) != p && i != p ==> AtMost(h[Parent(i)], h[i]);
    }
    forall i | 0 < i < |g| && Parent(i) == c
      ensures AtMost(g[Parent(c)], g[i])
    {
      assert AtMost(h[Parent(i)], h[i]);
    }
  }

  /** A hole without children can be filled with any item. */
  lemma LeafFilled(h: seq<Request>, start: nat, p: nat, x: Request)
    requires p < |h| <= 2 * p + 1
    requires HeapExceptAround(h, start, p)
    ensures HeapExceptAbove(h[p := x], start, p) && Bridged(h[p := x], start, p)
  {
  }

  /** `_siftdown`: move the item at `pos` towards `start` until its parent is not after it. */
  method SiftDown(h: seq<Request>, start: nat, pos: nat) returns (g: seq<Request>)
    requires pos < |h| && Descends(start, pos)
    requires HeapExceptAbove(h, start, pos) && Bridged(h, start, pos)
    ensures multiset(g) == multiset(h)
    ensures HeapFrom(g, start)
  {
    g := h;
    var newItem := h[pos];
    var p := pos;
    ghost var filled := h;
    while start < p
      invariant p < |g| == |h| && Descends(start, p)
      invariant filled == g[p := newItem] && multiset(filled) == multiset(h)
      invariant HeapExceptAbove(filled, start, p) && Bridged(filled, start, p)
    {
      var parentPos := Parent(p);
      var parent := g[parentPos];
      if !Before(newItem, parent) {
        break;
      }
      g := g[p := parent];
      ghost var next := filled[p := parent][parentPos := newItem];
      SwapKeepsItems(filled, p, parentPos);
      RiseStep(filled, start, p, next);
      filled := next;
      p := parentPos;
    }
    g := g[p := newItem];
  }

  /** `_siftup`: pull the smaller children up from `pos` to a leaf, then let the item rise again. */
  method SiftUp(h: seq<Request>, pos: nat) returns (g: seq<Request>)
    requires pos < |h| && HeapFrom(h, pos + 1)
    ensures multiset(g) == multiset(h)
    ensures HeapFrom(g, pos)
  {
    g := h;
    var newItem := h[pos];
    var p := pos;
    var child := 2 * pos + 1;
    while child < |g|
      invariant pos <= p < |g| == |h| && child == 2 * p + 1 && Descends(pos, p)
      invariant multiset(g[p := newItem]) == multiset(h)
      invariant HeapExceptAround(g, pos, p) && Bridged(g, pos, p)
    {
      var right := child + 1;
      if right < |g| && !Before(g[child], g[right]) {
        child := right;
      }
      PullStep(g, pos, p, child, newItem);
      g := g[p := g[child]];
      p := child;
      child := 2 * p + 1;
    }
    LeafFilled(g, pos, p, newItem);
    g := SiftDown(g[p := newItem], pos, p);
  }

  /** One turn of the `_siftup` loop. */
  lemma PullStep(g: seq<Request>, start: nat, p: nat, c: nat, x: Request)
    requires start <= p < c < |g| && (c == 2 * p + 1 || c == 2 * p + 2)
    requires c == 2 * p + 1 && c + 1 < |g| ==> Before(g[c], g[c + 1])
    requires c == 2 * p + 2 ==> !Before(g[c - 1], g[c])
    requires Descends(start, p) && HeapExceptAround(g, start, p) && Bridged(g, start, p)
    ensures Descends(start, c)
    ensures HeapExceptAround(g[p := g[c]], start, c) && Bridged(g[p := g[c]], start, c)
    ensures multiset(g[p := g[c]][c := x]) == multiset(g[p := x])
  {
    SmallerChild(g, p, c);
    SinkStep(g, start, p, c, g[p := g[c]]);
    SwapKeepsItems(g[p := x], p, c);
    assert g[p := x][p := g[p := x][c]][c := x] == g[p := g[c]][c := x];
  }

  lemma SmallerChild(g: seq<Request>, p: nat, c: nat)
    requires c < |g| && (c == 2 * p + 1 || c == 2 * p + 2)
    requires c == 2 * p + 1 && c + 1 < |g| ==> Before(g[c], g[c + 1])
    requires c == 2 * p + 2 ==> !Before(g[c - 1], g[c])
    ensures Parent(c) == p
    ensures forall i :: 0 < i < |g| && Parent(i) == p ==> AtMost(g[c], g[i])
  {
    forall i | 0 < i < |g| && Parent(i) == p ensures AtMost(g[c], g[i]) {
      assert i == 2 * p + 1 || i == 2 * p + 2;
    }
  }

  /** `heappush`. */
  method HeapPush(h: seq<Request>, x: Request) returns (g: seq<Request>)
    requires IsHeap(h)
    ensures IsHeap(g)
    ensures multiset(g) == multiset(h) + multiset{x}
  {
    g := h + [x];
    DescendsFromRoot(|h|);
    g := SiftDown(g, 0, |h|);
  }

  /** `heappop` on a non-empty heap: returns an item that no other item precedes. */
  method HeapPop(h: seq<Request>) returns (x: Request, g: seq<Request>)
    requires IsHeap(h) && h != []
    ensures IsHeap(g)
    ensures multiset(h) == multiset(g) + multiset{x}
    ensures forall y :: y in h ==> AtMost(x, y)
  {
    RootIsFirst(h);
    var last := h[|h| - 1];
    g := h[..|h| - 1];
    assert h == g + [last];
    if g != [] {
      x := g[0];
      assert multiset(g[0 := last]) + multiset{x} == multiset(h);
      g := g[0 := last];
      g := SiftUp(g, 0);
    } else {
      x := last;
    }
  }

  /** `heapify`: any list becomes a heap of the same items. */
  method Heapify(h: seq<Request>) returns (g: seq<Request>)
    ensures IsHeap(g)
    ensures multiset(g) == multiset(h)
  {
    g := h;
    var i := |h| / 2;
    while i > 0
      invariant 0 <= i <= |h| / 2 && multiset(g) == multiset(h) && |g| == |h|
      invariant HeapFrom(g, i)
    {
      i := i - 1;
      g := SiftUp(g, i);
      assert |g| == |multiset(g)| == |multiset(h)| == |h|;
    }
  }

  lemma DescendsFromRoot(pos: nat)
    ensures Descends(0, pos)
  {
    if pos > 0 {
      DescendsFromRoot(Parent(pos));
    }
  }

  /** Nothing in a heap precedes its root. */
  lemma RootIsFirst(h: seq<Request>)
    requires IsHeap(h) && h != []
    ensures forall y :: y in h ==> AtMost(h[0], y)
  {
    forall i | 0 <= i < |h| ensures AtMost(h[0], h[i]) {
      RootAtMost(h, i);
    }
  }

  lemma {:induction false} RootAtMost(h: seq<Request>, i: nat)
    requires IsHeap(h) && i < |h|
    ensures AtMost(h[0], h[i])
  {
    if i > 0 {
      RootAtMost(h, Parent(i));
    }
  }
}
