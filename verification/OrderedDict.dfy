/** What the schedulers rely on in Python's insertion-ordered dictionaries of lists: the keys in the order
    in which they are iterated, each once, and the sum of the list lengths. */
module OrderedDict {
  import opened Requests

  ghost predicate NoDuplicates<T>(q: seq<T>) {
    q == [] || (q[|q| - 1] !in q[..|q| - 1] && NoDuplicates(q[..|q| - 1]))
  }

  lemma {:induction false} NoDuplicatesAt<T>(q: seq<T>, i: nat)
    requires NoDuplicates(q) && i < |q|
    ensures q[i] !in q[..i] && NoDuplicates(q[..i]) && q[..i + 1] == q[..i] + [q[i]]
  {
    if i < |q| - 1 {
      NoDuplicatesAt(q[..|q| - 1], i);
      assert q[..|q| - 1][..i] == q[..i];
    }
  }

  lemma NoDuplicatesAppend<T>(q: seq<T>, x: T)
    requires NoDuplicates(q) && x !in q
    ensures NoDuplicates(q + [x])
  {
    assert (q + [x])[..|q|] == q;
  }

  lemma {:induction false} NoDuplicatesFilter<T(!new)>(q: seq<T>, keep: T -> bool)
    requires NoDuplicates(q)
    ensures NoDuplicates(Filter(q, keep))
  {
    if q != [] {
      var front, last := q[..|q| - 1], q[|q| - 1];
      NoDuplicatesFilter(front, keep);
      FilterElements(front, keep);
      assert q == front + [last];
      FilterAppend(front, [last], keep);
      if keep(last) {
        NoDuplicatesAppend(Filter(front, keep), last);
      } else {
        assert Filter(front, keep) + [] == Filter(front, keep);
      }
    }
  }

  /** The elements of two lists are disjoint and each list is free of duplicates. */
  lemma {:induction false} NoDuplicatesConcat<T>(p: seq<T>, q: seq<T>)
    ensures NoDuplicates(p + q) <==> NoDuplicates(p) && NoDuplicates(q) && forall x :: x in p ==> x !in q
  {
    if q == [] {
      assert p + q == p;
    } else {
      var front := q[..|q| - 1];
      assert (p + q)[..|p + q| - 1] == p + front;
      assert q == front + [q[|q| - 1]];
      NoDuplicatesConcat(p, front);
    }
  }

  /** The sum of the list lengths over some keys. */
  ghost function SumOfSizes<K>(keys: seq<K>, at: map<K, seq<Request>>): (sum: nat)
    requires forall k :: k in keys ==> k in at
  {
    if keys == [] then 0
    else SumOfSizes(keys[..|keys| - 1], at) + |at[keys[|keys| - 1]]|
  }

  lemma {:induction false} SumSame<K>(keys: seq<K>, at: map<K, seq<Request>>, at': map<K, seq<Request>>)
    requires forall k :: k in keys ==> k in at && k in at' && at[k] == at'[k]
    ensures SumOfSizes(keys, at) == SumOfSizes(keys, at')
  {
    if keys != [] {
      SumSame(keys[..|keys| - 1], at, at');
    }
  }

  lemma {:induction false} SumConcat<K>(p: seq<K>, q: seq<K>, at: map<K, seq<Request>>)
    requires forall k :: k in p + q ==> k in at
    ensures forall k :: k in p || k in q ==> k in at
    ensures SumOfSizes(p + q, at) == SumOfSizes(p, at) + SumOfSizes(q, at)
  {
    assert forall k :: k in p || k in q ==> k in p + q;
    if q == [] {
      assert p + q == p;
    } else {
      var front := q[..|q| - 1];
      assert (p + q)[..|p + q| - 1] == p + front;
      SumConcat(p, front, at);
    }
  }

  /** Replacing one list changes the sum by the difference of the two lengths. */
  lemma {:induction false} SumUpdate<K>(keys: seq<K>, at: map<K, seq<Request>>, key: K, q: seq<Request>)
    requires NoDuplicates(keys) && key in keys && forall k :: k in keys ==> k in at
    ensures SumOfSizes(keys, at[key := q]) == SumOfSizes(keys, at) - |at[key]| + |q|
  {
    var front, last := keys[..|keys| - 1], keys[|keys| - 1];
    assert keys == front + [last];
    if last == key {
      SumSame(front, at, at[key := q]);
    } else {
      SumUpdate(front, at, key, q);
    }
  }

  lemma {:induction false} SumIsZero<K>(keys: seq<K>, at: map<K, seq<Request>>)
    requires forall k :: k in keys ==> k in at
    ensures SumOfSizes(keys, at) == 0 <==> forall k :: k in keys ==> at[k] == []
  {
    if keys != [] {
      var front, last := keys[..|keys| - 1], keys[|keys| - 1];
      assert keys == front + [last];
      SumIsZero(front, at);
    }
  }
}
