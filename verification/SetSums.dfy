/** Sums over finite sets. */
module SetSums {

  ghost function Pick<T(!new)>(s: set<T>): (x: T)
    requires s != {}
  {
    var x :| x in s; x
  }

  ghost function Sum<T(!new)>(s: set<T>, f: T -> int): (sum: int)
    decreases |s|
  {
    if s == {} then 0 else f(Pick(s)) + Sum(s - {Pick(s)}, f)
  }

  /** The order of summation does not matter. */
  lemma {:induction false} SumRemove<T(!new)>(s: set<T>, x: T, f: T -> int)
    requires x in s
    ensures Sum(s, f) == f(x) + Sum(s - {x}, f)
    decreases |s|
  {
    var y := Pick(s);
    if x != y {
      SumRemove(s - {y}, x, f);
      SumRemove(s - {x}, y, f);
      assert s - {y} - {x} == s - {x} - {y};
    }
  }

  lemma SumAdd<T(!new)>(s: set<T>, x: T, f: T -> int)
    requires x !in s
    ensures Sum(s + {x}, f) == f(x) + Sum(s, f)
  {
    SumRemove(s + {x}, x, f);
    assert s + {x} - {x} == s;
  }

  lemma {:induction false} SumSubset<T(!new)>(s: set<T>, t: set<T>, f: T -> int)
    requires s <= t && forall x :: x in t ==> f(x) >= 0
    ensures 0 <= Sum(s, f) <= Sum(t, f)
    decreases |t|
  {
    if t != {} {
      var x := Pick(t);
      SumSubset(s - {x}, t - {x}, f);
      if x in s {
        SumRemove(s, x, f);
      } else {
        assert s - {x} == s;
      }
    }
  }
}
