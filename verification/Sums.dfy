/** Finite sums, and the wrap-around of Go's uint64 accumulators. */
module Sums {

  const TWO_64: nat := 0x1_0000_0000_0000_0000

  type uint64 = x: nat | x < TWO_64

  /** `a + b` on uint64. */
  function Add64(a: uint64, b: uint64): uint64 {
    (a + b) % TWO_64
  }

  function Wrap64(n: nat): uint64 {
    n % TWO_64
  }

  /** Accumulating with wrap-around is wrapping the exact sum once. */
  lemma AddWraps(exact: nat, b: uint64)
    ensures Add64(Wrap64(exact), b) == Wrap64(exact + b)
  {
  }

  /** Sum of f over a finite set, in no particular order. */
  ghost function Sum<K(!new)>(s: set<K>, f: K -> nat): nat {
    if s == {} then 0 else
      var x :| x in s;
      f(x) + Sum(s - {x}, f)
  }

  /** The order of summation does not matter: any element may be taken out. */
  lemma {:induction false} SumRemove<K(!new)>(s: set<K>, f: K -> nat, y: K)
    requires y in s
    ensures Sum(s, f) == f(y) + Sum(s - {y}, f)
    decreases |s|
  {
    var x :| x in s && Sum(s, f) == f(x) + Sum(s - {x}, f);
    if x != y {
      SumRemove(s - {x}, f, y);
      SumRemove(s - {y}, f, x);
      assert s - {x} - {y} == s - {y} - {x};
    }
  }

  lemma SumAdd<K(!new)>(s: set<K>, f: K -> nat, y: K)
    requires y !in s
    ensures Sum(s + {y}, f) == f(y) + Sum(s, f)
  {
    SumRemove(s + {y}, f, y);
    assert s + {y} - {y} == s;
  }

  lemma {:induction false} SumCongruent<K(!new)>(s: set<K>, f: K -> nat, g: K -> nat)
    requires forall x :: x in s ==> f(x) == g(x)
    ensures Sum(s, f) == Sum(s, g)
    decreases |s|
  {
    if s != {} {
      var x :| x in s;
      SumCongruent(s - {x}, f, g);
      SumRemove(s, f, x);
      SumRemove(s, g, x);
    }
  }

  lemma {:induction false} SumAtMost<K(!new)>(s: set<K>, f: K -> nat, g: K -> nat)
    requires forall x :: x in s ==> f(x) <= g(x)
    ensures Sum(s, f) <= Sum(s, g)
    decreases |s|
  {
    if s != {} {
      var x :| x in s;
      SumAtMost(s - {x}, f, g);
      SumRemove(s, f, x);
      SumRemove(s, g, x);
    }
  }

  lemma {:induction false} SumZero<K(!new)>(s: set<K>, f: K -> nat)
    requires forall x :: x in s ==> f(x) == 0
    ensures Sum(s, f) == 0
    decreases |s|
  {
    if s != {} {
      var x :| x in s;
      SumZero(s - {x}, f);
      SumRemove(s, f, x);
    }
  }

  lemma {:induction false} SumPlus<K(!new)>(s: set<K>, f: K -> nat, g: K -> nat)
    ensures Sum(s, x => f(x) + g(x)) == Sum(s, f) + Sum(s, g)
    decreases |s|
  {
    var h := x => f(x) + g(x);
    if s != {} {
      var x :| x in s;
      SumPlus(s - {x}, f, g);
      SumRemove(s, f, x);
      SumRemove(s, g, x);
      SumRemove(s, h, x);
    }
  }
}
