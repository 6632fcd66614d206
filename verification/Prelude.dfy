/** Small shared vocabulary: optional values, results, and finite-set counting. */
module Prelude {

  datatype Option<+T> = None | Some(value: T)

  datatype Result<+T, +E> = Success(value: T) | Failure(error: E)

  function Max(a: int, b: int): int { if a >= b then a else b }

  function Min(a: int, b: int): int { if a <= b then a else b }

  function Pow2(n: nat): (p: nat)
    ensures p >= 1
  {
    if n == 0 then 1 else 2 * Pow2(n - 1)
  }

  /** The integers lo, lo + 1, ..., hi - 1. */
  function Interval(lo: int, hi: int): (r: set<int>)
    requires lo <= hi
    ensures |r| == hi - lo
    ensures forall x :: x in r <==> lo <= x < hi
    decreases hi - lo
  {
    if lo == hi then {} else Interval(lo, hi - 1) + {hi - 1}
  }

  lemma {:induction false} SubsetSize<T>(a: set<T>, b: set<T>)
    requires a <= b
    ensures |a| <= |b|
    ensures |a| == |b| <==> a == b
  {
    assert b == a + (b - a);
  }

  /** Counting through an injective relabelling. */
  lemma {:induction false} InjectiveImageSize(s: set<int>, f: map<int, int>)
    requires s <= f.Keys
    requires forall x, y | x in s && y in s && f[x] == f[y] :: x == y
    ensures |set x | x in s :: f[x]| == |s|
  {
    if x :| x in s {
      InjectiveImageSize(s - {x}, f);
      assert (set y | y in s :: f[y]) == (set y | y in s - {x} :: f[y]) + {f[x]};
    } else {
      assert forall x :: x !in s; assert s == {};
    }
  }
}
