/** Counting the elements of a sequence by a projection, as both renderers count their output by kind. */
module Tally {

  /** How many elements `x` of `xs` have `kind(x) == k`. */
  function Count<T, K(==)>(xs: seq<T>, kind: T -> K, k: K): nat
    decreases |xs|
  {
    if xs == [] then 0 else (if kind(xs[0]) == k then 1 else 0) + Count(xs[1..], kind, k)
  }

  lemma {:induction false} CountConcat<T, K>(a: seq<T>, b: seq<T>, kind: T -> K, k: K)
    ensures Count(a + b, kind, k) == Count(a, kind, k) + Count(b, kind, k)
    decreases |a|
  {
    if a == [] {
      assert a + b == b;
    } else {
      assert (a + b)[1..] == a[1..] + b;
      CountConcat(a[1..], b, kind, k);
    }
  }

  lemma {:induction false} CountAbsent<T, K>(xs: seq<T>, kind: T -> K, k: K)
    requires forall x :: x in xs ==> kind(x) != k
    ensures Count(xs, kind, k) == 0
    decreases |xs|
  {
    if xs != [] {
      assert xs[0] in xs;
      CountAbsent(xs[1..], kind, k);
    }
  }

  lemma CountSingle<T, K>(x: T, kind: T -> K, k: K)
    ensures Count([x], kind, k) == if kind(x) == k then 1 else 0
  {
    assert [x][1..] == [];
  }
}
