/** Counting the elements of a sequence that satisfy a predicate. */
module Counting {

  /** One for a truth, nothing for a falsehood. */
  function B(b: bool): int { if b then 1 else 0 }

  function Count<T>(xs: seq<T>, f: T -> bool): nat {
    if xs == [] then 0 else Count(xs[..|xs| - 1], f) + (if f(xs[|xs| - 1]) then 1 else 0)
  }

  lemma {:induction false} CountUpdate<T>(xs: seq<T>, i: nat, x: T, f: T -> bool)
    requires i < |xs|
    ensures Count(xs[i := x], f) == Count(xs, f) - (if f(xs[i]) then 1 else 0) + (if f(x) then 1 else 0)
    decreases |xs|
  {
    var n := |xs| - 1;
    if i < n {
      assert xs[i := x][..n] == xs[..n][i := x];
      CountUpdate(xs[..n], i, x, f);
    } else {
      assert xs[i := x][..n] == xs[..n];
    }
  }

  lemma {:induction false} CountPositive<T>(xs: seq<T>, f: T -> bool)
    ensures Count(xs, f) > 0 <==> exists i :: 0 <= i < |xs| && f(xs[i])
    decreases |xs|
  {
    if xs != [] {
      var n := |xs| - 1;
      CountPositive(xs[..n], f);
      if i :| 0 <= i < |xs| && f(xs[i]) {
        if i < n { assert xs[..n][i] == xs[i]; }
      }
    }
  }

  lemma {:induction false} CountSame<T>(a: seq<T>, b: seq<T>, f: T -> bool)
    requires |a| == |b| && forall i :: 0 <= i < |a| ==> f(a[i]) == f(b[i])
    ensures Count(a, f) == Count(b, f)
    decreases |a|
  {
    if a != [] { CountSame(a[..|a| - 1], b[..|a| - 1], f); }
  }

  lemma {:induction false} CountAppend<T>(xs: seq<T>, x: T, f: T -> bool)
    ensures Count(xs + [x], f) == Count(xs, f) + if f(x) then 1 else 0
  {
    assert (xs + [x])[..|xs|] == xs;
  }

  lemma NobodyCounts<T>(xs: seq<T>, f: T -> bool)
    requires forall i :: 0 <= i < |xs| ==> !f(xs[i])
    ensures Count(xs, f) == 0
  {
    CountPositive(xs, f);
  }
}
