/** Facts about products and finite sets that the solver does not find by itself. */
module Arithmetic {

  lemma Scale(a: int, b: int, k: int)
    requires a <= b && k >= 0
    ensures a * k <= b * k && k * a <= k * b
  {
  }

  /** A set that holds `n` different things has at least `n` elements. */
  lemma {:induction false} Pigeonhole(f: nat -> string, n: nat, s: set<string>)
    requires forall k: nat :: k < n ==> f(k) in s
    requires forall j: nat, k: nat :: j < k < n ==> f(j) != f(k)
    ensures |s| >= n
    decreases n
  {
    if n > 0 {
      var smaller := s - {f(n - 1)};
      Pigeonhole(f, n - 1, smaller);
      assert |s| == |smaller| + 1;
    }
  }
}
