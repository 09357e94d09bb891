/** Small shared vocabulary: optional values and finite sums over indices. */
module Common {

  datatype Option<+T> = None | Some(value: T)

  /** f(0) + ... + f(n - 1). */
  ghost function SumTo(n: nat, f: nat -> int): int {
    if n == 0 then 0 else SumTo(n - 1, f) + f(n - 1)
  }

  lemma {:induction false} SumSame(n: nat, f: nat -> int, g: nat -> int)
    requires forall i: nat | i < n :: f(i) == g(i)
    ensures SumTo(n, f) == SumTo(n, g)
  {
    if n > 0 {
      SumSame(n - 1, f, g);
    }
  }

  /** Changing one term changes the sum by the difference of that term. */
  lemma {:induction false} SumChange(n: nat, f: nat -> int, g: nat -> int, k: nat)
    requires k < n
    requires forall i: nat | i < n && i != k :: f(i) == g(i)
    ensures SumTo(n, g) - SumTo(n, f) == g(k) - f(k)
  {
    if k == n - 1 {
      SumSame(n - 1, f, g);
    } else {
      SumChange(n - 1, f, g, k);
    }
  }

  lemma {:induction false} SumNonNegative(n: nat, f: nat -> int)
    requires forall i: nat | i < n :: f(i) >= 0
    ensures SumTo(n, f) >= 0
    ensures SumTo(n, f) == 0 <==> forall i: nat | i < n :: f(i) == 0
  {
    if n > 0 {
      SumNonNegative(n - 1, f);
    }
  }
}
