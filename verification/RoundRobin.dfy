/** Choosing the loop for the next connection: src/net/EventLoopPool.cc. */
module RoundRobin {

  function NextIndex(next: nat, n: nat): (r: nat)
    ensures next < n ==> r < n
  {
    if n == 0 then next else (next + 1) % n
  }

  /** How many of the first `k` choices fall on index `j`. */
  function Share(k: nat, n: nat, j: nat): nat
    requires n > 0
  {
    if k == 0 then 0 else Share(k - 1, n, j) + (if (k - 1) % n == j then 1 else 0)
  }

  lemma {:induction false} Successor(k: nat, n: nat)
    requires n > 0
    ensures (k + 1) % n == (k % n + 1) % n
    ensures (k + 1) / n == k / n + (if k % n == n - 1 then 1 else 0)
    ensures (k + 1) % n == if k % n == n - 1 then 0 else k % n + 1
  {
    var q, r := k / n, k % n;
    assert k == q * n + r;
    if r == n - 1 {
      DivMod(k + 1, n, q + 1, 0);
      DivMod(n, n, 1, 0);
    } else {
      DivMod(k + 1, n, q, r + 1);
      DivMod(r + 1, n, 0, r + 1);
    }
  }

  lemma {:induction false} DivMod(k: nat, n: nat, q: nat, r: nat)
    requires r < n && k == q * n + r
    ensures k / n == q && k % n == r
  {
    var d := k / n - q;
    assert d * n == r - k % n by {
      assert k == (k / n) * n + k % n;
    }
    Multiples(d, n);
  }

  lemma Multiples(d: int, n: int)
    requires n > 0
    ensures d > 0 ==> d * n >= n
    ensures d < 0 ==> d * n <= 0 - n
  {
  }

  /** Each index gets its exact share of the first `k` choices. */
  lemma {:induction false} ExactShare(k: nat, n: nat, j: nat)
    requires j < n
    ensures Share(k, n, j) == k / n + (if j < k % n then 1 else 0)
  {
    if k == 0 {
      DivMod(0, n, 0, 0);
    } else {
      ExactShare(k - 1, n, j);
      Successor(k - 1, n);
    }
  }

  /** Any two indices are chosen equally often, give or take one. */
  lemma Balanced(k: nat, n: nat, i: nat, j: nat)
    requires i < n && j < n
    ensures -1 <= Share(k, n, i) - Share(k, n, j) <= 1
  {
    ExactShare(k, n, i);
    ExactShare(k, n, j);
  }
}
