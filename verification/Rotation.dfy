/** Counting how often a rotating index lands on one position. */
module Rotation {

  /** How many of the `k` indices c, c+1, ... taken modulo `n` are `i`. */
  function Hits(i: nat, c: nat, n: nat, k: nat): nat
    requires n > 0
  {
    if k == 0 then 0 else Hits(i, c, n, k - 1) + (if (c + k - 1) % n == i then 1 else 0)
  }

  lemma MulGap(a: nat, b: nat, n: nat)
    requires a > b
    ensures a * n >= b * n + n
  {
    assert a * n == b * n + (a - b) * n;
    assert (a - b) * n == n + (a - b - 1) * n;
    assert (a - b - 1) * n >= 0;
  }

  lemma DivModUnique(x: nat, n: nat, q: nat, r: nat)
    requires n > 0 && r < n && x == q * n + r
    ensures x / n == q && x % n == r
  {
    var e, m := x / n, x % n;
    assert e * n + m == x;
    if e > q { MulGap(e, q, n); }
    if q > e { MulGap(q, e, n); }
  }

  lemma NextDivMod(k: nat, n: nat)
    requires n > 0
    ensures k % n == n - 1 ==> (k + 1) / n == k / n + 1 && (k + 1) % n == 0
    ensures k % n < n - 1 ==> (k + 1) / n == k / n && (k + 1) % n == k % n + 1
  {
    assert k == (k / n) * n + k % n;
    if k % n == n - 1 {
      assert (k / n + 1) * n == (k / n) * n + n;
      DivModUnique(k + 1, n, k / n + 1, 0);
    } else {
      DivModUnique(k + 1, n, k / n, k % n + 1);
    }
  }

  lemma {:induction false} ModSum(c: nat, j: nat, n: nat)
    requires n > 0
    ensures (c + j) % n == if c % n + j % n < n then c % n + j % n else c % n + j % n - n
    decreases j
  {
    if j == 0 {
      DivModUnique(0, n, 0, 0);
    } else {
      ModSum(c, j - 1, n);
      NextDivMod(c + j - 1, n);
      NextDivMod(j - 1, n);
    }
  }

  /** How far ahead of index `c` position `i` lies. */
  function Ahead(i: nat, c: nat, n: nat): nat
    requires i < n
  {
    if i >= c % n then i - c % n else i + n - c % n
  }

  lemma {:induction false} HitsExact(i: nat, c: nat, n: nat, k: nat)
    requires i < n
    ensures Hits(i, c, n, k) == k / n + (if k % n > Ahead(i, c, n) then 1 else 0)
    decreases k
  {
    if k > 0 {
      HitsExact(i, c, n, k - 1);
      NextDivMod(k - 1, n);
      ModSum(c, k - 1, n);
    }
  }

  /** Every position is visited as often as every other, up to one visit. */
  lemma HitsEven(i: nat, c: nat, n: nat, k: nat)
    requires i < n
    ensures k / n <= Hits(i, c, n, k) <= k / n + 1
    ensures k % n == 0 ==> Hits(i, c, n, k) == k / n
  {
    HitsExact(i, c, n, k);
  }
}
