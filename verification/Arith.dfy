/** Integer facts about products, quotients and remainders, proved once and used by contract. */
module Arith {
  lemma MulAtLeast(k: int, n: int)
    requires n > 0
    ensures k >= 1 ==> k * n >= n
    ensures k <= -1 ==> k * n <= -n
    ensures k == 0 ==> k * n == 0
  {
  }

  lemma MulMono(a: int, b: int, n: int)
    requires a <= b && n >= 0
    ensures a * n <= b * n
  {
  }

  /** Quotient and remainder are the only ones that fit. */
  lemma DivModUnique(x: int, q: int, r: int, n: int)
    requires 0 <= r < n && x == q * n + r
    ensures x / n == q && x % n == r
  {
    var q', r' := x / n, x % n;
    MulAtLeast(q - q', n);
    assert (q - q') * n == q * n - q' * n;
  }

  /** x mod n for 0 <= x < 2n, without a division. */
  function Wrap(x: nat, n: nat): (r: nat)
    requires x < 2 * n
    ensures r < n
  {
    if x < n then x else x - n
  }

  lemma WrapIsMod(x: nat, n: nat)
    requires x < 2 * n
    ensures x % n == Wrap(x, n)
  {
    DivModUnique(x, if x < n then 0 else 1, Wrap(x, n), n);
  }

  lemma WrapShift(a: int, q: nat, n: nat)
    requires q < n
    ensures 0 <= a % n < n && (a + q) % n == Wrap(a % n + q, n)
  {
    var s := a % n + q;
    var w := if s < n then 0 else 1;
    assert a + q == (a / n + w) * n + Wrap(s, n) by {
      assert a == (a / n) * n + a % n;
      assert (a / n + w) * n == (a / n) * n + w * n;
    }
    DivModUnique(a + q, a / n + w, Wrap(s, n), n);
  }

  function CeilDiv(a: nat, b: nat): nat
    requires b > 0
  {
    (a + b - 1) / b
  }

  lemma CeilDivAtMost(a: nat, b: nat, q: nat)
    requires b > 0
    ensures CeilDiv(a, b) <= q <==> a <= q * b
  {
    var k, r := (a + b - 1) / b, (a + b - 1) % b;
    assert a + b - 1 == k * b + r;
    if k <= q { MulMono(k, q, b); } else { MulMono(q, k - 1, b); assert (k - 1) * b == k * b - b; }
  }

  function Indicator(b: bool): nat { if b then 1 else 0 }
}
