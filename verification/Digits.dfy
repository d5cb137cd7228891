/** Numbers as digits to a base, most significant digit first. */
module Digits {
  import opened Arith

  function Pow(b: nat, k: nat): nat { if k == 0 then 1 else b * Pow(b, k - 1) }

  function High(n: nat, p: nat): nat
    requires p > 0
  {
    n / p
  }

  function Low(n: nat, p: nat): (r: nat)
    requires p > 0
    ensures r < p
  {
    n % p
  }

  lemma HighLow(n: nat, p: nat)
    requires p > 0
    ensures n == High(n, p) * p + Low(n, p)
  {
  }

  ghost predicate AllBelow(b: nat, ds: seq<nat>) { forall i :: 0 <= i < |ds| ==> ds[i] < b }

  function Value(b: nat, ds: seq<nat>): nat {
    if ds == [] then 0 else Value(b, ds[..|ds| - 1]) * b + ds[|ds| - 1]
  }

  /** The k lowest digits of n. */
  function ToDigits(b: nat, k: nat, n: nat): (ds: seq<nat>)
    requires b > 0
    ensures |ds| == k
  {
    if k == 0 then [] else ToDigits(b, k - 1, High(n, b)) + [Low(n, b)]
  }

  lemma {:induction false} DigitsBelow(b: nat, k: nat, n: nat)
    requires b > 0
    ensures AllBelow(b, ToDigits(b, k, n))
  {
    if k > 0 { DigitsBelow(b, k - 1, High(n, b)); }
  }

  lemma {:induction false} PowPositive(b: nat, k: nat)
    requires b > 0
    ensures Pow(b, k) > 0
  {
    if k > 0 {
      PowPositive(b, k - 1);
      MulAtLeast(b, Pow(b, k - 1));
    }
  }

  lemma DivBelow(n: nat, b: nat, m: nat)
    requires b > 0 && n < b * m
    ensures High(n, b) < m
  {
    var q, r := High(n, b), Low(n, b);
    MulAtLeast(q - m, b);
    HighLow(n, b);
    assert (q - m) * b == q * b - m * b;
  }

  /** Reading the digits of a number that fits gives it back. */
  lemma {:induction false} ValueOfDigits(b: nat, k: nat, n: nat)
    requires b > 0 && n < Pow(b, k)
    ensures Value(b, ToDigits(b, k, n)) == n
  {
    if k > 0 {
      DivBelow(n, b, Pow(b, k - 1));
      ValueOfDigits(b, k - 1, High(n, b));
      HighLow(n, b);
      ValueSnoc(b, ToDigits(b, k - 1, High(n, b)), Low(n, b));
    }
  }

  lemma AppendBelow(v: nat, m: nat, d: nat, b: nat)
    requires v < m && d < b
    ensures v * b + d < b * m
  {
    MulMono(v + 1, m, b);
    assert (v + 1) * b == v * b + b;
  }

  lemma {:induction false} ValueBelow(b: nat, ds: seq<nat>)
    requires AllBelow(b, ds)
    ensures Value(b, ds) < Pow(b, |ds|)
  {
    if ds != [] {
      ValueBelow(b, ds[..|ds| - 1]);
      AppendBelow(Value(b, ds[..|ds| - 1]), Pow(b, |ds| - 1), ds[|ds| - 1], b);
    }
  }

  /** Writing the value of some digits gives them back. */
  lemma {:induction false} DigitsOfValue(b: nat, ds: seq<nat>)
    requires b > 0 && AllBelow(b, ds)
    ensures ToDigits(b, |ds|, Value(b, ds)) == ds
  {
    if ds != [] {
      var front, d := ds[..|ds| - 1], ds[|ds| - 1];
      DigitsOfValue(b, front);
      DivModUnique(Value(b, ds), Value(b, front), d, b);
      assert ds == front + [d];
    }
  }

  lemma ValueSnoc(b: nat, ds: seq<nat>, d: nat)
    ensures Value(b, ds + [d]) == Value(b, ds) * b + d
  {
    assert (ds + [d])[..|ds|] == ds;
  }

  lemma {:induction false} LeadingZeros(b: nat, k: nat, ds: seq<nat>)
    ensures Value(b, Zeros(k) + ds) == Value(b, ds)
  {
    if ds == [] {
      assert Zeros(k) + ds == Zeros(k);
      if k > 0 {
        LeadingZeros(b, k - 1, []);
        assert Zeros(k)[..k - 1] == Zeros(k - 1) && Zeros(k - 1) + [] == Zeros(k - 1);
      }
    } else {
      var front, d := ds[..|ds| - 1], ds[|ds| - 1];
      LeadingZeros(b, k, front);
      assert Zeros(k) + ds == (Zeros(k) + front) + [d];
      ValueSnoc(b, Zeros(k) + front, d);
    }
  }

  function Zeros(k: nat): (z: seq<nat>)
    ensures |z| == k
  {
    seq(k, _ => 0)
  }

  // ---------------------------------------------------------------- one digit at a time

  lemma DivTwice(n: nat, b: nat, m: nat)
    requires b > 0 && m > 0
    ensures b * m > 0 && High(n, b * m) == High(High(n, b), m)
  {
    var q, r := n / b, n % b;
    var q', r' := q / m, q % m;
    MulAtLeast(b, m);
    assert n == q * b + r && q == q' * m + r';
    AppendBelow(r', m, r, b);
    assert q * b == (q' * m) * b + r' * b;
    assert (q' * m) * b == q' * (b * m);
    DivModUnique(n, q', r' * b + r, b * m);
  }

  /** The digit at place j, counted from the lowest. */
  function DigitAt(b: nat, n: nat, j: nat): nat
    requires b > 0
  {
    PowPositive(b, j);
    Low(High(n, Pow(b, j)), b)
  }

  lemma {:induction false} DigitsAt(b: nat, k: nat, n: nat, j: nat)
    requires b > 0 && j < k
    ensures ToDigits(b, k, n)[k - 1 - j] == DigitAt(b, n, j)
  {
    if j > 0 {
      DigitsAt(b, k - 1, High(n, b), j - 1);
      PowPositive(b, j - 1);
      DivTwice(n, b, Pow(b, j - 1));
    }
  }

  lemma {:induction false} PowAdd(b: nat, j: nat, k: nat)
    ensures Pow(b, j + k) == Pow(b, j) * Pow(b, k)
  {
    if j > 0 {
      PowAdd(b, j - 1, k);
      Assoc(b, Pow(b, j - 1), Pow(b, k));
    }
  }

  lemma Assoc(a: nat, b: nat, c: nat)
    ensures a * (b * c) == (a * b) * c
  {
  }

  lemma {:induction false} PowMono(b: nat, j: nat, k: nat)
    requires b > 0 && j <= k
    ensures Pow(b, j) <= Pow(b, k)
  {
    PowAdd(b, k - j, j);
    PowPositive(b, k - j);
    PowPositive(b, j);
    MulAtLeast(Pow(b, k - j), Pow(b, j));
  }

  lemma {:induction false} PowOfPow(b: nat, w: nat, k: nat)
    ensures Pow(Pow(b, w), k) == Pow(b, w * k)
  {
    if k > 0 {
      PowOfPow(b, w, k - 1);
      PowAdd(b, w, w * (k - 1));
      assert w * k == w + w * (k - 1);
    }
  }
}
