/** The exhaustive search for convolutional polynomials:
    core/libcorrect/tools/find_conv_optim_poly.c.

    An odometer lists all tuples of candidate coefficients, odd numbers with the top bit set; a
    tournament measures them, keeps the better half, and stops at 20. */
module PolySearch {
  import opened Sorting
  import opened Arith
  import opened Digits

  /** The coefficients of one rate and order: `start`, then every second number, `count` of them. */
  datatype Range = Range(start: nat, max: nat, count: nat)

  predicate Wheel(w: Range) { w.count > 0 && w.max == w.start + 2 * (w.count - 1) }

  function WheelOf(order: nat): Range
    requires 2 <= order <= 16
  {
    PowPositive(2, order);
    var max, start: nat := Pow(2, order) - 1, Pow(2, order - 1) + 1;
    Range(start, max, if max < start then 0 else (max - start) / 2 + 1)
  }

  lemma SixteenBits()
    ensures Pow(2, 16) == 65536
  {
    assert Pow(2, 2) == 4;
    PowAdd(2, 2, 2);
    PowAdd(2, 4, 4);
    PowAdd(2, 8, 8);
  }

  /** The numbers are those of 16 bits at most, and there are 2^(order-2) of them. */
  lemma WheelFacts(order: nat)
    requires 2 <= order <= 16
    ensures var w := WheelOf(order); Wheel(w) && w.count == Pow(2, order - 2) && w.max < 65536
  {
    PowPositive(2, order - 2);
    PowMono(2, order, 16);
    SixteenBits();
    assert Pow(2, order) == 2 * Pow(2, order - 1) && Pow(2, order - 1) == 2 * Pow(2, order - 2);
  }

  // ---------------------------------------------------------------- the odometer

  /** The tuple listed at place n: the digits of n, the lowest first. */
  function Coeffs(w: Range, rate: nat, n: nat): (s: seq<nat>)
    requires Wheel(w)
    ensures |s| == rate
  {
    if rate == 0 then [] else [w.start + 2 * (Low(n, w.count))] + Coeffs(w, rate - 1, High(n, w.count))
  }

  /** Adds two with carry. */
  function Bump(w: Range, s: seq<nat>): seq<nat> {
    if s == [] then []
    else if s[0] < w.max then [s[0] + 2] + s[1..]
    else [w.start] + Bump(w, s[1..])
  }

  lemma Successor(n: nat, p: nat)
    requires p > 0
    ensures Low(n, p) < p - 1 ==> Low(n + 1, p) == Low(n, p) + 1 && High(n + 1, p) == High(n, p)
    ensures Low(n, p) == p - 1 ==> Low(n + 1, p) == 0 && High(n + 1, p) == High(n, p) + 1
  {
    var q, r := High(n, p), Low(n, p);
    assert n == q * p + r;
    if r < p - 1 {
      DivModUnique(n + 1, q, r + 1, p);
    } else {
      assert (q + 1) * p == q * p + p;
      DivModUnique(n + 1, q + 1, 0, p);
    }
  }

  lemma {:induction false} BumpIsSuccessor(w: Range, rate: nat, n: nat)
    requires Wheel(w)
    ensures Bump(w, Coeffs(w, rate, n)) == Coeffs(w, rate, n + 1)
  {
    if rate > 0 {
      var s := Coeffs(w, rate, n);
      Successor(n, w.count);
      assert s[1..] == Coeffs(w, rate - 1, High(n, w.count));
      BumpIsSuccessor(w, rate - 1, High(n, w.count));
    }
  }

  /** The coefficient at place j is given by the digit j of n. */
  lemma {:induction false} CoeffAt(w: Range, rate: nat, n: nat, j: nat)
    requires Wheel(w) && j < rate
    ensures Coeffs(w, rate, n)[j] == w.start + 2 * DigitAt(w.count, n, j)
  {
    if j > 0 {
      CoeffAt(w, rate - 1, High(n, w.count), j - 1);
      PowPositive(w.count, j - 1);
      DivTwice(n, w.count, Pow(w.count, j - 1));
    }
  }

  /** A tuple of candidates: odd numbers from `start` to `max`. */
  ghost predicate Candidate(w: Range, s: seq<nat>) {
    forall j :: 0 <= j < |s| ==> w.start <= s[j] <= w.max && (s[j] - w.start) % 2 == 0
  }

  /** The place a tuple is listed at. */
  ghost function Place(w: Range, s: seq<nat>): nat
    requires Candidate(w, s)
  {
    if s == [] then 0 else (s[0] - w.start) / 2 + Place(w, s[1..]) * w.count
  }

  lemma {:induction false} PlaceBelow(w: Range, s: seq<nat>)
    requires Wheel(w) && Candidate(w, s)
    ensures Place(w, s) < Pow(w.count, |s|)
  {
    if s != [] {
      PlaceBelow(w, s[1..]);
      AppendBelow(Place(w, s[1..]), Pow(w.count, |s| - 1), (s[0] - w.start) / 2, w.count);
    }
  }

  lemma {:induction false} CoeffsOfPlace(w: Range, s: seq<nat>)
    requires Wheel(w) && Candidate(w, s)
    ensures Coeffs(w, |s|, Place(w, s)) == s
  {
    if s != [] {
      var d, rest := (s[0] - w.start) / 2, Place(w, s[1..]);
      CoeffsOfPlace(w, s[1..]);
      DivModUnique(Place(w, s), rest, d, w.count);
      assert s == [s[0]] + s[1..];
    }
  }

  lemma {:induction false} CoeffsDiffer(w: Range, rate: nat, m: nat, n: nat)
    requires Wheel(w) && m < Pow(w.count, rate) && n < Pow(w.count, rate) && Coeffs(w, rate, m) == Coeffs(w, rate, n)
    ensures m == n
  {
    if rate > 0 {
      var p := w.count;
      assert Coeffs(w, rate, m)[0] == Coeffs(w, rate, n)[0];
      assert Coeffs(w, rate, m)[1..] == Coeffs(w, rate - 1, High(m, p)) && Coeffs(w, rate, n)[1..] == Coeffs(w, rate - 1, High(n, p));
      DivBelow(m, p, Pow(p, rate - 1));
      DivBelow(n, p, Pow(p, rate - 1));
      CoeffsDiffer(w, rate - 1, High(m, p), High(n, p));
      SameDigits(m, n, p);
    }
  }

  lemma SameDigits(m: nat, n: nat, p: nat)
    requires p > 0 && High(m, p) == High(n, p) && Low(m, p) == Low(n, p)
    ensures m == n
  {
    assert m == (High(m, p)) * p + Low(m, p);
  }

  lemma {:induction false} CoeffsAreCandidates(w: Range, rate: nat, n: nat)
    requires Wheel(w)
    ensures Candidate(w, Coeffs(w, rate, n))
  {
    if rate > 0 { CoeffsAreCandidates(w, rate - 1, High(n, w.count)); }
  }

  /** Odd, and the highest of `order` bits is set. */
  predicate TopAndOdd(order: nat, x: nat)
    requires order > 0
  {
    x % 2 == 1 && Pow(2, order - 1) <= x < Pow(2, order)
  }

  lemma TopAndOddIff(order: nat, x: nat)
    requires 2 <= order <= 16
    ensures var w := WheelOf(order); TopAndOdd(order, x) == (w.start <= x <= w.max && (x - w.start) % 2 == 0)
  {
    WheelFacts(order);
    var h := Pow(2, order - 2);
    assert Pow(2, order - 1) == 2 * h && Pow(2, order) == 4 * h;
    ParityOf(x, h);
  }

  lemma ParityOf(x: nat, h: nat)
    ensures x >= 2 * h + 1 ==> ((x - (2 * h + 1)) % 2 == 0) == (x % 2 == 1)
    ensures x == 2 * h ==> x % 2 == 0
  {
  }

  /** The candidates are exactly the tuples of odd numbers with the top bit set. */
  lemma CandidateIff(order: nat, s: seq<nat>)
    requires 2 <= order <= 16
    ensures Candidate(WheelOf(order), s) == forall j :: 0 <= j < |s| ==> TopAndOdd(order, s[j])
  {
    forall x: nat { TopAndOddIff(order, x); }
  }

  ghost predicate ListedAt(w: Range, s: seq<nat>, n: nat)
    requires Wheel(w)
  {
    n < Pow(w.count, |s|) && Coeffs(w, |s|, n) == s
  }

  /** A tuple is listed exactly once if it is a candidate, and not at all otherwise. */
  lemma ListedExactlyOnce(order: nat, s: seq<nat>)
    requires 2 <= order <= 16
    ensures Wheel(WheelOf(order))
    ensures (exists n :: ListedAt(WheelOf(order), s, n)) == forall j :: 0 <= j < |s| ==> TopAndOdd(order, s[j])
    ensures forall m, n :: ListedAt(WheelOf(order), s, m) && ListedAt(WheelOf(order), s, n) ==> m == n
  {
    var w := WheelOf(order);
    WheelFacts(order);
    CandidateIff(order, s);
    if Candidate(w, s) {
      PlaceBelow(w, s);
      CoeffsOfPlace(w, s);
      assert ListedAt(w, s, Place(w, s));
    }
    forall n | ListedAt(w, s, n) ensures Candidate(w, s) { CoeffsAreCandidates(w, |s|, n); }
    forall m, n | ListedAt(w, s, m) && ListedAt(w, s, n) ensures m == n { CoeffsDiffer(w, |s|, m, n); }
  }

  /** The carry passes over full places and stops at the first other one. */
  lemma {:induction false} CarryStopsAt(w: Range, s: seq<nat>, r: seq<nat>, j: nat)
    requires |r| == |s| && j <= |s|
    requires forall k :: 0 <= k < j ==> s[k] >= w.max && r[k] == w.start
    requires j < |s| ==> s[j] < w.max && r[j] == s[j] + 2
    requires forall k :: j < k < |s| ==> r[k] == s[k]
    ensures Bump(w, s) == r
  {
    if s != [] {
      if j == 0 {
        assert r == [s[0] + 2] + s[1..];
      } else {
        CarryStopsAt(w, s[1..], r[1..], j - 1);
        assert r == [w.start] + r[1..];
      }
    }
  }

  /** The carry loop, in place. */
  method Advance(w: Range, iter: array<nat>)
    modifies iter
    ensures iter[..] == Bump(w, old(iter[..]))
  {
    var j := 0;
    while j < iter.Length
      invariant 0 <= j <= iter.Length
      invariant forall k :: 0 <= k < j ==> old(iter[k]) >= w.max && iter[k] == w.start
      invariant forall k :: j <= k < iter.Length ==> iter[k] == old(iter[k])
    {
      if iter[j] < w.max {
        iter[j] := iter[j] + 2;
        break;
      }
      iter[j] := w.start;
      j := j + 1;
    }
    CarryStopsAt(w, old(iter[..]), iter[..], j);
  }

  method Total(w: Range, rate: nat) returns (n: nat)
    ensures n == Pow(w.count, rate)
  {
    n := 1;
    for i := 0 to rate
      invariant n == Pow(w.count, i)
    {
      n := n * w.count;
    }
  }

  /** Fills the list of all tuples. */
  method Enumerate(order: nat, rate: nat) returns (all: array<seq<nat>>)
    requires 2 <= order <= 16
    ensures all.Length == Pow(WheelOf(order).count, rate)
    ensures Wheel(WheelOf(order)) && forall i :: 0 <= i < all.Length ==> all[i] == Coeffs(WheelOf(order), rate, i)
  {
    var w := WheelOf(order);
    WheelFacts(order);
    var n := Total(w, rate);
    all := new seq<nat>[n](_ => []);
    var iter := new nat[rate](_ => w.start);
    StartIsZero(w, rate);
    assert iter[..] == Coeffs(w, rate, 0);
    for i := 0 to n
      invariant iter[..] == Coeffs(w, rate, i)
      invariant forall k :: 0 <= k < i ==> all[k] == Coeffs(w, rate, k)
    {
      all[i] := iter[..];
      Advance(w, iter);
      BumpIsSuccessor(w, rate, i);
    }
  }

  lemma {:induction false} StartIsZero(w: Range, rate: nat)
    requires Wheel(w)
    ensures forall j :: 0 <= j < rate ==> Coeffs(w, rate, 0)[j] == w.start
  {
    if rate > 0 {
      DivModUnique(0, 0, 0, w.count);
      StartIsZero(w, rate - 1);
    }
  }

  // ---------------------------------------------------------------- the tournament

  const WINNERS: nat := 20

  const MAX_MESSAGE: nat := 50000000

  type Poly = seq<nat>

  /** What one round measures for each polynomial; rounds differ in noise and message length. */
  type Cost = Poly -> real

  function Cheaper(cost: Cost): (Poly, Poly) -> bool { (a, b) => cost(a) <= cost(b) }

  datatype Contest = Contest(items: seq<Poly>, bytes: nat)

  function NextCount(c: Contest): nat {
    if c.bytes >= MAX_MESSAGE then WINNERS else if |c.items| / 2 < WINNERS then WINNERS else |c.items| / 2
  }

  function Round(cost: Cost, c: Contest): (r: Contest)
    requires |c.items| > WINNERS
    ensures |r.items| == NextCount(c) < |c.items|
  {
    SortKeepsLength(Cheaper(cost), c.items);
    var sorted := Sort(Cheaper(cost), c.items);
    Contest(sorted[..NextCount(c)],
            if c.bytes >= MAX_MESSAGE then c.bytes else if 2 * c.bytes < MAX_MESSAGE then 2 * c.bytes else MAX_MESSAGE)
  }

  /** The rounds until 20 or fewer are left; `costs(k)` is what round k measures. */
  function Play(costs: nat -> Cost, k: nat, c: Contest): Contest
    decreases |c.items|
  {
    if |c.items| <= WINNERS then c else Play(costs, k + 1, Round(costs(k), c))
  }

  /** A round halves the field, down to 20, and doubles the message, up to 50 million bytes; once the
      message has that length it leaves 20. */
  lemma RoundHalves(cost: Cost, c: Contest)
    requires |c.items| > 20
    ensures var r := Round(cost, c);
            && (c.bytes < 50000000 ==> (|r.items| == |c.items| / 2 && |r.items| >= 20) || (|r.items| == 20 && |c.items| < 40))
            && (c.bytes < 50000000 ==> r.bytes <= 50000000 && (r.bytes == 2 * c.bytes || (r.bytes == 50000000 && 2 * c.bytes > 50000000)))
            && (c.bytes >= 50000000 ==> |r.items| == 20 && r.bytes == c.bytes)
  {
  }

  /** The tournament ends with exactly 20 whenever it starts above 20, and otherwise changes nothing. */
  lemma {:induction false} EndsWithTwenty(costs: nat -> Cost, k: nat, c: Contest)
    ensures |Play(costs, k, c).items| == if |c.items| > 20 then 20 else |c.items|
    ensures |c.items| <= 20 ==> Play(costs, k, c) == c
    decreases |c.items|
  {
    if |c.items| > WINNERS { EndsWithTwenty(costs, k + 1, Round(costs(k), c)); }
  }

  lemma CheaperIsPreorder(cost: Cost)
    ensures TotalPreorder(Cheaper(cost))
  {
  }

  /** A round keeps polynomials none of which costs more than any it gives up. */
  lemma RoundIsFair(cost: Cost, c: Contest)
    requires |c.items| > WINNERS
    ensures var sorted := Sort(Cheaper(cost), c.items);
            && |sorted| == |c.items| && multiset(sorted) == multiset(c.items) && Round(cost, c).items == sorted[..NextCount(c)]
            && forall i, j :: 0 <= i < NextCount(c) <= j < |sorted| ==> cost(sorted[i]) <= cost(sorted[j])
  {
    CheaperIsPreorder(cost);
    SortKeepsLength(Cheaper(cost), c.items);
    SortSorts(Cheaper(cost), c.items);
  }

  lemma {:induction false} PlaySorted(cost: Cost, k: nat, c: Contest)
    requires Sorted(Cheaper(cost), c.items) && |c.items| >= WINNERS
    ensures Play(_ => cost, k, c).items == c.items[..WINNERS]
    decreases |c.items|
  {
    if |c.items| > WINNERS {
      SortOfSorted(Cheaper(cost), c.items);
      var r := Round(cost, c);
      assert r.items == c.items[..NextCount(c)];
      PlaySorted(cost, k + 1, r);
      assert r.items[..WINNERS] == c.items[..WINNERS];
    } else {
      assert c.items[..WINNERS] == c.items;
    }
  }

  /** When every round measures the same costs, halving loses nothing: the winners are the 20 cheapest
      of all. */
  lemma SteadyCostsFindTheBest(cost: Cost, c: Contest)
    requires |c.items| > WINNERS
    ensures |Sort(Cheaper(cost), c.items)| == |c.items|
    ensures Play(_ => cost, 0, c).items == Sort(Cheaper(cost), c.items)[..WINNERS]
  {
    var sorted := Sort(Cheaper(cost), c.items);
    SortKeepsLength(Cheaper(cost), c.items);
    CheaperIsPreorder(cost);
    SortSorts(Cheaper(cost), c.items);
    var r := Round(cost, c);
    PlaySorted(cost, 1, r);
    assert r.items[..WINNERS] == sorted[..WINNERS];
  }

  /** The message grows from round to round up to its limit. */
  lemma {:induction false} MessageGrows(costs: nat -> Cost, k: nat, c: Contest)
    ensures c.bytes <= Play(costs, k, c).bytes
    ensures c.bytes <= MAX_MESSAGE ==> Play(costs, k, c).bytes <= MAX_MESSAGE
    decreases |c.items|
  {
    if |c.items| > WINNERS { MessageGrows(costs, k + 1, Round(costs(k), c)); }
  }

  method PlayAll(items0: seq<Poly>, bytes0: nat, costs: nat -> Cost) returns (items: seq<Poly>, bytes: nat)
    ensures Contest(items, bytes) == Play(costs, 0, Contest(items0, bytes0))
  {
    items, bytes := items0, bytes0;
    var k := 0;
    while |items| > WINNERS
      invariant Play(costs, k, Contest(items, bytes)) == Play(costs, 0, Contest(items0, bytes0))
      decreases |items|
    {
      ghost var c := Contest(items, bytes);
      SortKeepsLength(Cheaper(costs(k)), items);
      var sorted := Sort(Cheaper(costs(k)), items);
      var count := if |items| / 2 < WINNERS then WINNERS else |items| / 2;
      if bytes >= MAX_MESSAGE {
        count := WINNERS;
      } else {
        bytes := bytes * 2;
        bytes := if bytes < MAX_MESSAGE then bytes else MAX_MESSAGE;
      }
      items := sorted[..count];
      assert Contest(items, bytes) == Round(costs(k), c);
      k := k + 1;
    }
  }

  const BLOCK: nat := 16384

  function Sum(s: seq<nat>): nat { if s == [] then 0 else Sum(s[..|s| - 1]) + s[|s| - 1] }

  /** A message is measured in blocks; together they are the message. */
  method Blocks(bytes: nat) returns (blocks: seq<nat>)
    ensures Sum(blocks) == bytes
    ensures forall i :: 0 <= i < |blocks| ==> 0 < blocks[i] <= BLOCK
    ensures forall i :: 0 <= i < |blocks| - 1 ==> blocks[i] == BLOCK
  {
    blocks := [];
    var remaining := bytes;
    while remaining > 0
      invariant 0 <= remaining <= bytes && Sum(blocks) + remaining == bytes
      invariant forall i :: 0 <= i < |blocks| ==> 0 < blocks[i] <= BLOCK
      invariant forall i :: 0 <= i < |blocks| && (remaining > 0 || i < |blocks| - 1) ==> blocks[i] == BLOCK
    {
      var block := if BLOCK < remaining then BLOCK else remaining;
      remaining := remaining - block;
      assert (blocks + [block])[..|blocks|] == blocks;
      blocks := blocks + [block];
    }
  }
}
