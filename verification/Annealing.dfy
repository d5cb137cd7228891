/** The neighbour of a candidate in the annealing search:
    core/libcorrect/tools/find_conv_optim_poly_annealing.c.

    Draws of the random generator are parameters. */
module Annealing {
  import opened Seqs
  import opened Arith
  import opened Digits

  // ---------------------------------------------------------------- shuffle

  function Swap(s: seq<int>, i: nat, j: nat): (r: seq<int>)
    requires i < |s| && j < |s|
    ensures |r| == |s|
  {
    s[i := s[j]][j := s[i]]
  }

  function Draw(rand: nat -> nat, i: nat, len: nat): (j: nat)
    requires i < len
    ensures i <= j < len
  {
    rand(i) % (len - i) + i
  }

  /** The loop from place i on. */
  function Shuffled(s: seq<int>, rand: nat -> nat, i: nat): (r: seq<int>)
    ensures |r| == |s|
    decreases |s| - i
  {
    if i + 2 >= |s| then s else Shuffled(Swap(s, i, Draw(rand, i, |s|)), rand, i + 1)
  }

  lemma SwapPermutes(s: seq<int>, i: nat, j: nat)
    requires i < |s| && j < |s|
    ensures multiset(Swap(s, i, j)) == multiset(s)
  {
  }

  /** Whatever is drawn, the shuffle is a permutation. */
  lemma {:induction false} ShufflePermutes(s: seq<int>, rand: nat -> nat, i: nat)
    ensures multiset(Shuffled(s, rand, i)) == multiset(s)
    decreases |s| - i
  {
    if i + 2 < |s| {
      SwapPermutes(s, i, Draw(rand, i, |s|));
      ShufflePermutes(Swap(s, i, Draw(rand, i, |s|)), rand, i + 1);
    }
  }

  /** Two entries are never exchanged: the loop stops before the last two. */
  lemma PairStays(s: seq<int>, rand: nat -> nat)
    requires |s| == 2
    ensures Shuffled(s, rand, 0) == s
  {
  }

  /** With fewer than two entries the unsigned bound of the source wraps around, so callers owe two. */
  method Shuffle(a: array<int>, rand: nat -> nat)
    requires a.Length >= 2
    modifies a
    ensures a[..] == Shuffled(old(a[..]), rand, 0)
  {
    for i := 0 to a.Length - 2
      invariant Shuffled(a[..], rand, i) == Shuffled(old(a[..]), rand, 0)
    {
      ghost var before := a[..];
      var j := Draw(rand, i, a.Length);
      a[i], a[j] := a[j], a[i];
      assert a[..] == Swap(before, i, j);
    }
  }

  /** A geometric draw between 1 and `max`; `more` says which draws ask to go on. */
  function Geo(more: nat -> bool, max: int, geo: nat): nat
    decreases max - geo
  {
    if geo < max && more(geo) then Geo(more, max, geo + 1) else geo
  }

  method RandGeo(more: nat -> bool, max: int) returns (geo: nat)
    ensures geo == Geo(more, max, 1) && 1 <= geo && (max >= 1 ==> geo <= max)
    ensures forall k :: 1 <= k < geo ==> more(k)
    ensures geo < max ==> !more(geo)
  {
    geo := 1;
    while geo < max
      invariant 1 <= geo && (max >= 1 ==> geo <= max)
      invariant Geo(more, max, geo) == Geo(more, max, 1)
      invariant forall k :: 1 <= k < geo ==> more(k)
    {
      if !more(geo) { break; }
      geo := geo + 1;
    }
  }

  // ---------------------------------------------------------------- bits

  /** Bit k of a word. */
  predicate Bit(x: nat, k: nat) { if k == 0 then x % 2 == 1 else Bit(x / 2, k - 1) }

  /** The word with bit k flipped, `x ^ (1 << k)`. */
  function Toggle(x: nat, k: nat): nat {
    if k > 0 then 2 * Toggle(x / 2, k - 1) + x % 2 else if x % 2 == 1 then x - 1 else x + 1
  }

  /** In numbers: one power of two is taken away or added, and the word keeps its width. */
  lemma {:induction false} ToggleInNumbers(x: nat, k: nat, width: nat)
    requires k < width && x < Pow(2, width)
    ensures Toggle(x, k) == (if Bit(x, k) then x - Pow(2, k) else x + Pow(2, k)) && Toggle(x, k) < Pow(2, width)
  {
    var h := x / 2;
    assert Pow(2, width) == 2 * Pow(2, width - 1) && h < Pow(2, width - 1);
    if k > 0 {
      ToggleInNumbers(h, k - 1, width - 1);
      assert Toggle(x, k) == 2 * Toggle(h, k - 1) + x % 2 && Pow(2, k) == 2 * Pow(2, k - 1);
    }
  }

  /** Flipping one bit changes that bit and no other. */
  lemma {:induction false} ToggleChanges(x: nat, k: nat, m: nat)
    ensures Bit(Toggle(x, k), m) == (if k == m then !Bit(x, m) else Bit(x, m))
  {
    if k > 0 && m > 0 {
      ToggleChanges(x / 2, k - 1, m - 1);
      assert Toggle(x, k) / 2 == Toggle(x / 2, k - 1);
    } else if m > 0 {
      assert Toggle(x, 0) / 2 == x / 2;
    }
  }

  // ---------------------------------------------------------------- the neighbour

  datatype Spot = Spot(poly: nat, bit: nat)

  /** Where coefficient c says to flip: the edge bits of a polynomial are left out. */
  function SpotOf(c: int, w: nat): (s: Spot)
    requires w > 0 && c >= 0
    ensures 1 <= s.bit <= w
  {
    Spot(c / w, c % w + 1)
  }

  lemma SpotsDiffer(c: int, d: int, w: nat)
    requires w > 0 && c >= 0 && d >= 0 && SpotOf(c, w) == SpotOf(d, w)
    ensures c == d
  {
    assert c == (c / w) * w + c % w && d == (d / w) * w + d % w;
  }

  lemma SpotInRange(c: int, rate: nat, w: nat)
    requires w > 0 && 0 <= c < rate * w
    ensures SpotOf(c, w).poly < rate
  {
    var q, r := c / w, c % w;
    MulAtLeast(q - rate, w);
    assert c == q * w + r && (q - rate) * w == q * w - rate * w;
  }

  type Polys = seq<nat>

  ghost predicate InRange(coeffs: seq<int>, rate: nat, w: nat) {
    w > 0 && forall i :: 0 <= i < |coeffs| ==> 0 <= coeffs[i] && SpotOf(coeffs[i], w).poly < rate
  }

  function FlipAt(s: Polys, spot: Spot): (r: Polys)
    requires spot.poly < |s| && spot.bit < 16
    ensures |r| == |s|
  {
    s[spot.poly := Toggle(s[spot.poly], spot.bit)]
  }

  /** The first n flips. */
  ghost function Flipped(start: Polys, coeffs: seq<int>, w: nat, n: nat): (r: Polys)
    requires w <= 14 && n <= |coeffs| && InRange(coeffs, |start|, w)
    ensures |r| == |start|
  {
    if n == 0 then start else FlipAt(Flipped(start, coeffs, w, n - 1), SpotOf(coeffs[n - 1], w))
  }

  predicate Differ(s: Polys, t: Polys, x: Spot)
    requires |s| == |t|
  {
    x.poly < |s| && x.bit < 16 && Bit(s[x.poly], x.bit) != Bit(t[x.poly], x.bit)
  }

  /** All bit positions in which two lists of polynomials differ. */
  ghost function Diff(s: Polys, t: Polys): set<Spot>
    requires |s| == |t|
  {
    set q: nat, b: nat | q < |s| && b < 16 && Differ(s, t, Spot(q, b)) :: Spot(q, b)
  }

  lemma DiffHas(s: Polys, t: Polys, x: Spot)
    requires |s| == |t|
    ensures x in Diff(s, t) <==> Differ(s, t, x)
  {
    if Differ(s, t, x) { assert x == Spot(x.poly, x.bit); }
  }

  ghost function SpotsOf(coeffs: seq<int>, w: nat, n: nat): set<Spot>
    requires n <= |coeffs| && w > 0 && forall i :: 0 <= i < |coeffs| ==> coeffs[i] >= 0
  {
    if n == 0 then {} else SpotsOf(coeffs, w, n - 1) + {SpotOf(coeffs[n - 1], w)}
  }

  lemma {:induction false} SpotsFrom(coeffs: seq<int>, w: nat, n: nat, x: Spot)
    requires n <= |coeffs| && w > 0 && (forall i :: 0 <= i < |coeffs| ==> coeffs[i] >= 0) && x in SpotsOf(coeffs, w, n)
    ensures exists i :: 0 <= i < n && x == SpotOf(coeffs[i], w)
  {
    if x != SpotOf(coeffs[n - 1], w) { SpotsFrom(coeffs, w, n - 1, x); }
  }

  /** Different coefficients mean different spots. */
  lemma NewSpot(coeffs: seq<int>, w: nat, n: nat)
    requires 0 < n <= |coeffs| && w > 0 && NoRepeats(coeffs) && forall i :: 0 <= i < |coeffs| ==> coeffs[i] >= 0
    ensures SpotOf(coeffs[n - 1], w) !in SpotsOf(coeffs, w, n - 1)
  {
    var x := SpotOf(coeffs[n - 1], w);
    if x in SpotsOf(coeffs, w, n - 1) {
      SpotsFrom(coeffs, w, n - 1, x);
      var i :| 0 <= i < n - 1 && x == SpotOf(coeffs[i], w);
      SpotsDiffer(coeffs[i], coeffs[n - 1], w);
    }
  }

  lemma {:induction false} SpotsAreDistinct(coeffs: seq<int>, w: nat, n: nat)
    requires n <= |coeffs| && w > 0 && NoRepeats(coeffs) && forall i :: 0 <= i < |coeffs| ==> coeffs[i] >= 0
    ensures |SpotsOf(coeffs, w, n)| == n
    ensures forall x :: x in SpotsOf(coeffs, w, n) ==> 1 <= x.bit <= w
  {
    if n > 0 {
      SpotsAreDistinct(coeffs, w, n - 1);
      NewSpot(coeffs, w, n);
    }
  }

  lemma FlipChanges(s: Polys, t: Polys, spot: Spot, x: Spot)
    requires |s| == |t| && spot.poly < |t| && spot.bit < 16
    ensures Differ(s, FlipAt(t, spot), x) == if x == spot then !Differ(s, t, x) else Differ(s, t, x)
  {
    if x.poly == spot.poly { ToggleChanges(t[spot.poly], spot.bit, x.bit); }
  }

  /** Flips at different spots change exactly those. */
  lemma {:induction false} FlippedDiffers(start: Polys, coeffs: seq<int>, w: nat, n: nat)
    requires w <= 14 && n <= |coeffs| && InRange(coeffs, |start|, w) && NoRepeats(coeffs)
    ensures Diff(start, Flipped(start, coeffs, w, n)) == SpotsOf(coeffs, w, n)
  {
    if n == 0 {
      forall x ensures x !in Diff(start, start) { DiffHas(start, start, x); }
    } else {
      var before, spot := Flipped(start, coeffs, w, n - 1), SpotOf(coeffs[n - 1], w);
      FlippedDiffers(start, coeffs, w, n - 1);
      NewSpot(coeffs, w, n);
      OneMoreDiff(start, before, spot);
    }
  }

  lemma OneMoreDiff(s: Polys, t: Polys, spot: Spot)
    requires |s| == |t| && spot.poly < |t| && spot.bit < 16 && spot !in Diff(s, t)
    ensures Diff(s, FlipAt(t, spot)) == Diff(s, t) + {spot}
  {
    forall x ensures x in Diff(s, FlipAt(t, spot)) <==> x in Diff(s, t) + {spot} {
      DiffHas(s, FlipAt(t, spot), x);
      DiffHas(s, t, x);
      FlipChanges(s, t, spot, x);
    }
  }

  /** A neighbour differs in exactly as many bits as were flipped, and never in the lowest or the
      highest of its `order` bits, nor above them. */
  lemma NeighbourDiffers(start: Polys, coeffs: seq<int>, order: nat, n: nat)
    requires 3 <= order <= 16 && n <= |coeffs| && InRange(coeffs, |start|, order - 2) && NoRepeats(coeffs)
    ensures var d := Diff(start, Flipped(start, coeffs, order - 2, n));
            |d| == n && forall x :: x in d ==> 1 <= x.bit <= order - 2
  {
    FlippedDiffers(start, coeffs, order - 2, n);
    SpotsAreDistinct(coeffs, order - 2, n);
  }

  /** Words keep their width. */
  lemma {:induction false} FlippedKeepsWidth(start: Polys, coeffs: seq<int>, w: nat, n: nat, width: nat)
    requires w <= 14 && w < width && n <= |coeffs| && InRange(coeffs, |start|, w)
    requires forall q :: 0 <= q < |start| ==> start[q] < Pow(2, width)
    ensures forall q :: 0 <= q < |start| ==> Flipped(start, coeffs, w, n)[q] < Pow(2, width)
  {
    if n > 0 {
      FlippedKeepsWidth(start, coeffs, w, n - 1, width);
      var before, spot := Flipped(start, coeffs, w, n - 1), SpotOf(coeffs[n - 1], w);
      ToggleInNumbers(before[spot.poly], spot.bit, width);
    }
  }

  function Counting(n: nat): (s: seq<int>)
    ensures |s| == n
  {
    seq(n, i => i)
  }

  /** The coefficients the neighbour is made from. */
  ghost function Drawn(rate: nat, w: nat, rand: nat -> nat): seq<int> { Shuffled(Counting(rate * w), rand, 0) }

  lemma DrawnFacts(rate: nat, w: nat, rand: nat -> nat)
    requires w > 0
    ensures var c := Drawn(rate, w, rand); |c| == rate * w && NoRepeats(c) && InRange(c, rate, w)
  {
    var n := rate * w;
    var c := Drawn(rate, w, rand);
    ShufflePermutes(Counting(n), rand, 0);
    SameMultisetNoRepeats(Counting(n), c);
    forall i | 0 <= i < |c| ensures 0 <= c[i] < n {
      assert c[i] in multiset(c);
      assert c[i] in Counting(n);
    }
    forall i | 0 <= i < |c| ensures 0 <= c[i] && SpotOf(c[i], w).poly < rate { SpotInRange(c[i], rate, w); }
  }

  method Coefficients(n: nat, rand: nat -> nat) returns (drawn: seq<int>)
    requires n >= 2
    ensures drawn == Shuffled(Counting(n), rand, 0)
  {
    var coeffs := new int[n];
    for i := 0 to n
      invariant forall k :: 0 <= k < i ==> coeffs[k] == k
    {
      coeffs[i] := i;
    }
    assert coeffs[..] == Counting(n);
    Shuffle(coeffs, rand);
    drawn := coeffs[..];
  }

  method NextNeighbor(start: array<nat>, neighbor: array<nat>, order: nat, rand: nat -> nat, more: nat -> bool)
    requires 3 <= order <= 16 && start != neighbor && neighbor.Length == start.Length && start.Length * (order - 2) >= 2
    modifies neighbor
    ensures var n := Geo(more, start.Length * (order - 2), 1);
            && 1 <= n <= start.Length * (order - 2)
            && |Diff(start[..], neighbor[..])| == n
            && forall x :: x in Diff(start[..], neighbor[..]) ==> 1 <= x.bit <= order - 2
    ensures (forall q :: 0 <= q < start.Length ==> start[q] < Pow(2, order)) ==>
              forall q :: 0 <= q < start.Length ==> neighbor[q] < Pow(2, order)
  {
    var rate, w := start.Length, order - 2;
    var coeffs := Coefficients(rate * w, rand);
    DrawnFacts(rate, w, rand);
    var nflips := RandGeo(more, rate * w);
    Copy(start, neighbor);
    FlipAll(neighbor, start[..], coeffs, w, nflips);
    NeighbourDiffers(start[..], coeffs, order, nflips);
    if forall q :: 0 <= q < start.Length ==> start[q] < Pow(2, order) {
      FlippedKeepsWidth(start[..], coeffs, w, nflips, order);
      forall q | 0 <= q < start.Length ensures neighbor[q] < Pow(2, order) { assert neighbor[q] == neighbor[..][q]; }
    }
  }

  method Copy(from: array<nat>, to: array<nat>)
    requires to.Length == from.Length && to != from
    modifies to
    ensures to[..] == from[..]
  {
    for i := 0 to from.Length
      invariant forall k :: 0 <= k < i ==> to[k] == from[k]
    {
      to[i] := from[i];
    }
  }

  method FlipAll(neighbor: array<nat>, ghost start: Polys, coeffs: seq<int>, w: nat, nflips: nat)
    requires w <= 14 && neighbor[..] == start && nflips <= |coeffs| && InRange(coeffs, |start|, w)
    modifies neighbor
    ensures neighbor[..] == Flipped(start, coeffs, w, nflips)
  {
    for i := 0 to nflips
      invariant neighbor[..] == Flipped(start, coeffs, w, i)
    {
      ghost var before := neighbor[..];
      var spot := SpotOf(coeffs[i], w);
      neighbor[spot.poly] := Toggle(neighbor[spot.poly], spot.bit);
      assert neighbor[..] == FlipAt(before, spot);
    }
  }
}
