/** The matching a sweep phase computes, over an arbitrary relation `can` of slots to segments
    (backend/coordination/sweep_coordinator.py, the loop of plan_phase), and how far the rotation
    of that matching carries over consecutive phases. */
module Matching {
  import opened Wrappers
  import opened Arith
  import opened SetFacts

  /** can(i, c): the radio of slot i tunes the centre of segment c. */
  type Relation = (nat, nat) -> bool

  /** The index d steps up from `start`, going round a band of n segments. */
  function Up(start: nat, d: nat, n: nat): (r: nat)
    requires start < n && d <= n
    ensures r < n
  {
    Wrap(start + d, n)
  }

  /** First free segment slot i can take, walking up from `start`, with j steps already taken. */
  function Search(can: Relation, i: nat, n: nat, covered: set<nat>, start: nat, j: nat): (r: Option<nat>)
    requires start < n && j <= n
    ensures r.Some? ==> r.value < n && r.value !in covered && can(i, r.value)
    decreases n - j
  {
    if j == n then None else
    var c := Up(start, j, n);
    if c !in covered && can(i, c) then Some(c) else Search(can, i, n, covered, start, j + 1)
  }

  /** Entry i is the segment index slot i is tasked with, for the first k slots. */
  function Picks(can: Relation, n: nat, offset: nat, k: nat): (p: seq<Option<nat>>)
    requires offset < n && k <= n
    ensures |p| == k && InRange(p, n)
  {
    if k == 0 then [] else
    var p := Picks(can, n, offset, k - 1);
    p + [Search(can, k - 1, n, Covered(p), Up(offset, k - 1, n), 0)]
  }

  ghost predicate InRange(p: seq<Option<nat>>, n: nat) {
    forall i :: 0 <= i < |p| && p[i].Some? ==> p[i].value < n
  }

  function Covered(p: seq<Option<nat>>): set<nat> {
    set i | 0 <= i < |p| && p[i].Some? :: p[i].value
  }

  function AsMap(p: seq<Option<nat>>): map<nat, nat> {
    map i: nat | 0 <= i < |p| && p[i].Some? :: p[i].value
  }

  /** A one-to-one assignment of the first k slots to segments they can take. */
  ghost predicate IsMatching(can: Relation, n: nat, k: nat, m: map<nat, nat>) {
    && (forall i :: i in m ==> i < k && m[i] < n && can(i, m[i]))
    && Injective(m)
  }

  // ---------------------------------------------------------------- one phase

  lemma StepsTo(start: nat, c: nat, n: nat) returns (d: nat)
    requires start < n && c < n
    ensures d < n && Up(start, d, n) == c
  {
    d := if start <= c then c - start else c + n - start;
  }

  lemma {:induction false} SearchExhausts(can: Relation, i: nat, n: nat, covered: set<nat>, start: nat, j: nat, d: nat)
    requires start < n && j <= d < n
    requires Search(can, i, n, covered, start, j).None?
    ensures var c := Up(start, d, n); c in covered || !can(i, c)
    decreases n - j
  {
    if j < d { SearchExhausts(can, i, n, covered, start, j + 1, d); }
  }

  /** A search from its first step fails exactly when nothing is left for the slot to take. */
  lemma SearchFailsIff(can: Relation, i: nat, n: nat, covered: set<nat>, start: nat)
    requires start < n
    ensures Search(can, i, n, covered, start, 0).None? <==> forall c: nat :: c < n && c !in covered ==> !can(i, c)
  {
    if Search(can, i, n, covered, start, 0).None? {
      forall c: nat | c < n && c !in covered ensures !can(i, c) {
        var d := StepsTo(start, c, n);
        SearchExhausts(can, i, n, covered, start, 0, d);
      }
    }
  }

  lemma Extend(p: seq<Option<nat>>, x: Option<nat>)
    ensures AsMap(p + [x]) == if x.Some? then AsMap(p)[|p| := x.value] else AsMap(p)
    ensures Covered(p + [x]) == if x.Some? then Covered(p) + {x.value} else Covered(p)
  {
    var q := p + [x];
    forall c | c in Covered(p) ensures c in Covered(q) {
      var i :| 0 <= i < |p| && p[i].Some? && p[i].value == c;
      assert q[i] == p[i];
    }
    assert q[|p|] == x;
  }

  ghost predicate Injective(m: map<nat, nat>) {
    forall i, j :: i in m && j in m && i != j ==> m[i] != m[j]
  }

  lemma MatchOneMore(can: Relation, n: nat, k: nat, m: map<nat, nat>, c: nat)
    requires IsMatching(can, n, k, m) && c < n && can(k, c)
    requires forall i :: i in m ==> m[i] != c
    ensures IsMatching(can, n, k + 1, m[k := c]) && |m[k := c]| == |m| + 1
  {
    assert k !in m;
    assert m[k := c].Keys == m.Keys + {k};
  }

  lemma NotPicked(q: seq<Option<nat>>, c: nat)
    requires c !in Covered(q)
    ensures forall i :: i in AsMap(q) ==> AsMap(q)[i] != c
  {
    forall i | i in AsMap(q) ensures AsMap(q)[i] != c {
      assert q[i].Some? && q[i].value == AsMap(q)[i] && q[i].value in Covered(q);
    }
  }

  /** A phase is a matching, and covers as many segments as it tasks slots. */
  lemma {:induction false} PicksAreMatching(can: Relation, n: nat, offset: nat, k: nat)
    requires offset < n && k <= n
    ensures var p := Picks(can, n, offset, k);
            IsMatching(can, n, k, AsMap(p)) && |AsMap(p)| == |Covered(p)|
  {
    if k > 0 {
      PicksAreMatching(can, n, offset, k - 1);
      var q := Picks(can, n, offset, k - 1);
      var x := Search(can, k - 1, n, Covered(q), Up(offset, k - 1, n), 0);
      Extend(q, x);
      if x.Some? {
        NotPicked(q, x.value);
        MatchOneMore(can, n, k - 1, AsMap(q), x.value);
      }
    }
  }

  // ---------------------------------------------------------------- which segment a slot takes

  /** Slot i finds segment c neither taken by an earlier slot nor out of its reach. */
  ghost predicate Free(can: Relation, p: seq<Option<nat>>, i: nat, c: nat) {
    can(i, c) && forall j :: 0 <= j < i && j < |p| ==> p[j] != Some(c)
  }

  /** The index d steps up from `start`, going round a band of n segments. */
  function Place(n: nat, start: nat, d: nat): nat
    requires n > 0
  {
    (start + d) % n
  }

  /** c is the first segment free for slot i on the way up from `start`, going round the band. */
  ghost predicate FirstFree(can: Relation, n: nat, start: nat, p: seq<Option<nat>>, i: nat, c: nat)
    requires n > 0
  {
    exists d: nat :: d < n && c == Place(n, start, d) && FreeAfter(can, n, start, p, i, d)
  }

  ghost predicate FreeAfter(can: Relation, n: nat, start: nat, p: seq<Option<nat>>, i: nat, d: nat)
    requires n > 0
  {
    Free(can, p, i, Place(n, start, d)) && forall e: nat :: e < d ==> !Free(can, p, i, Place(n, start, e))
  }

  lemma {:induction false} SearchIsFirst(can: Relation, i: nat, n: nat, covered: set<nat>, start: nat, j: nat, d: nat)
    requires start < n && j <= d < n
    requires forall e: nat :: j <= e < d ==> var c := Up(start, e, n); c in covered || !can(i, c)
    requires Up(start, d, n) !in covered && can(i, Up(start, d, n))
    ensures Search(can, i, n, covered, start, j) == Some(Up(start, d, n))
    decreases n - j
  {
    if j < d { SearchIsFirst(can, i, n, covered, start, j + 1, d); }
  }

  lemma {:induction false} FoundAt(can: Relation, i: nat, n: nat, covered: set<nat>, start: nat, j: nat) returns (d: nat)
    requires start < n && j <= n && Search(can, i, n, covered, start, j).Some?
    ensures j <= d < n && Search(can, i, n, covered, start, j) == Some(Up(start, d, n))
    ensures Up(start, d, n) !in covered && can(i, Up(start, d, n))
    ensures forall e: nat :: j <= e < d ==> var c := Up(start, e, n); c in covered || !can(i, c)
    decreases n - j
  {
    var c := Up(start, j, n);
    if c !in covered && can(i, c) { d := j; } else { d := FoundAt(can, i, n, covered, start, j + 1); }
  }

  lemma UpIsPlace(offset: nat, i: nat, d: nat, n: nat)
    requires offset < n && i <= n && d < n
    ensures Up(Up(offset, i, n), d, n) == Place(n, i + offset, d)
  {
    WrapIsMod(i + offset, n);
    WrapShift(i + offset, d, n);
  }

  lemma SearchIsFirstFree(can: Relation, n: nat, offset: nat, p: seq<Option<nat>>, i: nat, c: nat)
    requires offset < n && i < n && i <= |p|
    ensures Search(can, i, n, Covered(p[..i]), Up(offset, i, n), 0) == Some(c) <==> FirstFree(can, n, i + offset, p, i, c)
  {
    var covered, start, at := Covered(p[..i]), Up(offset, i, n), i + offset;
    forall x: nat ensures Free(can, p, i, x) <==> x !in covered && can(i, x) { FreeIsUncovered(can, p, i, x); }
    forall d: nat | d < n ensures Up(start, d, n) == Place(n, at, d) { UpIsPlace(offset, i, d, n); }
    if Search(can, i, n, covered, start, 0) == Some(c) {
      var d := FoundAt(can, i, n, covered, start, 0);
      forall e: nat | e < d ensures !Free(can, p, i, Place(n, at, e)) { assert Up(start, e, n) == Place(n, at, e); }
      assert c == Place(n, at, d) && FreeAfter(can, n, at, p, i, d);
    }
    if FirstFree(can, n, i + offset, p, i, c) {
      var d: nat :| d < n && c == Place(n, at, d) && FreeAfter(can, n, at, p, i, d);
      forall e: nat | e < d ensures var x := Up(start, e, n); x in covered || !can(i, x) {
        assert !Free(can, p, i, Place(n, at, e));
      }
      SearchIsFirst(can, i, n, covered, start, 0, d);
    }
  }

  lemma {:induction false} PickIsSearch(can: Relation, n: nat, offset: nat, k: nat, i: nat)
    requires offset < n && i < k <= n
    ensures var p := Picks(can, n, offset, k); p[i] == Search(can, i, n, Covered(p[..i]), Up(offset, i, n), 0)
  {
    var p, q := Picks(can, n, offset, k), Picks(can, n, offset, k - 1);
    assert p[..k - 1] == q;
    if i < k - 1 {
      PickIsSearch(can, n, offset, k - 1, i);
      assert p[..i] == q[..i] && p[i] == q[i];
    }
  }

  /** What slot i is tasked with, in terms of the slots before it and its own reach alone. */
  lemma PickIsFirstFree(can: Relation, n: nat, offset: nat, k: nat, i: nat, c: nat)
    requires offset < n && i < k <= n
    ensures Picks(can, n, offset, k)[i] == Some(c) <==> FirstFree(can, n, i + offset, Picks(can, n, offset, k), i, c)
  {
    PickIsSearch(can, n, offset, k, i);
    SearchIsFirstFree(can, n, offset, Picks(can, n, offset, k), i, c);
  }

  lemma FreeIsUncovered(can: Relation, p: seq<Option<nat>>, i: nat, x: nat)
    requires i <= |p|
    ensures Free(can, p, i, x) <==> x !in Covered(p[..i]) && can(i, x)
  {
    var q := p[..i];
    if can(i, x) && x !in Covered(q) {
      forall j | 0 <= j < i ensures p[j] != Some(x) { assert q[j] == p[j]; }
    }
  }

  lemma {:induction false} PicksPrefix(can: Relation, n: nat, offset: nat, i: nat, k: nat)
    requires offset < n && i <= k <= n
    ensures Picks(can, n, offset, i) == Picks(can, n, offset, k)[..i]
    ensures Covered(Picks(can, n, offset, i)) <= Covered(Picks(can, n, offset, k))
    decreases k - i
  {
    if i < k {
      PicksPrefix(can, n, offset, i, k - 1);
      Extend(Picks(can, n, offset, k - 1), Picks(can, n, offset, k)[k - 1]);
    }
  }

  /** A slot left idle could not have taken any segment the phase leaves uncovered. */
  lemma PicksAreMaximal(can: Relation, n: nat, offset: nat, k: nat, i: nat, c: nat)
    requires offset < n && i < k <= n && c < n
    requires Picks(can, n, offset, k)[i].None? && c !in Covered(Picks(can, n, offset, k))
    ensures !can(i, c)
  {
    PicksPrefix(can, n, offset, i, k);
    PicksPrefix(can, n, offset, i + 1, k);
    SearchFailsIff(can, i, n, Covered(Picks(can, n, offset, i)), Up(offset, i, n));
  }

  lemma TwoParts(a: set<nat>, b: set<nat>)
    ensures |a| == |a * b| + |a - b|
  {
    assert a == (a * b) + (a - b);
  }

  lemma HalfCount(other: map<nat, nat>, plan: map<nat, nat>, covered: set<nat>)
    requires Injective(other) && |covered| == |plan|
    requires forall i :: i in other && i !in plan ==> other[i] in covered
    ensures |other| <= 2 * |plan|
  {
    var tasked, idle := other.Keys * plan.Keys, other.Keys - plan.Keys;
    InjectionSize(other, idle, covered);
    SubsetSize(tasked, plan.Keys);
    TwoParts(other.Keys, plan.Keys);
  }

  /** Whatever one-to-one assignment of the same slots anyone proposes, it tasks at most twice as
      many of them as the phase does. */
  lemma PhaseIsHalfOptimal(can: Relation, n: nat, offset: nat, k: nat, other: map<nat, nat>)
    requires offset < n && k <= n && IsMatching(can, n, k, other)
    ensures |other| <= 2 * |AsMap(Picks(can, n, offset, k))|
  {
    var p := Picks(can, n, offset, k);
    PicksAreMatching(can, n, offset, k);
    forall i | i in other && i !in AsMap(p) ensures other[i] in Covered(p) {
      if other[i] !in Covered(p) {
        assert p[i].None?;
        PicksAreMaximal(can, n, offset, k, i, other[i]);
        assert false;
      }
    }
    HalfCount(other, AsMap(p), Covered(p));
  }

  /** The factor two is reached: two segments, and the first slot's natural segment is the only one
      the second slot can take. */
  lemma HalfIsTight(can: Relation)
    requires can(0, 0) && can(0, 1) && can(1, 0) && !can(1, 1)
    ensures |AsMap(Picks(can, 2, 0, 2))| == 1
    ensures IsMatching(can, 2, 2, map[0 := 1, 1 := 0])
  {
    FirstPickTakesBoth(can);
    Extend([Some(0)], None);
    assert AsMap([Some(0)]) == map[0 := 0];
    assert Picks(can, 2, 0, 2) == [Some(0)] + [None];
  }

  lemma FirstPickTakesBoth(can: Relation)
    requires can(0, 0) && !can(1, 1)
    ensures Picks(can, 2, 0, 1) == [Some(0)]
    ensures Search(can, 1, 2, Covered([Some(0)]), Up(0, 1, 2), 0) == None
  {
    var p0, p1: seq<Option<nat>> := [], [Some(0)];
    assert Covered(p0) == {} && AsMap(p0) == map[];
    assert Up(0, 0, 2) == 0 && Picks(can, 2, 0, 0) == p0;
    assert Picks(can, 2, 0, 1) == p0 + [Search(can, 0, 2, {}, 0, 0)] == p1;
    Extend(p0, Some(0));
    assert p0 + [Some(0)] == p1;
    assert Covered(p1) == {0};
    SearchFailsIff(can, 1, 2, {0}, 1);
  }

  /** How many slots a phase tasks, against how many take part. */
  lemma TaskedCount(p: seq<Option<nat>>)
    ensures |AsMap(p)| <= |p|
    ensures |AsMap(p)| == |p| <==> forall i :: 0 <= i < |p| ==> p[i].Some?
  {
    var tasked, all := AsMap(p).Keys, Below(|p|);
    SubsetSize(tasked, all);
    assert |AsMap(p)| == |tasked|;
    if forall i :: 0 <= i < |p| ==> p[i].Some? {
      assert tasked == all;
    } else {
      var i: nat :| i < |p| && p[i].None?;
      assert i in all && i !in tasked;
    }
  }

  // ---------------------------------------------------------------- rotation over phases

  /** Each of m slots can take each of n segments. */
  ghost predicate Universal(can: Relation, n: nat, m: nat) {
    forall i: nat, c: nat :: i < m && c < n ==> can(i, c)
  }

  function MinNat(a: nat, b: nat): nat { if a <= b then a else b }

  /** Segments m slots cover in a phase of the given rotation offset. */
  function CoverageAt(can: Relation, n: nat, m: nat, offset: nat): set<nat>
    requires offset < n
  {
    Covered(Picks(can, n, offset, MinNat(m, n)))
  }

  /** Segments covered q phases after phase `from`. */
  function PhaseCoverage(can: Relation, n: nat, m: nat, from: int, q: nat): set<nat>
    requires n > 0
  {
    CoverageAt(can, n, m, (from + q) % n)
  }

  ghost predicate Visits(can: Relation, n: nat, m: nat, from: int, phases: nat, c: nat)
    requires n > 0
  {
    exists q: nat :: q < phases && c in PhaseCoverage(can, n, m, from, q)
  }

  /** Phases from, from + 1, ..., from + phases - 1 leave no segment unvisited. */
  ghost predicate VisitsAll(can: Relation, n: nat, m: nat, from: int, phases: nat)
    requires n > 0
  {
    forall c: nat :: c < n ==> Visits(can, n, m, from, phases, c)
  }

  /** Universal slots simply take their natural segments. */
  lemma {:induction false} RotationPicks(can: Relation, n: nat, offset: nat, k: nat)
    requires offset < n && k <= n && Universal(can, n, k)
    ensures forall i: nat :: i < k ==> Picks(can, n, offset, k)[i] == Some(Up(offset, i, n))
  {
    if k > 0 {
      RotationPicks(can, n, offset, k - 1);
      var q, c := Picks(can, n, offset, k - 1), Up(offset, k - 1, n);
      forall i: nat | i < |q| ensures q[i] != Some(c) {
        assert Up(offset, i, n) != c;
      }
      assert Up(c, 0, n) == c;
      assert Search(can, k - 1, n, Covered(q), c, 0) == Some(c);
    }
  }

  /** At offset o the covered segments are the consecutive ones starting at o. */
  lemma RotationCoverage(can: Relation, n: nat, m: nat, o: nat, c: nat)
    requires o < n && Universal(can, n, m)
    ensures c in CoverageAt(can, n, m, o) <==> exists i: nat :: i < MinNat(m, n) && c == Up(o, i, n)
  {
    var k := MinNat(m, n);
    var p := Picks(can, n, o, k);
    RotationPicks(can, n, o, k);
    if c in Covered(p) {
      var i: nat :| i < |p| && p[i].Some? && p[i].value == c;
      assert c == Up(o, i, n);
    }
    if i: nat :| i < k && c == Up(o, i, n) {
      assert p[i].Some? && p[i].value == c;
    }
  }

  lemma OffsetThatVisits(can: Relation, n: nat, m: nat, o: nat, c: nat) returns (q: nat)
    requires 0 < m <= n && Universal(can, n, m) && c < n && o < n
    ensures q <= n - m && c in CoverageAt(can, n, m, Up(o, q, n))
  {
    var d := StepsTo(o, c, n);
    q := if d <= n - m then d else n - m;
    RotationCoverage(can, n, m, Up(o, q, n), c);
    assert c == Up(Up(o, q, n), d - q, n);
  }

  lemma SegmentMissed(can: Relation, n: nat, m: nat, o: nat, phases: nat) returns (c: nat)
    requires 0 < m && phases <= n - m && Universal(can, n, m) && o < n
    ensures c < n && forall q: nat :: q < phases ==> c !in CoverageAt(can, n, m, Up(o, q, n))
  {
    c := Up(o, m + phases - 1, n);
    forall q: nat | q < phases ensures c !in CoverageAt(can, n, m, Up(o, q, n)) {
      RotationCoverage(can, n, m, Up(o, q, n), c);
    }
  }

  lemma OffsetOfPhase(from: int, q: nat, n: nat)
    requires q < n
    ensures 0 <= from % n < n && (from + q) % n == Up(from % n, q, n)
  {
    WrapShift(from, q, n);
  }

  /** The exact revisit bound of a rotation that moves one segment per phase. */
  lemma RevisitExact(can: Relation, n: nat, m: nat, from: int, phases: nat)
    requires 0 < m <= n && Universal(can, n, m)
    ensures VisitsAll(can, n, m, from, phases) <==> phases >= n - m + 1
  {
    OffsetOfPhase(from, 0, n);
    if phases >= n - m + 1 {
      forall c: nat | c < n ensures Visits(can, n, m, from, phases, c) {
        var q := OffsetThatVisits(can, n, m, from % n, c);
        OffsetOfPhase(from, q, n);
        assert c in PhaseCoverage(can, n, m, from, q);
      }
    } else {
      var c := SegmentMissed(can, n, m, from % n, phases);
      forall q: nat | q < phases ensures c !in PhaseCoverage(can, n, m, from, q) {
        OffsetOfPhase(from, q, n);
      }
      assert !Visits(can, n, m, from, phases, c);
    }
  }

  lemma RotationMeetsCeil(n: nat, m: nat)
    requires 0 < m <= n
    ensures CeilDiv(n, m) >= n - m + 1 <==> m == 1 || m >= n - 1
    ensures CeilDiv(n, m) <= n - m + 1
  {
    CeilDivAtMost(n, m, n - m);
    CeilDivAtMost(n, m, n - m + 1);
    assert (n - m + 1) * m == n + (m - 1) * (n - m);
    assert (n - m) * m == n - 1 + (m - 1) * (n - m - 1);
    if m >= 2 && m <= n - 2 { MulAtLeast(m - 1, n - m - 1); }
  }

  /** ceil(n / m) phases are what this rotation needs for exactly these fleets: a single slot, or
      at most one slot fewer than there are segments. */
  lemma EstimateIsExactIff(can: Relation, n: nat, m: nat, from: int)
    requires m > 0 && n > 0 && Universal(can, n, m)
    ensures VisitsAll(can, n, m, from, CeilDiv(n, m)) <==> m == 1 || m >= n - 1
  {
    if m <= n {
      RevisitExact(can, n, m, from, CeilDiv(n, m));
      RotationMeetsCeil(n, m);
    } else {
      CeilDivAtMost(n, m, 0);
      forall c: nat | c < n ensures Visits(can, n, m, from, CeilDiv(n, m), c) {
        OffsetOfPhase(from, 0, n);
        var i := StepsTo(from % n, c, n);
        RotationCoverage(can, n, m, from % n, c);
        assert c in PhaseCoverage(can, n, m, from, 0);
      }
    }
  }

  ghost function UnionOf(s: seq<set<nat>>): set<nat> {
    if s == [] then {} else s[0] + UnionOf(s[1..])
  }

  lemma {:induction false} UnionSize(s: seq<set<nat>>, m: nat)
    requires forall p :: p in s ==> |p| <= m
    ensures |UnionOf(s)| <= |s| * m
  {
    if s != [] {
      UnionSize(s[1..], m);
      assert |s| * m == m + |s[1..]| * m;
      assert s[0] in s;
    }
  }

  /** No schedule with m slots per phase, rotating or not, visits n segments in fewer than
      ceil(n / m) phases. */
  lemma NoScheduleBeatsEstimate(n: nat, m: nat, schedule: seq<set<nat>>)
    requires m > 0
    requires forall p :: p in schedule ==> |p| <= m
    requires forall c: nat :: c < n ==> c in UnionOf(schedule)
    ensures CeilDiv(n, m) <= |schedule|
  {
    UnionSize(schedule, m);
    SubsetSize(Below(n), UnionOf(schedule));
    CeilDivAtMost(n, m, |schedule|);
  }
}
