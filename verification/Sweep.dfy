/** Coordinated wideband sweep: backend/coordination/sweep_coordinator.py.

    A band is cut into segments, the fleet is flattened into (node, radio) slots, and each phase
    maps slots to segments by rotation with a greedy fallback.  The class keeps the loops of the
    source; its plans are read off the matching of module Matching, whose lemmas say what kind of
    matching a phase is and how fast the rotation visits the band. */
module Sweep {
  import opened Wrappers
  import opened Arith
  import opened Matching

  datatype Segment = Segment(startHz: real, endHz: real) {
    function CenterHz(): real { (startHz + endHz) / 2.0 }
  }

  datatype Radio = Radio(backendId: string, bandwidthHz: int, minHz: real, maxHz: real) {
    predicate Covers(hz: real) { minHz <= hz <= maxHz }
  }

  datatype Node = Node(id: string, radios: seq<Radio>)

  datatype Slot = Slot(nodeId: string, radio: Radio)

  datatype Assignment = Assignment(nodeId: string, backendId: string, segment: Segment)

  datatype Plan = Plan(phaseIndex: int, dwell: real, assignments: seq<Assignment>, uncovered: seq<Segment>)

  datatype ConfigError = EmptyBand | NonPositiveWidth

  const DEFAULT_WIDTH_HZ: real := 1000000.0

  // ---------------------------------------------------------------- segments

  function Ceil(x: real): int { -((-x).Floor) }

  function SegmentCount(lo: real, hi: real, bw: real): int
    requires bw > 0.0
  {
    Ceil((hi - lo) / bw)
  }

  function Min(x: real, y: real): real { if x <= y then x else y }

  /** `segs` cuts [lo, hi] into adjacent pieces of width `bw`; only the last may be shorter. */
  ghost predicate Tiles(segs: seq<Segment>, lo: real, hi: real, bw: real) {
    && |segs| > 0
    && segs[0].startHz == lo
    && segs[|segs| - 1].endHz == hi
    && (forall i :: 0 < i < |segs| ==> segs[i].startHz == segs[i - 1].endHz)
    && (forall i :: 0 <= i < |segs| - 1 ==> segs[i].endHz - segs[i].startHz == bw)
    && 0.0 < segs[|segs| - 1].endHz - segs[|segs| - 1].startHz <= bw
  }

  lemma Scale(a: real, b: real, c: real)
    requires a < b && c > 0.0
    ensures a * c < b * c
  {
    assert (b - a) * c > 0.0;
  }

  lemma CountBounds(width: real, bw: real, n: int)
    requires bw > 0.0 && n == Ceil(width / bw)
    ensures (n - 1) as real * bw < width <= n as real * bw
  {
    var q := width / bw;
    assert q * bw == width;
    assert (n - 1) as real < q <= n as real;
    Scale((n - 1) as real, q, bw);
    if q < n as real { Scale(q, n as real, bw); }
  }

  lemma NextEdge(i: int, bw: real)
    ensures (i + 1) as real * bw == i as real * bw + bw
  {
  }

  lemma EdgesOf(lo: real, bw: real, n: nat) returns (edges: seq<real>)
    ensures |edges| == n + 1
    ensures forall i :: 0 <= i <= n ==> edges[i] == lo + i as real * bw
    ensures forall i :: 0 <= i < n ==> edges[i + 1] == edges[i] + bw
  {
    edges := seq(n + 1, i => lo + i as real * bw);
    forall i | 0 <= i < n ensures edges[i + 1] == edges[i] + bw { NextEdge(i, bw); }
  }

  lemma {:induction false} EdgesRise(edges: seq<real>, bw: real, k: nat)
    requires bw > 0.0 && k < |edges|
    requires forall i :: 0 <= i < |edges| - 1 ==> edges[i + 1] == edges[i] + bw
    ensures forall i :: 0 <= i <= k ==> edges[i] <= edges[k]
  {
    if k > 0 {
      EdgesRise(edges, bw, k - 1);
      assert edges[k - 1 + 1] == edges[k - 1] + bw;
    }
  }

  lemma {:induction false} TilesStartAlike(a: seq<Segment>, b: seq<Segment>, lo: real, hi: real, bw: real, i: nat)
    requires Tiles(a, lo, hi, bw) && Tiles(b, lo, hi, bw) && i < |a| && i < |b|
    ensures a[i].startHz == b[i].startHz
  {
    if i > 0 { TilesStartAlike(a, b, lo, hi, bw, i - 1); }
  }

  lemma {:induction false} EndsBefore(a: seq<Segment>, lo: real, hi: real, bw: real, i: nat)
    requires Tiles(a, lo, hi, bw) && i < |a| - 1 && bw > 0.0
    ensures a[i].endHz == a[i].startHz + bw < hi
    decreases |a| - i
  {
    assert a[i].endHz == a[i + 1].startHz;
    if i < |a| - 2 { EndsBefore(a, lo, hi, bw, i + 1); }
  }

  lemma TilesNoShorter(a: seq<Segment>, b: seq<Segment>, lo: real, hi: real, bw: real)
    requires Tiles(a, lo, hi, bw) && Tiles(b, lo, hi, bw) && bw > 0.0
    ensures |a| >= |b|
  {
    if |a| < |b| {
      TilesStartAlike(a, b, lo, hi, bw, |a| - 1);
      EndsBefore(b, lo, hi, bw, |a| - 1);
    }
  }

  /** A band is cut into pieces of one width in only one way. */
  lemma TilesUnique(a: seq<Segment>, b: seq<Segment>, lo: real, hi: real, bw: real)
    requires Tiles(a, lo, hi, bw) && Tiles(b, lo, hi, bw) && bw > 0.0
    ensures a == b
  {
    TilesNoShorter(a, b, lo, hi, bw);
    TilesNoShorter(b, a, lo, hi, bw);
    forall i | 0 <= i < |a| ensures a[i] == b[i] { TilesStartAlike(a, b, lo, hi, bw, i); }
  }

  lemma TilesFromEdges(segs: seq<Segment>, lo: real, hi: real, bw: real, edges: seq<real>)
    requires bw > 0.0 && lo < hi
    requires |edges| == |segs| + 1 && |segs| > 0
    requires edges[0] == lo && edges[|segs| - 1] < hi <= edges[|segs|]
    requires forall i :: 0 <= i < |segs| ==> edges[i + 1] == edges[i] + bw
    requires forall i :: 0 <= i < |segs| ==> segs[i] == Segment(edges[i], Min(edges[i] + bw, hi))
    ensures Tiles(segs, lo, hi, bw)
  {
    EdgesRise(edges, bw, |segs| - 1);
    forall i | 0 <= i < |segs| - 1 ensures segs[i].endHz == edges[i + 1] {
      assert edges[i + 1] <= edges[|segs| - 1];
    }
  }

  // ---------------------------------------------------------------- the plan of a matching

  function NodeSlots(n: Node, k: nat): seq<Slot>
    requires k <= |n.radios|
  {
    seq(k, i requires 0 <= i < k => Slot(n.id, n.radios[i]))
  }

  function Flatten(nodes: seq<Node>): seq<Slot> {
    if nodes == [] then [] else
    var last := nodes[|nodes| - 1];
    Flatten(nodes[..|nodes| - 1]) + NodeSlots(last, |last.radios|)
  }

  /** Slot i can take segment c when its radio tunes the segment's centre. */
  function Reach(slots: seq<Slot>, segs: seq<Segment>): Relation {
    (i: nat, c: nat) => i < |slots| && c < |segs| && slots[i].radio.Covers(segs[c].CenterHz())
  }

  function PhasePicks(slots: seq<Slot>, segs: seq<Segment>, phase: int): (p: seq<Option<nat>>)
    requires |segs| > 0
    ensures |p| == MinNat(|slots|, |segs|) && InRange(p, |segs|)
  {
    Picks(Reach(slots, segs), |segs|, phase % |segs|, MinNat(|slots|, |segs|))
  }

  function BackendName(s: Slot): string {
    if s.radio.backendId == "" then s.nodeId + ":default" else s.radio.backendId
  }

  function AssignmentsOf(slots: seq<Slot>, segs: seq<Segment>, p: seq<Option<nat>>): seq<Assignment>
    requires |p| <= |slots| && InRange(p, |segs|)
  {
    if p == [] then [] else
    var last := |p| - 1;
    AssignmentsOf(slots, segs, p[..last]) +
    (if p[last].Some? then [Assignment(slots[last].nodeId, BackendName(slots[last]), segs[p[last].value])] else [])
  }

  function UncoveredOf(segs: seq<Segment>, covered: set<nat>, k: nat): seq<Segment>
    requires k <= |segs|
  {
    if k == 0 then [] else
    UncoveredOf(segs, covered, k - 1) + (if k - 1 in covered then [] else [segs[k - 1]])
  }

  lemma {:induction false} AssignmentCount(slots: seq<Slot>, segs: seq<Segment>, p: seq<Option<nat>>)
    requires |p| <= |slots| && InRange(p, |segs|)
    ensures |AssignmentsOf(slots, segs, p)| == |AsMap(p)|
  {
    if p != [] {
      var last := |p| - 1;
      AssignmentCount(slots, segs, p[..last]);
      assert p == p[..last] + [p[last]];
      Extend(p[..last], p[last]);
    }
  }

  lemma PlanExtends(slots: seq<Slot>, segs: seq<Segment>, p: seq<Option<nat>>, x: Option<nat>)
    requires |p| < |slots| && InRange(p, |segs|) && (x.Some? ==> x.value < |segs|)
    ensures Covered(p + [x]) == if x.Some? then Covered(p) + {x.value} else Covered(p)
    ensures InRange(p + [x], |segs|)
    ensures AssignmentsOf(slots, segs, p + [x]) ==
            if x.None? then AssignmentsOf(slots, segs, p)
            else AssignmentsOf(slots, segs, p) +
                 [Assignment(slots[|p|].nodeId, BackendName(slots[|p|]), segs[x.value])]
  {
    Extend(p, x);
    assert (p + [x])[..|p|] == p;
  }

  lemma {:induction false} UncoveredCount(segs: seq<Segment>, covered: set<nat>, k: nat)
    requires k <= |segs|
    ensures |UncoveredOf(segs, covered, k)| + |set c | c in covered && c < k| == k
  {
    if k == 0 {
      assert (set c | c in covered && c < k) == {};
    } else {
      UncoveredCount(segs, covered, k - 1);
      var below := set c | c in covered && c < k - 1;
      var here := set c | c in covered && c < k;
      assert here == if k - 1 in covered then below + {k - 1} else below;
    }
  }

  function SegmentsOf(a: seq<Assignment>): seq<Segment> {
    seq(|a|, i requires 0 <= i < |a| => a[i].segment)
  }

  /** The segments among the first k whose index is in `covered`. */
  ghost function CoveredOf(segs: seq<Segment>, covered: set<nat>, k: nat): seq<Segment>
    requires k <= |segs|
  {
    if k == 0 then [] else
    var front := CoveredOf(segs, covered, k - 1);
    if k - 1 in covered then front + [segs[k - 1]] else front
  }

  lemma Snoc<T>(s: seq<T>, x: T)
    ensures multiset(s + [x]) == multiset(s) + multiset{x}
  {
  }

  lemma DealtSnoc<T>(a: seq<T>, b: seq<T>, s: seq<T>, x: T)
    requires multiset(a) + multiset(b) == multiset(s)
    ensures multiset(a + [x]) + multiset(b) == multiset(s + [x])
    ensures multiset(a) + multiset(b + [x]) == multiset(s + [x])
  {
    Snoc(a, x);
    Snoc(b, x);
    Snoc(s, x);
  }

  lemma UncoveredStep(segs: seq<Segment>, covered: set<nat>, k: nat)
    requires 0 < k <= |segs|
    ensures var front := UncoveredOf(segs, covered, k - 1);
            UncoveredOf(segs, covered, k) == if k - 1 in covered then front else front + [segs[k - 1]]
  {
  }

  lemma {:induction false} CoveredAndNot(segs: seq<Segment>, covered: set<nat>, k: nat)
    requires k <= |segs|
    ensures multiset(CoveredOf(segs, covered, k)) + multiset(UncoveredOf(segs, covered, k)) == multiset(segs[..k])
  {
    if k > 0 {
      var a, b := CoveredOf(segs, covered, k - 1), UncoveredOf(segs, covered, k - 1);
      CoveredAndNot(segs, covered, k - 1);
      assert segs[..k] == segs[..k - 1] + [segs[k - 1]];
      DealtSnoc(a, b, segs[..k - 1], segs[k - 1]);
      UncoveredStep(segs, covered, k);
    }
  }

  lemma {:induction false} CoverAbove(segs: seq<Segment>, covered: set<nat>, c: nat, k: nat)
    requires k <= |segs| && k <= c
    ensures CoveredOf(segs, covered + {c}, k) == CoveredOf(segs, covered, k)
  {
    if k > 0 { CoverAbove(segs, covered, c, k - 1); }
  }

  lemma {:induction false} CoverOneMore(segs: seq<Segment>, covered: set<nat>, c: nat, k: nat)
    requires k <= |segs| && c !in covered && c < k
    ensures multiset(CoveredOf(segs, covered + {c}, k)) == multiset(CoveredOf(segs, covered, k)) + multiset{segs[c]}
  {
    var wider, x := covered + {c}, segs[k - 1];
    var more, less := CoveredOf(segs, wider, k - 1), CoveredOf(segs, covered, k - 1);
    if c == k - 1 {
      CoverAbove(segs, covered, c, k - 1);
      Snoc(more, x);
    } else {
      CoverOneMore(segs, covered, c, k - 1);
      if k - 1 in covered { BothSnoc(more, less, segs[c], x); }
    }
  }

  lemma BothSnoc<T>(more: seq<T>, less: seq<T>, y: T, x: T)
    requires multiset(more) == multiset(less) + multiset{y}
    ensures multiset(more + [x]) == multiset(less + [x]) + multiset{y}
  {
    Snoc(more, x);
    Snoc(less, x);
  }

  ghost predicate PicksDiffer(p: seq<Option<nat>>) {
    forall i, j :: 0 <= i < j < |p| && p[i].Some? ==> p[i] != p[j]
  }

  lemma NewPick(front: seq<Option<nat>>, c: nat)
    requires PicksDiffer(front + [Some(c)])
    ensures c !in Covered(front)
  {
    var p := front + [Some(c)];
    forall i | 0 <= i < |front| && front[i].Some? ensures front[i].value != c { assert p[i] != p[|front|]; }
  }

  lemma {:induction false} AssignedAreCovered(slots: seq<Slot>, segs: seq<Segment>, p: seq<Option<nat>>)
    requires |p| <= |slots| && InRange(p, |segs|) && PicksDiffer(p)
    ensures multiset(SegmentsOf(AssignmentsOf(slots, segs, p))) == multiset(CoveredOf(segs, Covered(p), |segs|))
  {
    if p == [] {
      assert Covered(p) == {};
      NothingCovered(segs, |segs|);
    } else {
      var front, x := p[..|p| - 1], p[|p| - 1];
      assert p == front + [x];
      Extend(front, x);
      if x.Some? {
        NewPick(front, x.value);
        CoverOneMore(segs, Covered(front), x.value, |segs|);
        Snoc(SegmentsOf(AssignmentsOf(slots, segs, front)), segs[x.value]);
      }
      AssignedAreCovered(slots, segs, front);
      PlanExtends(slots, segs, front, x);
      SegmentsSnoc(AssignmentsOf(slots, segs, front), AssignmentsOf(slots, segs, p));
    }
  }

  lemma SegmentsSnoc(a: seq<Assignment>, b: seq<Assignment>)
    requires a == b || (b != [] && a == b[..|b| - 1])
    ensures SegmentsOf(b) == if a == b then SegmentsOf(a) else SegmentsOf(a) + [b[|b| - 1].segment]
  {
  }

  lemma {:induction false} NothingCovered(segs: seq<Segment>, k: nat)
    requires k <= |segs|
    ensures CoveredOf(segs, {}, k) == []
  {
    if k > 0 { NothingCovered(segs, k - 1); }
  }

  /** The assigned and the uncovered segments of a phase are together the segments of the band, each
      once. */
  lemma PlanPartitionsBand(slots: seq<Slot>, segs: seq<Segment>, phase: int)
    requires |segs| > 0
    ensures var p := PhasePicks(slots, segs, phase);
            multiset(SegmentsOf(AssignmentsOf(slots, segs, p))) + multiset(UncoveredOf(segs, Covered(p), |segs|)) == multiset(segs)
  {
    var p := PhasePicks(slots, segs, phase);
    PicksAreMatching(Reach(slots, segs), |segs|, phase % |segs|, |p|);
    forall i, j | 0 <= i < j < |p| && p[i].Some? ensures p[i] != p[j] {
      if p[j].Some? { assert i in AsMap(p) && j in AsMap(p); }
    }
    AssignedAreCovered(slots, segs, p);
    CoveredAndNot(segs, Covered(p), |segs|);
    assert segs[..|segs|] == segs;
  }

  /** So the numbers add up as well. */
  lemma PlanCounts(slots: seq<Slot>, segs: seq<Segment>, phase: int)
    requires |segs| > 0
    ensures var p := PhasePicks(slots, segs, phase);
            && |AssignmentsOf(slots, segs, p)| == |AsMap(p)| == |Covered(p)|
            && |AssignmentsOf(slots, segs, p)| + |UncoveredOf(segs, Covered(p), |segs|)| == |segs|
  {
    var p := PhasePicks(slots, segs, phase);
    PicksAreMatching(Reach(slots, segs), |segs|, phase % |segs|, |p|);
    AssignmentCount(slots, segs, p);
    UncoveredCount(segs, Covered(p), |segs|);
    assert (set c | c in Covered(p) && c < |segs|) == Covered(p);
  }

  /** Assignment a tasks slot i with segment c, which its radio can tune. */
  ghost predicate Tasks(slots: seq<Slot>, segs: seq<Segment>, a: Assignment, i: nat, c: nat) {
    i < |slots| && c < |segs| && a == Assignment(slots[i].nodeId, BackendName(slots[i]), segs[c]) &&
    slots[i].radio.Covers(segs[c].CenterHz())
  }

  /** Assignment k tasks some slot i with the segment picked for it; later assignments task later
      slots. */
  lemma {:induction false} AssignmentIsPick(slots: seq<Slot>, segs: seq<Segment>, p: seq<Option<nat>>, k: nat) returns (i: nat)
    requires |p| <= |slots| && InRange(p, |segs|) && k < |AssignmentsOf(slots, segs, p)|
    ensures i < |p| && p[i].Some? && k == |AssignmentsOf(slots, segs, p[..i])|
    ensures AssignmentsOf(slots, segs, p)[k] == Assignment(slots[i].nodeId, BackendName(slots[i]), segs[p[i].value])
  {
    var last := |p| - 1;
    if k < |AssignmentsOf(slots, segs, p[..last])| {
      i := AssignmentIsPick(slots, segs, p[..last], k);
      assert p[..last][..i] == p[..i];
    } else {
      i := last;
    }
  }

  /** What a phase promises: the assignments come from a one-to-one matching of slots to segments
      their radios can tune, and no idle slot could take any uncovered segment. */
  lemma PlanIsMaximalMatching(slots: seq<Slot>, segs: seq<Segment>, phase: int)
    requires |segs| > 0
    ensures var p := PhasePicks(slots, segs, phase);
            && IsMatching(Reach(slots, segs), |segs|, |p|, AsMap(p))
            && (forall a :: a in AssignmentsOf(slots, segs, p) ==> exists i: nat, c: nat :: i < |p| && Tasks(slots, segs, a, i, c) && p[i] == Some(c))
            && forall i, c :: 0 <= i < |p| && p[i].None? && 0 <= c < |segs| && c !in Covered(p) ==>
                 !slots[i].radio.Covers(segs[c].CenterHz())
  {
    var p := PhasePicks(slots, segs, phase);
    PicksAreMatching(Reach(slots, segs), |segs|, phase % |segs|, |p|);
    forall a | a in AssignmentsOf(slots, segs, p) ensures exists i: nat, c: nat :: i < |p| && Tasks(slots, segs, a, i, c) && p[i] == Some(c) {
      var k :| 0 <= k < |AssignmentsOf(slots, segs, p)| && AssignmentsOf(slots, segs, p)[k] == a;
      var i := AssignmentIsPick(slots, segs, p, k);
      assert i in AsMap(p);
      assert Tasks(slots, segs, a, i, p[i].value);
    }
    forall i: nat, c: nat | i < |p| && p[i].None? && c < |segs| && c !in Covered(p)
      ensures !slots[i].radio.Covers(segs[c].CenterHz())
    {
      PicksAreMaximal(Reach(slots, segs), |segs|, phase % |segs|, |p|, i, c);
    }
  }

  /** The radio of slot i tunes the middle of segment c. */
  ghost predicate TunesMiddle(slots: seq<Slot>, segs: seq<Segment>, i: nat, c: nat) {
    i < |slots| && c < |segs| &&
    var middle := (segs[c].startHz + segs[c].endHz) / 2.0;
    slots[i].radio.minHz <= middle <= slots[i].radio.maxHz
  }

  /** Segment c may still go to slot i: no earlier slot has it and the radio tunes its middle. */
  ghost predicate StillFree(slots: seq<Slot>, segs: seq<Segment>, p: seq<Option<nat>>, i: nat, c: nat) {
    TunesMiddle(slots, segs, i, c) && forall j :: 0 <= j < i && j < |p| ==> p[j] != Some(c)
  }

  /** Segment d steps up from `start`, going round the band, is the first still free for slot i. */
  ghost predicate FirstStillFree(slots: seq<Slot>, segs: seq<Segment>, p: seq<Option<nat>>, i: nat, start: nat, d: nat)
    requires |segs| > 0
  {
    && StillFree(slots, segs, p, i, Place(|segs|, start, d))
    && forall e: nat :: e < d ==> !StillFree(slots, segs, p, i, Place(|segs|, start, e))
  }

  /** The plan, slot by slot: slot i of phase h is tasked with the first segment still free on the way
      up from segment (i + h) mod n, going round the band, and idle if there is none. */
  lemma PlanIsFirstFit(slots: seq<Slot>, segs: seq<Segment>, phase: int, i: nat, c: nat)
    requires |segs| > 0 && i < |slots| && i < |segs|
    ensures var p, start := PhasePicks(slots, segs, phase), i + phase % |segs|;
            p[i] == Some(c) <==>
            exists d: nat :: d < |segs| && c == Place(|segs|, start, d) && FirstStillFree(slots, segs, p, i, start, d)
  {
    var can, n, p, start := Reach(slots, segs), |segs|, PhasePicks(slots, segs, phase), i + phase % |segs|;
    PickIsFirstFree(can, n, phase % n, |p|, i, c);
    forall x: nat ensures Free(can, p, i, x) <==> StillFree(slots, segs, p, i, x) {}
    forall d: nat ensures FreeAfter(can, n, start, p, i, d) <==> FirstStillFree(slots, segs, p, i, start, d) {}
  }

  /** A tasked slot has its assignment in the plan, behind those of the tasked slots before it: its
      node, its radio's name or else the node's default one, and the segment. */
  lemma {:induction false} PickIsAssigned(slots: seq<Slot>, segs: seq<Segment>, p: seq<Option<nat>>, i: nat)
    requires |p| <= |slots| && InRange(p, |segs|) && i < |p| && p[i].Some?
    ensures var a, k, name := AssignmentsOf(slots, segs, p), |AsMap(p[..i])|, slots[i].radio.backendId;
            k < |a| && a[k] == Assignment(slots[i].nodeId, if name == "" then slots[i].nodeId + ":default" else name, segs[p[i].value])
  {
    var last := |p| - 1;
    AssignmentCount(slots, segs, p[..last]);
    if i < last {
      PickIsAssigned(slots, segs, p[..last], i);
      assert p[..last][..i] == p[..i];
    }
  }

  /** The uncovered segments of a plan are listed in band order. */
  lemma {:induction false} UncoveredInOrder(segs: seq<Segment>, covered: set<nat>, k: nat, c: nat)
    requires c < k <= |segs| && c !in covered
    ensures var u, before := UncoveredOf(segs, covered, k), |set x: nat | x < c && x in covered|;
            before <= c && c - before < |u| && u[c - before] == segs[c]
  {
    UncoveredCount(segs, covered, c);
    assert (set x | x in covered && x < c) == (set x: nat | x < c && x in covered);
    if c < k - 1 { UncoveredInOrder(segs, covered, k - 1, c); }
  }

  /** Any other one-to-one assignment of the slots that take part has at most twice as many pairs as
      the plan. */
  lemma PlanIsHalfOptimal(slots: seq<Slot>, segs: seq<Segment>, phase: int, other: map<nat, nat>)
    requires |segs| > 0 && IsMatching(Reach(slots, segs), |segs|, MinNat(|slots|, |segs|), other)
    ensures |other| <= 2 * |AssignmentsOf(slots, segs, PhasePicks(slots, segs, phase))|
  {
    PhaseIsHalfOptimal(Reach(slots, segs), |segs|, phase % |segs|, MinNat(|slots|, |segs|), other);
    AssignmentCount(slots, segs, PhasePicks(slots, segs, phase));
  }

  // ---------------------------------------------------------------- the revisit estimate

  /** The segments assigned q phases after phase `from`. */
  function PlannedAt(slots: seq<Slot>, segs: seq<Segment>, from: int, q: nat): set<nat>
    requires |segs| > 0
  {
    Covered(PhasePicks(slots, segs, from + q))
  }

  /** Some plan of the phases from, ..., from + phases - 1 assigns segment c. */
  ghost predicate Revisited(slots: seq<Slot>, segs: seq<Segment>, from: int, phases: nat, c: nat)
    requires |segs| > 0
  {
    exists q: nat :: q < phases && c in PlannedAt(slots, segs, from, q)
  }

  lemma VisitsIsRevisited(slots: seq<Slot>, segs: seq<Segment>, from: int, phases: nat, c: nat)
    requires |segs| > 0
    ensures Visits(Reach(slots, segs), |segs|, |slots|, from, phases, c) <==> Revisited(slots, segs, from, phases, c)
  {
    var can := Reach(slots, segs);
    if q: nat :| q < phases && c in PhaseCoverage(can, |segs|, |slots|, from, q) {
      assert c in PlannedAt(slots, segs, from, q);
    }
    if q: nat :| q < phases && c in PlannedAt(slots, segs, from, q) {
      assert c in PhaseCoverage(can, |segs|, |slots|, from, q);
    }
  }

  /** When every radio tunes the whole band, the estimated number of phases brings every segment into
      some plan exactly for one slot or at least segments - 1 slots. */
  lemma EstimateSufficesIff(slots: seq<Slot>, segs: seq<Segment>, from: int)
    requires |slots| > 0 && |segs| > 0 && Universal(Reach(slots, segs), |segs|, |slots|)
    ensures (forall c: nat :: c < |segs| ==> Revisited(slots, segs, from, CeilDiv(|segs|, |slots|), c)) <==>
            |slots| == 1 || |slots| >= |segs| - 1
  {
    var phases := CeilDiv(|segs|, |slots|);
    EstimateIsExactIff(Reach(slots, segs), |segs|, |slots|, from);
    forall c: nat
      ensures Visits(Reach(slots, segs), |segs|, |slots|, from, phases, c) <==> Revisited(slots, segs, from, phases, c)
    {
      VisitsIsRevisited(slots, segs, from, phases, c);
    }
  }

  const PAIR: seq<Node> := [Node("n", [Radio("a", 1000000, 0.0, 6000000000.0), Radio("b", 1000000, 0.0, 6000000000.0)])]

  /** Two wide radios and a band of four segments: two phases are estimated, and the fourth segment
      is in neither plan. */
  lemma EstimateFallsShort(segs: seq<Segment>)
    requires Tiles(segs, 100000000.0, 104000000.0, 1000000.0)
    ensures IsWidth(None, PAIR, 1000000.0) && |segs| == 4 && CeilDiv(|segs|, |Flatten(PAIR)|) == 2
    ensures 3 !in Covered(PhasePicks(Flatten(PAIR), segs, 0)) && 3 !in Covered(PhasePicks(Flatten(PAIR), segs, 1))
  {
    var slots := Flatten(PAIR);
    PairSlots();
    assert NarrowestOf(slots, Some(1000000)) by { assert slots[0] in slots; }
    FourSegments(segs);
    var can := Reach(slots, segs);
    assert Universal(can, 4, 2);
    RotationCoverage(can, 4, 2, 0, 3);
    RotationCoverage(can, 4, 2, 1, 3);
  }

  lemma PairSlots()
    ensures Flatten(PAIR) == [Slot("n", PAIR[0].radios[0]), Slot("n", PAIR[0].radios[1])]
  {
    assert PAIR[..0] == [];
    assert NodeSlots(PAIR[0], 2) == [Slot("n", PAIR[0].radios[0]), Slot("n", PAIR[0].radios[1])];
  }

  lemma FourSegments(segs: seq<Segment>)
    requires Tiles(segs, 100000000.0, 104000000.0, 1000000.0)
    ensures |segs| == 4
    ensures forall c :: 0 <= c < 4 ==> 100000000.0 <= segs[c].CenterHz() <= 104000000.0
  {
    var edges := [100000000.0, 101000000.0, 102000000.0, 103000000.0, 104000000.0];
    var four := [Segment(edges[0], edges[1]), Segment(edges[1], edges[2]), Segment(edges[2], edges[3]), Segment(edges[3], edges[4])];
    TilesUnique(segs, four, 100000000.0, 104000000.0, 1000000.0);
  }

  // ---------------------------------------------------------------- instantaneous gap

  /** Estimated fraction of the band nobody listens to, for n segments and m slots. */
  function GapFraction(n: nat, m: nat): real {
    if n == 0 then 0.0 else
    var gap := 1.0 - MinNat(m, n) as real / n as real;
    if gap >= 0.0 then gap else 0.0
  }

  /** Fractions over one denominator compare as their numerators do. */
  lemma Over(a: real, b: real, d: real)
    requires d > 0.0
    ensures (a / d <= b / d) == (a <= b)
  {
    var x, y := a / d, b / d;
    assert a == x * d && b == y * d;
    if x < y { Scale(x, y, d); } else if y < x { Scale(y, x, d); }
  }

  lemma OneMinus(k: real, d: real)
    requires d > 0.0
    ensures 1.0 - k / d == (d - k) / d
  {
    var x, y := 1.0 - k / d, (d - k) / d;
    assert k == (k / d) * d && y * d == d - k;
    assert x * d == d - (k / d) * d;
    if x < y { Scale(x, y, d); } else if y < x { Scale(y, x, d); }
  }

  lemma Fraction(k: nat, t: nat, n: nat)
    requires t <= k <= n && n > 0
    ensures 0.0 <= 1.0 - k as real / n as real <= (n - t) as real / n as real
    ensures 1.0 - k as real / n as real == (n - t) as real / n as real <==> k == t
  {
    var d, gap := n as real, (n - k) as real;
    OneMinus(k as real, d);
    Over(gap, (n - t) as real, d);
    Over((n - t) as real, gap, d);
    Over(0.0, gap, d);
  }

  /** The estimate never exceeds the true gap of a phase, and equals it exactly when every slot
      that takes part was tasked. */
  lemma GapIsLowerBound(slots: seq<Slot>, segs: seq<Segment>, phase: int)
    requires |segs| > 0
    ensures var p := PhasePicks(slots, segs, phase);
            var gap := |UncoveredOf(segs, Covered(p), |segs|)| as real / |segs| as real;
            && GapFraction(|segs|, |slots|) <= gap
            && (GapFraction(|segs|, |slots|) == gap <==> forall i :: 0 <= i < |p| ==> p[i].Some?)
  {
    var p := PhasePicks(slots, segs, phase);
    PlanCounts(slots, segs, phase);
    TaskedCount(p);
    Fraction(|p|, |AsMap(p)|, |segs|);
  }

  // ---------------------------------------------------------------- the coordinator

  /** The smallest positive instantaneous bandwidth of the slots, if there is one. */
  ghost predicate NarrowestOf(slots: seq<Slot>, w: Option<int>) {
    match w
    case None => forall s :: s in slots ==> s.radio.bandwidthHz <= 0
    case Some(v) =>
      && v > 0
      && (exists s :: s in slots && s.radio.bandwidthHz == v)
      && (forall s :: s in slots && s.radio.bandwidthHz > 0 ==> v <= s.radio.bandwidthHz)
  }

  /** The segment width: pinned, else the narrowest radio's, else 1 MHz. */
  ghost predicate IsWidth(pinned: Option<real>, nodes: seq<Node>, w: real) {
    w > 0.0 &&
    if pinned.Some? then w == pinned.value
    else exists v :: NarrowestOf(Flatten(nodes), v) && w == if v.Some? then v.value as real else 1000000.0
  }

  /** There is no choice about the width, so none about the segments and the revisit estimate. */
  lemma WidthIsUnique(pinned: Option<real>, nodes: seq<Node>, w: real, w': real)
    requires IsWidth(pinned, nodes, w) && IsWidth(pinned, nodes, w')
    ensures w == w'
  {
    if pinned.None? {
      var v :| NarrowestOf(Flatten(nodes), v) && w == if v.Some? then v.value as real else 1000000.0;
      var v' :| NarrowestOf(Flatten(nodes), v') && w' == if v'.Some? then v'.value as real else 1000000.0;
      assert v == v';
    }
  }

  class SweepCoordinator {
    const bandStartHz: real
    const bandEndHz: real
    const pinnedWidthHz: Option<real>
    const dwellSeconds: real
    var phaseIndex: int

    ghost predicate Valid() {
      bandStartHz < bandEndHz && (pinnedWidthHz.Some? ==> pinnedWidthHz.value > 0.0)
    }

    constructor (lo: real, hi: real, width: Option<real>, dwell: real)
      requires lo < hi && (width.Some? ==> width.value > 0.0)
      ensures Valid() && phaseIndex == 0
      ensures bandStartHz == lo && bandEndHz == hi && pinnedWidthHz == width && dwellSeconds == dwell
    {
      bandStartHz, bandEndHz, pinnedWidthHz, dwellSeconds, phaseIndex := lo, hi, width, dwell, 0;
    }

    /** The checks the source's constructor makes before it builds an object. */
    static method Create(lo: real, hi: real, width: Option<real>, dwell: real)
      returns (r: Result<SweepCoordinator, ConfigError>)
      ensures hi <= lo <==> r == Err(EmptyBand)
      ensures lo < hi && width.Some? && width.value <= 0.0 <==> r == Err(NonPositiveWidth)
      ensures r.Ok? ==> fresh(r.value) && r.value.Valid() && r.value.phaseIndex == 0 &&
                        r.value.bandStartHz == lo && r.value.bandEndHz == hi && r.value.pinnedWidthHz == width
    {
      if hi <= lo { return Err(EmptyBand); }
      if width.Some? && width.value <= 0.0 { return Err(NonPositiveWidth); }
      var c := new SweepCoordinator(lo, hi, width, dwell);
      return Ok(c);
    }

    static method FlattenFleet(nodes: seq<Node>) returns (slots: seq<Slot>)
      ensures slots == Flatten(nodes)
    {
      slots := [];
      for i := 0 to |nodes|
        invariant slots == Flatten(nodes[..i])
      {
        ghost var before := slots;
        var n := nodes[i];
        for j := 0 to |n.radios|
          invariant slots == before + NodeSlots(n, j)
        {
          slots := slots + [Slot(n.id, n.radios[j])];
        }
        assert nodes[..i + 1][..i] == nodes[..i];
      }
      assert nodes[..|nodes|] == nodes;
    }

    static method Narrowest(slots: seq<Slot>) returns (best: Option<int>)
      ensures NarrowestOf(slots, best)
    {
      best := None;
      for i := 0 to |slots|
        invariant NarrowestOf(slots[..i], best)
      {
        var b := slots[i].radio.bandwidthHz;
        assert slots[..i + 1] == slots[..i] + [slots[i]];
        if b > 0 && (best.None? || b < best.value) {
          best := Some(b);
          assert slots[i] in slots[..i + 1];
        }
      }
      assert slots[..|slots|] == slots;
    }

    method ResolveWidth(nodes: seq<Node>) returns (w: real)
      requires Valid()
      ensures IsWidth(pinnedWidthHz, nodes, w)
    {
      if pinnedWidthHz.Some? { return pinnedWidthHz.value; }
      var slots := FlattenFleet(nodes);
      var best := Narrowest(slots);
      w := if best.Some? then best.value as real else DEFAULT_WIDTH_HZ;
    }

    method BuildSegments(width: real) returns (segs: seq<Segment>)
      requires Valid() && width > 0.0
      ensures |segs| == SegmentCount(bandStartHz, bandEndHz, width)
      ensures Tiles(segs, bandStartHz, bandEndHz, width)
    {
      var n := SegmentCount(bandStartHz, bandEndHz, width);
      CountBounds(bandEndHz - bandStartHz, width, n);
      if n < 0 { Scale(n as real, 0.0, width); }
      ghost var edges := EdgesOf(bandStartHz, width, n);
      segs := [];
      for i := 0 to n
        invariant |segs| == i
        invariant forall k :: 0 <= k < i ==> segs[k] == Segment(edges[k], Min(edges[k] + width, bandEndHz))
      {
        var s := bandStartHz + (i as real) * width;
        var e := Min(s + width, bandEndHz);
        segs := segs + [Segment(s, e)];
      }
      TilesFromEdges(segs, bandStartHz, bandEndHz, width, edges);
    }

    /** The natural segment if this radio may have it, else the first fallback. */
    static method PickSegment(slots: seq<Slot>, i: nat, segs: seq<Segment>, covered: set<nat>, natural: nat)
      returns (r: Option<nat>)
      requires i < |slots| && natural < |segs|
      ensures r == Search(Reach(slots, segs), i, |segs|, covered, natural, 0)
    {
      ghost var can := Reach(slots, segs);
      var radio := slots[i].radio;
      assert Up(natural, 0, |segs|) == natural;
      var needsFallback := natural in covered || !radio.Covers(segs[natural].CenterHz());
      if !needsFallback { return Some(natural); }
      for j := 0 to |segs|
        invariant Search(can, i, |segs|, covered, natural, 0) == Search(can, i, |segs|, covered, natural, j)
      {
        WrapIsMod(natural + j, |segs|);
        var c := (natural + j) % |segs|;
        if c !in covered && radio.Covers(segs[c].CenterHz()) { return Some(c); }
      }
      return None;
    }

    /** In the phase of offset o, slot i looks at segment (i + o) mod n. */
    static function NaturalIndex(i: nat, offset: nat, n: nat): (r: nat)
      requires i < n && offset < n
      ensures r == Up(offset, i, n)
    {
      WrapIsMod(i + offset, n);
      (i + offset) % n
    }

    static method MatchSlots(slots: seq<Slot>, segs: seq<Segment>, offset: nat)
      returns (assignments: seq<Assignment>, covered: set<nat>)
      requires offset < |segs|
      ensures var p := Picks(Reach(slots, segs), |segs|, offset, MinNat(|slots|, |segs|));
              covered == Covered(p) && assignments == AssignmentsOf(slots, segs, p)
    {
      ghost var can := Reach(slots, segs);
      covered, assignments := {}, [];
      var i := 0;
      ghost var p := Picks(can, |segs|, offset, 0);
      assert Covered(p) == {};
      while i < |slots| && i < |segs|
        invariant 0 <= i <= MinNat(|slots|, |segs|)
        invariant p == Picks(can, |segs|, offset, i)
        invariant covered == Covered(p) && assignments == AssignmentsOf(slots, segs, p)
      {
        var r := PickSegment(slots, i, segs, covered, NaturalIndex(i, offset, |segs|));
        PlanExtends(slots, segs, p, r);
        p := p + [r];
        if r.Some? {
          covered := covered + {r.value};
          assignments := assignments + [Assignment(slots[i].nodeId, BackendName(slots[i]), segs[r.value])];
        }
        i := i + 1;
      }
      assert i == MinNat(|slots|, |segs|);
      assert p == Picks(Reach(slots, segs), |segs|, offset, MinNat(|slots|, |segs|));
    }

    static method CollectUncovered(segs: seq<Segment>, covered: set<nat>) returns (uncovered: seq<Segment>)
      ensures uncovered == UncoveredOf(segs, covered, |segs|)
    {
      uncovered := [];
      for c := 0 to |segs|
        invariant uncovered == UncoveredOf(segs, covered, c)
      {
        if c !in covered { uncovered := uncovered + [segs[c]]; }
      }
    }

    /** One phase: the assignments and the uncovered segments of the phase's matching. */
    method PlanPhase(nodes: seq<Node>, phase: Option<int>) returns (plan: Plan, ghost segs: seq<Segment>)
      requires Valid()
      ensures plan.phaseIndex == (if phase.Some? then phase.value else phaseIndex) && plan.dwell == dwellSeconds
      ensures exists w :: IsWidth(pinnedWidthHz, nodes, w) && Tiles(segs, bandStartHz, bandEndHz, w)
      ensures var slots := Flatten(nodes);
              var p := PhasePicks(slots, segs, plan.phaseIndex);
              plan.assignments == AssignmentsOf(slots, segs, p) &&
              plan.uncovered == UncoveredOf(segs, Covered(p), |segs|)
    {
      var index := if phase.Some? then phase.value else phaseIndex;
      var width := ResolveWidth(nodes);
      var segments := BuildSegments(width);
      segs := segments;
      var slots := FlattenFleet(nodes);
      if |slots| == 0 {
        AllUncovered(segments, |segments|);
        assert Covered(PhasePicks(slots, segments, index)) == {};
        return Plan(index, dwellSeconds, [], segments), segs;
      }
      var assignments, covered := MatchSlots(slots, segments, index % |segments|);
      var uncovered := CollectUncovered(segments, covered);
      plan := Plan(index, dwellSeconds, assignments, uncovered);
    }

    method AdvancePhase() returns (r: int)
      modifies this
      ensures phaseIndex == old(phaseIndex) + 1 && r == phaseIndex
    {
      phaseIndex := phaseIndex + 1;
      return phaseIndex;
    }

    /** Estimated phases to visit the whole band; None stands for the source's infinity. */
    method EstimateRevisitPhases(nodes: seq<Node>) returns (phases: Option<nat>)
      requires Valid()
      ensures phases.None? <==> Flatten(nodes) == []
      ensures phases.Some? ==> exists segs: seq<Segment>, w ::
                IsWidth(pinnedWidthHz, nodes, w) && Tiles(segs, bandStartHz, bandEndHz, w) &&
                |segs| == SegmentCount(bandStartHz, bandEndHz, w) && phases.value == CeilDiv(|segs|, |Flatten(nodes)|)
    {
      var width := ResolveWidth(nodes);
      var segments := BuildSegments(width);
      var slots := FlattenFleet(nodes);
      if |slots| == 0 { return None; }
      phases := Some(CeilDiv(|segments|, |slots|));
    }
  }

  lemma AllUncovered(segs: seq<Segment>, k: nat)
    requires k <= |segs|
    ensures UncoveredOf(segs, {}, k) == segs[..k]
  {
    if k > 0 { AllUncovered(segs, k - 1); }
  }
}
