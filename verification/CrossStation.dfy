/** Cross-station deduplication, as values: backend/fusion/cross_station_dedup.py.

    Tracks are swept oldest first; each kept track absorbs every later one of another origin that is
    alike at that moment.  Which tracks are alike (frequency, time, place, modulation) is an
    arbitrary relation here. */
module CrossStation {
  import opened Wrappers
  import opened Seqs
  import opened Sorting
  import opened Tracks

  type Alike = (Track, Track) -> bool

  function Origin(t: Track): string {
    if t.upstream.Some? && t.upstream.value != "" then t.upstream.value else "_local"
  }

  predicate CrossPair(a: Track, b: Track) { Origin(a) != Origin(b) }

  function Join(keep: Track, drop: Track): Track {
    keep.(nodes := keep.nodes + drop.nodes,
          confidence := if drop.confidence > keep.confidence then drop.confidence else keep.confidence,
          fix := if keep.fix.None? then drop.fix else keep.fix,
          fixConfidence := if keep.fix.None? && drop.fix.Some? then drop.fixConfidence else keep.fixConfidence,
          lastSeen := if drop.lastSeen > keep.lastSeen then drop.lastSeen else keep.lastSeen,
          count := keep.count + drop.count)
  }

  /** A kept track, what it absorbed, and what it became. */
  datatype Group = Group(keeper: Track, absorbed: seq<Track>, result: Track)

  datatype Swept = Swept(group: Group, left: seq<Track>)

  function AbsorbAll(alike: Alike, g: Group, rest: seq<Track>): (r: Swept)
    ensures |r.left| <= |rest|
    decreases rest
  {
    if rest == [] then Swept(g, []) else
    var b := rest[0];
    if CrossPair(g.result, b) && alike(g.result, b) then
      AbsorbAll(alike, Group(g.keeper, g.absorbed + [b], Join(g.result, b)), rest[1..])
    else
      var r := AbsorbAll(alike, g, rest[1..]);
      Swept(r.group, [b] + r.left)
  }

  function Sweep(alike: Alike, ts: seq<Track>): seq<Group>
    decreases |ts|
  {
    if ts == [] then [] else
    var s := AbsorbAll(alike, Group(ts[0], [], ts[0]), ts[1..]);
    [s.group] + Sweep(alike, s.left)
  }

  predicate Older(a: Track, b: Track) { a.firstSeen <= b.firstSeen }

  function InOrder(ids: seq<string>, live: map<string, Track>): seq<Track> {
    if ids == [] then [] else
    var last := ids[|ids| - 1];
    InOrder(ids[..|ids| - 1], live) + (if last in live then [live[last]] else [])
  }

  function Groups(s: State, alike: Alike): seq<Group> { Sweep(alike, Sort(Older, InOrder(s.ids, s.live))) }

  function Results(gs: seq<Group>): seq<Track> {
    if gs == [] then [] else [gs[0].result] + Results(gs[1..])
  }

  function AsMap(ts: seq<Track>): map<string, Track> {
    if ts == [] then map[] else AsMap(ts[..|ts| - 1])[ts[|ts| - 1].id := ts[|ts| - 1]]
  }

  function Dedup(s: State, alike: Alike): State {
    var live := AsMap(Results(Groups(s, alike)));
    s.(ids := Keep(s.ids, live.Keys), live := live)
  }

  // ---------------------------------------------------------------- what a set of tracks adds up to

  /** Observation total, detecting nodes, best confidence and newest sighting. */
  datatype Summary = Summary(count: nat, nodes: set<string>, best: Option<real>, newest: Option<int>)

  const NOTHING := Summary(0, {}, None, None)

  function Of(t: Track): Summary { Summary(t.count, t.nodes, Some(t.confidence), Some(t.lastSeen)) }

  function MaxReal(a: Option<real>, b: Option<real>): Option<real> {
    if a.None? || (b.Some? && b.value > a.value) then b else a
  }

  function MaxInt(a: Option<int>, b: Option<int>): Option<int> {
    if a.None? || (b.Some? && b.value > a.value) then b else a
  }

  function Plus(a: Summary, b: Summary): Summary {
    Summary(a.count + b.count, a.nodes + b.nodes, MaxReal(a.best, b.best), MaxInt(a.newest, b.newest))
  }

  function Summarise(ts: seq<Track>): Summary {
    if ts == [] then NOTHING else Plus(Summarise(ts[..|ts| - 1]), Of(ts[|ts| - 1]))
  }

  lemma PlusLaws(a: Summary, b: Summary, c: Summary)
    ensures Plus(a, b) == Plus(b, a) && Plus(a, Plus(b, c)) == Plus(Plus(a, b), c) && Plus(a, NOTHING) == a
  {
  }

  lemma SummariseSnoc(ts: seq<Track>, t: Track)
    ensures Summarise(ts + [t]) == Plus(Summarise(ts), Of(t))
  {
    assert (ts + [t])[..|ts|] == ts;
  }

  lemma SummariseOne(t: Track)
    ensures Summarise([t]) == Of(t)
  {
    assert [t][..0] == [];
    PlusLaws(Of(t), NOTHING, NOTHING);
  }

  lemma {:induction false} SummariseSplit(a: seq<Track>, b: seq<Track>)
    ensures Summarise(a + b) == Plus(Summarise(a), Summarise(b))
  {
    if b == [] {
      assert a + b == a;
      PlusLaws(Summarise(a), NOTHING, NOTHING);
    } else {
      var front, t := b[..|b| - 1], b[|b| - 1];
      SummariseSplit(a, front);
      assert a + b == a + front + [t] && b == front + [t];
      SummariseSnoc(a + front, t);
      PlusLaws(Summarise(a), Summarise(front), Of(t));
    }
  }

  lemma {:induction false} BestHolder(ts: seq<Track>) returns (u: Track)
    requires ts != []
    ensures u in ts && Summarise(ts).best == Some(u.confidence)
  {
    var front, last := ts[..|ts| - 1], ts[|ts| - 1];
    assert ts == front + [last];
    u := last;
    if front != [] {
      var v := BestHolder(front);
      if last.confidence <= v.confidence { u := v; }
    }
  }

  lemma {:induction false} NewestHolder(ts: seq<Track>) returns (u: Track)
    requires ts != []
    ensures u in ts && Summarise(ts).newest == Some(u.lastSeen)
  {
    var front, last := ts[..|ts| - 1], ts[|ts| - 1];
    assert ts == front + [last];
    u := last;
    if front != [] {
      var v := NewestHolder(front);
      if last.lastSeen <= v.lastSeen { u := v; }
    }
  }

  ghost predicate NoneAbove(s: Summary, t: Track) {
    s.best.Some? && t.confidence <= s.best.value && s.newest.Some? && t.lastSeen <= s.newest.value
  }

  lemma {:induction false} SummaryBounds(ts: seq<Track>, t: Track)
    requires t in ts
    ensures NoneAbove(Summarise(ts), t)
  {
    var front, last := ts[..|ts| - 1], ts[|ts| - 1];
    assert ts == front + [last];
    if t in front { SummaryBounds(front, t); }
  }

  /** The best confidence of a summary is held by a member and exceeded by none; likewise the newest
      sighting. */
  lemma SummaryMeans(ts: seq<Track>, t: Track)
    requires t in ts
    ensures var s := Summarise(ts);
            && NoneAbove(s, t)
            && (exists u :: u in ts && s.best == Some(u.confidence))
            && (exists u :: u in ts && s.newest == Some(u.lastSeen))
  {
    SummaryBounds(ts, t);
    var u := BestHolder(ts);
    var v := NewestHolder(ts);
  }

  // ---------------------------------------------------------------- one group

  /** What a group is: the keeper is the earliest seen, everything it absorbed came from another
      origin, and the result is the keeper with the members' summary. */
  ghost predicate GroupOk(g: Group) {
    && (forall t :: t in g.absorbed ==> CrossPair(g.keeper, t) && g.keeper.firstSeen <= t.firstSeen)
    && g.result.id == g.keeper.id && g.result.freq == g.keeper.freq && g.result.firstSeen == g.keeper.firstSeen
    && g.result.upstream == g.keeper.upstream && g.result.stage == g.keeper.stage
    && Of(g.result) == Summarise([g.keeper] + g.absorbed)
  }

  lemma JoinKeepsGroup(g: Group, b: Track)
    requires GroupOk(g) && CrossPair(g.keeper, b) && g.keeper.firstSeen <= b.firstSeen
    ensures GroupOk(Group(g.keeper, g.absorbed + [b], Join(g.result, b)))
  {
    assert [g.keeper] + (g.absorbed + [b]) == [g.keeper] + g.absorbed + [b];
    SummariseSnoc([g.keeper] + g.absorbed, b);
  }

  lemma NewGroupOk(t: Track)
    ensures GroupOk(Group(t, [], t))
  {
    assert [t] + [] == [t];
    SummariseOne(t);
  }

  lemma {:induction false} AbsorbGroupOk(alike: Alike, g: Group, rest: seq<Track>)
    requires GroupOk(g) && forall t :: t in rest ==> g.keeper.firstSeen <= t.firstSeen
    ensures GroupOk(AbsorbAll(alike, g, rest).group) && AbsorbAll(alike, g, rest).group.keeper == g.keeper
    decreases rest
  {
    if rest != [] {
      var b, tail := rest[0], rest[1..];
      assert b in rest && forall t :: t in tail ==> t in rest;
      if CrossPair(g.result, b) && alike(g.result, b) {
        JoinKeepsGroup(g, b);
        AbsorbGroupOk(alike, Group(g.keeper, g.absorbed + [b], Join(g.result, b)), tail);
      } else {
        AbsorbGroupOk(alike, g, tail);
      }
    }
  }

  lemma PutBack(a: multiset<Track>, left: seq<Track>, g: multiset<Track>, tail: seq<Track>, b: Track)
    requires a + multiset(left) == g + multiset(tail)
    ensures a + multiset([b] + left) == g + multiset([b] + tail)
  {
    var x := multiset{b};
    assert multiset([b] + left) == x + multiset(left) && multiset([b] + tail) == x + multiset(tail);
    assert a + (x + multiset(left)) == x + (a + multiset(left));
  }

  lemma {:induction false} AbsorbSplits(alike: Alike, g: Group, rest: seq<Track>)
    ensures var r := AbsorbAll(alike, g, rest);
            multiset(r.group.absorbed) + multiset(r.left) == multiset(g.absorbed) + multiset(rest)
    decreases rest
  {
    if rest != [] {
      var b, tail := rest[0], rest[1..];
      assert rest == [b] + tail;
      if CrossPair(g.result, b) && alike(g.result, b) {
        AbsorbSplits(alike, Group(g.keeper, g.absorbed + [b], Join(g.result, b)), tail);
      } else {
        AbsorbSplits(alike, g, tail);
        var left := AbsorbAll(alike, g, tail).left;
        PutBack(multiset(AbsorbAll(alike, g, tail).group.absorbed), left, multiset(g.absorbed), tail, b);
      }
    }
  }

  lemma {:induction false} LeftIsSorted(alike: Alike, g: Group, rest: seq<Track>)
    requires Sorted(Older, rest)
    ensures var left := AbsorbAll(alike, g, rest).left; Sorted(Older, left) && forall t :: t in left ==> t in rest
    decreases rest
  {
    if rest != [] {
      var b, tail := rest[0], rest[1..];
      assert forall t :: t in tail ==> t in rest && Older(b, t);
      if CrossPair(g.result, b) && alike(g.result, b) {
        LeftIsSorted(alike, Group(g.keeper, g.absorbed + [b], Join(g.result, b)), tail);
      } else {
        LeftIsSorted(alike, g, tail);
        var left := AbsorbAll(alike, g, tail).left;
        forall i | 0 <= i < |left| ensures Older(b, left[i]) { assert left[i] in left; }
        assert AbsorbAll(alike, g, rest).left == [b] + left;
      }
    }
  }

  // ---------------------------------------------------------------- one pass

  /** All members of all groups. */
  function Flat(gs: seq<Group>): seq<Track> {
    if gs == [] then [] else ([gs[0].keeper] + gs[0].absorbed) + Flat(gs[1..])
  }

  lemma RegroupMembers(t: Track, ts: seq<Track>, absorbed: seq<Track>, left: seq<Track>, flat: seq<Track>)
    requires multiset(absorbed) + multiset(left) == multiset(ts) && multiset(flat) == multiset(left)
    ensures multiset(([t] + absorbed) + flat) == multiset([t] + ts)
  {
  }

  /** A pass over tracks sorted by age splits them into groups, every one of them as promised. */
  lemma {:induction false} SweepFacts(alike: Alike, ts: seq<Track>)
    requires Sorted(Older, ts)
    ensures var gs := Sweep(alike, ts);
            (forall g :: g in gs ==> GroupOk(g)) && multiset(Flat(gs)) == multiset(ts)
    decreases |ts|
  {
    if ts != [] {
      var g := Group(ts[0], [], ts[0]);
      NewGroupOk(ts[0]);
      assert forall t :: t in ts[1..] ==> Older(ts[0], t);
      AbsorbGroupOk(alike, g, ts[1..]);
      AbsorbSplits(alike, g, ts[1..]);
      LeftIsSorted(alike, g, ts[1..]);
      var s := AbsorbAll(alike, g, ts[1..]);
      SweepFacts(alike, s.left);
      assert ts == [ts[0]] + ts[1..];
      RegroupMembers(ts[0], ts[1..], s.group.absorbed, s.left, Flat(Sweep(alike, s.left)));
      assert Sweep(alike, ts)[1..] == Sweep(alike, s.left);
    }
  }

  lemma OlderIsPreorder()
    ensures TotalPreorder(Older)
  {
  }

  /** The whole pass: the tracks split into groups; each survivor is the earliest seen of its group,
      absorbed only tracks of another origin, and carries the group's observation total, nodes,
      best confidence and newest sighting. */
  lemma PassFacts(s: State, alike: Alike)
    ensures var gs := Groups(s, alike);
            (forall g :: g in gs ==> GroupOk(g)) && multiset(Flat(gs)) == multiset(InOrder(s.ids, s.live))
  {
    OlderIsPreorder();
    SortSorts(Older, InOrder(s.ids, s.live));
    SweepFacts(alike, Sort(Older, InOrder(s.ids, s.live)));
  }

  lemma DropAt(b: seq<Track>, i: nat, front: seq<Track>)
    requires i < |b| && multiset(b) == multiset(front) + multiset{b[i]}
    ensures multiset(b[..i] + b[i + 1..]) == multiset(front)
  {
    assert b == b[..i] + [b[i]] + b[i + 1..];
    Cancel(multiset(b[..i]), multiset{b[i]}, multiset(b[i + 1..]), multiset(front));
  }

  lemma Cancel(a: multiset<Track>, x: multiset<Track>, c: multiset<Track>, f: multiset<Track>)
    requires a + x + c == f + x
    ensures a + c == f
  {
    forall t ensures (a + c)[t] == f[t] { assert (a + x + c)[t] == (f + x)[t]; }
  }

  lemma {:induction false} SummaryIgnoresOrder(a: seq<Track>, b: seq<Track>)
    requires multiset(a) == multiset(b)
    ensures Summarise(a) == Summarise(b)
  {
    if a == [] {
      assert |multiset(b)| == |b|;
    } else {
      var x, front := a[|a| - 1], a[..|a| - 1];
      SplitLast(a);
      assert x in multiset(b);
      var i :| 0 <= i < |b| && b[i] == x;
      DropAt(b, i, front);
      SummaryIgnoresOrder(front, b[..i] + b[i + 1..]);
      MoveLast(b[..i], x, b[i + 1..]);
      assert b == b[..i] + [x] + b[i + 1..];
    }
  }

  lemma MoveLast(p: seq<Track>, x: Track, q: seq<Track>)
    ensures Summarise(p + [x] + q) == Plus(Summarise(p + q), Of(x))
  {
    SummariseSplit(p + [x], q);
    SummariseSnoc(p, x);
    SummariseSplit(p, q);
    SwapLast(Summarise(p), Of(x), Summarise(q));
  }

  lemma SwapLast(x: Summary, y: Summary, z: Summary)
    ensures Plus(Plus(x, y), z) == Plus(Plus(x, z), y)
  {
  }

  lemma {:induction false} ResultsSummarise(gs: seq<Group>)
    requires forall g :: g in gs ==> GroupOk(g)
    ensures Summarise(Results(gs)) == Summarise(Flat(gs))
  {
    if gs != [] {
      assert gs[0] in gs && forall g :: g in gs[1..] ==> g in gs;
      ResultsSummarise(gs[1..]);
      SummariseSplit([gs[0].keeper] + gs[0].absorbed, Flat(gs[1..]));
      SummariseSplit([gs[0].result], Results(gs[1..]));
      SummariseOne(gs[0].result);
    }
  }

  /** The pass conserves the observation total, the set of detecting nodes, the best confidence and
      the newest sighting over all tracks. */
  lemma DedupConserves(s: State, alike: Alike)
    ensures Summarise(Results(Groups(s, alike))) == Summarise(InOrder(s.ids, s.live))
  {
    PassFacts(s, alike);
    ResultsSummarise(Groups(s, alike));
    SummaryIgnoresOrder(Flat(Groups(s, alike)), InOrder(s.ids, s.live));
  }

  // ---------------------------------------------------------------- the order of the pass

  lemma {:induction false} InOrderIs(ids: seq<string>, live: map<string, Track>)
    requires forall id :: id in ids ==> id in live
    ensures |InOrder(ids, live)| == |ids| && forall i :: 0 <= i < |ids| ==> InOrder(ids, live)[i] == live[ids[i]]
  {
    if ids != [] {
      assert forall id :: id in ids[..|ids| - 1] ==> id in ids;
      InOrderIs(ids[..|ids| - 1], live);
    }
  }

  /** The pass takes the tracks by their first sighting, and those first seen at once in the order of
      the dictionary. */
  lemma PassIsByAge(ids: seq<string>, live: map<string, Track>, t: Track)
    requires forall id :: id in ids ==> id in live
    ensures var listed := seq(|ids|, i requires 0 <= i < |ids| => live[ids[i]]);
            var ts := Sort(Older, InOrder(ids, live));
            && multiset(ts) == multiset(listed) && (forall i, j :: 0 <= i < j < |ts| ==> ts[i].firstSeen <= ts[j].firstSeen)
            && SeenWith(ts, t.firstSeen) == SeenWith(listed, t.firstSeen)
  {
    OlderIsPreorder();
    InOrderIs(ids, live);
    assert InOrder(ids, live) == seq(|ids|, i requires 0 <= i < |ids| => live[ids[i]]);
    SortSorts(Older, InOrder(ids, live));
    SortIsStable(Older, InOrder(ids, live), t);
    TiesAreSeenWith(InOrder(ids, live), t);
    TiesAreSeenWith(Sort(Older, InOrder(ids, live)), t);
    assert forall i, j :: 0 <= i < j < |Sort(Older, InOrder(ids, live))| ==> Older(Sort(Older, InOrder(ids, live))[i], Sort(Older, InOrder(ids, live))[j]);
  }

  /** The tracks first seen at that time, in their order. */
  ghost function SeenWith(ts: seq<Track>, time: int): seq<Track> {
    if ts == [] then [] else
    var front, last := SeenWith(ts[..|ts| - 1], time), ts[|ts| - 1];
    if last.firstSeen == time then front + [last] else front
  }

  lemma {:induction false} TiesAreSeenWith(ts: seq<Track>, t: Track)
    ensures Ties(Older, ts, t) == SeenWith(ts, t.firstSeen)
  {
    if ts != [] { TiesAreSeenWith(ts[..|ts| - 1], t); }
  }

  // ---------------------------------------------------------------- who absorbs whom

  /** Where a track comes from: its upstream station, if it names one, else this one. */
  ghost function StationOf(t: Track): string {
    match t.upstream
    case Some(u) => if |u| == 0 then "_local" else u
    case None => "_local"
  }

  /** The turn of one more track in the inner loop: it is absorbed exactly if it comes from another
      station and is alike to what the group has become by then. */
  lemma {:induction false} AbsorbTurn(alike: Alike, g: Group, front: seq<Track>, b: Track)
    ensures var s := AbsorbAll(alike, g, front);
            AbsorbAll(alike, g, front + [b]) ==
            if StationOf(s.group.result) != StationOf(b) && alike(s.group.result, b)
            then Swept(Group(s.group.keeper, s.group.absorbed + [b], Join(s.group.result, b)), s.left)
            else Swept(s.group, s.left + [b])
    decreases front
  {
    if front == [] {
      assert [] + [b] == [b] && [b][1..] == [];
    } else {
      var a, rest := front[0], front[1..];
      assert (front + [b])[0] == a && (front + [b])[1..] == rest + [b];
      if CrossPair(g.result, a) && alike(g.result, a) {
        AbsorbTurn(alike, Group(g.keeper, g.absorbed + [a], Join(g.result, a)), rest, b);
      } else {
        AbsorbTurn(alike, g, rest, b);
        var s := AbsorbAll(alike, g, rest);
        assert [a] + (s.left + [b]) == ([a] + s.left) + [b];
      }
    }
  }

  /** The outer loop: the earliest track absorbs what it can, and the pass goes on with those left. */
  lemma SweepTurn(alike: Alike, t: Track, ts: seq<Track>)
    ensures var s := AbsorbAll(alike, Group(t, [], t), ts);
            Results(Sweep(alike, [t] + ts)) == [s.group.result] + Results(Sweep(alike, s.left))
  {
    assert ([t] + ts)[1..] == ts;
    var s := AbsorbAll(alike, Group(t, [], t), ts);
    assert ([s.group] + Sweep(alike, s.left))[1..] == Sweep(alike, s.left);
  }

  /** The position fix of a group: that of its first member that has one, with its confidence; without
      any, the keeper's confidence. */
  ghost function FirstFix(ts: seq<Track>): Option<Track> {
    if ts == [] then None
    else if FirstFix(ts[..|ts| - 1]).Some? then FirstFix(ts[..|ts| - 1])
    else if ts[|ts| - 1].fix.Some? then Some(ts[|ts| - 1]) else None
  }

  ghost predicate FixOk(g: Group) {
    var f := FirstFix([g.keeper] + g.absorbed);
    if f.Some? then g.result.fix == f.value.fix && g.result.fixConfidence == f.value.fixConfidence
    else g.result.fix == None && g.result.fixConfidence == g.keeper.fixConfidence
  }

  lemma {:induction false} FirstFixHasFix(ts: seq<Track>)
    ensures FirstFix(ts).Some? ==> FirstFix(ts).value.fix.Some?
  {
    if ts != [] { FirstFixHasFix(ts[..|ts| - 1]); }
  }

  lemma JoinKeepsFix(g: Group, b: Track)
    requires FixOk(g)
    ensures FixOk(Group(g.keeper, g.absorbed + [b], Join(g.result, b)))
  {
    var ts := [g.keeper] + g.absorbed;
    assert [g.keeper] + (g.absorbed + [b]) == ts + [b] && (ts + [b])[..|ts|] == ts;
    FirstFixHasFix(ts);
  }

  lemma {:induction false} AbsorbKeepsFix(alike: Alike, g: Group, rest: seq<Track>)
    requires FixOk(g)
    ensures FixOk(AbsorbAll(alike, g, rest).group)
    decreases rest
  {
    if rest != [] {
      var b := rest[0];
      if CrossPair(g.result, b) && alike(g.result, b) {
        JoinKeepsFix(g, b);
        AbsorbKeepsFix(alike, Group(g.keeper, g.absorbed + [b], Join(g.result, b)), rest[1..]);
      } else {
        AbsorbKeepsFix(alike, g, rest[1..]);
      }
    }
  }

  lemma {:induction false} GroupsKeepFix(alike: Alike, ts: seq<Track>)
    ensures forall g :: g in Sweep(alike, ts) ==> FixOk(g)
    decreases |ts|
  {
    if ts != [] {
      assert [ts[0]] + [] == [ts[0]] && [ts[0]][..0] == [];
      AbsorbKeepsFix(alike, Group(ts[0], [], ts[0]), ts[1..]);
      GroupsKeepFix(alike, AbsorbAll(alike, Group(ts[0], [], ts[0]), ts[1..]).left);
    }
  }
}
