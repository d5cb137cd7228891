/** The cross-station pass over a track manager: backend/fusion/cross_station_dedup.py, `run`.

    The working list holds the names of the tracks; a name stays in it exactly as long as its track
    is in the dictionary. */
module StationDedup {
  import opened Seqs
  import opened Sorting
  import opened Tracks
  import opened CrossStation
  import opened TrackManagers

  function At(names: seq<string>, live: map<string, Track>): (r: seq<Track>)
    requires forall n :: n in names ==> n in live
    ensures |r| == |names|
  {
    seq(|names|, k requires 0 <= k < |names| => live[names[k]])
  }

  function Names(ts: seq<Track>): (r: seq<string>)
    ensures |r| == |ts|
  {
    seq(|ts|, k requires 0 <= k < |ts| => ts[k].id)
  }

  ghost predicate Named(live: map<string, Track>) { forall id :: id in live ==> live[id].id == id }

  ghost predicate Lists(names: seq<string>, live: map<string, Track>) {
    NoRepeats(names) && forall id :: id in names <==> id in live
  }

  // ---------------------------------------------------------------- the inner loop, on values

  /** What the inner loop ends with, when it has kept `kept` and `rest` is still to come. */
  ghost function Pending(alike: Alike, g: Group, kept: seq<Track>, rest: seq<Track>): Swept {
    var r := AbsorbAll(alike, g, rest);
    Swept(r.group, kept + r.left)
  }

  lemma PendingStep(alike: Alike, g: Group, kept: seq<Track>, rest: seq<Track>)
    requires rest != []
    ensures var b := rest[0];
            Pending(alike, g, kept, rest) ==
            if CrossPair(g.result, b) && alike(g.result, b)
            then Pending(alike, Group(g.keeper, g.absorbed + [b], Join(g.result, b)), kept, rest[1..])
            else Pending(alike, g, kept + [b], rest[1..])
  {
    var r := AbsorbAll(alike, g, rest[1..]);
    assert kept + ([rest[0]] + r.left) == kept + [rest[0]] + r.left;
  }

  lemma AtSame(names: seq<string>, live: map<string, Track>, live': map<string, Track>)
    requires forall n :: n in names ==> n in live && n in live' && live[n] == live'[n]
    ensures At(names, live) == At(names, live')
  {
  }

  lemma AtSplit(names: seq<string>, j: nat, live: map<string, Track>)
    requires j < |names| && forall n :: n in names ==> n in live
    ensures forall n :: n in names[..j] || n in names[j..] || n in names[j + 1..] || n in names[..j + 1] ==> n in live
    ensures At(names[j..], live)[0] == live[names[j]] && At(names[j..], live)[1..] == At(names[j + 1..], live)
    ensures At(names[..j + 1], live) == At(names[..j], live) + [live[names[j]]]
  {
    assert names[..j + 1] == names[..j] + [names[j]];
    assert names[j..] == [names[j]] + names[j + 1..];
  }

  function Without(names: seq<string>, j: nat): seq<string>
    requires j < |names|
  {
    names[..j] + names[j + 1..]
  }

  lemma WithoutFacts(names: seq<string>, j: nat)
    requires j < |names| && NoRepeats(names)
    ensures var r := Without(names, j);
            NoRepeats(r) && r[..j] == names[..j] && r[j..] == names[j + 1..] && |r| == |names| - 1 &&
            forall n :: n in r <==> n in names && n != names[j]
  {
    assert names == names[..j] + [names[j]] + names[j + 1..];
    var r := Without(names, j);
    forall k | 0 <= k < |r| ensures r[k] == if k < j then names[k] else names[k + 1] {}
    forall n ensures n in r <==> n in names && n != names[j] {
      if n in names && n != names[j] {
        var k :| 0 <= k < |names| && names[k] == n;
        assert k < j ==> r[k] == n;
        assert k > j ==> r[k - 1] == n;
      }
    }
  }

  // ---------------------------------------------------------------- the list and the dictionary

  lemma {:induction false} InOrderMembers(ids: seq<string>, live: map<string, Track>)
    requires NoRepeats(ids) && Named(live)
    ensures forall t :: t in InOrder(ids, live) <==> t.id in ids && t.id in live && live[t.id] == t
    ensures NoRepeats(InOrder(ids, live))
  {
    if ids != [] {
      var front, last := ids[..|ids| - 1], ids[|ids| - 1];
      assert ids == front + [last];
      assert last !in front;
      InOrderMembers(front, live);
    }
  }

  lemma SortedNames(ids: seq<string>, live: map<string, Track>)
    requires Lists(ids, live) && Named(live)
    ensures var ts := Sort(Older, InOrder(ids, live)); Lists(Names(ts), live) && At(Names(ts), live) == ts
  {
    var all := InOrder(ids, live);
    var ts := Sort(Older, all);
    InOrderMembers(ids, live);
    OlderIsPreorder();
    SortSorts(Older, all);
    SameMultisetNoRepeats(all, ts);
    forall t ensures t in ts <==> t in all { assert t in ts <==> t in multiset(ts); assert t in all <==> t in multiset(all); }
    var names := Names(ts);
    forall k | 0 <= k < |ts| ensures names[k] in live && live[names[k]] == ts[k] { assert ts[k] in ts; }
    forall id | id in live ensures id in names {
      assert live[id] in ts;
      var k :| 0 <= k < |ts| && ts[k] == live[id];
      assert names[k] == id;
    }
  }

  lemma AtSnoc(front: seq<string>, last: string, live: map<string, Track>)
    requires last in live && forall n :: n in front ==> n in live
    ensures forall n :: n in front + [last] ==> n in live
    ensures At(front + [last], live) == At(front, live) + [live[last]]
  {
  }

  lemma AsMapSnoc(ts: seq<Track>, t: Track)
    ensures AsMap(ts + [t]) == AsMap(ts)[t.id := t]
  {
    assert (ts + [t])[..|ts|] == ts;
  }

  lemma {:induction false} AsMapAt(names: seq<string>, live: map<string, Track>)
    requires Lists(names, live) && Named(live)
    ensures AsMap(At(names, live)) == live
  {
    if names == [] {
      assert live == map[];
    } else {
      var front, last := names[..|names| - 1], names[|names| - 1];
      var others := live - {last};
      assert names == front + [last] && last !in front;
      AsMapAt(front, others);
      AtSame(front, live, others);
      AtSnoc(front, last, live);
      AsMapSnoc(At(front, live), live[last]);
      PutBack(live, last);
    }
  }

  lemma PutBack(live: map<string, Track>, id: string)
    requires id in live
    ensures live == (live - {id})[id := live[id]]
  {
  }

  lemma {:induction false} ListSize(names: seq<string>, s: set<string>)
    requires NoRepeats(names) && forall n :: n in names <==> n in s
    ensures |s| == |names|
  {
    if names != [] {
      var front, last := names[..|names| - 1], names[|names| - 1];
      assert names == front + [last];
      ListSize(front, s - {last});
    }
  }

  // ---------------------------------------------------------------- what the dictionary holds afterwards

  ghost predicate OwnName(ts: seq<Track>) { forall i, j :: 0 <= i < j < |ts| ==> ts[i].id != ts[j].id }

  lemma {:induction false} ResultInGroup(gs: seq<Group>, k: nat)
    requires (forall g :: g in gs ==> GroupOk(g)) && k < |Results(gs)|
    ensures exists t :: t in Flat(gs) && t.id == Results(gs)[k].id
  {
    assert gs[0] in gs && forall g :: g in gs[1..] ==> g in gs;
    if k == 0 {
      assert Flat(gs)[0] == gs[0].keeper;
    } else {
      ResultInGroup(gs[1..], k - 1);
      var t :| t in Flat(gs[1..]) && t.id == Results(gs[1..])[k - 1].id;
      assert t in Flat(gs);
    }
  }

  lemma OwnNameSplit(head: seq<Track>, tail: seq<Track>)
    requires OwnName(head + tail)
    ensures OwnName(tail) && forall h, t :: h in head && t in tail ==> h.id != t.id
  {
    var all := head + tail;
    forall i, j | 0 <= i < j < |tail| ensures tail[i].id != tail[j].id {
      assert all[|head| + i] == tail[i] && all[|head| + j] == tail[j];
    }
    forall h, t | h in head && t in tail ensures h.id != t.id {
      var i :| 0 <= i < |head| && head[i] == h;
      var j :| 0 <= j < |tail| && tail[j] == t;
      assert all[i] == h && all[|head| + j] == t;
    }
  }

  lemma OwnNameCons(t: Track, ts: seq<Track>)
    requires OwnName(ts) && forall k :: 0 <= k < |ts| ==> ts[k].id != t.id
    ensures OwnName([t] + ts)
  {
  }

  /** Survivors have names of their own. */
  lemma {:induction false} ResultsOwnName(gs: seq<Group>)
    requires (forall g :: g in gs ==> GroupOk(g)) && OwnName(Flat(gs))
    ensures OwnName(Results(gs))
  {
    if gs != [] {
      var g, rest := gs[0], gs[1..];
      assert g in gs && forall x :: x in rest ==> x in gs;
      var head := [g.keeper] + g.absorbed;
      OwnNameSplit(head, Flat(rest));
      ResultsOwnName(rest);
      assert head[0] == g.keeper && g.keeper in head;
      forall k | 0 <= k < |Results(rest)| ensures Results(rest)[k].id != g.result.id { ResultInGroup(rest, k); }
      OwnNameCons(g.result, Results(rest));
    }
  }

  lemma {:induction false} AsMapMembers(ts: seq<Track>)
    requires OwnName(ts)
    ensures forall t :: t in ts <==> t.id in AsMap(ts) && AsMap(ts)[t.id] == t
    ensures Named(AsMap(ts))
  {
    if ts != [] {
      var front, last := ts[..|ts| - 1], ts[|ts| - 1];
      assert ts == front + [last];
      AsMapMembers(front);
      forall t | t in front ensures t.id != last.id {
        var k :| 0 <= k < |front| && front[k] == t;
        assert ts[k].id != ts[|ts| - 1].id;
      }
    }
  }

  lemma SameMembers(a: seq<Track>, b: seq<Track>)
    requires NoRepeats(a) && NoRepeats(b) && forall t :: t in a <==> t in b
    ensures multiset(a) == multiset(b)
  {
    forall t ensures multiset(a)[t] == multiset(b)[t] {
      Once(a, t);
      Once(b, t);
      assert t in a <==> t in multiset(a);
      assert t in b <==> t in multiset(b);
    }
  }

  lemma FlatOwnName(s: State, alike: Alike)
    requires Lists(s.ids, s.live) && Named(s.live)
    ensures OwnName(Flat(Groups(s, alike))) && forall t :: t in Flat(Groups(s, alike)) ==> t.id in s.ids
  {
    var flat, all := Flat(Groups(s, alike)), InOrder(s.ids, s.live);
    PassFacts(s, alike);
    InOrderMembers(s.ids, s.live);
    SameMultisetNoRepeats(all, flat);
    forall t | t in flat ensures t in all { assert t in multiset(flat); }
    forall i, j | 0 <= i < j < |flat| ensures flat[i].id != flat[j].id { assert flat[i] in flat && flat[j] in flat; }
  }

  /** The tracks left in the dictionary are exactly the survivors. */
  lemma DictionaryHoldsSurvivors(s: State, alike: Alike)
    requires Lists(s.ids, s.live) && Named(s.live)
    ensures var r := Dedup(s, alike); multiset(InOrder(r.ids, r.live)) == multiset(Results(Groups(s, alike)))
  {
    var r, gs := Dedup(s, alike), Groups(s, alike);
    PassFacts(s, alike);
    FlatOwnName(s, alike);
    ResultsOwnName(gs);
    AsMapMembers(Results(gs));
    forall t | t in Results(gs) ensures t.id in s.ids {
      var k :| 0 <= k < |Results(gs)| && Results(gs)[k] == t;
      ResultInGroup(gs, k);
    }
    KeepFacts(s.ids, r.live.Keys);
    InOrderMembers(r.ids, r.live);
    SameMembers(InOrder(r.ids, r.live), Results(gs));
  }

  /** The pass conserves, over the tracks of the dictionary, the observation total, the set of
      detecting nodes, the best confidence and the newest sighting. */
  lemma PassConserves(s: State, alike: Alike)
    requires Lists(s.ids, s.live) && Named(s.live)
    ensures var r := Dedup(s, alike); Summarise(InOrder(r.ids, r.live)) == Summarise(InOrder(s.ids, s.live))
  {
    var r := Dedup(s, alike);
    DictionaryHoldsSurvivors(s, alike);
    SummaryIgnoresOrder(InOrder(r.ids, r.live), Results(Groups(s, alike)));
    DedupConserves(s, alike);
  }

  // ---------------------------------------------------------------- loop invariants

  /** The inner loop of track `a` over `rest`, started on `l0`: it has looked at the first `j` names
      of `left`, and `g` is the group so far. */
  ghost predicate Midway(alike: Alike, a: string, rest: seq<string>, l0: map<string, Track>,
                         left: seq<string>, j: nat, live: map<string, Track>, g: Group) {
    && a in l0 && a in live && a !in rest && live[a] == g.result && live.Keys <= l0.Keys
    && j <= |left| && NoRepeats(left) && (forall n :: n in rest ==> n in l0)
    && (forall n :: n in left <==> n in rest && n in live)
    && (forall n :: n in l0 && n !in rest && n != a ==> n in live && live[n] == l0[n])
    && (forall n :: n in left[..j] || n in left[j..] ==> n in live)
    && Pending(alike, g, At(left[..j], live), At(left[j..], live)) ==
       AbsorbAll(alike, Group(l0[a], [], l0[a]), At(rest, l0))
  }

  lemma MidwayStart(alike: Alike, a: string, rest: seq<string>, l0: map<string, Track>)
    requires a in l0 && a !in rest && NoRepeats(rest) && forall n :: n in rest ==> n in l0
    ensures Midway(alike, a, rest, l0, rest, 0, l0, Group(l0[a], [], l0[a]))
  {
    assert rest[0..] == rest && At(rest[..0], l0) == [];
    var r := AbsorbAll(alike, Group(l0[a], [], l0[a]), At(rest, l0));
    assert [] + r.left == r.left;
  }

  lemma MidwaySkip(alike: Alike, a: string, rest: seq<string>, l0: map<string, Track>,
                   left: seq<string>, j: nat, live: map<string, Track>, g: Group)
    requires Midway(alike, a, rest, l0, left, j, live, g) && j < |left|
    requires var b := live[left[j]]; !(CrossPair(g.result, b) && alike(g.result, b))
    ensures Midway(alike, a, rest, l0, left, j + 1, live, g)
  {
    AtSplit(left, j, live);
    PendingStep(alike, g, At(left[..j], live), At(left[j..], live));
  }

  lemma MidwayJoin(alike: Alike, a: string, rest: seq<string>, l0: map<string, Track>,
                   left: seq<string>, j: nat, live: map<string, Track>, g: Group)
    requires Midway(alike, a, rest, l0, left, j, live, g) && j < |left|
    requires var b := live[left[j]]; CrossPair(g.result, b) && alike(g.result, b)
    ensures var b := live[left[j]];
            Midway(alike, a, rest, l0, Without(left, j), j, live[a := Join(live[a], b)] - {left[j]},
                   Group(g.keeper, g.absorbed + [b], Join(g.result, b)))
  {
    var live' := live[a := Join(live[a], live[left[j]])] - {left[j]};
    var left' := Without(left, j);
    AtSplit(left, j, live);
    PendingStep(alike, g, At(left[..j], live), At(left[j..], live));
    WithoutFacts(left, j);
    AtSame(left[..j], live, live');
    AtSame(left[j + 1..], live, live');
    assert forall n :: n in left' <==> n in rest && n in live';
    assert forall n :: n in left'[..j] || n in left'[j..] ==> n in live';
  }

  lemma MidwayEnd(alike: Alike, a: string, rest: seq<string>, l0: map<string, Track>,
                  left: seq<string>, live: map<string, Track>, g: Group)
    requires Midway(alike, a, rest, l0, left, |left|, live, g)
    ensures var s := AbsorbAll(alike, Group(l0[a], [], l0[a]), At(rest, l0));
            live[a] == s.group.result && At(left, live) == s.left
  {
    assert left[..|left|] == left && At(left[|left|..], live) == [];
    assert At(left, live) + [] == At(left, live);
  }

  /** The outer loop: the survivors so far, and what the pass makes of the tracks still to come. */
  ghost function Outcome(alike: Alike, names: seq<string>, i: nat, live: map<string, Track>): seq<Track>
    requires i <= |names| && forall n :: n in names ==> n in live
  {
    At(names[..i], live) + Results(Sweep(alike, At(names[i..], live)))
  }

  /** What one turn of the outer loop does to the dictionary. */
  ghost predicate Turned(names: seq<string>, i: nat, live: map<string, Track>, left: seq<string>, live': map<string, Track>) {
    && Lists(names, live) && i < |names| && NoRepeats(left) && live'.Keys <= live.Keys && names[i] in live'
    && (forall n :: n in left <==> n in names[i + 1..] && n in live')
    && (forall n :: n in live && n !in names[i + 1..] && n != names[i] ==> n in live' && live'[n] == live[n])
  }

  lemma ListsStep(names: seq<string>, i: nat, live: map<string, Track>, left: seq<string>, live': map<string, Track>)
    requires Turned(names, i, live, left, live')
    ensures Lists(names[..i + 1] + left, live')
    ensures forall n :: n in names[..i] ==> n in live && n in live' && live'[n] == live[n]
  {
    var front, names' := names[..i + 1], names[..i + 1] + left;
    assert names == names[..i] + [names[i]] + names[i + 1..] && front == names[..i] + [names[i]];
    forall n | n in front ensures n !in names[i + 1..] && (n == names[i] || n in names[..i]) {}
    forall n ensures n in names' <==> n in live' { assert n in names' <==> n in front || n in left; }
    forall p, q | 0 <= p < q < |names'| ensures names'[p] != names'[q] {
      assert q > i ==> names'[q] in left;
      assert p <= i ==> names'[p] in front;
    }
  }

  lemma HeadStep(names: seq<string>, i: nat, live: map<string, Track>, left: seq<string>, live': map<string, Track>)
    requires Turned(names, i, live, left, live') && forall n :: n in names[..i] ==> n in live && n in live' && live'[n] == live[n]
    ensures var front := (names[..i + 1] + left)[..i + 1];
            (forall n :: n in front ==> n in live') && At(front, live') == At(names[..i], live) + [live'[names[i]]]
  {
    var front := names[..i] + [names[i]];
    assert (names[..i + 1] + left)[..i + 1] == front;
    AtSame(names[..i], live, live');
  }

  lemma TailStep(alike: Alike, names: seq<string>, i: nat, live: map<string, Track>, s: Swept)
    requires Lists(names, live) && i < |names|
    requires (forall n :: n in names[i + 1..] || n in names[i..] ==> n in live)
    requires s == AbsorbAll(alike, Group(live[names[i]], [], live[names[i]]), At(names[i + 1..], live))
    ensures Results(Sweep(alike, At(names[i..], live))) == [s.group.result] + Results(Sweep(alike, s.left))
  {
    AtSplit(names, i, live);
    var ts := At(names[i..], live);
    assert ts[0] == live[names[i]] && ts[1..] == At(names[i + 1..], live);
    ResultsCons(s.group, Sweep(alike, s.left));
  }

  lemma OutcomeStep(alike: Alike, names: seq<string>, i: nat, live: map<string, Track>, left: seq<string>, live': map<string, Track>, g: Group)
    requires Lists(names, live) && i < |names|
    requires Midway(alike, names[i], names[i + 1..], live, left, |left|, live', g)
    ensures var names' := names[..i + 1] + left;
            Lists(names', live') && Outcome(alike, names', i + 1, live') == Outcome(alike, names, i, live)
  {
    var names' := names[..i + 1] + left;
    MidwayEnd(alike, names[i], names[i + 1..], live, left, live', g);
    AtSplit(names, i, live);
    ListsStep(names, i, live, left, live');
    HeadStep(names, i, live, left, live');
    var s := AbsorbAll(alike, Group(live[names[i]], [], live[names[i]]), At(names[i + 1..], live));
    TailStep(alike, names, i, live, s);
    assert names'[i + 1..] == left;
    Regroup(At(names[..i], live), s.group.result, Results(Sweep(alike, s.left)));
  }

  lemma Regroup(a: seq<Track>, t: Track, b: seq<Track>)
    ensures a + ([t] + b) == a + [t] + b
  {
  }

  lemma PassStart(alike: Alike, names: seq<string>, s: State)
    requires Lists(names, s.live) && At(names, s.live) == Sort(Older, InOrder(s.ids, s.live))
    ensures Outcome(alike, names, 0, s.live) == Results(Groups(s, alike))
  {
    assert names[0..] == names && At(names[..0], s.live) == [];
    assert [] + Results(Groups(s, alike)) == Results(Groups(s, alike));
  }

  lemma PassEnd(alike: Alike, names: seq<string>, live: map<string, Track>)
    requires Lists(names, live) && Named(live)
    ensures AsMap(Outcome(alike, names, |names|, live)) == live && |names| == |live.Keys|
  {
    assert names[..|names|] == names && At(names[|names|..], live) == [];
    assert At(names, live) + [] == At(names, live);
    AsMapAt(names, live);
    ListSize(names, live.Keys);
  }

  lemma ResultsCons(g: Group, gs: seq<Group>)
    ensures Results([g] + gs) == [g.result] + Results(gs)
  {
    assert ([g] + gs)[1..] == gs;
  }

  class CrossStationDedup {
    var mergesTotal: nat

    constructor ()
      ensures mergesTotal == 0
    {
      mergesTotal := 0;
    }

    /** All tracks, the earliest seen first. */
    static method ByAge(tm: TrackManager) returns (names: seq<string>)
      requires tm.Valid()
      ensures Lists(names, tm.live) && At(names, tm.live) == Sort(Older, InOrder(tm.ids, tm.live))
    {
      var ts: seq<Track> := [];
      for k := 0 to |tm.ids|
        invariant ts == InOrder(tm.ids[..k], tm.live)
      {
        assert tm.ids[..k + 1][..k] == tm.ids[..k];
        ts := ts + [tm.tracks[tm.ids[k]].data];
      }
      assert tm.ids[..|tm.ids|] == tm.ids;
      SortedNames(tm.ids, tm.live);
      names := Names(Sort(Older, ts));
    }

    /** The inner loop's test of one track, and the merge when it is alike. */
    static method LookAt(tm: TrackManager, alike: Alike, a: string, ghost rest: seq<string>, ghost l0: map<string, Track>,
                         left: seq<string>, j: nat, ghost g: Group, ghost all: seq<string>)
      returns (left': seq<string>, j': nat, ghost g': Group)
      requires tm.Valid() && Midway(alike, a, rest, l0, left, j, tm.live, g) && j < |left|
      requires tm.ids == Keep(all, tm.live.Keys)
      modifies tm`ids, tm`tracks, tm`live, tm.objects
      ensures tm.Valid() && tm.ids == Keep(all, tm.live.Keys)
      ensures Midway(alike, a, rest, l0, left', j', tm.live, g')
      ensures if j' == j then left' == Without(left, j) && |left'| == |left| - 1 else j' == j + 1 && left' == left
    {
      var b := left[j];
      var joined := CrossPair(tm.tracks[a].data, tm.tracks[b].data) && alike(tm.tracks[a].data, tm.tracks[b].data);
      if joined {
        MidwayJoin(alike, a, rest, l0, left, j, tm.live, g);
        g' := Group(g.keeper, g.absorbed + [tm.live[b]], Join(g.result, tm.live[b]));
        tm.JoinPair(a, b, all);
        left', j' := Without(left, j), j;
      } else {
        MidwaySkip(alike, a, rest, l0, left, j, tm.live, g);
        left', j', g' := left, j + 1, g;
      }
    }

    /** The inner loop: track `a` absorbs what it can of the tracks listed after it. */
    static method AbsorbLater(tm: TrackManager, alike: Alike, a: string, rest: seq<string>, ghost all: seq<string>)
      returns (left: seq<string>, merges: nat, ghost g: Group)
      requires tm.Valid() && tm.ids == Keep(all, tm.live.Keys)
      requires a in tm.live && a !in rest && NoRepeats(rest) && forall n :: n in rest ==> n in tm.live
      modifies tm`ids, tm`tracks, tm`live, tm.objects
      ensures tm.Valid() && tm.ids == Keep(all, tm.live.Keys)
      ensures Midway(alike, a, rest, old(tm.live), left, |left|, tm.live, g) && |left| + merges == |rest|
    {
      var j: nat := 0;
      left, merges := rest, 0;
      ghost var l0 := tm.live;
      g := Group(l0[a], [], l0[a]);
      MidwayStart(alike, a, rest, l0);
      while j < |left|
        invariant tm.Valid() && Midway(alike, a, rest, l0, left, j, tm.live, g)
        invariant tm.ids == Keep(all, tm.live.Keys) && |left| + merges == |rest|
        decreases |left| - j
      {
        var n := |left|;
        left, j, g := LookAt(tm, alike, a, rest, l0, left, j, g, all);
        merges := merges + (n - |left|);
      }
    }

    /** One turn of the outer loop. */
    static method Turn(tm: TrackManager, alike: Alike, names: seq<string>, i: nat, ghost all: seq<string>)
      returns (names': seq<string>, merges: nat)
      requires tm.Valid() && Lists(names, tm.live) && i < |names| && tm.ids == Keep(all, tm.live.Keys)
      modifies tm`ids, tm`tracks, tm`live, tm.objects
      ensures tm.Valid() && Lists(names', tm.live) && i < |names'| && tm.ids == Keep(all, tm.live.Keys)
      ensures |names'| + merges == |names|
      ensures Outcome(alike, names', i + 1, tm.live) == Outcome(alike, names, i, old(tm.live))
    {
      ghost var before := tm.live;
      AtSplit(names, i, before);
      var left, n, g := AbsorbLater(tm, alike, names[i], names[i + 1..], all);
      OutcomeStep(alike, names, i, before, left, tm.live, g);
      names', merges := names[..i + 1] + left, n;
    }

    /** The outer loop. */
    static method Turns(tm: TrackManager, alike: Alike, list: seq<string>, ghost all: seq<string>) returns (merges: nat)
      requires tm.Valid() && Lists(list, tm.live) && tm.ids == Keep(all, tm.live.Keys)
      modifies tm`ids, tm`tracks, tm`live, tm.objects
      ensures tm.Valid() && tm.ids == Keep(all, tm.live.Keys) && |tm.live.Keys| + merges == |list|
      ensures tm.live == AsMap(Outcome(alike, list, 0, old(tm.live)))
    {
      ghost var goal := Outcome(alike, list, 0, tm.live);
      var names, i := list, 0;
      merges := 0;
      while i < |names|
        invariant i <= |names| && tm.Valid() && Lists(names, tm.live) && |names| + merges == |list|
        invariant tm.ids == Keep(all, tm.live.Keys)
        invariant Outcome(alike, names, i, tm.live) == goal
        decreases |names| - i
      {
        var n;
        names, n := Turn(tm, alike, names, i, all);
        merges := merges + n;
        i := i + 1;
      }
      PassEnd(alike, names, tm.live);
    }

    /** The whole pass. */
    static method Pass(tm: TrackManager, alike: Alike) returns (merges: nat)
      requires tm.Valid()
      modifies tm`ids, tm`tracks, tm`live, tm.objects
      ensures tm.Valid() && tm.View() == Dedup(old(tm.View()), alike)
      ensures |tm.live.Keys| + merges == |old(tm.live.Keys)|
    {
      var names := ByAge(tm);
      KeepAll(tm.ids, tm.live.Keys);
      ListSize(names, tm.live.Keys);
      PassStart(alike, names, tm.View());
      merges := Turns(tm, alike, names, tm.ids);
    }

    /** One pass; the counter adds up the merges of all passes. */
    method Run(tm: TrackManager, alike: Alike) returns (merges: nat)
      requires tm.Valid()
      modifies this, tm`ids, tm`tracks, tm`live, tm.objects
      ensures tm.Valid() && tm.View() == Dedup(old(tm.View()), alike)
      ensures |tm.live.Keys| + merges == |old(tm.live.Keys)| && mergesTotal == old(mergesTotal) + merges
    {
      merges := Pass(tm, alike);
      if merges > 0 { mergesTotal := mergesTotal + merges; }
    }
  }
}
