/** Whole runs of the track manager: any interleaving of events, ageing, merging, cross-station
    deduplication, deletion and rehydration. */
module TrackRuns {
  import opened Wrappers
  import opened Seqs
  import opened MergeCore
  import opened Tracks
  import opened CrossStation

  datatype Step =
    | Ingest(event: Event, choice: Option<string>, newId: string)
    | Age(now: int)
    | MergeDup(tol: Tolerance)
    | DedupStations(alike: Alike)
    | Delete(id: string)
    | Rehydrate(track: Track)

  /** An event joins one of its candidates or starts a track under a name never used before;
      rehydrated tracks come with names never used before either. */
  ghost predicate Enabled(s: State, step: Step) {
    match step
    case Ingest(e, choice, newId) => if choice.Some? then choice.value in Candidates(s, e.freq) else newId !in s.born
    case Delete(id) => id in s.live
    case Rehydrate(t) => t.id !in s.born
    case _ => true
  }

  ghost function Take(s: State, step: Step): State
    requires Enabled(s, step)
  {
    match step
    case Ingest(e, choice, newId) => if choice.Some? then HearKnown(s, choice.value, e) else HearNew(s, newId, e)
    case Age(now) => AgeAll(s, now)
    case MergeDup(tol) => MergeDuplicates(s, tol)
    case DedupStations(alike) => Dedup(s, alike)
    case Delete(id) => DropTrack(s, id)
    case Rehydrate(t) => AddTrack(s, t)
  }

  const EMPTY: State := State([], map[], map[], map[])

  /** The state after a run; steps that are not enabled do nothing. */
  ghost function Run(steps: seq<Step>): State {
    if steps == [] then EMPTY else
    var s, step := Run(steps[..|steps| - 1]), steps[|steps| - 1];
    if Enabled(s, step) then Take(s, step) else s
  }

  /** The dictionary's order lists exactly the live tracks, once each. */
  ghost predicate Listed(s: State) {
    NoRepeats(s.ids) && forall id :: id in s.ids <==> id in s.live
  }

  lemma {:induction false} DropAllListed(s: State, ids: seq<string>)
    requires Listed(s)
    ensures var r := DropAll(s, ids);
            && Listed(r) && r.born == s.born && r.live.Keys <= s.live.Keys
            && (forall id :: id in r.live ==> r.live[id] == s.live[id])
    decreases ids
  {
    if ids != [] {
      KeepFacts(s.ids, s.live.Keys - {ids[0]});
      assert (s.live - {ids[0]}).Keys == s.live.Keys - {ids[0]};
      DropAllListed(if ids[0] in s.live then DropTrack(s, ids[0]) else s, ids[1..]);
    }
  }

  lemma AgeAllFacts(s: State, now: int)
    requires Inv(s) && Listed(s)
    ensures var r := AgeAll(s, now);
            && Inv(r) && Listed(r) && r.born == s.born && r.live.Keys <= s.live.Keys
            && (forall id :: id in r.live ==> r.live[id] == Aged(s.live[id], now))
  {
    var aged := s.(live := map id | id in s.live :: Aged(s.live[id], now));
    assert Inv(aged) && Listed(aged);
    DropAllKeepsInv(aged, ToArchive(s.ids, s.live, now));
    DropAllListed(aged, ToArchive(s.ids, s.live, now));
  }

  lemma {:induction false} ToArchiveMeans(ids: seq<string>, live: map<string, Track>, now: int)
    ensures forall id :: id in ToArchive(ids, live, now) <==> id in ids && id in live && now - live[id].lastSeen > 86400000000000
  {
    if ids != [] {
      assert ids == ids[..|ids| - 1] + [ids[|ids| - 1]];
      ToArchiveMeans(ids[..|ids| - 1], live, now);
    }
  }

  lemma {:induction false} DropAllDrops(s: State, ids: seq<string>)
    ensures var r := DropAll(s, ids); r.live.Keys == s.live.Keys - (set id | id in ids)
    ensures var r := DropAll(s, ids); forall id :: id in r.live ==> r.live[id] == s.live[id]
    decreases ids
  {
    if ids != [] {
      assert ids == [ids[0]] + ids[1..];
      DropAllDrops(if ids[0] in s.live then DropTrack(s, ids[0]) else s, ids[1..]);
    }
  }

  /** What the ageing pass does.  It takes away exactly the tracks not heard for more than a day.  Of
      the rest, those not heard for more than two minutes are lost, stable ones not heard for more
      than thirty seconds coast, and nothing else changes. */
  lemma AgeingMeans(s: State, now: int, id: string)
    requires Listed(s)
    ensures id in AgeAll(s, now).live <==> id in s.live && now - s.live[id].lastSeen <= 86400000000000
    ensures id in AgeAll(s, now).live ==>
              var before, after, age := s.live[id], AgeAll(s, now).live[id], now - s.live[id].lastSeen;
              && after == before.(stage := after.stage)
              && (after.stage == Lost <==> before.stage == Lost || age > 120000000000)
              && (after.stage == Coasting <==>
                    age <= 120000000000 && (before.stage == Coasting || (before.stage == Stable && age > 30000000000)))
              && (after.stage != Lost && after.stage != Coasting ==> after.stage == before.stage)
  {
    var aged := s.(live := map x | x in s.live :: Aged(s.live[x], now));
    ToArchiveMeans(s.ids, s.live, now);
    DropAllDrops(aged, ToArchive(s.ids, s.live, now));
  }

  // ---------------------------------------------------------------- deduplication and the index

  lemma {:induction false} AsMapFacts(ts: seq<Track>, id: string)
    requires id in CrossStation.AsMap(ts)
    ensures CrossStation.AsMap(ts)[id] in ts && CrossStation.AsMap(ts)[id].id == id
  {
    var front, last := ts[..|ts| - 1], ts[|ts| - 1];
    assert ts == front + [last];
    if id != last.id { AsMapFacts(front, id); }
  }

  lemma {:induction false} InOrderFacts(ids: seq<string>, live: map<string, Track>, t: Track)
    requires t in InOrder(ids, live)
    ensures exists id :: id in live && live[id] == t
  {
    var front, last := ids[..|ids| - 1], ids[|ids| - 1];
    if t in InOrder(front, live) { InOrderFacts(front, live, t); } else { assert live[last] == t; }
  }

  lemma {:induction false} ResultOf(gs: seq<Group>, r: Track) returns (g: Group)
    requires r in Results(gs)
    ensures g in gs && g.result == r && g.keeper in Flat(gs)
  {
    if gs[0].result == r {
      g := gs[0];
      assert ([g.keeper] + g.absorbed)[0] == g.keeper;
      assert Flat(gs)[0] == g.keeper;
    } else {
      g := ResultOf(gs[1..], r);
      assert g in gs;
      assert g.keeper in Flat(gs[1..]);
    }
  }

  /** A survivor of the pass keeps its name and frequency, and ages no differently. */
  lemma SurvivorFacts(s: State, alike: Alike, id: string)
    requires id in Dedup(s, alike).live && forall x :: x in s.live ==> s.live[x].id == x
    ensures var t := Dedup(s, alike).live[id];
            t.id == id && id in s.live && t.freq == s.live[id].freq && t.firstSeen == s.live[id].firstSeen &&
            t.stage == s.live[id].stage
  {
    var gs := Groups(s, alike);
    PassFacts(s, alike);
    AsMapFacts(Results(gs), id);
    var g := ResultOf(gs, Dedup(s, alike).live[id]);
    assert g.keeper in multiset(Flat(gs));
    assert g.keeper in InOrder(s.ids, s.live);
    InOrderFacts(s.ids, s.live, g.keeper);
  }

  lemma DedupKeepsInv(s: State, alike: Alike)
    requires Inv(s) && Listed(s)
    ensures var r := Dedup(s, alike); Inv(r) && Listed(r) && r.born == s.born && r.live.Keys <= s.live.Keys
  {
    forall id | id in Dedup(s, alike).live
      ensures id in s.live && Dedup(s, alike).live[id].id == id && Dedup(s, alike).live[id].freq == s.live[id].freq
    {
      SurvivorFacts(s, alike, id);
    }
    KeepFacts(s.ids, Dedup(s, alike).live.Keys);
  }

  // ---------------------------------------------------------------- every run

  lemma StepKeepsInv(s: State, step: Step)
    requires Inv(s) && Listed(s) && Enabled(s, step)
    ensures Inv(Take(s, step)) && Listed(Take(s, step))
  {
    match step
    case Ingest(e, choice, newId) =>
      if choice.Some? { HearKnownKeepsInv(s, choice.value, e); } else { AddTrackKeepsInv(s, Born(newId, e)); }
    case Age(now) => AgeAllFacts(s, now);
    case MergeDup(tol) =>
      MergeAllKeepsIndexed(tol, s.live, s.index, s.ids, s.born);
      KeepFacts(s.ids, MergeAll(tol, s.live, s.index, s.ids).live.Keys);
    case DedupStations(alike) => DedupKeepsInv(s, alike);
    case Delete(id) =>
      ShrinkKeepsIndexed(s.live, s.index, s.born, s.live - {id}, Bucket(s.live[id].freq), id);
      KeepFacts(s.ids, (s.live - {id}).Keys);
    case Rehydrate(t) => AddTrackKeepsInv(s, t);
  }

  /** The index invariant holds in every state every run reaches. */
  lemma {:induction false} RunKeepsInv(steps: seq<Step>)
    ensures Inv(Run(steps)) && Listed(Run(steps))
  {
    if steps != [] {
      var s, step := Run(steps[..|steps| - 1]), steps[|steps| - 1];
      RunKeepsInv(steps[..|steps| - 1]);
      if Enabled(s, step) { StepKeepsInv(s, step); }
    }
  }

  /** In every reachable state: an event finds all live tracks of its own bucket and none further
      than two buckets away, and no track is 200 kHz away from where it was born. */
  lemma IndexAgreesWithScan(steps: seq<Step>, hz: real, id: string)
    requires id in Run(steps).live
    ensures var s := Run(steps);
            && (Bucket(s.live[id].freq) == Bucket(hz) ==> id in Candidates(s, hz))
            && (id in Candidates(s, hz) ==> -2 <= Bucket(s.live[id].freq) - Bucket(hz) <= 2)
            && id in s.born && AbsReal(s.live[id].freq - s.born[id]) < 200000.0
  {
    RunKeepsInv(steps);
    CandidatesSandwich(Run(steps), hz, id);
    NoDrift(Run(steps), id);
  }

  // ---------------------------------------------------------------- merging in reachable states

  /** In every reachable state, merging duplicates conserves observations for all counts its tracks
      can have exactly when no pass meets a hazard. */
  lemma ReachableMergeConservesIff(steps: seq<Step>, tol: Tolerance)
    ensures var s := Run(steps);
            Safe(FactsOf(tol, s.live), Core(s.live.Keys, map[]), s.ids) <==>
            forall w: map<string, nat> :: Observed(w, s.live.Keys) ==> Conserves(Recount(s, w), tol)
  {
    RunKeepsInv(steps);
    MergeDuplicatesConservesIff(Run(steps), tol);
  }

  /** A track heard once, at 100 MHz. */
  function HeardOnce(id: string, time: int): Track {
    Born(id, Event(100000000.0, -50.0, "n", 1.0, time, None))
  }

  function ThreeTracks(ta: int, tb: int, tc: int): seq<Step> {
    [Rehydrate(HeardOnce("a", ta)), Rehydrate(HeardOnce("b", tb)), Rehydrate(HeardOnce("c", tc))]
  }

  lemma ThreeTracksReached(ta: int, tb: int, tc: int)
    ensures var s := Run(ThreeTracks(ta, tb, tc));
            s.ids == ["a", "b", "c"] && s.live == map["a" := HeardOnce("a", ta), "b" := HeardOnce("b", tb), "c" := HeardOnce("c", tc)]
  {
    var steps := ThreeTracks(ta, tb, tc);
    var s1 := AddTrack(EMPTY, HeardOnce("a", ta));
    var s2 := AddTrack(s1, HeardOnce("b", tb));
    assert steps[..2][..1] == steps[..1] && steps[..1][..0] == [] && steps[..3] == steps;
    assert Run(steps[..1]) == s1;
    assert Run(steps[..2]) == s2;
  }

  const DEFAULT_TOLERANCE: Tolerance := Tolerance(5000.0, 10000000000)

  /** Three rehydrated tracks of one observation each on one frequency, within the time window and the
      second the oldest: merging makes two observations of the three, or four. */
  lemma MergeMiscounts(ta: int, tb: int, tc: int)
    requires 0 <= tb < ta < 10000000000 && 0 <= tc < 10000000000
    ensures var s := Run(ThreeTracks(ta, tb, tc));
            CountOf(s.live, s.ids) == 3 &&
            CountOf(MergeDuplicates(s, DEFAULT_TOLERANCE).live, s.ids) == if ta <= tc then 2 else 4
  {
    var s := Run(ThreeTracks(ta, tb, tc));
    ThreeTracksReached(ta, tb, tc);
    RunKeepsInv(ThreeTracks(ta, tb, tc));
    MiddleOldestMiscounts(s, DEFAULT_TOLERANCE);
  }

  // ---------------------------------------------------------------- life cycle

  ghost predicate RanksRise(before: map<string, Track>, after: map<string, Track>) {
    forall id :: id in before && id in after ==> Rank(before[id].stage) <= Rank(after[id].stage)
  }

  /** A step never revives a name that is gone. */
  ghost predicate NoRevival(s: State, s': State) {
    (forall id :: id in s.born ==> id in s'.born) && forall id :: id in s'.live && id in s.born ==> id in s.live
  }

  lemma {:induction false} MergePassStages(tol: Tolerance, m: Merging, rest: seq<string>, all: map<string, Track>)
    requires m.live.Keys <= all.Keys && m.head.id in all && m.head.stage == all[m.head.id].stage && m.head.id !in rest
    requires forall id :: id in m.live ==> m.live[id].stage == all[id].stage
    ensures var r := MergePass(tol, m, rest);
            r.live.Keys <= m.live.Keys && forall id :: id in r.live ==> r.live[id].stage == all[id].stage
    decreases rest
  {
    if rest != [] {
      assert rest[0] in rest && forall id :: id in rest[1..] ==> id in rest;
      MergePassStages(tol, MergeStep(tol, m, rest[0]), rest[1..], all);
    }
  }

  lemma {:induction false} MergeAllStages(tol: Tolerance, live: map<string, Track>, index: Index, ids: seq<string>, all: map<string, Track>)
    requires live.Keys <= all.Keys && NoRepeats(ids)
    requires forall id :: id in live ==> live[id].stage == all[id].stage && live[id].id == id
    ensures var r := MergeAll(tol, live, index, ids);
            r.live.Keys <= live.Keys && forall id :: id in r.live ==> r.live[id].stage == all[id].stage
    decreases ids
  {
    if ids != [] {
      if ids[0] in live {
        assert ids[0] !in ids[1..];
        var m := Merging(live, index, live[ids[0]]);
        MergePassStages(tol, m, ids[1..], all);
        MergePassNames(tol, m, ids[1..]);
        var r := MergePass(tol, m, ids[1..]);
        MergeAllStages(tol, r.live, r.index, ids[1..], all);
      } else {
        MergeAllStages(tol, live, index, ids[1..], all);
      }
    }
  }

  lemma {:induction false} MergePassNames(tol: Tolerance, m: Merging, rest: seq<string>)
    requires forall id :: id in m.live ==> m.live[id].id == id
    ensures forall id :: id in MergePass(tol, m, rest).live ==> MergePass(tol, m, rest).live[id].id == id
    decreases rest
  {
    if rest != [] { MergePassNames(tol, MergeStep(tol, m, rest[0]), rest[1..]); }
  }

  lemma IngestRaisesRanks(s: State, e: Event, choice: Option<string>, newId: string)
    requires Inv(s) && Enabled(s, Ingest(e, choice, newId))
    ensures var r := Take(s, Ingest(e, choice, newId)); RanksRise(s.live, r.live) && NoRevival(s, r)
  {
    if choice.Some? {
      var t := s.live[choice.value];
      assert Rank(t.stage) <= Rank(Heard(t, e).stage);
      assert HearKnown(s, choice.value, e).live == s.live[choice.value := Heard(t, e)];
    } else {
      assert newId !in s.live;
      assert HearNew(s, newId, e).live == s.live[newId := Born(newId, e)];
    }
  }

  lemma DedupRaisesRanks(s: State, alike: Alike)
    requires Inv(s) && Listed(s)
    ensures RanksRise(s.live, Dedup(s, alike).live) && NoRevival(s, Dedup(s, alike))
  {
    DedupKeepsInv(s, alike);
    forall id | id in Dedup(s, alike).live ensures Dedup(s, alike).live[id].stage == s.live[id].stage {
      SurvivorFacts(s, alike, id);
    }
  }

  lemma AgeRaisesRanks(s: State, now: int)
    requires Inv(s) && Listed(s)
    ensures RanksRise(s.live, AgeAll(s, now).live) && NoRevival(s, AgeAll(s, now))
  {
    AgeAllFacts(s, now);
    forall t: Track ensures Rank(t.stage) <= Rank(Aged(t, now).stage) {}
  }

  lemma MergeRaisesRanks(s: State, tol: Tolerance)
    requires Inv(s) && Listed(s)
    ensures RanksRise(s.live, MergeDuplicates(s, tol).live) && NoRevival(s, MergeDuplicates(s, tol))
  {
    MergeAllStages(tol, s.live, s.index, s.ids, s.live);
  }

  lemma DropRaisesRanks(s: State, id: string)
    requires id in s.live
    ensures RanksRise(s.live, DropTrack(s, id).live) && NoRevival(s, DropTrack(s, id))
  {
  }

  lemma AddRaisesRanks(s: State, t: Track)
    requires Inv(s) && t.id !in s.born
    ensures RanksRise(s.live, AddTrack(s, t).live) && NoRevival(s, AddTrack(s, t))
  {
    assert AddTrack(s, t).live == s.live[t.id := t];
  }

  lemma StepRaisesRanks(s: State, step: Step)
    requires Inv(s) && Listed(s) && Enabled(s, step)
    ensures RanksRise(s.live, Take(s, step).live) && NoRevival(s, Take(s, step))
  {
    match step
    case Ingest(e, choice, newId) => IngestRaisesRanks(s, e, choice, newId);
    case Age(now) => AgeRaisesRanks(s, now);
    case MergeDup(tol) => MergeRaisesRanks(s, tol);
    case DedupStations(alike) => DedupRaisesRanks(s, alike);
    case Delete(id) => DropRaisesRanks(s, id);
    case Rehydrate(t) => AddRaisesRanks(s, t);
  }

  /** The stage of a track only ever moves up (new, tracking, stable, coasting, lost), over any run;
      in particular a lost track stays lost even when it is heard again. */
  lemma {:induction false} StagesOnlyRise(steps: seq<Step>, n: nat, id: string)
    requires n <= |steps| && id in Run(steps[..n]).live && id in Run(steps).live
    ensures Rank(Run(steps[..n]).live[id].stage) <= Rank(Run(steps).live[id].stage)
  {
    var m := |steps|;
    if n == m {
      assert steps[..n] == steps;
    } else {
      var front := steps[..m - 1];
      assert front[..n] == steps[..n];
      RunKeepsInv(front);
      BornStays(front, n, id);
      if Enabled(Run(front), steps[m - 1]) { StepRaisesRanks(Run(front), steps[m - 1]); }
      StagesOnlyRise(front, n, id);
    }
  }

  lemma {:induction false} BornStays(steps: seq<Step>, n: nat, id: string)
    requires n <= |steps| && id in Run(steps[..n]).live
    ensures id in Run(steps).born
  {
    var m := |steps|;
    if n == m {
      assert steps[..n] == steps;
      RunKeepsInv(steps);
    } else {
      var front := steps[..m - 1];
      assert front[..n] == steps[..n];
      BornStays(front, n, id);
      RunKeepsInv(front);
      if Enabled(Run(front), steps[m - 1]) { StepRaisesRanks(Run(front), steps[m - 1]); }
    }
  }
}
