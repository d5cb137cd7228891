/** Emitter tracks and their frequency index, as values: backend/models/emitter_track.py,
    backend/fusion/track_associator.py and backend/fusion/track_manager.py.

    A track is put in the index bucket of the frequency it was created at and is never moved, while
    every update moves its frequency.  `born` remembers the creation frequencies; the source does
    not keep them. */
module Tracks {
  import opened Wrappers
  import opened Seqs
  import opened MergeCore

  datatype Stage = New | Tracking | Stable | Coasting | Lost

  datatype Fix = Fix(lat: real, lon: real)

  datatype Track = Track(
    id: string, stage: Stage, freq: real, freqHistory: seq<real>, power: Option<real>, powerHistory: seq<real>,
    firstSeen: int, lastSeen: int, count: nat, nodes: set<string>, trusted: Option<string>, mobile: bool,
    upstream: Option<string>, confidence: real, fix: Option<Fix>, fixConfidence: real)

  datatype Event = Event(freq: real, power: real, node: string, trust: real, time: int, upstream: Option<string>)

  type Index = map<int, seq<string>>

  datatype State = State(ids: seq<string>, live: map<string, Track>, index: Index, born: map<string, real>)

  // ---------------------------------------------------------------- one track

  function Last100(s: seq<real>): seq<real> { if |s| > 100 then s[|s| - 100..] else s }

  function Advance(stage: Stage, count: nat, mobile: bool): Stage {
    if stage == New && count >= 3 then Tracking
    else if stage == Tracking && count >= (if mobile then 25 else 10) then Stable
    else stage
  }

  function Updated(t: Track, freq: real, power: real, node: string, trust: real, time: int): Track {
    t.(freq := freq, freqHistory := Last100(t.freqHistory + [freq]),
       power := Some(power), powerHistory := Last100(t.powerHistory + [power]),
       lastSeen := time, count := t.count + 1, nodes := t.nodes + {node},
       trusted := if trust > 0.7 then Some(node) else t.trusted,
       stage := Advance(t.stage, t.count + 1, t.mobile))
  }

  /** A track heard from a second origin no longer belongs to its first peer. */
  function Heard(t: Track, e: Event): Track {
    var u := Updated(t, e.freq, e.power, e.node, e.trust, e.time);
    if u.upstream.Some? && u.upstream != e.upstream then u.(upstream := None) else u
  }

  function Born(id: string, e: Event): Track {
    Track(id, New, e.freq, [e.freq], Some(e.power), [e.power], e.time, e.time, 1, {e.node}, None, false,
          e.upstream, 0.1, None, 0.0)
  }

  const COAST_AFTER_NS: int := 30000000000
  const LOSE_AFTER_NS: int := 120000000000
  const ARCHIVE_AFTER_NS: int := 86400000000000

  predicate Archivable(t: Track, now: int) { now - t.lastSeen > ARCHIVE_AFTER_NS }

  function Aged(t: Track, now: int): Track {
    var age := now - t.lastSeen;
    if age > ARCHIVE_AFTER_NS then t
    else if age > LOSE_AFTER_NS && t.stage != Lost then t.(stage := Lost)
    else if age > COAST_AFTER_NS && t.stage == Stable then t.(stage := Coasting)
    else t
  }

  function Rank(s: Stage): nat {
    match s case New => 0 case Tracking => 1 case Stable => 2 case Coasting => 3 case Lost => 4
  }

  // ---------------------------------------------------------------- a track over its events

  function HeardAll(t: Track, es: seq<Event>): Track {
    if es == [] then t else Heard(HeardAll(t, es[..|es| - 1]), es[|es| - 1])
  }

  function Freqs(es: seq<Event>): (r: seq<real>)
    ensures |r| == |es|
  {
    seq(|es|, i requires 0 <= i < |es| => es[i].freq)
  }

  function Powers(es: seq<Event>): (r: seq<real>)
    ensures |r| == |es|
  {
    seq(|es|, i requires 0 <= i < |es| => es[i].power)
  }

  function Latest(s: seq<real>): seq<real> { if |s| <= 100 then s else s[|s| - 100..] }

  lemma LatestSnoc(s: seq<real>, x: real)
    ensures Last100(Latest(s) + [x]) == Latest(s + [x])
  {
  }

  /** The node an event makes trusted: its own, if it is trusted more than 0.7. */
  function Vouched(es: seq<Event>): Option<string> {
    if es == [] then None else
    var last := es[|es| - 1];
    if last.trust > 0.7 then Some(last.node) else Vouched(es[..|es| - 1])
  }

  /** What the last event and the number of events leave in a track. */
  ghost predicate TellsLast(t: Track, id: string, es: seq<Event>)
    requires es != []
  {
    var first, last, n := es[0], es[|es| - 1], |es|;
    && t.id == id && t.count == n && t.firstSeen == first.time && t.lastSeen == last.time
    && t.freq == last.freq && t.power == Some(last.power)
    && t.stage == (if n < 3 then New else if n < (if t.mobile then 25 else 10) then Tracking else Stable)
    && t.fix == None
  }

  /** The last hundred measurements. */
  ghost predicate TellsHistory(t: Track, es: seq<Event>) {
    t.freqHistory == Latest(Freqs(es)) && t.powerHistory == Latest(Powers(es))
  }

  /** Who heard it, who vouched for it and where it came from. */
  ghost predicate TellsSources(t: Track, es: seq<Event>)
    requires es != []
  {
    && (forall x :: x in t.nodes <==> exists i :: 0 <= i < |es| && es[i].node == x)
    && t.trusted == Vouched(es[1..])
    && t.upstream == if forall i :: 0 <= i < |es| ==> es[i].upstream == es[0].upstream then es[0].upstream else None
  }

  /** What a track says about itself after the events `es`, of which it was born with the first. */
  ghost predicate Tells(t: Track, id: string, es: seq<Event>)
    requires es != []
  {
    TellsLast(t, id, es) && TellsHistory(t, es) && TellsSources(t, es)
  }

  /** So it is for a track just born, whether it moves or not. */
  lemma FirstTold(id: string, e: Event)
    ensures Tells(Born(id, e), id, [e]) && Tells(Born(id, e).(mobile := true), id, [e])
  {
    assert [e][1..] == [] && Freqs([e]) == [e.freq] && Powers([e]) == [e.power];
  }

  lemma NextTold(t: Track, id: string, front: seq<Event>, e: Event)
    requires front != [] && Tells(t, id, front)
    ensures Tells(Heard(t, e), id, front + [e])
  {
    LastTold(t, id, front, e);
    HistoryTold(t, front, e);
    SourcesTold(t, front, e);
  }

  /** A track that hears nothing but events goes on to tell them: it is new below three, tracking below
      ten, or below twenty-five if it moves, and stable from then on. */
  lemma {:induction false} HeardMeans(id: string, start: Track, heard: seq<Event>, rest: seq<Event>)
    requires heard != [] && Tells(start, id, heard)
    ensures Tells(HeardAll(start, rest), id, heard + rest)
    decreases rest
  {
    if rest == [] {
      assert heard + rest == heard;
    } else {
      var e := rest[|rest| - 1];
      HeardMeans(id, start, heard, rest[..|rest| - 1]);
      var front := heard + rest[..|rest| - 1];
      NextTold(HeardAll(start, rest[..|rest| - 1]), id, front, e);
      JoinAllButLast(heard, rest);
    }
  }

  lemma HeardSnoc(t: Track, es: seq<Event>, e: Event)
    ensures HeardAll(t, es + [e]) == Heard(HeardAll(t, es), e)
    ensures Vouched(es + [e]) == if e.trust > 0.7 then Some(e.node) else Vouched(es)
  {
    assert (es + [e])[..|es|] == es;
  }

  lemma LastTold(t: Track, id: string, front: seq<Event>, e: Event)
    requires front != [] && TellsLast(t, id, front)
    ensures TellsLast(Heard(t, e), id, front + [e])
  {
  }

  lemma HistoryTold(t: Track, front: seq<Event>, e: Event)
    requires TellsHistory(t, front)
    ensures TellsHistory(Heard(t, e), front + [e])
  {
    LatestSnoc(Freqs(front), e.freq);
    LatestSnoc(Powers(front), e.power);
    assert Freqs(front + [e]) == Freqs(front) + [e.freq] && Powers(front + [e]) == Powers(front) + [e.power];
  }

  lemma SourcesTold(t: Track, front: seq<Event>, e: Event)
    requires front != [] && TellsSources(t, front)
    ensures TellsSources(Heard(t, e), front + [e])
  {
    var es := front + [e];
    assert es[1..] == front[1..] + [e];
    HeardSnoc(t, front[1..], e);
    assert forall i :: 0 <= i < |front| ==> es[i] == front[i];
    assert es[|front|] == e;
  }

  // ---------------------------------------------------------------- the index

  const BUCKET_HZ: real := 100000.0

  function Bucket(hz: real): int { (hz / BUCKET_HZ).Floor }

  lemma BucketBounds(hz: real)
    ensures Bucket(hz) as real * 100000.0 <= hz < (Bucket(hz) + 1) as real * 100000.0
  {
    var q := hz / BUCKET_HZ;
    assert q.Floor as real <= q < (q.Floor + 1) as real;
  }

  function Entries(index: Index, b: int): seq<string> { if b in index then index[b] else [] }

  function AddTo(index: Index, b: int, id: string): Index {
    var entries := Entries(index, b);
    if id in entries then index[b := entries] else index[b := entries + [id]]
  }

  function RemoveFrom(index: Index, b: int, id: string): Index {
    if id in Entries(index, b) then index[b := RemoveFirst(Entries(index, b), id)] else index
  }

  /** Live tracks listed in the event's bucket or one next to it. */
  function Candidates(s: State, hz: real): set<string> {
    var b := Bucket(hz);
    set id | id in s.live &&
      (id in Entries(s.index, b - 1) || id in Entries(s.index, b) || id in Entries(s.index, b + 1))
  }

  // ---------------------------------------------------------------- merging duplicates

  datatype Tolerance = Tolerance(freqHz: real, timeNs: int)

  function AbsReal(x: real): real { if x < 0.0 then -x else x }

  function AbsInt(x: int): int { if x < 0 then -x else x }

  predicate Similar(tol: Tolerance, a: Track, b: Track) {
    AbsReal(a.freq - b.freq) < tol.freqHz && AbsInt(a.lastSeen - b.lastSeen) < tol.timeNs
  }

  function Absorb(p: Track, s: Track): Track {
    p.(nodes := p.nodes + s.nodes, count := p.count + s.count, freqHistory := p.freqHistory + s.freqHistory)
  }

  /** `head` is the track the outer loop holds on to, whether or not it is still live. */
  datatype Merging = Merging(live: map<string, Track>, index: Index, head: Track)

  function MergeStep(tol: Tolerance, m: Merging, b: string): Merging {
    if b !in m.live || !Similar(tol, m.head, m.live[b]) then m else
    var t := m.live[b];
    if m.head.firstSeen <= t.firstSeen then
      var head := Absorb(m.head, t);
      Merging((if head.id in m.live then m.live[head.id := head] else m.live) - {b},
              RemoveFrom(m.index, Bucket(t.freq), b), head)
    else
      Merging(m.live[b := Absorb(t, m.head)] - {m.head.id},
              RemoveFrom(m.index, Bucket(m.head.freq), m.head.id), m.head)
  }

  function MergePass(tol: Tolerance, m: Merging, rest: seq<string>): Merging
    decreases rest
  {
    if rest == [] then m else MergePass(tol, MergeStep(tol, m, rest[0]), rest[1..])
  }

  function MergeAll(tol: Tolerance, live: map<string, Track>, index: Index, ids: seq<string>): Merged
    decreases ids
  {
    if ids == [] then Merged(live, index)
    else if ids[0] !in live then MergeAll(tol, live, index, ids[1..])
    else
      var m := MergePass(tol, Merging(live, index, live[ids[0]]), ids[1..]);
      MergeAll(tol, m.live, m.index, ids[1..])
  }

  datatype Merged = Merged(live: map<string, Track>, index: Index)

  /** The names of `ids` that are still in use, in their order. */
  function Keep(ids: seq<string>, live: set<string>): seq<string> {
    if ids == [] then [] else
    var front, last := ids[..|ids| - 1], ids[|ids| - 1];
    if last in live then Keep(front, live) + [last] else Keep(front, live)
  }

  lemma {:induction false} KeepFacts(ids: seq<string>, live: set<string>)
    ensures forall id :: id in Keep(ids, live) <==> id in ids && id in live
    ensures NoRepeats(ids) ==> NoRepeats(Keep(ids, live))
  {
    if ids != [] {
      var front, last := ids[..|ids| - 1], ids[|ids| - 1];
      assert ids == front + [last];
      KeepFacts(front, live);
    }
  }

  // ---------------------------------------------------------------- steps

  function HearKnown(s: State, id: string, e: Event): State
    requires id in s.live
  {
    s.(live := s.live[id := Heard(s.live[id], e)])
  }

  function HearNew(s: State, id: string, e: Event): State {
    AddTrack(s, Born(id, e))
  }

  function AddTrack(s: State, t: Track): State {
    State(if t.id in s.live then s.ids else s.ids + [t.id], s.live[t.id := t],
          AddTo(s.index, Bucket(t.freq), t.id), s.born[t.id := t.freq])
  }

  function DropTrack(s: State, id: string): State
    requires id in s.live
  {
    var live := s.live - {id};
    s.(ids := Keep(s.ids, live.Keys), live := live, index := RemoveFrom(s.index, Bucket(s.live[id].freq), id))
  }

  function DropAll(s: State, ids: seq<string>): State
    decreases ids
  {
    if ids == [] then s else DropAll(if ids[0] in s.live then DropTrack(s, ids[0]) else s, ids[1..])
  }

  function ToArchive(ids: seq<string>, live: map<string, Track>, now: int): seq<string> {
    if ids == [] then [] else
    var last := ids[|ids| - 1];
    ToArchive(ids[..|ids| - 1], live, now) + (if last in live && Archivable(live[last], now) then [last] else [])
  }

  function AgeAll(s: State, now: int): State {
    DropAll(s.(live := map id | id in s.live :: Aged(s.live[id], now)), ToArchive(s.ids, s.live, now))
  }

  function MergeDuplicates(s: State, tol: Tolerance): State {
    var m := MergeAll(tol, s.live, s.index, s.ids);
    s.(ids := Keep(s.ids, m.live.Keys), live := m.live, index := m.index)
  }

  // ---------------------------------------------------------------- the index invariant

  ghost predicate NearBirth(freq: real, born: real) { -1 <= Bucket(freq) - Bucket(born) <= 1 }

  /** Every live track is listed in the bucket it was born in, nowhere else and only once, and its
      frequency is still within one bucket of that. */
  ghost predicate Indexed(live: map<string, Track>, index: Index, born: map<string, real>) {
    && (forall id :: id in live ==> id in born && live[id].id == id && NearBirth(live[id].freq, born[id]))
    && (forall id, b :: id in live ==> (id in Entries(index, b) <==> b == Bucket(born[id])))
    && (forall b :: NoRepeats(Entries(index, b)))
    && (forall b, id :: id in Entries(index, b) ==> id in born)
  }

  ghost predicate Inv(s: State) { Indexed(s.live, s.index, s.born) }

  /** The two sides of what the index finds for an event. */
  lemma CandidatesSandwich(s: State, hz: real, id: string)
    requires Inv(s) && id in s.live
    ensures Bucket(s.live[id].freq) == Bucket(hz) ==> id in Candidates(s, hz)
    ensures id in Candidates(s, hz) ==> -2 <= Bucket(s.live[id].freq) - Bucket(hz) <= 2
  {
  }

  /** A track never drifts 200 kHz away from the frequency it was born at. */
  lemma NoDrift(s: State, id: string)
    requires Inv(s) && id in s.live
    ensures AbsReal(s.live[id].freq - s.born[id]) < 200000.0
  {
    BucketBounds(s.live[id].freq);
    BucketBounds(s.born[id]);
  }

  lemma HearKnownKeepsInv(s: State, id: string, e: Event)
    requires Inv(s) && id in Candidates(s, e.freq)
    ensures Inv(HearKnown(s, id, e))
  {
  }

  lemma AddTrackKeepsInv(s: State, t: Track)
    requires Inv(s) && t.id !in s.born
    ensures Inv(AddTrack(s, t))
  {
    var b := Bucket(t.freq);
    assert t.id !in Entries(s.index, b);
    var index' := AddTo(s.index, b, t.id);
    forall b' ensures NoRepeats(Entries(index', b')) &&
                      forall id :: id in Entries(index', b') <==> id in Entries(s.index, b') || (b' == b && id == t.id)
    {
      assert NoRepeats(Entries(s.index, b'));
      assert Entries(index', b') == if b' == b then Entries(s.index, b) + [t.id] else Entries(s.index, b');
    }
  }

  /** Taking tracks away, and at most entries of tracks that are gone, keeps the index right. */
  lemma ShrinkKeepsIndexed(live: map<string, Track>, index: Index, born: map<string, real>, live': map<string, Track>, b: int, gone: string)
    requires Indexed(live, index, born)
    requires live'.Keys <= live.Keys && gone !in live'
    requires forall id :: id in live' ==> live'[id].freq == live[id].freq && live'[id].id == id
    ensures Indexed(live', RemoveFrom(index, b, gone), born)
  {
    if gone in Entries(index, b) {
      RemoveFirstFacts(Entries(index, b), gone);
      var index' := RemoveFrom(index, b, gone);
      forall b' ensures NoRepeats(Entries(index', b')) &&
                        forall id :: id in Entries(index', b') <==> id in Entries(index, b') && (b' == b ==> id != gone)
      {
        assert Entries(index', b') == if b' == b then RemoveFirst(Entries(index, b), gone) else Entries(index, b');
      }
    }
  }

  lemma {:induction false} DropAllKeepsInv(s: State, ids: seq<string>)
    requires Inv(s)
    ensures Inv(DropAll(s, ids))
    decreases ids
  {
    if ids != [] {
      if ids[0] in s.live {
        var live' := s.live - {ids[0]};
        ShrinkKeepsIndexed(s.live, s.index, s.born, live', Bucket(s.live[ids[0]].freq), ids[0]);
        DropAllKeepsInv(DropTrack(s, ids[0]), ids[1..]);
      } else {
        DropAllKeepsInv(s, ids[1..]);
      }
    }
  }

  ghost predicate HeadOk(m: Merging) { m.head.id in m.live ==> m.live[m.head.id] == m.head }

  lemma MergeStepKeepsIndexed(tol: Tolerance, m: Merging, b: string, born: map<string, real>)
    requires Indexed(m.live, m.index, born) && HeadOk(m) && b != m.head.id
    ensures var r := MergeStep(tol, m, b);
            Indexed(r.live, r.index, born) && HeadOk(r) && r.head.id == m.head.id && r.live.Keys <= m.live.Keys
  {
    var r := MergeStep(tol, m, b);
    if b in m.live && Similar(tol, m.head, m.live[b]) {
      if m.head.firstSeen <= m.live[b].firstSeen {
        ShrinkKeepsIndexed(m.live, m.index, born, r.live, Bucket(m.live[b].freq), b);
      } else {
        ShrinkKeepsIndexed(m.live, m.index, born, r.live, Bucket(m.head.freq), m.head.id);
      }
    }
  }

  lemma {:induction false} MergePassKeepsIndexed(tol: Tolerance, m: Merging, rest: seq<string>, born: map<string, real>)
    requires Indexed(m.live, m.index, born) && HeadOk(m) && m.head.id !in rest
    ensures var r := MergePass(tol, m, rest);
            Indexed(r.live, r.index, born) && r.live.Keys <= m.live.Keys
    decreases rest
  {
    if rest != [] {
      assert rest[0] in rest && forall id :: id in rest[1..] ==> id in rest;
      MergeStepKeepsIndexed(tol, m, rest[0], born);
      MergePassKeepsIndexed(tol, MergeStep(tol, m, rest[0]), rest[1..], born);
    }
  }

  lemma {:induction false} MergeAllKeepsIndexed(tol: Tolerance, live: map<string, Track>, index: Index, ids: seq<string>, born: map<string, real>)
    requires Indexed(live, index, born) && NoRepeats(ids)
    ensures var r := MergeAll(tol, live, index, ids); Indexed(r.live, r.index, born) && r.live.Keys <= live.Keys
    decreases ids
  {
    if ids != [] {
      if ids[0] in live {
        var m := Merging(live, index, live[ids[0]]);
        MergePassKeepsIndexed(tol, m, ids[1..], born);
        var r := MergePass(tol, m, ids[1..]);
        MergeAllKeepsIndexed(tol, r.live, r.index, ids[1..], born);
      } else {
        MergeAllKeepsIndexed(tol, live, index, ids[1..], born);
      }
    }
  }

  // ---------------------------------------------------------------- merging conserves observations

  function FactsOf(tol: Tolerance, live: map<string, Track>): Facts {
    Facts((a, b) => a in live && b in live && Similar(tol, live[a], live[b]),
          a => if a in live then live[a].firstSeen else 0)
  }

  function CountOf(live: map<string, Track>, ids: seq<string>): nat {
    if ids == [] then 0 else (if ids[0] in live then live[ids[0]].count else 0) + CountOf(live, ids[1..])
  }

  function Counts(live: map<string, Track>): map<string, nat> { map id | id in live :: live[id].count }

  /** The core state a merging state stands for. */
  ghost predicate Stands(c: Core, m: Merging, all: map<string, Track>) {
    && c.alive == m.live.Keys && m.live.Keys <= all.Keys && m.head.id in all
    && (forall id :: id in m.live ==> W(c, id) == m.live[id].count && Static(m.live[id], all[id]) && m.live[id].id == id)
    && W(c, m.head.id) == m.head.count && Static(m.head, all[m.head.id])
    && HeadOk(m)
  }

  /** What merging never changes about a track. */
  ghost predicate Static(t: Track, u: Track) {
    t.id == u.id && t.freq == u.freq && t.firstSeen == u.firstSeen && t.lastSeen == u.lastSeen
  }

  lemma FactsAgree(tol: Tolerance, m: Merging, all: map<string, Track>, c: Core, b: string)
    requires Stands(c, m, all) && b in m.live
    ensures var f := FactsOf(tol, all);
            && f.similar(m.head.id, b) == Similar(tol, m.head, m.live[b])
            && f.first(m.head.id) == m.head.firstSeen && f.first(b) == m.live[b].firstSeen
  {
  }

  lemma AbsorbStands(tol: Tolerance, c: Core, m: Merging, all: map<string, Track>, b: string)
    requires Stands(c, m, all) && b in m.live && b != m.head.id && Similar(tol, m.head, m.live[b])
    requires m.head.firstSeen <= m.live[b].firstSeen
    ensures Stands(Core(c.alive - {b}, c.weight[m.head.id := W(c, m.head.id) + W(c, b)]), MergeStep(tol, m, b), all)
  {
  }

  lemma YieldStands(tol: Tolerance, c: Core, m: Merging, all: map<string, Track>, b: string)
    requires Stands(c, m, all) && b in m.live && b != m.head.id && Similar(tol, m.head, m.live[b])
    requires m.head.firstSeen > m.live[b].firstSeen
    ensures Stands(Core(c.alive - {m.head.id}, c.weight[b := W(c, b) + W(c, m.head.id)]), MergeStep(tol, m, b), all)
  {
  }

  lemma StepStands(tol: Tolerance, c: Core, m: Merging, all: map<string, Track>, b: string)
    requires Stands(c, m, all) && b in all && b != m.head.id
    ensures Stands(MergePair(FactsOf(tol, all), c, m.head.id, b), MergeStep(tol, m, b), all)
    ensures MergeStep(tol, m, b).head.id == m.head.id
  {
    if b in m.live {
      FactsAgree(tol, m, all, c, b);
      if Similar(tol, m.head, m.live[b]) {
        if m.head.firstSeen <= m.live[b].firstSeen { AbsorbStands(tol, c, m, all, b); } else { YieldStands(tol, c, m, all, b); }
      }
    }
  }

  lemma {:induction false} PassStands(tol: Tolerance, c: Core, m: Merging, all: map<string, Track>, rest: seq<string>)
    requires Stands(c, m, all) && m.head.id !in rest && (forall id :: id in rest ==> id in all)
    requires forall id :: id in all ==> all[id].id == id
    ensures Stands(Inner(FactsOf(tol, all), c, m.head.id, rest), MergePass(tol, m, rest), all)
    decreases rest
  {
    if rest != [] {
      assert rest[0] in rest && forall id :: id in rest[1..] ==> id in rest;
      StepStands(tol, c, m, all, rest[0]);
      PassStands(tol, MergePair(FactsOf(tol, all), c, m.head.id, rest[0]), MergeStep(tol, m, rest[0]), all, rest[1..]);
    }
  }

  ghost predicate StandsFor(c: Core, live: map<string, Track>, all: map<string, Track>) {
    && c.alive == live.Keys && live.Keys <= all.Keys
    && forall id :: id in live ==> W(c, id) == live[id].count && Static(live[id], all[id]) && live[id].id == id
  }

  lemma {:induction false} AllStands(tol: Tolerance, c: Core, live: map<string, Track>, index: Index, all: map<string, Track>, ids: seq<string>)
    requires StandsFor(c, live, all) && NoRepeats(ids) && (forall id :: id in ids ==> id in all)
    requires forall id :: id in all ==> all[id].id == id
    ensures StandsFor(Outer(FactsOf(tol, all), c, ids), MergeAll(tol, live, index, ids).live, all)
    decreases ids
  {
    if ids != [] {
      var a, tail := ids[0], ids[1..];
      assert a in ids && a !in tail && forall id :: id in tail ==> id in ids;
      if a in live {
        var m := Merging(live, index, live[a]);
        PassStands(tol, c, m, all, tail);
        var r := MergePass(tol, m, tail);
        AllStands(tol, Inner(FactsOf(tol, all), c, a, tail), r.live, r.index, all, tail);
      } else {
        AllStands(tol, c, live, index, all, tail);
      }
    }
  }

  lemma {:induction false} CountIsTotal(c: Core, live: map<string, Track>, all: map<string, Track>, ids: seq<string>)
    requires StandsFor(c, live, all)
    ensures CountOf(live, ids) == Total(c, ids)
  {
    if ids != [] { CountIsTotal(c, live, all, ids[1..]); }
  }

  /** The dictionary lists exactly the live tracks, once each and under their own names. */
  ghost predicate Named(s: State) {
    NoRepeats(s.ids) && s.live.Keys == SetOf(s.ids) && forall id :: id in s.live ==> s.live[id].id == id
  }

  /** Merging tracks counts what the core counts; likeness and age may be read off any record that
      differs from the tracks in nothing that merging looks at. */
  lemma MergeIsCore(s: State, tol: Tolerance, all: map<string, Track>)
    requires Named(s) && all.Keys == s.live.Keys
    requires forall id :: id in all ==> all[id].id == id && Static(s.live[id], all[id])
    ensures var c := Core(s.live.Keys, Counts(s.live));
            && CountOf(s.live, s.ids) == Total(c, s.ids)
            && CountOf(MergeDuplicates(s, tol).live, s.ids) == Total(Outer(FactsOf(tol, all), c, s.ids), s.ids)
  {
    var c := Core(s.live.Keys, Counts(s.live));
    AllStands(tol, c, s.live, s.index, all, s.ids);
    CountIsTotal(c, s.live, all, s.ids);
    CountIsTotal(Outer(FactsOf(tol, all), c, s.ids), MergeDuplicates(s, tol).live, all, s.ids);
  }

  /** When no pass meets a hazard, merging duplicates conserves the number of observations. */
  lemma SafeMergeConserves(s: State, tol: Tolerance)
    requires Named(s)
    requires Safe(FactsOf(tol, s.live), Core(s.live.Keys, Counts(s.live)), s.ids)
    ensures CountOf(MergeDuplicates(s, tol).live, s.ids) == CountOf(s.live, s.ids)
  {
    MergeIsCore(s, tol, s.live);
    SafeConserves(FactsOf(tol, s.live), Core(s.live.Keys, Counts(s.live)), s.ids, s.ids);
  }

  /** The same tracks, observed as often as `w` says. */
  function Recount(s: State, w: map<string, nat>): State
    requires w.Keys == s.live.Keys
  {
    s.(live := map id | id in s.live :: s.live[id].(count := w[id]))
  }

  ghost predicate Conserves(s: State, tol: Tolerance) {
    CountOf(MergeDuplicates(s, tol).live, s.ids) == CountOf(s.live, s.ids)
  }

  lemma RecountIsCore(s: State, tol: Tolerance, w: map<string, nat>)
    requires Named(s) && w.Keys == s.live.Keys
    ensures var c := Core(SetOf(s.ids), w);
            Conserves(Recount(s, w), tol) <==> Total(Outer(FactsOf(tol, s.live), c, s.ids), s.ids) == Total(c, s.ids)
  {
    var r := Recount(s, w);
    assert r.live.Keys == s.live.Keys && Named(r);
    assert Counts(r.live) == w;
    MergeIsCore(r, tol, s.live);
  }

  /** Merging duplicates conserves observations for all counts these tracks can have, at least one
      each, exactly when no pass meets a hazard. */
  lemma MergeDuplicatesConservesIff(s: State, tol: Tolerance)
    requires Named(s)
    ensures Safe(FactsOf(tol, s.live), Core(s.live.Keys, map[]), s.ids) <==>
            forall w: map<string, nat> :: Observed(w, s.live.Keys) ==> Conserves(Recount(s, w), tol)
  {
    MergeConservesIffSafe(FactsOf(tol, s.live), s.ids);
    forall w: map<string, nat> | Observed(w, s.live.Keys)
      ensures var c := Core(SetOf(s.ids), w);
              Conserves(Recount(s, w), tol) <==> Total(Outer(FactsOf(tol, s.live), c, s.ids), s.ids) == Total(c, s.ids)
    {
      RecountIsCore(s, tol, w);
    }
  }

  /** Closer than the tolerances in frequency and in last sighting, the source's test for duplicates. */
  ghost predicate Close(tol: Tolerance, a: Track, b: Track) {
    -tol.freqHz < a.freq - b.freq < tol.freqHz && -tol.timeNs < a.lastSeen - b.lastSeen < tol.timeNs
  }

  /** `p` after taking over the observations, nodes and frequencies of `s`. */
  ghost predicate TookOver(p: Track, s: Track, r: Track) {
    && r.count == p.count + s.count && (forall n :: n in r.nodes <==> n in p.nodes || n in s.nodes)
    && r.freqHistory == p.freqHistory + s.freqHistory
    && r == p.(count := r.count, nodes := r.nodes, freqHistory := r.freqHistory)
  }

  /** Merging two tracks: if they are close, the one seen first, or the one listed first when both were
      seen at once, takes over the other; else nothing changes. */
  lemma PairIsMerged(s: State, tol: Tolerance, a: string, b: string)
    requires Named(s) && s.ids == [a, b]
    ensures a in s.live && b in s.live
    ensures var r, x, y := MergeDuplicates(s, tol), s.live[a], s.live[b];
            if !Close(tol, x, y) then r.ids == s.ids && r.live == s.live
            else if x.firstSeen <= y.firstSeen then r.ids == [a] && r.live.Keys == {a} && TookOver(x, y, r.live[a])
            else r.ids == [b] && r.live.Keys == {b} && TookOver(y, x, r.live[b])
  {
    assert s.ids[0] == a && s.ids[1] == b;
    assert s.live.Keys == {a, b};
    PairIsOneStep(s, tol, a, b);
    KeepPair(a, b, MergeStep(tol, Merging(s.live, s.index, s.live[a]), b).live.Keys);
  }

  lemma PairIsOneStep(s: State, tol: Tolerance, a: string, b: string)
    requires s.ids == [a, b] && a in s.live
    ensures var m := MergeStep(tol, Merging(s.live, s.index, s.live[a]), b);
            MergeDuplicates(s, tol) == s.(ids := Keep(s.ids, m.live.Keys), live := m.live, index := m.index)
  {
    var m := Merging(s.live, s.index, s.live[a]);
    var m1 := MergeStep(tol, m, b);
    assert s.ids[1..] == [b] && [b][1..] == [];
    assert MergePass(tol, m, [b]) == m1;
    LastMergesNothing(tol, m1.live, m1.index, b);
  }

  lemma LastMergesNothing(tol: Tolerance, live: map<string, Track>, index: Index, b: string)
    ensures MergeAll(tol, live, index, [b]) == Merged(live, index)
  {
    assert [b][1..] == [];
  }

  lemma KeepPair(a: string, b: string, live: set<string>)
    ensures Keep([a, b], live) == (if a in live then [a] else []) + (if b in live then [b] else [])
  {
    assert [a, b][..1] == [a] && [a][..0] == [];
    assert Keep([a], live) == if a in live then [a] else [];
  }

  /** A track that is not close to any other is left alone. */
  lemma LonerStays(s: State, tol: Tolerance, id: string)
    requires Named(s) && id in s.live
    requires forall x :: x in s.live && x != id ==> !Close(tol, s.live[x], s.live[id])
    ensures id in MergeDuplicates(s, tol).live && MergeDuplicates(s, tol).live[id] == s.live[id]
  {
    LonerThroughAll(tol, s.live, s.index, s.ids, s.live, id);
  }

  /** What merging never changes about the tracks it has not taken away. */
  ghost predicate SameSpots(live: map<string, Track>, all: map<string, Track>) {
    live.Keys <= all.Keys && forall x :: x in live ==> Static(live[x], all[x]) && live[x].id == x
  }

  lemma {:induction false} LonerThroughPass(tol: Tolerance, m: Merging, rest: seq<string>, all: map<string, Track>, id: string)
    requires SameSpots(m.live, all) && id in m.live && m.head.id in all && Static(m.head, all[m.head.id])
    requires forall x :: x in all && x != id ==> !Close(tol, all[x], all[id])
    requires m.head.id !in rest && (m.head.id == id ==> m.live[id] == m.head)
    ensures var r := MergePass(tol, m, rest); SameSpots(r.live, all) && id in r.live && r.live[id] == m.live[id]
    decreases rest
  {
    if rest != [] {
      assert rest[0] in rest && forall x :: x in rest[1..] ==> x in rest;
      LonerThroughStep(tol, m, rest[0], all, id);
      LonerThroughPass(tol, MergeStep(tol, m, rest[0]), rest[1..], all, id);
    }
  }

  lemma LonerThroughStep(tol: Tolerance, m: Merging, b: string, all: map<string, Track>, id: string)
    requires SameSpots(m.live, all) && id in m.live && m.head.id in all && Static(m.head, all[m.head.id])
    requires forall x :: x in all && x != id ==> !Close(tol, all[x], all[id])
    requires b != m.head.id && (m.head.id == id ==> m.live[id] == m.head)
    ensures var r := MergeStep(tol, m, b);
            && SameSpots(r.live, all) && id in r.live && r.live[id] == m.live[id]
            && r.head.id == m.head.id && Static(r.head, all[m.head.id]) && (r.head.id == id ==> r.live[id] == r.head)
  {
    if b in m.live && Similar(tol, m.head, m.live[b]) {
      assert Close(tol, all[m.head.id], all[b]);
      assert m.head.id != id && b != id;
    }
  }

  lemma {:induction false} LonerThroughAll(tol: Tolerance, live: map<string, Track>, index: Index, ids: seq<string>, all: map<string, Track>, id: string)
    requires SameSpots(live, all) && id in live && NoRepeats(ids)
    requires forall x :: x in all && x != id ==> !Close(tol, all[x], all[id])
    ensures var r := MergeAll(tol, live, index, ids); id in r.live && r.live[id] == live[id]
    decreases ids
  {
    if ids != [] {
      if ids[0] in live {
        var m := Merging(live, index, live[ids[0]]);
        assert ids[0] !in ids[1..];
        LonerThroughPass(tol, m, ids[1..], all, id);
        var r := MergePass(tol, m, ids[1..]);
        LonerThroughAll(tol, r.live, r.index, ids[1..], all, id);
      } else {
        LonerThroughAll(tol, live, index, ids[1..], all, id);
      }
    }
  }

  /** Three tracks alike, the second the oldest: the third's observations are lost, or the first's are
      counted twice. */
  lemma MiddleOldestMiscounts(s: State, tol: Tolerance)
    requires Named(s) && s.ids == ["a", "b", "c"]
    requires var t := s.live;
             "a" in t && "b" in t && "c" in t && Similar(tol, t["a"], t["b"]) && Similar(tol, t["a"], t["c"]) &&
             t["b"].firstSeen < t["a"].firstSeen
    ensures var t := s.live;
            CountOf(t, s.ids) == t["a"].count + t["b"].count + t["c"].count &&
            CountOf(MergeDuplicates(s, tol).live, s.ids) ==
              if t["a"].firstSeen <= t["c"].firstSeen then t["a"].count + t["b"].count
              else 2 * t["a"].count + t["b"].count + t["c"].count
  {
    var t := s.live;
    assert s.live.Keys == {"a", "b", "c"};
    assert Counts(t) == map["a" := t["a"].count, "b" := t["b"].count, "c" := t["c"].count];
    MergeIsCore(s, tol, t);
    MiddleOldestIsUnsafe(FactsOf(tol, t), t["a"].count, t["b"].count, t["c"].count);
  }

  /** In particular when the dictionary lists the tracks in first-seen order. */
  lemma InOrderMergeConserves(s: State, tol: Tolerance)
    requires Named(s)
    requires forall i, j :: 0 <= i < j < |s.ids| ==> s.live[s.ids[i]].firstSeen <= s.live[s.ids[j]].firstSeen
    ensures CountOf(MergeDuplicates(s, tol).live, s.ids) == CountOf(s.live, s.ids)
  {
    var f := FactsOf(tol, s.live);
    forall i, j | 0 <= i < j < |s.ids| ensures f.first(s.ids[i]) <= f.first(s.ids[j]) {
      assert s.ids[i] in SetOf(s.ids) && s.ids[j] in SetOf(s.ids);
    }
    InOrderIsSafe(f, Core(s.live.Keys, Counts(s.live)), s.ids);
    SafeMergeConserves(s, tol);
  }
}
