/** The track manager and its helpers as objects: backend/models/emitter_track.py,
    backend/fusion/track_associator.py, backend/fusion/track_manager.py and
    backend/fusion/cross_station_dedup.py.  Every method is tied to the step of module Tracks or
    CrossStation it takes. */
module TrackManagers {
  import opened Wrappers
  import opened Seqs
  import opened Tracks
  import opened CrossStation

  /** A mutable track.  The fields of the source's dataclass are kept together in one record. */
  class EmitterTrack {
    var data: Track

    constructor (t: Track)
      ensures data == t
    {
      data := t;
    }

    method Update(hz: real, dbfs: real, node: string, trust: real, time: int)
      modifies this
      ensures data == Updated(old(data), hz, dbfs, node, trust, time)
    {
      data := data.(freq := hz, freqHistory := data.freqHistory + [hz]);
      data := data.(power := Some(dbfs), powerHistory := data.powerHistory + [dbfs]);
      data := data.(lastSeen := time, count := data.count + 1);
      if node !in data.nodes { data := data.(nodes := data.nodes + {node}); }
      assert data.nodes == old(data.nodes) + {node};
      if trust > 0.7 { data := data.(trusted := Some(node)); }
      AdvanceStage();
      data := data.(freqHistory := Last100(data.freqHistory), powerHistory := Last100(data.powerHistory));
    }

    method AdvanceStage()
      modifies this
      ensures data == old(data).(stage := Advance(old(data.stage), old(data.count), old(data.mobile)))
    {
      if data.stage == New && data.count >= 3 {
        data := data.(stage := Tracking);
      } else if data.stage == Tracking {
        var threshold := if data.mobile then 25 else 10;
        if data.count >= threshold { data := data.(stage := Stable); }
      }
    }

    /** The merge of `merge_duplicates`, seen from the surviving track. */
    method AbsorbTrack(other: EmitterTrack)
      requires other != this
      modifies this
      ensures data == Absorb(old(data), other.data)
    {
      data := data.(nodes := data.nodes + other.data.nodes);
      data := data.(count := data.count + other.data.count);
      data := data.(freqHistory := data.freqHistory + other.data.freqHistory);
    }

    /** The merge of the cross-station pass, seen from the kept track. */
    method JoinTrack(drop: EmitterTrack)
      requires drop != this
      modifies this
      ensures data == Join(old(data), drop.data)
    {
      data := data.(nodes := data.nodes + drop.data.nodes);
      if drop.data.confidence > data.confidence { data := data.(confidence := drop.data.confidence); }
      if data.fix.None? && drop.data.fix.Some? {
        data := data.(fix := drop.data.fix, fixConfidence := drop.data.fixConfidence);
      }
      if drop.data.lastSeen > data.lastSeen { data := data.(lastSeen := drop.data.lastSeen); }
      data := data.(count := data.count + drop.data.count);
    }
  }

  class Associator {
    var index: Index

    constructor ()
      ensures index == map[]
    {
      index := map[];
    }

    method IndexTrack(id: string, hz: real)
      modifies this
      ensures index == AddTo(old(index), Bucket(hz), id)
    {
      var b := Bucket(hz);
      if b !in index { index := index[b := []]; }
      if id !in index[b] { index := index[b := index[b] + [id]]; }
    }

    method RemoveTrack(id: string, hz: real)
      modifies this
      ensures index == RemoveFrom(old(index), Bucket(hz), id)
    {
      var b := Bucket(hz);
      var entries := if b in index then index[b] else [];
      if id in entries { index := index[b := RemoveFirst(entries, id)]; }
    }

    /** The entries of one bucket that are live. */
    method LiveEntries(b: int, live: set<string>) returns (c: set<string>)
      ensures forall id :: id in c <==> id in live && id in Entries(index, b)
    {
      var entries := if b in index then index[b] else [];
      c := {};
      for i := 0 to |entries|
        invariant forall id :: id in c <==> id in live && id in entries[..i]
      {
        if entries[i] in live { c := c + {entries[i]}; }
      }
      assert entries[..|entries|] == entries;
    }

    ghost predicate Near(hz: real, live: set<string>, id: string)
      reads this
    {
      && id in live
      && (id in Entries(index, Bucket(hz) - 1) || id in Entries(index, Bucket(hz)) || id in Entries(index, Bucket(hz) + 1))
    }

    method CandidateTracks(hz: real, live: set<string>) returns (c: set<string>)
      ensures forall id :: id in c <==> Near(hz, live, id)
    {
      var b := Bucket(hz);
      var below := LiveEntries(b - 1, live);
      var at := LiveEntries(b, live);
      var above := LiveEntries(b + 1, live);
      c := below + at + above;
    }

    /** The best-scoring candidate, if any scores at least 0.4. */
    method Associate(hz: real, live: set<string>, score: string -> real) returns (best: Option<string>)
      ensures best.Some? ==> Near(hz, live, best.value) && score(best.value) >= 0.4
      ensures best.Some? ==> forall id :: Near(hz, live, id) ==> score(id) <= score(best.value)
      ensures best.None? ==> forall id :: Near(hz, live, id) ==> score(id) < 0.4
    {
      var c := CandidateTracks(hz, live);
      var rest := c;
      best := None;
      while rest != {}
        invariant rest <= c
        invariant best.Some? ==> best.value in c && forall id :: id in c - rest ==> score(id) <= score(best.value)
        invariant best.None? ==> rest == c
        decreases rest
      {
        var id :| id in rest;
        if best.None? || score(id) > score(best.value) { best := Some(id); }
        rest := rest - {id};
      }
      if best.Some? && score(best.value) < 0.4 { best := None; }
    }
  }

  class TrackManager {
    const assoc: Associator
    var ids: seq<string>
    var tracks: map<string, EmitterTrack>
    var archived: map<string, EmitterTrack>
    ghost var objects: set<EmitterTrack>
    ghost var live: map<string, Track>
    ghost var born: map<string, real>

    /** `objects` holds at least the live track objects, `live` mirrors their contents, `ids` is the
        order of the dictionary. */
    ghost predicate Valid()
      reads this, objects
    {
      && live.Keys == tracks.Keys
      && (forall id :: id in tracks ==> tracks[id] in objects && tracks[id].data == live[id] && live[id].id == id)
      && NoRepeats(ids) && (forall id :: id in ids <==> id in live)
    }

    ghost function View(): State
      reads this, assoc
    {
      State(ids, live, assoc.index, born)
    }

    constructor ()
      ensures Valid() && fresh(assoc) && objects == {} && View() == State([], map[], map[], map[]) && archived == map[]
    {
      assoc := new Associator();
      ids, tracks, archived, objects, live, born := [], map[], map[], {}, map[], map[];
    }

    method Insert(t: EmitterTrack)
      requires Valid() && t.data.id !in live
      modifies this`ids, this`tracks, this`objects, this`live, this`born, assoc
      ensures Valid() && tracks == old(tracks)[t.data.id := t] && objects == old(objects) + {t}
      ensures View() == AddTrack(old(View()), t.data)
    {
      var id := t.data.id;
      ids := ids + [id];
      tracks := tracks[id := t];
      objects := objects + {t};
      live := live[id := t.data];
      born := born[id := t.data.freq];
      assoc.IndexTrack(id, t.data.freq);
    }

    /** One event: it joins its best candidate or starts a track. */
    method Ingest(e: Event, newId: string, score: string -> real) returns (t: EmitterTrack, ghost choice: Option<string>)
      requires Valid() && newId !in live
      modifies this`ids, this`tracks, this`objects, this`live, this`born, assoc, objects
      ensures Valid() && fresh(objects - old(objects))
      ensures choice.Some? ==> choice.value in Candidates(old(View()), e.freq) && score(choice.value) >= 0.4
      ensures choice.Some? ==> forall id :: id in Candidates(old(View()), e.freq) ==> score(id) <= score(choice.value)
      ensures choice.Some? ==> View() == HearKnown(old(View()), choice.value, e)
      ensures choice.None? ==> forall id :: id in Candidates(old(View()), e.freq) ==> score(id) < 0.4
      ensures choice.None? ==> View() == HearNew(old(View()), newId, e)
    {
      var best := assoc.Associate(e.freq, tracks.Keys, score);
      choice := best;
      if best.Some? {
        t := tracks[best.value];
        HearOn(best.value, e);
      } else {
        t := new EmitterTrack(Born(newId, e));
        Insert(t);
      }
    }

    method HearOn(id: string, e: Event)
      requires Valid() && id in tracks
      modifies this`live, tracks[id]
      ensures Valid() && live == old(live)[id := Heard(old(live[id]), e)]
    {
      var t := tracks[id];
      t.Update(e.freq, e.power, e.node, e.trust, e.time);
      if t.data.upstream.Some? && t.data.upstream != e.upstream { t.data := t.data.(upstream := None); }
      live := live[id := t.data];
    }

    method Rehydrate(r: Track) returns (t: EmitterTrack)
      requires Valid() && r.id !in live
      modifies this`ids, this`tracks, this`objects, this`live, this`born, assoc
      ensures Valid() && fresh(objects - old(objects)) && View() == AddTrack(old(View()), r)
    {
      t := new EmitterTrack(r);
      Insert(t);
    }

    method PopFromDict(id: string)
      requires Valid() && id in live
      modifies this`ids, this`tracks, this`live
      ensures Valid() && tracks == old(tracks) - {id} && live == old(live) - {id} && ids == Keep(old(ids), live.Keys)
    {
      tracks := tracks - {id};
      live := live - {id};
      KeepFacts(ids, tracks.Keys);
      ids := Keep(ids, tracks.Keys);
    }

    /** Takes a live track out of the dictionary and of the index. */
    method Pop(id: string) returns (t: EmitterTrack)
      requires Valid() && id in live
      modifies this`ids, this`tracks, this`live, assoc
      ensures Valid() && tracks == old(tracks) - {id} && t == old(tracks[id])
      ensures View() == DropTrack(old(View()), id)
    {
      t := tracks[id];
      assoc.RemoveTrack(id, t.data.freq);
      PopFromDict(id);
    }

    /** The delete route: reports a missing track instead of failing. */
    method Delete(id: string) returns (found: bool)
      requires Valid()
      modifies this`ids, this`tracks, this`live, assoc
      ensures Valid() && found == (id in old(live))
      ensures View() == if found then DropTrack(old(View()), id) else old(View())
    {
      found := id in tracks;
      if found { var _ := Pop(id); }
    }

    /** Merges track `b` into track `a` and takes it out of the dictionary; the index keeps its entry. */
    method JoinPair(a: string, b: string, ghost all: seq<string>)
      requires Valid() && a in live && b in live && a != b && ids == Keep(all, live.Keys)
      modifies this`ids, this`tracks, this`live, tracks[a]
      ensures Valid() && live == old(live)[a := Join(old(live)[a], old(live)[b])] - {b}
      ensures ids == Keep(all, live.Keys) && tracks == old(tracks) - {b}
    {
      var keep := tracks[a];
      keep.JoinTrack(tracks[b]);
      live := live[a := keep.data];
      PopFromDict(b);
      KeepTwice(all, old(live.Keys), live.Keys);
    }

    // -------------------------------------------------------------- ageing

    method AgeOne(id: string, now: int) returns (archive: bool)
      requires Valid() && id in live
      modifies this`live, tracks[id]
      ensures Valid() && live == old(live)[id := Aged(old(live[id]), now)]
      ensures archive == (now - old(live[id]).lastSeen > 86400000000000)
    {
      var t := tracks[id];
      var age := now - t.data.lastSeen;
      archive := false;
      if age > ARCHIVE_AFTER_NS {
        archive := true;
      } else if age > LOSE_AFTER_NS && t.data.stage != Lost {
        t.data := t.data.(stage := Lost);
      } else if age > COAST_AFTER_NS && t.data.stage == Stable {
        t.data := t.data.(stage := Coasting);
      }
      live := live[id := t.data];
    }

    /** The first loop of the ageing pass: stages change, nothing is removed yet. */
    method AgeStages(now: int) returns (toArchive: seq<string>)
      requires Valid()
      modifies this`live, objects
      ensures Valid() && Ageing(live, toArchive) == AgePass(old(Ageing(live, [])), ids, now)
    {
      ghost var start := Ageing(live, []);
      toArchive := [];
      for i := 0 to |ids|
        invariant Valid() && live.Keys == start.live.Keys
        invariant AgePass(Ageing(live, toArchive), ids[i..], now) == AgePass(start, ids, now)
      {
        AgePassStep(Ageing(live, toArchive), ids, i, now);
        var archive := AgeOne(ids[i], now);
        if archive { toArchive := toArchive + [ids[i]]; }
      }
    }

    method ArchiveOne(id: string)
      requires Valid()
      modifies this`ids, this`tracks, this`live, this`archived, assoc
      ensures Valid() && tracks == old(tracks) - {id}
      ensures View() == if id in old(live) then DropTrack(old(View()), id) else old(View())
      ensures archived + tracks == old(archived + tracks)
    {
      if id in tracks {
        MoveAcross(archived, tracks, id);
        var t := Pop(id);
        archived := archived[id := t];
      } else {
        assert tracks - {id} == tracks;
      }
    }

    /** The second loop of the ageing pass. */
    method ArchiveAll(toArchive: seq<string>)
      requires Valid()
      modifies this`ids, this`tracks, this`live, this`archived, assoc
      ensures Valid() && View() == DropAll(old(View()), toArchive)
      ensures archived + tracks == old(archived + tracks)
    {
      ghost var s0 := View();
      for i := 0 to |toArchive|
        invariant Valid() && archived + tracks == old(archived + tracks)
        invariant DropAll(View(), toArchive[i..]) == DropAll(s0, toArchive)
      {
        DropAllStep(View(), toArchive, i);
        ArchiveOne(toArchive[i]);
      }
    }

    /** Coasts, loses and archives tracks by their age. */
    method AgeTracks(now: int)
      requires Valid()
      modifies this`ids, this`tracks, this`live, this`archived, assoc, objects
      ensures Valid() && View() == AgeAll(old(View()), now)
      ensures archived + tracks == old(archived + tracks)
    {
      AgeAllIsPass(View(), now);
      var toArchive := AgeStages(now);
      ArchiveAll(toArchive);
    }

    // -------------------------------------------------------------- merging duplicates

    /** The outer loop's track: live under its own name, or gone and held by nobody else. */
    ghost predicate Held(head: EmitterTrack)
      reads this, head
    {
      && head in objects
      && (head.data.id in tracks ==> tracks[head.data.id] == head)
      && (forall id :: id in tracks && id != head.data.id ==> tracks[id] != head)
    }

    /** One step of the inner loop.  `head` is the outer loop's track, which may be gone already. */
    method MergeOne(tol: Tolerance, head: EmitterTrack, b: string)
      requires Valid() && Held(head) && b != head.data.id
      modifies this`ids, this`tracks, this`live, assoc, objects
      ensures Valid() && Held(head) && head.data.id == old(head.data.id)
      ensures tracks.Keys <= old(tracks).Keys && forall id :: id in tracks ==> tracks[id] == old(tracks)[id]
      ensures Merging(live, assoc.index, head.data) == MergeStep(tol, old(Merging(live, assoc.index, head.data)), b)
      ensures ids == Keep(old(ids), live.Keys)
    {
      if b !in tracks || !Similar(tol, head.data, tracks[b].data) {
        KeepAll(ids, live.Keys);
        return;
      }
      if head.data.firstSeen <= tracks[b].data.firstSeen {
        AbsorbInto(head, tracks[b]);
        var _ := Pop(b);
      } else {
        AbsorbInto(tracks[b], head);
        PopHead(head);
      }
    }

    /** Takes the outer loop's track away, which may be gone already. */
    method PopHead(head: EmitterTrack)
      requires Valid() && Held(head)
      modifies this`ids, this`tracks, this`live, assoc
      ensures Valid() && tracks == old(tracks) - {head.data.id}
      ensures live == old(live) - {head.data.id} && ids == Keep(old(ids), live.Keys)
      ensures assoc.index == RemoveFrom(old(assoc.index), Bucket(head.data.freq), head.data.id)
    {
      var id := head.data.id;
      if id in tracks {
        PopFromDict(id);
      } else {
        KeepAll(ids, live.Keys);
        assert tracks - {id} == tracks && live - {id} == live;
      }
      assoc.RemoveTrack(id, head.data.freq);
    }

    /** Merges one track into another, live or not. */
    method AbsorbInto(p: EmitterTrack, s: EmitterTrack)
      requires Valid() && p != s && Held(p)
      modifies this`live, p
      ensures Valid() && p.data == Absorb(old(p.data), s.data)
      ensures live == if p.data.id in old(live) then old(live)[p.data.id := p.data] else old(live)
    {
      p.AbsorbTrack(s);
      if p.data.id in tracks { live := live[p.data.id := p.data]; }
    }

    /** The inner loop over the tracks listed after `head`. */
    method MergeWith(tol: Tolerance, head: EmitterTrack, rest: seq<string>)
      requires Valid() && Held(head) && head.data.id !in rest
      modifies this`ids, this`tracks, this`live, assoc, objects
      ensures Valid()
      ensures tracks.Keys <= old(tracks).Keys && forall id :: id in tracks ==> tracks[id] == old(tracks)[id]
      ensures var m := MergePass(tol, old(Merging(live, assoc.index, head.data)), rest);
              live == m.live && assoc.index == m.index
      ensures ids == Keep(old(ids), live.Keys)
    {
      ghost var t0, ids0, m0 := tracks, ids, Merging(live, assoc.index, head.data);
      KeepAll(ids, live.Keys);
      for i := 0 to |rest|
        invariant Valid() && Held(head) && head.data.id == m0.head.id
        invariant tracks.Keys <= t0.Keys && forall id :: id in tracks ==> tracks[id] == t0[id]
        invariant MergePass(tol, Merging(live, assoc.index, head.data), rest[i..]) == MergePass(tol, m0, rest)
        invariant ids == Keep(ids0, live.Keys)
      {
        PassStep(tol, Merging(live, assoc.index, head.data), rest, i);
        ghost var before := live.Keys;
        MergeOne(tol, head, rest[i]);
        KeepTwice(ids0, before, live.Keys);
      }
    }

    /** Merges tracks of nearly the same frequency seen at nearly the same time. */
    method MergeDuplicateTracks(tol: Tolerance)
      requires Valid()
      modifies this`ids, this`tracks, this`live, assoc, objects
      ensures Valid() && View() == MergeDuplicates(old(View()), tol)
    {
      KeepAll(ids, live.Keys);
      MergeTurns(tol, ids);
    }

    /** The outer loop. */
    method MergeTurns(tol: Tolerance, all: seq<string>)
      requires Valid() && NoRepeats(all) && ids == Keep(all, live.Keys)
      modifies this`ids, this`tracks, this`live, assoc, objects
      ensures Valid() && ids == Keep(all, live.Keys)
      ensures Merged(live, assoc.index) == MergeAll(tol, old(live), old(assoc.index), all)
    {
      ghost var goal := MergeFrom(tol, Merged(live, assoc.index), all, 0);
      AllEnds(tol, Merged(live, assoc.index), all);
      for i := 0 to |all|
        invariant Valid() && ids == Keep(all, live.Keys)
        invariant MergeFrom(tol, Merged(live, assoc.index), all, i) == goal
      {
        AllStep(tol, Merged(live, assoc.index), all, i);
        MergeOuter(tol, all, i);
      }
      AllEnds(tol, Merged(live, assoc.index), all);
    }

    /** One turn of the outer loop. */
    method MergeOuter(tol: Tolerance, all: seq<string>, i: nat)
      requires Valid() && NoRepeats(all) && i < |all| && ids == Keep(all, live.Keys)
      modifies this`ids, this`tracks, this`live, assoc, objects
      ensures Valid() && ids == Keep(all, live.Keys)
      ensures Merged(live, assoc.index) == MergeTurn(tol, old(Merged(live, assoc.index)), all, i)
    {
      if all[i] in tracks {
        var head := tracks[all[i]];
        assert Held(head);
        MergeWith(tol, head, all[i + 1..]);
        KeepTwice(all, old(live.Keys), live.Keys);
      }
    }
  }

  lemma MoveAcross<V>(a: map<string, V>, b: map<string, V>, id: string)
    requires id in b
    ensures a[id := b[id]] + (b - {id}) == a + b
  {
  }

  /** What the first loop of the ageing pass has done: aged tracks, and the names to archive. */
  datatype Ageing = Ageing(live: map<string, Track>, toArchive: seq<string>)

  ghost function AgeStep(a: Ageing, id: string, now: int): Ageing {
    if id !in a.live then a else
    Ageing(a.live[id := Aged(a.live[id], now)], if Archivable(a.live[id], now) then a.toArchive + [id] else a.toArchive)
  }

  ghost function AgePass(a: Ageing, ids: seq<string>, now: int): Ageing
    decreases ids
  {
    if ids == [] then a else AgePass(AgeStep(a, ids[0], now), ids[1..], now)
  }

  lemma AgePassStep(a: Ageing, ids: seq<string>, i: nat, now: int)
    requires i < |ids|
    ensures AgePass(a, ids[i..], now) == AgePass(AgeStep(a, ids[i], now), ids[i + 1..], now)
  {
    assert ids[i..][0] == ids[i] && ids[i..][1..] == ids[i + 1..];
  }

  lemma {:induction false} AgePassSnoc(a: Ageing, ids: seq<string>, last: string, now: int)
    ensures AgePass(a, ids + [last], now) == AgeStep(AgePass(a, ids, now), last, now)
    decreases ids
  {
    if ids == [] {
      assert [] + [last] == [last];
    } else {
      AgePassSnoc(AgeStep(a, ids[0], now), ids[1..], last, now);
      assert (ids + [last])[1..] == ids[1..] + [last];
    }
  }

  ghost function AgedIn(ids: seq<string>, live: map<string, Track>, now: int): map<string, Track> {
    map id | id in live :: if id in ids then Aged(live[id], now) else live[id]
  }

  lemma AgedOneMore(front: seq<string>, last: string, live: map<string, Track>, now: int)
    requires last !in front && last in live
    ensures AgedIn(front + [last], live, now) == AgedIn(front, live, now)[last := Aged(live[last], now)]
  {
  }

  lemma {:induction false} AgePassMeans(ids: seq<string>, live: map<string, Track>, now: int)
    requires NoRepeats(ids) && forall id :: id in ids ==> id in live
    ensures AgePass(Ageing(live, []), ids, now) ==
            Ageing(AgedIn(ids, live, now), ToArchive(ids, live, now))
  {
    if ids != [] {
      var front, last := ids[..|ids| - 1], ids[|ids| - 1];
      assert ids == front + [last] && last !in front;
      AgePassMeans(front, live, now);
      AgePassSnoc(Ageing(live, []), front, last, now);
      AgedOneMore(front, last, live, now);
    } else {
      assert AgedIn([], live, now) == live;
    }
  }

  lemma AgeAllIsPass(s: State, now: int)
    requires NoRepeats(s.ids) && forall id :: id in s.ids <==> id in s.live
    ensures var a := AgePass(Ageing(s.live, []), s.ids, now);
            AgeAll(s, now) == DropAll(s.(live := a.live), a.toArchive)
  {
    AgePassMeans(s.ids, s.live, now);
    assert AgedIn(s.ids, s.live, now) == map id | id in s.live :: Aged(s.live[id], now);
  }

  lemma DropAllStep(s: State, ids: seq<string>, i: nat)
    requires i < |ids|
    ensures DropAll(s, ids[i..]) == DropAll(if ids[i] in s.live then DropTrack(s, ids[i]) else s, ids[i + 1..])
  {
    assert ids[i..][0] == ids[i] && ids[i..][1..] == ids[i + 1..];
  }

  lemma PassStep(tol: Tolerance, m: Merging, rest: seq<string>, i: nat)
    requires i < |rest|
    ensures MergePass(tol, m, rest[i..]) == MergePass(tol, MergeStep(tol, m, rest[i]), rest[i + 1..])
  {
    assert rest[i..][0] == rest[i] && rest[i..][1..] == rest[i + 1..];
  }

  /** One turn of the outer loop over `ids`. */
  ghost function MergeTurn(tol: Tolerance, s: Merged, ids: seq<string>, i: nat): Merged
    requires i < |ids|
  {
    if ids[i] !in s.live then s else
    var m := MergePass(tol, Merging(s.live, s.index, s.live[ids[i]]), ids[i + 1..]);
    Merged(m.live, m.index)
  }

  ghost function MergeFrom(tol: Tolerance, s: Merged, ids: seq<string>, i: nat): Merged
    requires i <= |ids|
  {
    MergeAll(tol, s.live, s.index, ids[i..])
  }

  lemma AllEnds(tol: Tolerance, s: Merged, ids: seq<string>)
    ensures MergeFrom(tol, s, ids, 0) == MergeAll(tol, s.live, s.index, ids) && MergeFrom(tol, s, ids, |ids|) == s
  {
    assert ids[0..] == ids && ids[|ids|..] == [];
  }

  lemma AllStep(tol: Tolerance, s: Merged, ids: seq<string>, i: nat)
    requires i < |ids|
    ensures MergeFrom(tol, s, ids, i) == MergeFrom(tol, MergeTurn(tol, s, ids, i), ids, i + 1)
  {
    assert ids[i..][0] == ids[i] && ids[i..][1..] == ids[i + 1..];
  }

  lemma {:induction false} KeepAll(ids: seq<string>, live: set<string>)
    requires forall id :: id in ids ==> id in live
    ensures Keep(ids, live) == ids
  {
    if ids != [] {
      assert ids[|ids| - 1] in ids;
      KeepAll(ids[..|ids| - 1], live);
    }
  }

  lemma {:induction false} KeepTwice(ids: seq<string>, some: set<string>, fewer: set<string>)
    requires fewer <= some
    ensures Keep(Keep(ids, some), fewer) == Keep(ids, fewer)
  {
    if ids != [] {
      var front, last := ids[..|ids| - 1], ids[|ids| - 1];
      KeepTwice(front, some, fewer);
      if last in some { assert (Keep(front, some) + [last])[..|Keep(front, some)|] == Keep(front, some); }
    }
  }
}
