/** What `TrackManager.merge_duplicates` (backend/fusion/track_manager.py) does to observation
    counts, over an arbitrary similarity and first-seen time.

    The outer loop fixes a track, the inner loop merges every later similar one with it, keeping the
    older of the two.  When the outer track itself is the younger one it is merged away, but the
    inner loop goes on using it.  Similarity and first-seen times do not change while merging, so
    whether that ever does harm is settled before the call: `Safe` says when, and the counts are
    conserved for every choice of counts exactly then. */
module MergeCore {
  import opened Seqs

  datatype Core = Core(alive: set<string>, weight: map<string, nat>)

  /** Static data of one call: which pairs are similar, and how old each track is. */
  datatype Facts = Facts(similar: (string, string) -> bool, first: string -> int)

  function W(c: Core, id: string): nat { if id in c.weight then c.weight[id] else 0 }

  /** The inner loop body, for outer track `a` and inner track `b`. */
  function MergePair(f: Facts, c: Core, a: string, b: string): Core {
    if b !in c.alive || !f.similar(a, b) then c
    else if f.first(a) <= f.first(b) then Core(c.alive - {b}, c.weight[a := W(c, a) + W(c, b)])
    else Core(c.alive - {a}, c.weight[b := W(c, b) + W(c, a)])
  }

  function Inner(f: Facts, c: Core, a: string, rest: seq<string>): Core
    decreases rest
  {
    if rest == [] then c else Inner(f, MergePair(f, c, a, rest[0]), a, rest[1..])
  }

  function Outer(f: Facts, c: Core, ids: seq<string>): Core
    decreases ids
  {
    if ids == [] then c
    else Outer(f, if ids[0] in c.alive then Inner(f, c, ids[0], ids[1..]) else c, ids[1..])
  }

  /** Two later tracks similar to `a`, the earlier of them older than `a`: the first merge takes `a`
      away, and the second one uses it all the same. */
  ghost predicate Hazard(f: Facts, alive: set<string>, a: string, rest: seq<string>) {
    exists j, k :: 0 <= j < k < |rest| && rest[j] in alive && rest[k] in alive &&
      f.similar(a, rest[j]) && f.similar(a, rest[k]) && f.first(rest[j]) < f.first(a)
  }

  /** No pass of the outer loop meets a hazard among the tracks still there. */
  ghost predicate Safe(f: Facts, c: Core, ids: seq<string>)
    decreases ids
  {
    ids == [] ||
    if ids[0] in c.alive
    then !Hazard(f, c.alive, ids[0], ids[1..]) && Safe(f, Inner(f, c, ids[0], ids[1..]), ids[1..])
    else Safe(f, c, ids[1..])
  }

  // ---------------------------------------------------------------- totals

  function Share(c: Core, id: string): nat { if id in c.alive then W(c, id) else 0 }

  /** Observations held by the tracks still there. */
  function Total(c: Core, ids: seq<string>): nat {
    if ids == [] then 0 else Share(c, ids[0]) + Total(c, ids[1..])
  }

  lemma {:induction false} TotalChange(c: Core, c': Core, ids: seq<string>, p: string, s: string)
    requires NoRepeats(ids) && p != s
    requires forall id :: id in ids && id != p && id != s ==> Share(c', id) == Share(c, id)
    ensures Total(c', ids) - Total(c, ids) ==
            (if p in ids then Share(c', p) - Share(c, p) else 0) + (if s in ids then Share(c', s) - Share(c, s) else 0)
  {
    if ids != [] {
      assert ids == [ids[0]] + ids[1..];
      forall id | id in ids[1..] ensures id in ids && id != ids[0] {}
      TotalChange(c, c', ids[1..], p, s);
    }
  }

  lemma {:induction false} TotalAtLeast(c: Core, ids: seq<string>, p: string, q: string)
    requires NoRepeats(ids) && p in ids && q in ids && p != q
    ensures Total(c, ids) >= Share(c, p) + Share(c, q)
  {
    var none := Core(c.alive - {p, q}, c.weight);
    TotalChange(none, c, ids, p, q);
  }

  lemma {:induction false} TotalZero(c: Core, ids: seq<string>)
    requires forall id :: id in ids ==> Share(c, id) == 0
    ensures Total(c, ids) == 0
  {
    if ids != [] { TotalZero(c, ids[1..]); }
  }

  // ---------------------------------------------------------------- harmless passes

  /** While the outer track is there, one merge moves counts and loses none. */
  lemma PairConserves(f: Facts, c: Core, ids: seq<string>, a: string, b: string)
    requires NoRepeats(ids) && a in ids && b in ids && a != b
    requires a in c.alive || b !in c.alive || !f.similar(a, b)
    ensures Total(MergePair(f, c, a, b), ids) == Total(c, ids)
  {
    TotalChange(c, MergePair(f, c, a, b), ids, a, b);
  }

  lemma HazardOfTail(f: Facts, alive: set<string>, alive': set<string>, a: string, rest: seq<string>)
    requires alive' <= alive && rest != []
    ensures Hazard(f, alive', a, rest[1..]) ==> Hazard(f, alive, a, rest)
  {
    var tail := rest[1..];
    if Hazard(f, alive', a, tail) {
      var j, k :| 0 <= j < k < |tail| && tail[j] in alive' && tail[k] in alive' &&
        f.similar(a, tail[j]) && f.similar(a, tail[k]) && f.first(tail[j]) < f.first(a);
      assert rest[j + 1] == tail[j] && rest[k + 1] == tail[k];
    }
  }

  lemma {:induction false} PassConserves(f: Facts, c: Core, ids: seq<string>, a: string, rest: seq<string>)
    requires NoRepeats(ids) && a in ids && a !in rest && forall id :: id in rest ==> id in ids
    requires NoRepeats(rest)
    requires if a in c.alive then !Hazard(f, c.alive, a, rest)
             else forall k :: 0 <= k < |rest| && rest[k] in c.alive ==> !f.similar(a, rest[k])
    ensures Total(Inner(f, c, a, rest), ids) == Total(c, ids)
    decreases rest
  {
    if rest != [] {
      var b, tail := rest[0], rest[1..];
      var c' := MergePair(f, c, a, b);
      PairConserves(f, c, ids, a, b);
      forall id | id in tail ensures id in rest && id != b {}
      if a in c.alive {
        if a in c'.alive {
          HazardOfTail(f, c.alive, c'.alive, a, rest);
        } else {
          forall k | 0 <= k < |tail| && tail[k] in c'.alive ensures !f.similar(a, tail[k]) {
            assert rest[0] == b && rest[k + 1] == tail[k];
          }
        }
      }
      PassConserves(f, c', ids, a, tail);
    }
  }

  // ---------------------------------------------------------------- hazards do harm

  /** The weights of a run started with a single observation, on `x`. */
  function Only(x: string): map<string, nat> { map[x := 1] }

  /** While x is there, its observation is nowhere else. */
  ghost predicate HeldBy(c: Core, x: string) {
    W(c, x) == 1 && forall y :: y != x ==> W(c, y) == 0
  }

  lemma HeldStep(f: Facts, c: Core, x: string, a: string, b: string)
    requires HeldBy(c, x) && a != b && (x == a ==> a in c.alive)
    requires x in MergePair(f, c, a, b).alive
    ensures HeldBy(MergePair(f, c, a, b), x)
  {
    forall y | y != x ensures W(MergePair(f, c, a, b), y) == 0 {
      assert W(c, y) == 0;
    }
  }

  lemma {:induction false} HeldThrough(f: Facts, c: Core, x: string, a: string, rest: seq<string>)
    requires HeldBy(c, x) && a !in rest && (x == a ==> a in c.alive)
    requires x in Inner(f, c, a, rest).alive
    ensures HeldBy(Inner(f, c, a, rest), x)
    decreases rest
  {
    if rest != [] {
      var c' := MergePair(f, c, a, rest[0]);
      AliveShrinks(f, c', a, rest[1..]);
      assert rest[0] in rest && forall id :: id in rest[1..] ==> id in rest;
      HeldStep(f, c, x, a, rest[0]);
      HeldThrough(f, c', x, a, rest[1..]);
    }
  }

  lemma {:induction false} AliveShrinks(f: Facts, c: Core, a: string, rest: seq<string>)
    ensures Inner(f, c, a, rest).alive <= c.alive
    decreases rest
  {
    if rest != [] { AliveShrinks(f, MergePair(f, c, a, rest[0]), a, rest[1..]); }
  }

  /** Tracks not met again in the pass keep what they hold. */
  lemma {:induction false} UntouchedStays(f: Facts, c: Core, a: string, rest: seq<string>, p: string)
    requires p !in rest && p != a
    ensures var r := Inner(f, c, a, rest); (p in r.alive <==> p in c.alive) && W(r, p) == W(c, p)
    decreases rest
  {
    if rest != [] {
      assert rest[0] in rest && forall id :: id in rest[1..] ==> id in rest;
      UntouchedStays(f, MergePair(f, c, a, rest[0]), a, rest[1..], p);
    }
  }

  /** Who is there after a pass does not depend on the counts. */
  lemma {:induction false} AliveIndependent(f: Facts, c: Core, d: Core, a: string, rest: seq<string>)
    requires c.alive == d.alive
    ensures Inner(f, c, a, rest).alive == Inner(f, d, a, rest).alive
    decreases rest
  {
    if rest != [] { AliveIndependent(f, MergePair(f, c, a, rest[0]), MergePair(f, d, a, rest[0]), a, rest[1..]); }
  }

  /** A track already merged away still hands its count to an older one met later. */
  lemma {:induction false} DeadGives(f: Facts, c: Core, a: string, rest: seq<string>, k: nat)
    requires a !in c.alive && a !in rest && NoRepeats(rest) && k < |rest|
    requires rest[k] in c.alive && f.similar(a, rest[k]) && f.first(rest[k]) < f.first(a) && W(c, a) >= 1
    ensures var r := Inner(f, c, a, rest); rest[k] in r.alive && W(r, rest[k]) >= 1
    decreases rest
  {
    var c' := MergePair(f, c, a, rest[0]);
    if k == 0 {
      assert rest[0] !in rest[1..];
      UntouchedStays(f, c', a, rest[1..], rest[0]);
    } else {
      assert rest[k] == rest[1..][k - 1] && rest[k] != rest[0];
      DeadGives(f, c', a, rest[1..], k - 1);
    }
  }

  /** When only younger similar tracks follow, a track already merged away swallows them. */
  lemma {:induction false} DeadTakes(f: Facts, c: Core, a: string, rest: seq<string>, y: string)
    requires a !in c.alive && a !in rest && NoRepeats(rest) && y != a
    requires forall k :: 0 <= k < |rest| && rest[k] in c.alive && f.similar(a, rest[k]) ==> f.first(a) <= f.first(rest[k])
    ensures var r := Inner(f, c, a, rest);
            W(r, y) == W(c, y) && (y in rest && f.similar(a, y) ==> y !in r.alive)
    decreases rest
  {
    if rest != [] {
      var c' := MergePair(f, c, a, rest[0]);
      forall k | 0 <= k < |rest[1..]| && rest[1..][k] in c'.alive && f.similar(a, rest[1..][k])
        ensures f.first(a) <= f.first(rest[1..][k])
      {
        assert rest[k + 1] == rest[1..][k];
      }
      DeadTakes(f, c', a, rest[1..], y);
      AliveShrinks(f, c', a, rest[1..]);
    }
  }

  /** After `a` was merged into `b`, one more similar track does harm: the observation of `a` ends
      up twice, or the observation of that track is lost. */
  lemma {:induction false} DeathBreaks(f: Facts, alive: set<string>, ids: seq<string>, a: string, b: string, rest: seq<string>)
    returns (x: string)
    requires NoRepeats(ids) && a in alive && b in alive && a != b && f.similar(a, b) && f.first(b) < f.first(a)
    requires a !in rest && b !in rest && b in ids && NoRepeats(rest) && forall id :: id in rest ==> id in ids
    requires exists k :: 0 <= k < |rest| && rest[k] in alive && f.similar(a, rest[k])
    ensures x in alive
    ensures forall w :: HeldBy(Core(alive, w), x) ==>
              Total(Inner(f, MergePair(f, Core(alive, w), a, b), a, rest), ids) != 1
  {
    if k :| 0 <= k < |rest| && rest[k] in alive && f.similar(a, rest[k]) && f.first(rest[k]) < f.first(a) {
      x := a;
      forall w | HeldBy(Core(alive, w), x)
        ensures Total(Inner(f, MergePair(f, Core(alive, w), a, b), a, rest), ids) != 1
      {
        var c' := MergePair(f, Core(alive, w), a, b);
        DeadGives(f, c', a, rest, k);
        UntouchedStays(f, c', a, rest, b);
        TotalAtLeast(Inner(f, c', a, rest), ids, b, rest[k]);
      }
    } else {
      var k :| 0 <= k < |rest| && rest[k] in alive && f.similar(a, rest[k]);
      x := rest[k];
      forall w | HeldBy(Core(alive, w), x)
        ensures Total(Inner(f, MergePair(f, Core(alive, w), a, b), a, rest), ids) != 1
      {
        var c' := MergePair(f, Core(alive, w), a, b);
        var r := Inner(f, c', a, rest);
        forall id | id in ids ensures Share(r, id) == 0 {
          assert W(Core(alive, w), a) == 0 && W(Core(alive, w), b) == 0;
          assert id == x || W(Core(alive, w), id) == 0;
          if id == a { AliveShrinks(f, c', a, rest); } else { DeadTakes(f, c', a, rest, id); }
        }
        TotalZero(r, ids);
      }
    }
  }

  /** A pass with a hazard: some observation does not end up in exactly one place. */
  lemma {:induction false} HazardBreaks(f: Facts, alive: set<string>, ids: seq<string>, a: string, rest: seq<string>)
    returns (x: string)
    requires NoRepeats(ids) && a in alive && a !in rest && NoRepeats(rest) && forall id :: id in rest ==> id in ids
    requires Hazard(f, alive, a, rest)
    ensures x in alive
    ensures forall w :: HeldBy(Core(alive, w), x) ==> Total(Inner(f, Core(alive, w), a, rest), ids) != 1
    decreases rest
  {
    var b, tail := rest[0], rest[1..];
    var j, k :| 0 <= j < k < |rest| && rest[j] in alive && rest[k] in alive &&
      f.similar(a, rest[j]) && f.similar(a, rest[k]) && f.first(rest[j]) < f.first(a);
    assert b in rest && tail[k - 1] == rest[k] && forall id :: id in tail ==> id in rest && id != b;
    if b in alive && f.similar(a, b) && f.first(b) < f.first(a) {
      x := DeathBreaks(f, alive, ids, a, b, tail);
    } else {
      assert j > 0 && tail[j - 1] == rest[j];
      var alive' := MergePair(f, Core(alive, map[]), a, b).alive;
      assert Hazard(f, alive', a, tail);
      x := HazardBreaks(f, alive', ids, a, tail);
      forall w | HeldBy(Core(alive, w), x) ensures Total(Inner(f, Core(alive, w), a, rest), ids) != 1 {
        var c' := MergePair(f, Core(alive, w), a, b);
        assert c'.alive == alive';
        HeldStep(f, Core(alive, w), x, a, b);
        assert c' == Core(alive', c'.weight);
      }
    }
  }

  // ---------------------------------------------------------------- the whole call

  ghost predicate SuffixOf(rest: seq<string>, ids: seq<string>) {
    NoRepeats(rest) && forall id :: id in rest ==> id in ids
  }

  lemma {:induction false} SafeConserves(f: Facts, c: Core, ids: seq<string>, rest: seq<string>)
    requires NoRepeats(ids) && SuffixOf(rest, ids) && Safe(f, c, rest)
    ensures Total(Outer(f, c, rest), ids) == Total(c, ids)
    decreases rest
  {
    if rest != [] {
      var a, tail := rest[0], rest[1..];
      assert a in rest && a !in tail && forall id :: id in tail ==> id in rest;
      if a in c.alive {
        PassConserves(f, c, ids, a, tail);
        SafeConserves(f, Inner(f, c, a, tail), ids, tail);
      } else {
        SafeConserves(f, c, ids, tail);
      }
    }
  }

  /** Safety only looks at who is there. */
  lemma {:induction false} SafeIndependent(f: Facts, c: Core, d: Core, ids: seq<string>)
    requires c.alive == d.alive
    ensures Safe(f, c, ids) == Safe(f, d, ids)
    decreases ids
  {
    if ids != [] {
      if ids[0] in c.alive {
        AliveIndependent(f, c, d, ids[0], ids[1..]);
        SafeIndependent(f, Inner(f, c, ids[0], ids[1..]), Inner(f, d, ids[0], ids[1..]), ids[1..]);
      } else {
        SafeIndependent(f, c, d, ids[1..]);
      }
    }
  }

  lemma {:induction false} UnsafeBreaks(f: Facts, alive: set<string>, ids: seq<string>, rest: seq<string>) returns (x: string)
    requires NoRepeats(ids) && SuffixOf(rest, ids) && !Safe(f, Core(alive, map[]), rest)
    ensures x in alive
    ensures forall w :: HeldBy(Core(alive, w), x) ==> Total(Outer(f, Core(alive, w), rest), ids) != 1
    decreases rest
  {
    var a, tail := rest[0], rest[1..];
    assert a in rest && a !in tail && forall id :: id in tail ==> id in rest;
    if a !in alive {
      x := UnsafeBreaks(f, alive, ids, tail);
    } else {
      var alive' := Inner(f, Core(alive, map[]), a, tail).alive;
      SafeIndependent(f, Inner(f, Core(alive, map[]), a, tail), Core(alive', map[]), tail);
      if !Safe(f, Core(alive', map[]), tail) {
        x := UnsafeBreaks(f, alive', ids, tail);
        AliveShrinks(f, Core(alive, map[]), a, tail);
        forall w | HeldBy(Core(alive, w), x) ensures Total(Outer(f, Core(alive, w), rest), ids) != 1 {
          var c := Inner(f, Core(alive, w), a, tail);
          AliveIndependent(f, Core(alive, w), Core(alive, map[]), a, tail);
          HeldThrough(f, Core(alive, w), x, a, tail);
          assert c == Core(alive', c.weight);
        }
      } else {
        x := HazardBreaks(f, alive, ids, a, tail);
        forall w | HeldBy(Core(alive, w), x) ensures Total(Outer(f, Core(alive, w), rest), ids) != 1 {
          var c := Inner(f, Core(alive, w), a, tail);
          AliveIndependent(f, Core(alive, w), Core(alive, map[]), a, tail);
          SafeIndependent(f, c, Core(alive', map[]), tail);
          SafeConserves(f, c, ids, tail);
        }
      }
    }
  }

  ghost function SetOf(ids: seq<string>): set<string> { set id | id in ids }

  ghost predicate ConservesAll(f: Facts, ids: seq<string>) {
    forall w :: Total(Outer(f, Core(SetOf(ids), w), ids), ids) == Total(Core(SetOf(ids), w), ids)
  }

  /** Counts that tracks can have: each was observed at least once. */
  ghost predicate Observed(w: map<string, nat>, alive: set<string>) {
    w.Keys == alive && forall id :: id in w ==> w[id] >= 1
  }

  ghost predicate ConservesObserved(f: Facts, ids: seq<string>) {
    forall w :: Observed(w, SetOf(ids)) ==>
      Total(Outer(f, Core(SetOf(ids), w), ids), ids) == Total(Core(SetOf(ids), w), ids)
  }

  /** The call conserves observations, whatever the tracks' counts are, exactly when it is safe; and
      when it is not, some counts of at least one each are not conserved. */
  lemma MergeConservesIffSafe(f: Facts, ids: seq<string>)
    requires NoRepeats(ids)
    ensures ConservesAll(f, ids) <==> Safe(f, Core(SetOf(ids), map[]), ids)
    ensures ConservesObserved(f, ids) <==> Safe(f, Core(SetOf(ids), map[]), ids)
  {
    var alive := SetOf(ids);
    if Safe(f, Core(alive, map[]), ids) {
      forall w ensures Total(Outer(f, Core(alive, w), ids), ids) == Total(Core(alive, w), ids) {
        SafeIndependent(f, Core(alive, w), Core(alive, map[]), ids);
        SafeConserves(f, Core(alive, w), ids, ids);
      }
    } else {
      var w := UnsafeLoses(f, ids);
    }
  }

  /** Every track observed once. */
  ghost function OneEach(alive: set<string>): map<string, nat> { map id | id in alive :: 1 }

  /** Counts of at least one that an unsafe call does not conserve: one each, or one each and a
      second one of the observation the hazard loses or doubles. */
  lemma UnsafeLoses(f: Facts, ids: seq<string>) returns (w: map<string, nat>)
    requires NoRepeats(ids) && !Safe(f, Core(SetOf(ids), map[]), ids)
    ensures Observed(w, SetOf(ids))
    ensures Total(Outer(f, Core(SetOf(ids), w), ids), ids) != Total(Core(SetOf(ids), w), ids)
  {
    var alive := SetOf(ids);
    var x := UnsafeBreaks(f, alive, ids, ids);
    var one, once := Core(alive, Only(x)), Core(alive, OneEach(alive));
    var twice := Core(alive, OneEach(alive)[x := 2]);
    assert HeldBy(one, x);
    TotalOnly(one, ids, x);
    forall id ensures W(twice, id) == W(once, id) + W(one, id) {
      if id == x { assert x in SetOf(ids); }
    }
    OuterAdds(f, once, one, twice, ids);
    TotalAdds(Outer(f, once, ids), Outer(f, one, ids), Outer(f, twice, ids), ids);
    TotalAdds(once, one, twice, ids);
    w := if Total(Outer(f, once, ids), ids) != Total(once, ids) then once.weight else twice.weight;
  }

  // ---------------------------------------------------------------- counts add up

  /** The same tracks, with the counts of c and d together. */
  ghost predicate Adds(c: Core, d: Core, e: Core) {
    c.alive == d.alive == e.alive && forall id :: W(e, id) == W(c, id) + W(d, id)
  }

  lemma MovesTo(c: Core, c': Core, p: string, s: string)
    requires c'.weight == c.weight[p := W(c, p) + W(c, s)]
    ensures forall id :: W(c', id) == if id == p then W(c, p) + W(c, s) else W(c, id)
  {
  }

  lemma PairAdds(f: Facts, c: Core, d: Core, e: Core, a: string, b: string)
    requires Adds(c, d, e)
    ensures Adds(MergePair(f, c, a, b), MergePair(f, d, a, b), MergePair(f, e, a, b))
  {
    var c', d', e' := MergePair(f, c, a, b), MergePair(f, d, a, b), MergePair(f, e, a, b);
    if b in c.alive && f.similar(a, b) {
      var p, s := if f.first(a) <= f.first(b) then a else b, if f.first(a) <= f.first(b) then b else a;
      MovesTo(c, c', p, s);
      MovesTo(d, d', p, s);
      MovesTo(e, e', p, s);
      forall id ensures W(e', id) == W(c', id) + W(d', id) { assert W(e, id) == W(c, id) + W(d, id); }
    }
  }

  lemma {:induction false} InnerAdds(f: Facts, c: Core, d: Core, e: Core, a: string, rest: seq<string>)
    requires Adds(c, d, e)
    ensures Adds(Inner(f, c, a, rest), Inner(f, d, a, rest), Inner(f, e, a, rest))
    decreases rest
  {
    if rest != [] {
      PairAdds(f, c, d, e, a, rest[0]);
      InnerAdds(f, MergePair(f, c, a, rest[0]), MergePair(f, d, a, rest[0]), MergePair(f, e, a, rest[0]), a, rest[1..]);
    }
  }

  lemma {:induction false} OuterAdds(f: Facts, c: Core, d: Core, e: Core, ids: seq<string>)
    requires Adds(c, d, e)
    ensures Adds(Outer(f, c, ids), Outer(f, d, ids), Outer(f, e, ids))
    decreases ids
  {
    if ids != [] {
      if ids[0] in c.alive {
        InnerAdds(f, c, d, e, ids[0], ids[1..]);
        OuterAdds(f, Inner(f, c, ids[0], ids[1..]), Inner(f, d, ids[0], ids[1..]), Inner(f, e, ids[0], ids[1..]), ids[1..]);
      } else {
        OuterAdds(f, c, d, e, ids[1..]);
      }
    }
  }

  lemma {:induction false} TotalAdds(c: Core, d: Core, e: Core, ids: seq<string>)
    requires Adds(c, d, e)
    ensures Total(e, ids) == Total(c, ids) + Total(d, ids)
  {
    if ids != [] { TotalAdds(c, d, e, ids[1..]); }
  }

  lemma {:induction false} TotalOnly(c: Core, ids: seq<string>, x: string)
    requires NoRepeats(ids) && x in ids && x in c.alive && HeldBy(c, x)
    ensures Total(c, ids) == 1
  {
    if ids[0] == x {
      assert x !in ids[1..];
      TotalZero(c, ids[1..]);
    } else {
      TotalOnly(c, ids[1..], x);
    }
  }

  /** Tracks listed in first-seen order are always safe. */
  lemma {:induction false} InOrderIsSafe(f: Facts, c: Core, ids: seq<string>)
    requires forall i, j :: 0 <= i < j < |ids| ==> f.first(ids[i]) <= f.first(ids[j])
    ensures Safe(f, c, ids)
    decreases ids
  {
    if ids != [] {
      forall j | 0 <= j < |ids[1..]| ensures f.first(ids[0]) <= f.first(ids[1..][j]) { assert ids[j + 1] == ids[1..][j]; }
      InOrderIsSafe(f, Inner(f, c, ids[0], ids[1..]), ids[1..]);
      InOrderIsSafe(f, c, ids[1..]);
    }
  }

  /** Three similar tracks, the middle one the oldest.  The first is merged into it and used all the
      same: if the third is no older than the first, the third's observations are lost, and else the
      first's are counted twice. */
  lemma MiddleOldestIsUnsafe(f: Facts, x: nat, y: nat, z: nat)
    requires f.similar("a", "b") && f.similar("a", "c") && f.first("b") < f.first("a")
    ensures !Safe(f, Core({"a", "b", "c"}, map[]), ["a", "b", "c"])
    ensures var c := Core({"a", "b", "c"}, map["a" := x, "b" := y, "c" := z]);
            Total(c, ["a", "b", "c"]) == x + y + z &&
            Total(Outer(f, c, ["a", "b", "c"]), ["a", "b", "c"]) == if f.first("a") <= f.first("c") then x + y else 2 * x + y + z
  {
    var ids, rest := ["a", "b", "c"], ["b", "c"];
    assert ids[1..] == rest && rest[1..] == ["c"] && ["c"][1..] == [];
    assert rest[0] == "b" && rest[1] == "c";
    var c := Core({"a", "b", "c"}, map["a" := x, "b" := y, "c" := z]);
    var d := MergePair(f, c, "a", "b");
    assert d == Core({"b", "c"}, c.weight["b" := y + x]);
    var e := MergePair(f, d, "a", "c");
    assert Inner(f, c, "a", rest) == e;
    assert Outer(f, c, ids) == Outer(f, e, rest);
    assert Hazard(f, {"a", "b", "c"}, "a", rest);
    LastTwo(f, e);
    assert e == if f.first("a") <= f.first("c") then Core({"b"}, d.weight["a" := x + z]) else Core({"b", "c"}, d.weight["c" := z + x]);
    TotalOfThree(c);
    TotalOfThree(e);
  }

  /** Of the last two tracks nothing is lost. */
  lemma LastTwo(f: Facts, e: Core)
    requires "b" in e.alive && "a" !in e.alive
    ensures Total(Outer(f, e, ["b", "c"]), ["a", "b", "c"]) == Total(e, ["a", "b", "c"])
  {
    assert ["b", "c"][1..] == ["c"] && ["c"][1..] == [];
    var g := MergePair(f, e, "b", "c");
    assert Inner(f, e, "b", ["c"]) == g;
    assert Outer(f, g, ["c"]) == g;
    TotalOfThree(e);
    TotalOfThree(g);
  }

  lemma TotalOfThree(c: Core)
    ensures Total(c, ["a", "b", "c"]) == Share(c, "a") + Share(c, "b") + Share(c, "c")
  {
    assert ["a", "b", "c"][1..] == ["b", "c"] && ["b", "c"][1..] == ["c"] && ["c"][1..] == [];
    assert Total(c, ["c"]) == Share(c, "c") && Total(c, ["b", "c"]) == Share(c, "b") + Total(c, ["c"]);
  }
}
