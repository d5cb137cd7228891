/** Sensor-custody election: backend/coordination/custody_election.py.

    One election ranks the available nodes of a track, names a primary and backups, keeps an
    outgoing primary tasked through an overlap window, and lists the nodes to stand down.  Scores
    are an arbitrary real per node.  The elector caches one decision per track; the lemmas are about
    whole runs of elections on that cache. */
module Custody {
  import opened Wrappers
  import opened Arith
  import opened Seqs
  import opened Sorting

  /** An available node and the score this election gave it; 0 means not eligible. */
  datatype Candidate = Candidate(id: string, total: real)

  datatype Decision = Decision(
    track: string, decidedNs: int,
    primary: Option<string>, backups: seq<string>, tasked: seq<string>, standDown: seq<string>,
    handoverFrom: Option<string>, handoverUntil: int, scores: seq<Candidate>)

  datatype Config = Config(kTotal: nat, overlapNs: int)

  // ---------------------------------------------------------------- one election

  /** Higher score first; equal scores by node id. */
  predicate Ahead(a: Candidate, b: Candidate) {
    a.total > b.total || (a.total == b.total && LexLe(a.id, b.id))
  }

  lemma AheadIsTotalOrder()
    ensures TotalOrder(Ahead)
  {
    LexIsTotalOrder();
  }

  function Eligible(ranked: seq<Candidate>): seq<Candidate> {
    if ranked == [] then [] else
    var last := ranked[|ranked| - 1];
    Eligible(ranked[..|ranked| - 1]) + (if last.total > 0.0 then [last] else [])
  }

  function Ids(s: seq<Candidate>): (r: seq<string>)
    ensures |r| == |s| && forall i :: 0 <= i < |s| ==> r[i] == s[i].id
  {
    if s == [] then [] else Ids(s[..|s| - 1]) + [s[|s| - 1].id]
  }

  predicate Available(cs: seq<Candidate>, id: string) { exists i :: 0 <= i < |cs| && cs[i].id == id }

  function Elected(cfg: Config, cs: seq<Candidate>): seq<string> {
    var e := Eligible(Sort(Ahead, cs));
    Ids(e[..if |e| < cfg.kTotal then |e| else cfg.kTotal])
  }

  /** The node an election makes primary. */
  function Leader(cfg: Config, cs: seq<Candidate>): Option<string> {
    var elected := Elected(cfg, cs);
    if elected == [] then None else Some(elected[0])
  }

  datatype Handover = Handover(from: Option<string>, until: int)

  function HandoverOf(cfg: Config, cs: seq<Candidate>, prev: Option<Decision>, now: int, primary: Option<string>): Handover {
    if prev.Some? && prev.value.primary.Some? && prev.value.primary != primary &&
       Available(cs, prev.value.primary.value)
    then Handover(prev.value.primary, now + cfg.overlapNs)
    else if prev.Some? && prev.value.handoverFrom.Some? && prev.value.handoverFrom != primary &&
            Available(cs, prev.value.handoverFrom.value) && now < prev.value.handoverUntil
    then Handover(prev.value.handoverFrom, prev.value.handoverUntil)
    else Handover(None, 0)
  }

  /** Names kept tasked: first occurrences, leaving out the empty name. */
  function Distinct(ids: seq<string>): seq<string> {
    if ids == [] then [] else
    var front, last := Distinct(ids[..|ids| - 1]), ids[|ids| - 1];
    if last != "" && last !in front then front + [last] else front
  }

  function Missing(before: seq<string>, tasked: seq<string>): seq<string> {
    if before == [] then [] else
    var front, last := Missing(before[..|before| - 1], tasked), before[|before| - 1];
    if last !in tasked && last !in front then front + [last] else front
  }

  function Opt(o: Option<string>): seq<string> { if o.Some? then [o.value] else [] }

  function TaskedBy(prev: Option<Decision>): seq<string> { if prev.Some? then prev.value.tasked else [] }

  function ScoreLimit(cfg: Config): nat { if 2 * cfg.kTotal >= 5 then 2 * cfg.kTotal else 5 }

  function Elect(cfg: Config, track: string, cs: seq<Candidate>, prev: Option<Decision>, now: int): Decision {
    var ranked := Sort(Ahead, cs);
    var elected := Elected(cfg, cs);
    var primary := Leader(cfg, cs);
    var backups := if elected == [] then [] else elected[1..];
    var h := HandoverOf(cfg, cs, prev, now, primary);
    var tasked := Distinct(elected + Opt(h.from));
    Decision(track, now, primary, backups, tasked, Sort(LexLe, Missing(TaskedBy(prev), tasked)),
             h.from, h.until, ranked[..if |ranked| < ScoreLimit(cfg) then |ranked| else ScoreLimit(cfg)])
  }

  /** The decision depends on which nodes are available, not on the order they are listed in. */
  lemma ElectionIgnoresOrder(cfg: Config, track: string, cs: seq<Candidate>, cs': seq<Candidate>, prev: Option<Decision>, now: int)
    requires multiset(cs) == multiset(cs')
    ensures Elect(cfg, track, cs, prev, now) == Elect(cfg, track, cs', prev, now)
  {
    AheadIsTotalOrder();
    SortIgnoresOrder(Ahead, cs, cs');
    assert Elected(cfg, cs) == Elected(cfg, cs');
    HandoverIgnoresOrder(cfg, cs, cs', prev, now, Leader(cfg, cs));
  }

  lemma HandoverIgnoresOrder(cfg: Config, cs: seq<Candidate>, cs': seq<Candidate>, prev: Option<Decision>, now: int, primary: Option<string>)
    requires multiset(cs) == multiset(cs')
    ensures HandoverOf(cfg, cs, prev, now, primary) == HandoverOf(cfg, cs', prev, now, primary)
  {
    forall id ensures Available(cs, id) <==> Available(cs', id) {
      SameAvailable(cs, cs', id);
      SameAvailable(cs', cs, id);
    }
  }

  lemma SameAvailable(cs: seq<Candidate>, cs': seq<Candidate>, id: string)
    requires multiset(cs) == multiset(cs')
    ensures Available(cs, id) ==> Available(cs', id)
  {
    if Available(cs, id) {
      var i :| 0 <= i < |cs| && cs[i].id == id;
      assert cs[i] in multiset(cs');
      var j :| 0 <= j < |cs'| && cs'[j] == cs[i];
    }
  }

  // ---------------------------------------------------------------- what an election promises

  lemma {:induction false} DistinctFacts(ids: seq<string>)
    ensures NoRepeats(Distinct(ids)) && |Distinct(ids)| <= |ids|
    ensures forall x :: x in Distinct(ids) <==> x in ids && x != ""
  {
    if ids != [] {
      DistinctFacts(ids[..|ids| - 1]);
      assert ids == ids[..|ids| - 1] + [ids[|ids| - 1]];
    }
  }

  lemma {:induction false} MissingFacts(before: seq<string>, tasked: seq<string>)
    ensures NoRepeats(Missing(before, tasked))
    ensures forall x :: x in Missing(before, tasked) <==> x in before && x !in tasked
  {
    if before != [] {
      MissingFacts(before[..|before| - 1], tasked);
      assert before == before[..|before| - 1] + [before[|before| - 1]];
    }
  }

  lemma {:induction false} EligibleFacts(ranked: seq<Candidate>)
    requires Sorted(Ahead, ranked)
    ensures |Eligible(ranked)| <= |ranked|
    ensures Eligible(ranked) == ranked[..|Eligible(ranked)|]
    ensures forall i :: 0 <= i < |ranked| ==> (ranked[i].total > 0.0 <==> i < |Eligible(ranked)|)
  {
    if ranked != [] { EligibleFacts(ranked[..|ranked| - 1]); }
  }

  /** The elected nodes are the best: as many as asked for and available, each eligible, and no
      eligible candidate left out is strictly ahead of one that was taken. */
  lemma ElectsTheBest(cfg: Config, cs: seq<Candidate>)
    ensures var ranked := Sort(Ahead, cs);
            var n := |Elected(cfg, cs)|;
            && Sorted(Ahead, ranked) && multiset(ranked) == multiset(cs)
            && n <= |ranked| && n <= cfg.kTotal
            && (forall i :: 0 <= i < n ==> ranked[i].total > 0.0 && Elected(cfg, cs)[i] == ranked[i].id)
            && (n < cfg.kTotal ==> forall i :: n <= i < |ranked| ==> ranked[i].total <= 0.0)
  {
    AheadIsTotalOrder();
    SortSorts(Ahead, cs);
    EligibleFacts(Sort(Ahead, cs));
  }

  /** The kept-tasked set has no repeats, at most kTotal + 1 names, and is exactly the elected nodes
      and the outgoing primary; the stand-down list is exactly what was tasked and no longer is. */
  lemma TaskedFacts(cfg: Config, track: string, cs: seq<Candidate>, prev: Option<Decision>, now: int)
    ensures var d := Elect(cfg, track, cs, prev, now);
            && NoRepeats(d.tasked) && |d.tasked| <= cfg.kTotal + 1
            && (forall x :: x in d.tasked <==> x != "" && (Some(x) == d.primary || x in d.backups || Some(x) == d.handoverFrom))
            && NoRepeats(d.standDown) && Sorted(LexLe, d.standDown)
            && (forall x :: x in d.standDown <==> x in TaskedBy(prev) && x !in d.tasked)
  {
    var d := Elect(cfg, track, cs, prev, now);
    KeptFacts(cfg, Elected(cfg, cs), d.handoverFrom);
    ElectsTheBest(cfg, cs);
    StandDownFacts(TaskedBy(prev), d.tasked);
  }

  lemma KeptFacts(cfg: Config, elected: seq<string>, from: Option<string>)
    ensures var tasked := Distinct(elected + Opt(from));
            && NoRepeats(tasked) && |tasked| <= |elected| + 1
            && (forall x :: x in tasked <==>
                  x != "" && ((elected != [] && (x == elected[0] || x in elected[1..])) || Some(x) == from))
  {
    DistinctFacts(elected + Opt(from));
    if elected != [] { assert elected == [elected[0]] + elected[1..]; }
  }

  lemma StandDownFacts(before: seq<string>, tasked: seq<string>)
    ensures var s := Sort(LexLe, Missing(before, tasked));
            && NoRepeats(s) && Sorted(LexLe, s)
            && (forall x :: x in s <==> x in before && x !in tasked)
  {
    var m := Missing(before, tasked);
    var s := Sort(LexLe, m);
    MissingFacts(before, tasked);
    LexIsTotalOrder();
    SortSorts(LexLe, m);
    forall x ensures x in s <==> x in m { assert x in s <==> x in multiset(s); assert x in m <==> x in multiset(m); }
    SameMultisetNoRepeats(m, s);
  }

  // ---------------------------------------------------------------- who is elected, read off the nodes

  /** The better score, and of equal scores the node whose name comes first. */
  ghost predicate Beats(a: Candidate, b: Candidate) {
    a.total > b.total || (a.total == b.total && Precedes(a.id, b.id))
  }

  /** The primary is the best node of all, if any has a positive score. */
  lemma PrimaryIsBest(cfg: Config, track: string, cs: seq<Candidate>, prev: Option<Decision>, now: int)
    requires cfg.kTotal >= 1
    ensures var p := Elect(cfg, track, cs, prev, now).primary;
            && (p.None? <==> forall c :: c in cs ==> c.total <= 0.0)
            && (p.Some? ==> exists c :: c in cs && c.id == p.value && c.total > 0.0 && forall o :: o in cs ==> Beats(c, o))
  {
    var ranked := DecisionIsRanked(cfg, track, cs, prev, now);
    forall c ensures c in cs <==> c in ranked { assert c in cs <==> c in multiset(ranked); }
    if ranked != [] {
      assert ranked[0] in cs;
      forall o | o in cs ensures Beats(ranked[0], o) {
        var i :| 0 <= i < |ranked| && ranked[i] == o;
        if i == 0 { LexTotal(o.id, o.id); LexIsDictionary(o.id, o.id); }
      }
    }
  }

  /** The whole decision but its handover: the nodes ranked best first, of which the first is primary
      and the next ones are backups, in that order, as far as their scores are positive and no more
      than k in all; the recorded scores are the best 2k of the ranking, or 5 if that is more. */
  lemma DecisionIsRanked(cfg: Config, track: string, cs: seq<Candidate>, prev: Option<Decision>, now: int)
    returns (ranked: seq<Candidate>)
    requires cfg.kTotal >= 1
    ensures multiset(ranked) == multiset(cs) && forall i, j :: 0 <= i < j < |ranked| ==> Beats(ranked[i], ranked[j])
    ensures var d := Elect(cfg, track, cs, prev, now);
            && d.track == track && d.decidedNs == now
            && d.primary == (if ranked != [] && ranked[0].total > 0.0 then Some(ranked[0].id) else None)
            && |d.backups| < cfg.kTotal
            && (forall i :: 0 <= i < |d.backups| ==> 1 + i < |ranked| && d.backups[i] == ranked[1 + i].id && ranked[1 + i].total > 0.0)
            && (1 + |d.backups| < cfg.kTotal ==> forall i :: 1 + |d.backups| <= i < |ranked| ==> ranked[i].total <= 0.0)
            && var most := if 2 * cfg.kTotal > 5 then 2 * cfg.kTotal else 5;
               d.scores == ranked[..if |ranked| < most then |ranked| else most]
  {
    ElectsTheBest(cfg, cs);
    ranked := Sort(Ahead, cs);
    forall i, j | 0 <= i < j < |ranked| ensures Beats(ranked[i], ranked[j]) {
      assert Ahead(ranked[i], ranked[j]);
      LexIsDictionary(ranked[i].id, ranked[j].id);
    }
  }

  /** Where a handover comes from: the previous primary, for a full overlap from now on, or a handover
      still running, with its deadline; the node is available and not the primary itself. */
  lemma HandoverHasSource(cfg: Config, track: string, cs: seq<Candidate>, prev: Option<Decision>, now: int)
    ensures var d := Elect(cfg, track, cs, prev, now);
            && (d.handoverFrom.None? ==> d.handoverUntil == 0)
            && (d.handoverFrom.Some? ==>
                  && prev.Some? && d.handoverFrom != d.primary && (exists c :: c in cs && Some(c.id) == d.handoverFrom)
                  && ((d.handoverFrom == prev.value.primary && d.handoverUntil == now + cfg.overlapNs) ||
                      (d.handoverFrom == prev.value.handoverFrom && d.handoverUntil == prev.value.handoverUntil && now < d.handoverUntil)))
  {
    var d := Elect(cfg, track, cs, prev, now);
    if d.handoverFrom.Some? {
      var i :| 0 <= i < |cs| && cs[i].id == d.handoverFrom.value;
      assert cs[i] in cs;
    }
  }

  // ---------------------------------------------------------------- runs on one track

  datatype Input = Election(cs: seq<Candidate>, now: int) | Forget

  function Apply(cfg: Config, track: string, cached: Option<Decision>, i: Input): Option<Decision> {
    match i
    case Election(cs, now) => Some(Elect(cfg, track, cs, cached, now))
    case Forget => None
  }

  function RunFrom(cfg: Config, track: string, cached: Option<Decision>, inputs: seq<Input>): Option<Decision> {
    if inputs == [] then cached
    else Apply(cfg, track, RunFrom(cfg, track, cached, inputs[..|inputs| - 1]), inputs[|inputs| - 1])
  }

  /** The decision hands over from the previous primary to another one. */
  predicate Starts(prev: Option<Decision>, d: Decision) {
    prev.Some? && prev.value.primary.Some? && prev.value.primary != d.primary && d.handoverFrom == prev.value.primary
  }

  /** `d` keeps the outgoing node tasked, beside its primary, until the deadline. */
  ghost predicate Overlaps(d: Decision, outgoing: string, until: int) {
    && d.primary != Some(outgoing) && outgoing in d.tasked
    && d.handoverFrom == Some(outgoing) && d.handoverUntil == until
  }

  /** A change of primary opens the window. */
  lemma HandoverStarts(cfg: Config, track: string, prev: Decision, cs: seq<Candidate>, now: int, outgoing: string)
    requires outgoing != "" && prev.primary == Some(outgoing) && Available(cs, outgoing)
    requires Leader(cfg, cs) != Some(outgoing)
    ensures Overlaps(Elect(cfg, track, cs, Some(prev), now), outgoing, now + cfg.overlapNs)
  {
    TaskedFacts(cfg, track, cs, Some(prev), now);
  }

  /** The election among `cs` opens no new handover: the primary so far, if any, is gone or leads
      again. */
  predicate Quiet(cfg: Config, primary: Option<string>, cs: seq<Candidate>) {
    primary.None? || !Available(cs, primary.value) || Leader(cfg, cs) == primary
  }

  lemma TaskedIff(cfg: Config, track: string, cs: seq<Candidate>, prev: Option<Decision>, now: int, id: string)
    requires id != ""
    ensures var e := Elect(cfg, track, cs, prev, now);
            id in e.tasked <==> id in Elected(cfg, cs) || e.handoverFrom == Some(id)
  {
    DistinctFacts(Elected(cfg, cs) + Opt(Elect(cfg, track, cs, prev, now).handoverFrom));
  }

  /** Inside the window, an outgoing node stays tasked exactly when it is elected on merit or the
      election opens no new handover: a second change between available primaries cuts the first
      window short. */
  lemma OverlapSurvivesIff(cfg: Config, track: string, d: Decision, outgoing: string, until: int, cs: seq<Candidate>, now: int)
    requires outgoing != "" && Overlaps(d, outgoing, until) && Available(cs, outgoing) && now < until
    ensures outgoing in Elect(cfg, track, cs, Some(d), now).tasked <==>
            outgoing in Elected(cfg, cs) || Quiet(cfg, d.primary, cs)
  {
    var e := Elect(cfg, track, cs, Some(d), now);
    TaskedIff(cfg, track, cs, Some(d), now, outgoing);
    assert e.handoverFrom == if Quiet(cfg, d.primary, cs) then
             if Leader(cfg, cs) == Some(outgoing) then None else Some(outgoing)
           else d.primary;
  }

  // ---------------------------------------------------------------- windows over whole runs

  /** The primary before input i of a run that starts from decision `d`, read off the inputs alone. */
  function PrimaryBefore(cfg: Config, d: Decision, inputs: seq<Input>, i: nat): Option<string>
    requires i <= |inputs|
  {
    if i == 0 then d.primary
    else match inputs[i - 1]
      case Election(cs, _) => Leader(cfg, cs)
      case Forget => None
  }

  /** What input i of a run must be for the window of `outgoing` to stay open: an election before the
      deadline, with the outgoing node available but not leading, that opens no new handover. */
  predicate KeepsOpen(cfg: Config, d: Decision, outgoing: string, until: int, inputs: seq<Input>, i: nat)
    requires i < |inputs|
  {
    match inputs[i]
    case Election(cs, now) =>
      && now < until && Available(cs, outgoing) && Leader(cfg, cs) != Some(outgoing)
      && Quiet(cfg, PrimaryBefore(cfg, d, inputs, i), cs)
    case Forget => false
  }

  ghost predicate OpenAt(cfg: Config, track: string, d: Decision, outgoing: string, until: int, inputs: seq<Input>, n: nat)
    requires n <= |inputs|
  {
    var r := RunFrom(cfg, track, Some(d), inputs[..n]);
    r.Some? && Overlaps(r.value, outgoing, until)
  }

  lemma OverlapStepIff(cfg: Config, track: string, d: Decision, outgoing: string, until: int, cs: seq<Candidate>, now: int)
    requires outgoing != "" && Overlaps(d, outgoing, until)
    ensures Overlaps(Elect(cfg, track, cs, Some(d), now), outgoing, until) <==>
            now < until && Available(cs, outgoing) && Leader(cfg, cs) != Some(outgoing) && Quiet(cfg, d.primary, cs)
  {
    TaskedFacts(cfg, track, cs, Some(d), now);
  }

  lemma RunStep(cfg: Config, track: string, d: Decision, inputs: seq<Input>, n: nat)
    requires n < |inputs|
    ensures RunFrom(cfg, track, Some(d), inputs[..n + 1]) ==
            Apply(cfg, track, RunFrom(cfg, track, Some(d), inputs[..n]), inputs[n])
  {
    assert inputs[..n + 1][..n] == inputs[..n];
  }

  lemma PrimaryIsRead(cfg: Config, track: string, d: Decision, inputs: seq<Input>, n: nat)
    requires n <= |inputs|
    ensures var r := RunFrom(cfg, track, Some(d), inputs[..n]);
            PrimaryBefore(cfg, d, inputs, n) == if r.Some? then r.value.primary else None
  {
    if n > 0 { RunStep(cfg, track, d, inputs, n - 1); }
  }

  lemma OpenNextIff(cfg: Config, track: string, d: Decision, outgoing: string, until: int, inputs: seq<Input>, n: nat)
    requires outgoing != "" && n < |inputs| && OpenAt(cfg, track, d, outgoing, until, inputs, n)
    ensures OpenAt(cfg, track, d, outgoing, until, inputs, n + 1) <==> KeepsOpen(cfg, d, outgoing, until, inputs, n)
  {
    RunStep(cfg, track, d, inputs, n);
    PrimaryIsRead(cfg, track, d, inputs, n);
    if inputs[n].Election? {
      OverlapStepIff(cfg, track, RunFrom(cfg, track, Some(d), inputs[..n]).value, outgoing, until, inputs[n].cs, inputs[n].now);
    }
  }

  /** Over any run of elections and forgotten tracks, the window has stayed open, with the outgoing
      node tasked and the deadline where it was, exactly when every input kept it open. */
  lemma {:induction false} OverlapPersists(cfg: Config, track: string, d: Decision, outgoing: string, until: int, inputs: seq<Input>)
    requires outgoing != "" && Overlaps(d, outgoing, until)
    ensures (forall n: nat :: n <= |inputs| ==> OpenAt(cfg, track, d, outgoing, until, inputs, n)) <==>
            (forall n: nat :: n < |inputs| ==> KeepsOpen(cfg, d, outgoing, until, inputs, n))
  {
    ghost var open := (n: nat) => n <= |inputs| && OpenAt(cfg, track, d, outgoing, until, inputs, n);
    ghost var keeps := (n: nat) => n < |inputs| && KeepsOpen(cfg, d, outgoing, until, inputs, n);
    assert inputs[..0] == [];
    forall n: nat | n < |inputs| && open(n) ensures open(n + 1) == keeps(n) {
      OpenNextIff(cfg, track, d, outgoing, until, inputs, n);
    }
    AllAlong(open, keeps, |inputs|);
    if forall n: nat :: n <= |inputs| ==> OpenAt(cfg, track, d, outgoing, until, inputs, n) {
      forall n: nat | n < |inputs| ensures KeepsOpen(cfg, d, outgoing, until, inputs, n) {
        assert keeps(n) by { assert forall k: nat :: k <= |inputs| ==> open(k); }
      }
    }
    if forall n: nat :: n < |inputs| ==> KeepsOpen(cfg, d, outgoing, until, inputs, n) {
      forall n: nat | n <= |inputs| ensures OpenAt(cfg, track, d, outgoing, until, inputs, n) {
        assert open(n) by { assert forall k: nat :: k < |inputs| ==> keeps(k); }
      }
    }
  }

  /** At the first election at or past the deadline the outgoing node is stood down, unless it was
      elected on its own merit; this holds whatever that election does to the primary. */
  lemma {:induction false} OverlapEnds(cfg: Config, track: string, d: Decision, outgoing: string, until: int,
                                       inputs: seq<Input>, cs: seq<Candidate>, now: int)
    requires outgoing != "" && Overlaps(d, outgoing, until) && now >= until
    requires forall n: nat :: n < |inputs| ==> KeepsOpen(cfg, d, outgoing, until, inputs, n)
    ensures var e := Elect(cfg, track, cs, RunFrom(cfg, track, Some(d), inputs), now);
            && e.handoverFrom != Some(outgoing)
            && (outgoing in e.standDown <==> outgoing !in Elected(cfg, cs))
            && (outgoing in e.tasked <==> outgoing in Elected(cfg, cs))
  {
    OverlapPersists(cfg, track, d, outgoing, until, inputs);
    assert inputs[..|inputs|] == inputs;
    assert OpenAt(cfg, track, d, outgoing, until, inputs, |inputs|);
    TaskedFacts(cfg, track, cs, RunFrom(cfg, track, Some(d), inputs), now);
  }

  /** A candidate strictly ahead of all others leads, and with one node to elect it is elected alone. */
  lemma ClearLeader(cfg: Config, cs: seq<Candidate>, i: nat)
    requires cfg.kTotal == 1 && i < |cs| && cs[i].total > 0.0
    requires forall j :: 0 <= j < |cs| && j != i ==> cs[j].total < cs[i].total
    ensures Elected(cfg, cs) == [cs[i].id] && Leader(cfg, cs) == Some(cs[i].id)
  {
    var ranked := Sort(Ahead, cs);
    ElectsTheBest(cfg, cs);
    assert cs[i] in multiset(ranked);
    var k :| 0 <= k < |ranked| && ranked[k] == cs[i];
    assert ranked[0] in multiset(cs);
    var j :| 0 <= j < |cs| && cs[j] == ranked[0];
    assert k > 0 ==> Ahead(ranked[0], ranked[k]);
  }

  const A_LEADS: seq<Candidate> := [Candidate("a", 3.0), Candidate("b", 2.0), Candidate("c", 1.0)]
  const B_LEADS: seq<Candidate> := [Candidate("a", 2.0), Candidate("b", 3.0), Candidate("c", 1.0)]
  const C_LEADS: seq<Candidate> := [Candidate("a", 1.0), Candidate("b", 2.0), Candidate("c", 3.0)]

  lemma TheyLead(cfg: Config)
    requires cfg.kTotal == 1
    ensures Elected(cfg, A_LEADS) == ["a"] && Elected(cfg, B_LEADS) == ["b"] && Elected(cfg, C_LEADS) == ["c"]
    ensures Available(B_LEADS, "a") && Available(C_LEADS, "a") && Available(C_LEADS, "b")
  {
    ClearLeader(cfg, A_LEADS, 0);
    ClearLeader(cfg, B_LEADS, 1);
    ClearLeader(cfg, C_LEADS, 2);
    assert B_LEADS[0].id == "a" && C_LEADS[0].id == "a" && C_LEADS[1].id == "b";
  }

  lemma FirstTakesAll(cfg: Config, track: string, cs: seq<Candidate>, prev: Option<Decision>, now: int, id: string)
    requires Elected(cfg, cs) == [id]
    ensures Elect(cfg, track, cs, prev, now).primary == Some(id)
  {
  }

  /** All three nodes available throughout, one node to elect and an overlap of ten; the primary
      changes from a to b at 5 and to c at 6.  Node a should stay tasked until 15 and is stood down
      at 6. */
  lemma SecondHandoverStandsDown(track: string, first: Decision, second: Decision, third: Decision)
    requires var cfg := Config(1, 10);
             && first == Elect(cfg, track, A_LEADS, None, 0)
             && second == Elect(cfg, track, B_LEADS, Some(first), 5)
             && third == Elect(cfg, track, C_LEADS, Some(second), 6)
    ensures first.primary == Some("a") && second.primary == Some("b") && third.primary == Some("c")
    ensures Overlaps(second, "a", 15) && "a" !in third.tasked && "a" in third.standDown
  {
    var cfg := Config(1, 10);
    TheyLead(cfg);
    FirstTakesAll(cfg, track, A_LEADS, None, 0, "a");
    FirstTakesAll(cfg, track, B_LEADS, Some(first), 5, "b");
    FirstTakesAll(cfg, track, C_LEADS, Some(second), 6, "c");
    HandoverStarts(cfg, track, first, B_LEADS, 5, "a");
    OverlapSurvivesIff(cfg, track, second, "a", 15, C_LEADS, 6);
    TaskedFacts(cfg, track, C_LEADS, Some(second), 6);
  }

  // ---------------------------------------------------------------- the tasking ledger

  /** Times the node entered the tasked set. */
  function Entries(cfg: Config, track: string, inputs: seq<Input>, node: string): nat {
    if inputs == [] then 0 else
    var before := RunFrom(cfg, track, None, inputs[..|inputs| - 1]);
    var after := RunFrom(cfg, track, None, inputs);
    Entries(cfg, track, inputs[..|inputs| - 1], node) + Indicator(node in TaskedBy(after) && node !in TaskedBy(before))
  }

  /** Times the node was told to stand down. */
  function StandDowns(cfg: Config, track: string, inputs: seq<Input>, node: string): nat {
    if inputs == [] then 0 else
    var after := RunFrom(cfg, track, None, inputs);
    StandDowns(cfg, track, inputs[..|inputs| - 1], node) + Indicator(after.Some? && node in after.value.standDown)
  }

  /** Times the track was forgotten while the node was tasked, so nobody told the node. */
  function Abandoned(cfg: Config, track: string, inputs: seq<Input>, node: string): nat {
    if inputs == [] then 0 else
    var before := RunFrom(cfg, track, None, inputs[..|inputs| - 1]);
    Abandoned(cfg, track, inputs[..|inputs| - 1], node) +
      Indicator(inputs[|inputs| - 1].Forget? && node in TaskedBy(before))
  }

  /** Every entry into the tasked set is matched by a stand-down, a forgotten track, or the node
      being tasked right now. */
  lemma {:induction false} LedgerBalances(cfg: Config, track: string, inputs: seq<Input>, node: string)
    ensures Entries(cfg, track, inputs, node) ==
            StandDowns(cfg, track, inputs, node) + Abandoned(cfg, track, inputs, node) +
            Indicator(node in TaskedBy(RunFrom(cfg, track, None, inputs)))
  {
    if inputs != [] {
      var front, last := inputs[..|inputs| - 1], inputs[|inputs| - 1];
      LedgerBalances(cfg, track, front, node);
      if last.Election? { TaskedFacts(cfg, track, last.cs, RunFrom(cfg, track, None, front), last.now); }
    }
  }

  // ---------------------------------------------------------------- many tracks, one cache

  datatype Call = Call(track: string, input: Input)

  function Cached(m: map<string, Decision>, track: string): Option<Decision> {
    if track in m then Some(m[track]) else None
  }

  function Store(m: map<string, Decision>, track: string, d: Option<Decision>): map<string, Decision> {
    if d.Some? then m[track := d.value] else m - {track}
  }

  function RunAll(cfg: Config, calls: seq<Call>): map<string, Decision> {
    if calls == [] then map[] else
    var m := RunAll(cfg, calls[..|calls| - 1]);
    var c := calls[|calls| - 1];
    Store(m, c.track, Apply(cfg, c.track, Cached(m, c.track), c.input))
  }

  function InputsOf(calls: seq<Call>, track: string): seq<Input> {
    if calls == [] then [] else
    InputsOf(calls[..|calls| - 1], track) +
    (if calls[|calls| - 1].track == track then [calls[|calls| - 1].input] else [])
  }

  /** Elections of different tracks do not disturb each other, however they interleave. */
  lemma {:induction false} TracksAreIndependent(cfg: Config, calls: seq<Call>, track: string)
    ensures Cached(RunAll(cfg, calls), track) == RunFrom(cfg, track, None, InputsOf(calls, track))
  {
    if calls != [] {
      var front, c := calls[..|calls| - 1], calls[|calls| - 1];
      TracksAreIndependent(cfg, front, track);
      var inputs := InputsOf(front, track);
      if c.track == track {
        assert (inputs + [c.input])[..|inputs|] == inputs;
      } else {
        assert InputsOf(calls, track) == inputs;
      }
    }
  }

  // ---------------------------------------------------------------- the object

  datatype ConfigError = NonPositiveK

  class CustodyElector {
    const cfg: Config
    var last: map<string, Decision>
    var elections: nat
    var withHandover: nat
    var noEligible: nat

    constructor (cfg: Config)
      requires cfg.kTotal >= 1
      ensures this.cfg == cfg && last == map[] && elections == withHandover == noEligible == 0
    {
      this.cfg := cfg;
      last, elections, withHandover, noEligible := map[], 0, 0, 0;
    }

    static method Create(k: int, overlapNs: int) returns (r: Result<CustodyElector, ConfigError>)
      ensures k < 1 <==> r == Err(NonPositiveK)
      ensures k >= 1 ==> r.Ok? && fresh(r.value) && r.value.cfg == Config(k, overlapNs) && r.value.last == map[]
    {
      if k < 1 { return Err(NonPositiveK); }
      var e := new CustodyElector(Config(k, overlapNs));
      return Ok(e);
    }

    /** First occurrences of the names, leaving out the empty one. */
    static method KeepTasked(names: seq<string>) returns (tasked: seq<string>)
      ensures tasked == Distinct(names)
    {
      tasked := [];
      for i := 0 to |names|
        invariant tasked == Distinct(names[..i])
      {
        assert names[..i + 1][..i] == names[..i];
        if names[i] != "" && names[i] !in tasked { tasked := tasked + [names[i]]; }
      }
      assert names[..|names|] == names;
    }

    static method StillTuned(before: seq<string>, tasked: seq<string>) returns (gone: seq<string>)
      ensures gone == Missing(before, tasked)
    {
      gone := [];
      for i := 0 to |before|
        invariant gone == Missing(before[..i], tasked)
      {
        assert before[..i + 1][..i] == before[..i];
        if before[i] !in tasked && before[i] !in gone { gone := gone + [before[i]]; }
      }
      assert before[..|before|] == before;
    }

    method Decide(track: string, cs: seq<Candidate>, prev: Option<Decision>, now: int)
      returns (d: Decision, started: bool)
      ensures d == Elect(cfg, track, cs, prev, now)
      ensures started <==> Starts(prev, d)
    {
      var ranked := Sort(Ahead, cs);
      var eligible := Eligible(ranked);
      var elected := Ids(eligible[..if |eligible| < cfg.kTotal then |eligible| else cfg.kTotal]);
      assert elected == Elected(cfg, cs);
      var primary := if elected == [] then None else Some(elected[0]);
      var backups := if elected == [] then [] else elected[1..];
      var h;
      h, started := OpenOrInherit(cs, prev, now, primary);
      var tasked := KeepTasked(elected + Opt(h.from));
      var gone := StillTuned(TaskedBy(prev), tasked);
      d := Decision(track, now, primary, backups, tasked, Sort(LexLe, gone), h.from, h.until,
                    ranked[..if |ranked| < ScoreLimit(cfg) then |ranked| else ScoreLimit(cfg)]);
    }

    /** One election cycle; `changed` says whether the change callback fires. */
    method RunElection(track: string, cs: seq<Candidate>, previous: Option<Decision>, now: int)
      returns (d: Decision, changed: bool)
      modifies this
      ensures var prev := if previous.Some? then previous else Cached(old(last), track);
              && d == Elect(cfg, track, cs, prev, now)
              && changed == (NameOf(if prev.Some? then prev.value.primary else None) != NameOf(d.primary))
              && withHandover == old(withHandover) + Indicator(Starts(prev, d))
      ensures last == old(last)[track := d]
      ensures elections == old(elections) + 1 && noEligible == old(noEligible) + Indicator(d.primary.None?)
    {
      var prev := if previous.Some? then previous else if track in last then Some(last[track]) else None;
      var started;
      d, started := Decide(track, cs, prev, now);
      if started { withHandover := withHandover + 1; }
      last := last[track := d];
      elections := elections + 1;
      if d.primary.None? { noEligible := noEligible + 1; }
      changed := NameOf(if prev.Some? then prev.value.primary else None) != NameOf(d.primary);
    }

    /** A new handover, one still in progress, or none. */
    method OpenOrInherit(cs: seq<Candidate>, prev: Option<Decision>, now: int, primary: Option<string>)
      returns (h: Handover, started: bool)
      ensures h == HandoverOf(cfg, cs, prev, now, primary)
      ensures started == (prev.Some? && prev.value.primary.Some? && prev.value.primary != primary &&
                          h.from == prev.value.primary)
    {
      h, started := Handover(None, 0), false;
      var prevPrimary := if prev.Some? then prev.value.primary else None;
      if prevPrimary.Some? && prevPrimary != primary && Available(cs, prevPrimary.value) {
        h, started := Handover(prevPrimary, now + cfg.overlapNs), true;
      } else if prev.Some? && prev.value.handoverFrom.Some? && prev.value.handoverFrom != primary &&
                Available(cs, prev.value.handoverFrom.value) && now < prev.value.handoverUntil {
        h := Handover(prev.value.handoverFrom, prev.value.handoverUntil);
      }
    }

    method ForgetTrack(track: string)
      modifies this`last
      ensures last == old(last) - {track}
    {
      last := last - {track};
    }
  }

  /** A missing primary and an empty name look alike to the change callback. */
  function NameOf(o: Option<string>): string { if o.Some? then o.value else "" }
}
