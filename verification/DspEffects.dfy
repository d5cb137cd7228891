/** What the operations of a chain do, read off its links and switches: core/src/dsp/chain.h.

    Links are told apart by their places.  Here is what an operation does even where it spoils the
    wiring, and what it leaves alone. */
module DspEffects {
  import opened Wrappers
  import opened Seqs
  import opened DspBlocks
  import opened DspChains
  import opened DspRuns

  // ---------------------------------------------------------------- places

  /** Place i holds the first enabled block of the places from lo up to hi. */
  ghost predicate FirstIn(c: Chain, lo: nat, hi: nat, i: nat) {
    && lo <= i < hi <= |c.links| && On(c.on, c.links[i])
    && forall j :: lo <= j < i ==> !On(c.on, c.links[j])
  }

  ghost predicate NoneIn(c: Chain, lo: nat, hi: nat) {
    lo <= hi <= |c.links| && forall j :: lo <= j < hi ==> !On(c.on, c.links[j])
  }

  lemma {:induction false} FirstOnAt(c: Chain, lo: nat, hi: nat)
    requires lo <= hi <= |c.links|
    ensures var f := FirstOn(c.on, c.links[lo..hi]);
            && (f.None? <==> NoneIn(c, lo, hi))
            && (f.Some? ==> exists i: nat :: FirstIn(c, lo, hi, i) && c.links[i] == f.value)
    decreases hi - lo
  {
    if lo < hi {
      var s := c.links[lo..hi];
      assert s[0] == c.links[lo] && s[1..] == c.links[lo + 1..hi];
      FirstOnAt(c, lo + 1, hi);
      if On(c.on, c.links[lo]) {
        assert FirstIn(c, lo, hi, lo);
      } else if FirstOn(c.on, s).Some? {
        var i: nat :| FirstIn(c, lo + 1, hi, i) && c.links[i] == FirstOn(c.on, s).value;
        assert FirstIn(c, lo, hi, i);
      }
    }
  }

  lemma OnlyOneFirst(c: Chain, lo: nat, hi: nat, i: nat, j: nat)
    requires FirstIn(c, lo, hi, i) && FirstIn(c, lo, hi, j)
    ensures i == j
  {
  }

  lemma {:induction false} PlaceSplits(links: seq<nat>, k: nat)
    requires k < |links| && NoRepeats(links)
    ensures Before(links, links[k]) == links[..k] && After(links, links[k]) == links[k + 1..]
  {
    if k > 0 {
      assert links[1..][k - 1] == links[k] && links[0] != links[k];
      PlaceSplits(links[1..], k - 1);
      assert [links[0]] + links[1..][..k - 1] == links[..k];
    }
  }

  // ---------------------------------------------------------------- what a touched block does to its neighbours

  /** The stream that reaches place k: from the first enabled block before it, or the chain's input. */
  ghost predicate Reaches(c: Chain, k: nat, s: Stream) {
    if NoneIn(c, 0, k) then s == c.input else exists i: nat :: FirstIn(c, 0, k, i) && s == OutOf(c.links[i])
  }

  /** From c to d the first enabled block behind place k was given s, or the output was if there is no
      such block; no other block but the one at k was given anything. */
  ghost predicate HandsOn(c: Chain, d: Chain, k: nat, s: Stream)
    requires k < |c.links|
  {
    && (forall j: nat :: j < |c.links| && j != k && c.links[j] in c.procs ==>
          c.links[j] in d.procs &&
          d.procs[c.links[j]].input == if FirstIn(c, k + 1, |c.links|, j) then s else c.procs[c.links[j]].input)
    && d.out == if NoneIn(c, k + 1, |c.links|) then s else c.out
  }

  lemma SourceReaches(c: Chain, k: nat)
    requires k < |c.links| && NoRepeats(c.links)
    ensures Reaches(c, k, SourceBefore(c.on, Before(c.links, c.links[k]), c.input))
  {
    PlaceSplits(c.links, k);
    assert c.links[..k] == c.links[0..k];
    FirstOnAt(c, 0, k);
  }

  lemma NextIsAt(c: Chain, k: nat, j: nat)
    requires k < |c.links| && j < |c.links| && NoRepeats(c.links)
    ensures var f := FirstOn(c.on, After(c.links, c.links[k]));
            && (f.None? <==> NoneIn(c, k + 1, |c.links|))
            && (f == Some(c.links[j]) <==> FirstIn(c, k + 1, |c.links|, j))
  {
    var n := |c.links|;
    PlaceSplits(c.links, k);
    assert c.links[k + 1..n] == c.links[k + 1..];
    FirstOnAt(c, k + 1, n);
    var f := FirstOn(c.on, c.links[k + 1..]);
    if f.Some? {
      var i: nat :| FirstIn(c, k + 1, n, i) && c.links[i] == f.value;
      if FirstIn(c, k + 1, n, j) { OnlyOneFirst(c, k + 1, n, i, j); }
    }
  }

  lemma HandedAt(c: Chain, d: Chain, k: nat, s: Stream, j: nat)
    requires Shaped(c) && k < |c.links| && Switched(c, d, c.links[k], After(c.links, c.links[k]), s)
    requires j < |c.links| && j != k && c.links[j] in c.procs
    ensures c.links[j] in d.procs
    ensures d.procs[c.links[j]].input == if FirstIn(c, k + 1, |c.links|, j) then s else c.procs[c.links[j]].input
  {
    NextIsAt(c, k, j);
    assert c.links[j] != c.links[k];
  }

  lemma SwitchedHandsOn(c: Chain, d: Chain, k: nat, s: Stream)
    requires Shaped(c) && k < |c.links| && Switched(c, d, c.links[k], After(c.links, c.links[k]), s)
    ensures HandsOn(c, d, k, s)
  {
    NextIsAt(c, k, k);
    forall j: nat | j < |c.links| && j != k && c.links[j] in c.procs
      ensures c.links[j] in d.procs &&
              d.procs[c.links[j]].input == if FirstIn(c, k + 1, |c.links|, j) then s else c.procs[c.links[j]].input
    {
      HandedAt(c, d, k, s, j);
    }
  }

  lemma EnableKeeps(c: Chain, id: nat)
    ensures var d := Enable(c, id);
            && d.links == c.links && d.input == c.input && d.running == c.running
            && d.on == if id in c.on && id in c.procs then c.on[id := true] else c.on
  {
  }

  lemma DisableKeeps(c: Chain, id: nat)
    ensures var d := Disable(c, id);
            && d.links == c.links && d.input == c.input && d.running == c.running
            && d.on == if id in c.on && id in c.procs then c.on[id := false] else c.on
  {
  }

  /** Enabling the block at place k: it reads what reaches its place, the next enabled block or the
      output reads it, and it runs if the chain does. */
  lemma EnableMeans(c: Chain, k: nat)
    requires Shaped(c) && k < |c.links| && !On(c.on, c.links[k])
    ensures var id, d := c.links[k], Enable(c, c.links[k]);
            && d.links == c.links && d.input == c.input && d.running == c.running && d.on == c.on[id := true]
            && id in d.procs && Reaches(c, k, d.procs[id].input) && HandsOn(c, d, k, OutOf(id))
  {
    EnableSwitches(c, c.links[k]);
    EnableKeeps(c, c.links[k]);
    SourceReaches(c, k);
    SwitchedHandsOn(c, Enable(c, c.links[k]), k, OutOf(c.links[k]));
  }

  /** Disabling it: what reaches its place is handed on. */
  lemma DisableMeans(c: Chain, k: nat)
    requires Shaped(c) && k < |c.links| && On(c.on, c.links[k])
    ensures var id, d := c.links[k], Disable(c, c.links[k]);
            && d.links == c.links && d.input == c.input && d.running == c.running && d.on == c.on[id := false]
            && id in d.procs && d.procs[id].input == c.procs[id].input
            && exists s :: Reaches(c, k, s) && HandsOn(c, d, k, s)
  {
    var s := SourceBefore(c.on, Before(c.links, c.links[k]), c.input);
    DisableSwitches(c, c.links[k]);
    DisableKeeps(c, c.links[k]);
    SourceReaches(c, k);
    SwitchedHandsOn(c, Disable(c, c.links[k]), k, s);
  }

  /** Changing the input: the first enabled block reads it, or the output does. */
  lemma SetInputMeans(c: Chain, s: Stream)
    requires Shaped(c)
    ensures var d := SetInput(c, s);
            && d.links == c.links && d.on == c.on && d.running == c.running && d.input == s
            && d.out == (if NoneIn(c, 0, |c.links|) then s else c.out)
            && (forall j: nat :: j < |c.links| ==>
                  c.links[j] in d.procs &&
                  d.procs[c.links[j]].input == if FirstIn(c, 0, |c.links|, j) then s else c.procs[c.links[j]].input)
  {
    var n := |c.links|;
    assert c.links[0..n] == c.links;
    FirstOnAt(c, 0, n);
    var f := FirstOn(c.on, c.links);
    forall j: nat | j < n
      ensures c.links[j] in SetInput(c, s).procs &&
              SetInput(c, s).procs[c.links[j]].input == if FirstIn(c, 0, n, j) then s else c.procs[c.links[j]].input
    {
      if f.Some? {
        var i: nat :| FirstIn(c, 0, n, i) && c.links[i] == f.value;
        if FirstIn(c, 0, n, j) { OnlyOneFirst(c, 0, n, i, j); }
      }
    }
  }

  lemma AddedOff(c: Chain, id: nat, p: Proc)
    requires Shaped(c) && id !in c.links
    ensures var e := Add(c, id, p, false);
            && Shaped(e) && e == Chain(c.input, c.out, c.links + [id], c.on[id := false], c.procs[id := p], c.running)
            && e.links[|c.links|] == id
  {
  }

  lemma AddedOn(e: Chain, k: nat)
    requires Shaped(e) && k == |e.links| - 1 && !On(e.on, e.links[k])
    ensures var id, d := e.links[k], Enable(e, e.links[k]);
            && d.links == e.links && d.input == e.input && d.running == e.running && d.on == e.on[id := true]
            && id in d.procs && d.out == OutOf(id) && Reaches(e, k, d.procs[id].input) && HandsOn(e, d, k, OutOf(id))
  {
    EnableMeans(e, k);
    assert NoneIn(e, k + 1, |e.links|);
  }

  lemma NothingHanded(e: Chain, d: Chain, k: nat, s: Stream, x: nat)
    requires k == |e.links| - 1 && HandsOn(e, d, k, s) && x in e.links[..k] && x in e.procs
    ensures x in d.procs && d.procs[x].input == e.procs[x].input
  {
    var j: nat :| j < k && e.links[j] == x;
  }

  /** A block is added behind all others.  Added enabled, it reads what reaches the end, the output
      reads it, and no other block is given anything. */
  lemma AddMeans(c: Chain, id: nat, p: Proc, enabled: bool)
    requires Shaped(c) && id !in c.links
    ensures var d := Add(c, id, p, enabled);
            && d.links == c.links + [id] && d.input == c.input && d.running == c.running && d.on == c.on[id := enabled]
            && id in d.procs && (forall x :: x in c.links ==> x in d.procs && d.procs[x].input == c.procs[x].input)
            && (if enabled then Reaches(c, |c.links|, d.procs[id].input) && d.out == OutOf(id)
                else d.procs[id] == p && d.out == c.out)
  {
    AddedOff(c, id, p);
    if enabled {
      AddedSwitchedOn(c, Add(c, id, p, false), id, p);
      assert Add(c, id, p, true) == Enable(Add(c, id, p, false), id);
    }
  }

  lemma Overwrite(on: Switches, id: nat)
    ensures on[id := false][id := true] == on[id := true]
  {
  }

  lemma OthersUntouched(e: Chain, d: Chain, links: seq<nat>, s: Stream)
    requires e.links != [] && links == e.links[..|e.links| - 1] && HandsOn(e, d, |links|, s)
    requires forall x :: x in links ==> x in e.procs
    ensures forall x :: x in links ==> x in d.procs && d.procs[x].input == e.procs[x].input
  {
    forall x | x in links ensures x in d.procs && d.procs[x].input == e.procs[x].input {
      NothingHanded(e, d, |links|, s, x);
    }
  }

  lemma AddedReads(c: Chain, e: Chain, id: nat)
    requires id !in c.links && Shaped(e) && e.links == c.links + [id] && e.on == c.on[id := false] && e.input == c.input
    ensures var d := Enable(e, id);
            && d.links == e.links && d.input == e.input && d.running == e.running && d.on == c.on[id := true]
            && id in d.procs && d.out == OutOf(id) && Reaches(c, |c.links|, d.procs[id].input)
            && HandsOn(e, d, |c.links|, OutOf(id))
  {
    assert e.links[|c.links|] == id && e.links[..|c.links|] == c.links;
    AddedOn(e, |c.links|);
    Overwrite(c.on, id);
    SameReach(c, e, Enable(e, id).procs[id].input);
  }

  lemma AddedSwitchedOn(c: Chain, e: Chain, id: nat, p: Proc)
    requires Shaped(c) && id !in c.links && Shaped(e)
    requires e == Chain(c.input, c.out, c.links + [id], c.on[id := false], c.procs[id := p], c.running)
    ensures var d := Enable(e, id);
            && d.links == c.links + [id] && d.input == c.input && d.running == c.running && d.on == c.on[id := true]
            && id in d.procs && d.out == OutOf(id) && Reaches(c, |c.links|, d.procs[id].input)
            && forall x :: x in c.links ==> x in d.procs && d.procs[x].input == c.procs[x].input
  {
    var d := Enable(e, id);
    AddedReads(c, e, id);
    assert c.links == e.links[..|e.links| - 1];
    OthersUntouched(e, d, c.links, OutOf(id));
  }

  lemma SameReach(c: Chain, e: Chain, s: Stream)
    requires |c.links| <= |e.links| && e.links[..|c.links|] == c.links && e.input == c.input
    requires (forall x :: x in c.links ==> On(e.on, x) == On(c.on, x)) && Reaches(e, |c.links|, s)
    ensures Reaches(c, |c.links|, s)
  {
    var k := |c.links|;
    assert forall j :: 0 <= j < k ==> e.links[j] == c.links[j];
    if i: nat :| FirstIn(e, 0, k, i) && s == OutOf(e.links[i]) { assert FirstIn(c, 0, k, i); }
  }

  lemma TakenOutIs(d: Chain, k: nat)
    requires k < |d.links| && NoRepeats(d.links)
    ensures var id, r := d.links[k], TakenOut(d, d.links[k]);
            r == Chain(d.input, d.out, d.links[..k] + d.links[k + 1..], d.on - {id}, d.procs - {id}, d.running)
  {
    PlaceSplits(d.links, k);
  }

  lemma HandsOnWithout(c: Chain, d: Chain, k: nat, s: Stream, r: Chain)
    requires NoRepeats(c.links) && k < |c.links| && HandsOn(c, d, k, s) && r.out == d.out && r.procs == d.procs - {c.links[k]}
    ensures HandsOn(c, r, k, s)
  {
    assert forall j :: 0 <= j < |c.links| && j != k ==> c.links[j] != c.links[k];
  }

  /** A block that is removed is disabled first. */
  lemma RemoveMeans(c: Chain, k: nat)
    requires Shaped(c) && k < |c.links|
    ensures var id, d := c.links[k], Remove(c, c.links[k]);
            && d.links == c.links[..k] + c.links[k + 1..] && d.on == c.on - {id} && id !in d.procs
            && d.input == c.input && d.running == c.running
            && if On(c.on, id) then exists s :: Reaches(c, k, s) && HandsOn(c, d, k, s)
               else d.out == c.out && d.procs == c.procs - {id}
  {
    var id, e, d := c.links[k], Disable(c, c.links[k]), Remove(c, c.links[k]);
    DisableKeeps(c, id);
    TakenOutIs(e, k);
    assert d == TakenOut(e, id);
    assert e.on - {id} == c.on - {id};
    if On(c.on, id) {
      DisableMeans(c, k);
      var s :| Reaches(c, k, s) && HandsOn(c, e, k, s);
      HandsOnWithout(c, e, k, s, d);
    }
  }

  // ---------------------------------------------------------------- links and switches over an operation

  lemma {:induction false} EachSwitches(c: Chain, ids: seq<nat>)
    requires c.on.Keys == c.procs.Keys
    ensures var d, e := EnableEach(c, ids), DisableEach(c, ids);
            && d.links == e.links == c.links && d.input == e.input == c.input && d.running == e.running == c.running
            && d.on.Keys == e.on.Keys == c.on.Keys
            && (forall x :: x in c.on ==> d.on[x] == (x in ids || c.on[x]) && e.on[x] == (x !in ids && c.on[x]))
    decreases ids
  {
    if ids != [] {
      EnableKeeps(c, ids[0]);
      DisableKeeps(c, ids[0]);
      KeepsProcs(c, ids[0]);
      EachSwitches(Enable(c, ids[0]), ids[1..]);
      EachSwitches(Disable(c, ids[0]), ids[1..]);
      assert ids == [ids[0]] + ids[1..];
    }
  }

  lemma KeepsProcs(c: Chain, id: nat)
    ensures Enable(c, id).procs.Keys == c.procs.Keys && Disable(c, id).procs.Keys == c.procs.Keys
  {
  }

  /** Whether x is linked after the operation. */
  predicate LinkedAfter(c: Chain, op: ChainOp, x: nat) {
    (x in c.links || (op.DoAdd? && x == op.id)) && !(op.DoRemove? && x == op.id)
  }

  /** Whether x, linked after the operation, is switched on then. */
  predicate OnAfter(c: Chain, op: ChainOp, x: nat) {
    match op
    case DoAdd(id, _, enabled) => if x == id && x !in c.links then enabled else On(c.on, x)
    case DoEnable(id) => x == id || On(c.on, x)
    case DoDisable(id) => x != id && On(c.on, x)
    case DoEnableAll => true
    case DoDisableAll => false
    case _ => On(c.on, x)
  }

  lemma RemoveSwitches(c: Chain, id: nat)
    requires Shaped(c) && id in c.links
    ensures var d := Remove(c, id);
            && d.running == c.running && d.input == c.input && (forall x :: x in d.links <==> x in c.links && x != id)
            && forall x :: x in d.links ==> On(d.on, x) == On(c.on, x)
  {
    var k: nat :| k < |c.links| && c.links[k] == id;
    RemoveMeans(c, k);
    WithoutPlace(c.links, k);
  }

  lemma WithoutPlace(links: seq<nat>, k: nat)
    requires k < |links| && NoRepeats(links)
    ensures forall x :: x in links[..k] + links[k + 1..] <==> x in links && x != links[k]
  {
    assert links == links[..k] + [links[k]] + links[k + 1..];
  }

  lemma AllSwitches(c: Chain)
    requires Shaped(c)
    ensures var d, e := EnableEach(c, c.links), DisableEach(c, c.links);
            && d.links == e.links == c.links && d.input == e.input == c.input && d.running == e.running == c.running
            && forall x :: x in c.links ==> On(d.on, x) && !On(e.on, x)
  {
    EachSwitches(c, c.links);
  }

  /** Which blocks are linked, which are switched on, and whether the chain runs, after any operation. */
  lemma SwitchesAfter(c: Chain, op: ChainOp)
    requires Shaped(c)
    ensures var d := Take(c, op);
            && d.running == (op.DoStartAll? || (c.running && !op.DoStopAll?))
            && d.input == (if op.DoSetInput? then op.s else c.input)
            && (forall x :: x in d.links <==> LinkedAfter(c, op, x))
            && forall x :: x in d.links ==> On(d.on, x) == OnAfter(c, op, x)
  {
    match op
    case DoSetInput(s) => SetInputMeans(c, s);
    case DoAdd(id, p, enabled) => if id !in c.links { AddMeans(c, id, p, enabled); }
    case DoRemove(id) => if id in c.links { RemoveSwitches(c, id); }
    case DoEnable(id) => EnableKeeps(c, id);
    case DoDisable(id) => DisableKeeps(c, id);
    case DoEnableAll => AllSwitches(c);
    case DoDisableAll => AllSwitches(c);
    case DoStartAll =>
    case DoStopAll =>
  }
}
