/** A chain of DSP processors, as values: core/src/dsp/chain.h.

    Processors are named by numbers.  `links` lists them in order, `on` says which are enabled, and
    `procs` holds their own state.  Streams are told apart by where they come from, so the output of
    processor n is the stream OutOf(n). */
module DspChains {
  import opened Wrappers
  import opened Seqs
  import opened DspBlocks

  type Switches = map<nat, bool>

  type Procs = map<nat, Proc>

  datatype Chain = Chain(input: Stream, out: Stream, links: seq<nat>, on: Switches, procs: Procs, running: bool)

  predicate On(on: Switches, id: nat) { id in on && on[id] }

  /** Links, switches and processors speak of the same blocks, each linked once. */
  ghost predicate Shaped(c: Chain) {
    NoRepeats(c.links) && (forall id :: id in c.links <==> id in c.on) && (forall id :: id in c.links <==> id in c.procs)
  }

  function FirstOn(on: Switches, links: seq<nat>): Option<nat> {
    if links == [] then None else if On(on, links[0]) then Some(links[0]) else FirstOn(on, links[1..])
  }

  function Before(links: seq<nat>, id: nat): seq<nat> {
    if links == [] || links[0] == id then [] else [links[0]] + Before(links[1..], id)
  }

  function After(links: seq<nat>, id: nat): seq<nat> {
    if links == [] then [] else if links[0] == id then links[1..] else After(links[1..], id)
  }

  /** Where the block `id` gets its input from: the first enabled block before it, or the chain's
      input. */
  function SourceBefore(on: Switches, pre: seq<nat>, input: Stream): Stream { SourceOf(FirstOn(on, pre), input) }

  function SourceOf(before: Option<nat>, input: Stream): Stream {
    if before.Some? then OutOf(before.value) else input
  }

  function Rewired(procs: Procs, id: nat, s: Stream): Procs {
    if id in procs then procs[id := Rewire(procs[id], s)] else procs
  }

  /** What follows the touched block reads `s`; if nothing follows, the chain's output is `s`. */
  function Attach(c: Chain, post: seq<nat>, s: Stream): Chain { AttachAt(c, FirstOn(c.on, post), s) }

  function AttachAt(c: Chain, after: Option<nat>, s: Stream): Chain {
    if after.Some? then c.(procs := Rewired(c.procs, after.value, s)) else c.(out := s)
  }

  // ---------------------------------------------------------------- operations

  function SetInput(c: Chain, s: Stream): Chain { Attach(c.(input := s), c.links, s) }

  function Enable(c: Chain, id: nat): Chain {
    if id !in c.on || id !in c.procs || On(c.on, id) then c
    else EnableBetween(c, id, FirstOn(c.on, Before(c.links, id)), FirstOn(c.on, After(c.links, id)))
  }

  function EnableBetween(c: Chain, id: nat, before: Option<nat>, after: Option<nat>): Chain
    requires id in c.procs
  {
    JoinAt(AttachAt(c, after, OutOf(id)), id, SourceOf(before, c.input))
  }

  function JoinAt(c: Chain, id: nat, s: Stream): Chain
    requires id in c.procs
  {
    c.(on := c.on[id := true], procs := c.procs[id := Joined(c.procs[id], s, c.running)])
  }

  /** A processor given its input, and started if the chain runs. */
  function Joined(p: Proc, s: Stream, running: bool): (r: Proc)
    ensures r.input == s
  {
    var q := Rewire(p, s);
    if running then q.(block := Start(q.block)) else q
  }

  function Disable(c: Chain, id: nat): Chain {
    if id !in c.on || id !in c.procs || !On(c.on, id) then c else
    CloseGap(Stopped(c, id), id)
  }

  /** What follows the block is fed by what precedes it. */
  function CloseGap(c: Chain, id: nat): Chain {
    AttachAt(c, FirstOn(c.on, After(c.links, id)), SourceBefore(c.on, Before(c.links, id), c.input))
  }

  function Stopped(c: Chain, id: nat): Chain
    requires id in c.procs
  {
    c.(procs := c.procs[id := c.procs[id].(block := Stop(c.procs[id].block))], on := c.on[id := false])
  }

  function Add(c: Chain, id: nat, p: Proc, enabled: bool): Chain {
    if id in c.on then c else
    var c1 := c.(links := c.links + [id], on := c.on[id := false], procs := c.procs[id := p]);
    if enabled then Enable(c1, id) else c1
  }

  function Remove(c: Chain, id: nat): Chain {
    if id !in c.on then c else
    var d := Disable(c, id);
    TakenOut(d, id)
  }

  function EnableEach(c: Chain, ids: seq<nat>): Chain
    decreases ids
  {
    if ids == [] then c else EnableEach(Enable(c, ids[0]), ids[1..])
  }

  function DisableEach(c: Chain, ids: seq<nat>): Chain
    decreases ids
  {
    if ids == [] then c else DisableEach(Disable(c, ids[0]), ids[1..])
  }

  function StartAt(procs: Procs, on: Switches, id: nat): Procs {
    if On(on, id) && id in procs then procs[id := procs[id].(block := Start(procs[id].block))] else procs
  }

  function StopAt(procs: Procs, on: Switches, id: nat): Procs {
    if On(on, id) && id in procs then procs[id := procs[id].(block := Stop(procs[id].block))] else procs
  }

  function StartEach(procs: Procs, on: Switches, ids: seq<nat>): Procs
    decreases ids
  {
    if ids == [] then procs else
    StartEach(StartAt(procs, on, ids[0]), on, ids[1..])
  }

  function StopEach(procs: Procs, on: Switches, ids: seq<nat>): Procs
    decreases ids
  {
    if ids == [] then procs else
    StopEach(StopAt(procs, on, ids[0]), on, ids[1..])
  }

  function StartChain(c: Chain): Chain {
    if c.running then c else c.(procs := StartEach(c.procs, c.on, c.links), running := true)
  }

  function StopChain(c: Chain): Chain {
    if c.running then c.(procs := StopEach(c.procs, c.on, c.links), running := false) else c
  }

  // ---------------------------------------------------------------- wiring

  /** The stream that leaves `links` when `src` enters. */
  function Feed(on: Switches, links: seq<nat>, src: Stream): Stream {
    if links == [] then src else Feed(on, links[1..], if On(on, links[0]) then OutOf(links[0]) else src)
  }

  /** Every enabled block reads the nearest enabled block before it, the first one reads `src`. */
  ghost predicate WiredFrom(procs: Procs, on: Switches, links: seq<nat>, src: Stream) {
    links == [] ||
    if On(on, links[0])
    then links[0] in procs && procs[links[0]].input == src && WiredFrom(procs, on, links[1..], OutOf(links[0]))
    else WiredFrom(procs, on, links[1..], src)
  }

  ghost predicate Wired(c: Chain) {
    WiredFrom(c.procs, c.on, c.links, c.input) && c.out == Feed(c.on, c.links, c.input)
  }

  function OnCount(on: Switches, links: seq<nat>): nat {
    if links == [] then 0 else (if On(on, links[0]) then 1 else 0) + OnCount(on, links[1..])
  }

  lemma {:induction false} FeedSplit(on: Switches, a: seq<nat>, b: seq<nat>, src: Stream)
    ensures Feed(on, a + b, src) == Feed(on, b, Feed(on, a, src))
    decreases a
  {
    if a == [] {
      assert a + b == b;
    } else {
      assert (a + b)[1..] == a[1..] + b;
      FeedSplit(on, a[1..], b, if On(on, a[0]) then OutOf(a[0]) else src);
    }
  }

  lemma {:induction false} WiredSplit(procs: Procs, on: Switches, a: seq<nat>, b: seq<nat>, src: Stream)
    ensures WiredFrom(procs, on, a + b, src) <==> WiredFrom(procs, on, a, src) && WiredFrom(procs, on, b, Feed(on, a, src))
    decreases a
  {
    if a == [] {
      assert a + b == b;
    } else {
      assert (a + b)[1..] == a[1..] + b;
      WiredSplit(procs, on, a[1..], b, if On(on, a[0]) then OutOf(a[0]) else src);
    }
  }

  /** Wiring depends only on the blocks it speaks of. */
  lemma {:induction false} WiredFrame(procs: Procs, on: Switches, procs': Procs, on': Switches, links: seq<nat>, src: Stream)
    requires forall id :: id in links ==> On(on, id) == On(on', id)
    requires forall id :: id in links && On(on, id) ==> id in procs && id in procs' && procs[id].input == procs'[id].input
    ensures WiredFrom(procs, on, links, src) == WiredFrom(procs', on', links, src)
    ensures Feed(on, links, src) == Feed(on', links, src) && OnCount(on, links) == OnCount(on', links)
    ensures FirstOn(on, links) == FirstOn(on', links)
    decreases links
  {
    if links != [] {
      assert links[0] in links && forall id :: id in links[1..] ==> id in links;
      WiredFrame(procs, on, procs', on', links[1..], if On(on, links[0]) then OutOf(links[0]) else src);
    }
  }

  lemma {:induction false} FirstOnFacts(on: Switches, links: seq<nat>)
    ensures FirstOn(on, links).Some? ==> FirstOn(on, links).value in links && On(on, FirstOn(on, links).value)
    ensures FirstOn(on, links).None? <==> OnCount(on, links) == 0
  {
    if links != [] { FirstOnFacts(on, links[1..]); }
  }

  lemma {:induction false} FeedFacts(on: Switches, links: seq<nat>, src: Stream)
    ensures OnCount(on, links) == 0 ==> Feed(on, links, src) == src
    ensures OnCount(on, links) > 0 ==> exists id :: id in links && On(on, id) && Feed(on, links, src) == OutOf(id)
    decreases links
  {
    if links != [] {
      FeedFacts(on, links[1..], if On(on, links[0]) then OutOf(links[0]) else src);
      assert links[0] in links && forall id :: id in links[1..] ==> id in links;
    }
  }

  lemma {:induction false} FeedForgets(on: Switches, links: seq<nat>, s: Stream, t: Stream)
    requires OnCount(on, links) > 0
    ensures Feed(on, links, s) == Feed(on, links, t)
    decreases links
  {
    if !On(on, links[0]) { FeedForgets(on, links[1..], s, t); }
  }

  /** The source the code picks is the nearest enabled block exactly when at most one is enabled. */
  lemma {:induction false} SourceIsNearestIff(on: Switches, pre: seq<nat>, input: Stream)
    requires NoRepeats(pre)
    ensures (SourceBefore(on, pre, input) == Feed(on, pre, input)) == (OnCount(on, pre) <= 1)
  {
    if pre != [] {
      if On(on, pre[0]) {
        FeedFacts(on, pre[1..], OutOf(pre[0]));
        assert pre[0] !in pre[1..];
      } else {
        SourceIsNearestIff(on, pre[1..], input);
      }
    }
  }

  /** After attaching `s`, what follows is wired to `s` and to nothing else. */
  lemma {:induction false} AttachWires(procs: Procs, on: Switches, post: seq<nat>, was: Stream, s: Stream, t: Stream)
    requires NoRepeats(post) && WiredFrom(procs, on, post, was)
    requires FirstOn(on, post).Some? ==> FirstOn(on, post).value in procs
    ensures var a := FirstOn(on, post);
            var procs' := if a.Some? then Rewired(procs, a.value, s) else procs;
            WiredFrom(procs', on, post, t) == (a.None? || s == t)
    decreases post
  {
    if post != [] {
      var rest := post[1..];
      assert post[0] !in rest;
      if On(on, post[0]) {
        var procs' := Rewired(procs, post[0], s);
        WiredInProcs(procs, on, rest, OutOf(post[0]));
        WiredFrame(procs, on, procs', on, rest, OutOf(post[0]));
      } else {
        AttachWires(procs, on, rest, was, s, t);
      }
    }
  }

  lemma {:induction false} WiredInProcs(procs: Procs, on: Switches, links: seq<nat>, src: Stream)
    requires WiredFrom(procs, on, links, src)
    ensures forall id :: id in links && On(on, id) ==> id in procs
    decreases links
  {
    if links != [] { WiredInProcs(procs, on, links[1..], if On(on, links[0]) then OutOf(links[0]) else src); }
  }

  lemma {:induction false} Around(links: seq<nat>, id: nat)
    requires id in links && NoRepeats(links)
    ensures links == Before(links, id) + [id] + After(links, id)
    ensures id !in Before(links, id) && id !in After(links, id)
    ensures NoRepeats(Before(links, id)) && NoRepeats(After(links, id))
    ensures forall x :: x in Before(links, id) ==> x !in After(links, id)
  {
    var pre, post := Before(links, id), After(links, id);
    if links[0] == id {
      assert links == [id] + links[1..];
    } else {
      Around(links[1..], id);
      assert links == [links[0]] + links[1..];
      assert pre == [links[0]] + Before(links[1..], id);
      assert links[0] !in links[1..];
    }
  }

  // ---------------------------------------------------------------- one block switched

  /** What switching a block does to the parts of the chain around it. */
  ghost predicate Switched(c: Chain, d: Chain, id: nat, post: seq<nat>, s: Stream) {
    var a := FirstOn(c.on, post);
    && d.links == c.links && d.input == c.input && d.running == c.running && d.procs.Keys == c.procs.Keys
    && (forall x :: x in d.on <==> x in c.on) && (forall x :: x != id ==> On(d.on, x) == On(c.on, x))
    && (forall x :: x in c.procs && x != id && a != Some(x) ==> d.procs[x] == c.procs[x])
    && (a.Some? && a.value in c.procs && a.value != id ==> d.procs[a.value] == Rewire(c.procs[a.value], s))
    && d.out == if a.Some? then c.out else s
  }

  lemma NextIsOther(c: Chain, id: nat)
    requires Shaped(c) && id in c.links
    ensures var a := FirstOn(c.on, After(c.links, id)); a.Some? ==> a.value != id && a.value in c.procs && On(c.on, a.value)
  {
    FirstOnFacts(c.on, After(c.links, id));
    Around(c.links, id);
  }

  lemma AttachSwitches(c: Chain, id: nat, post: seq<nat>, s: Stream)
    requires var a := FirstOn(c.on, post); a.Some? ==> a.value != id && a.value in c.procs
    ensures Switched(c, Attach(c, post, s), id, post, s)
  {
  }

  /** Changing the block itself afterwards is no matter. */
  lemma SwitchedThen(c: Chain, d: Chain, id: nat, post: seq<nat>, s: Stream, b: bool, p: Proc)
    requires Switched(c, d, id, post, s) && id in c.procs && id in c.on
    ensures Switched(c, d.(on := d.on[id := b], procs := d.procs[id := p]), id, post, s)
  {
  }

  lemma SwitchedAfter(c: Chain, d: Chain, id: nat, post: seq<nat>, s: Stream, b: bool, p: Proc)
    requires id in c.procs && id in c.on && (FirstOn(c.on, post) == FirstOn(c.on[id := b], post))
    requires FirstOn(c.on, post).Some? ==> FirstOn(c.on, post).value != id
    requires Switched(c.(on := c.on[id := b], procs := c.procs[id := p]), d, id, post, s)
    ensures Switched(c, d, id, post, s)
  {
  }

  lemma EnableSwitches(c: Chain, id: nat)
    requires Shaped(c) && id in c.links && !On(c.on, id)
    ensures var d := Enable(c, id);
            var b := SourceBefore(c.on, Before(c.links, id), c.input);
            && Switched(c, d, id, After(c.links, id), OutOf(id)) && On(d.on, id)
            && d.procs[id] == Joined(c.procs[id], b, c.running)
  {
    var b, post := SourceBefore(c.on, Before(c.links, id), c.input), After(c.links, id);
    NextIsOther(c, id);
    AttachSwitches(c, id, post, OutOf(id));
    var c1 := Attach(c, post, OutOf(id));
    SwitchedThen(c, c1, id, post, OutOf(id), true, Joined(c1.procs[id], b, c.running));
  }

  lemma DisableSwitches(c: Chain, id: nat)
    requires Shaped(c) && id in c.links && On(c.on, id)
    ensures var d := Disable(c, id);
            && Switched(c, d, id, After(c.links, id), SourceBefore(c.on, Before(c.links, id), c.input)) && !On(d.on, id)
            && d.procs[id] == c.procs[id].(block := Stop(c.procs[id].block))
  {
    var pre, post := Before(c.links, id), After(c.links, id);
    var s := SourceBefore(c.on, pre, c.input);
    var p := c.procs[id].(block := Stop(c.procs[id].block));
    NextIsOther(c, id);
    SameNeighbours(c, id);
    var c1 := c.(on := c.on[id := false], procs := c.procs[id := p]);
    AttachSwitches(c1, id, post, s);
    SwitchedAfter(c, Attach(c1, post, s), id, post, s, false, p);
  }

  /** A block's own switch does not matter to its neighbours. */
  lemma SameNeighbours(c: Chain, id: nat)
    requires Shaped(c) && id in c.links
    ensures FirstOn(c.on[id := false], Before(c.links, id)) == FirstOn(c.on, Before(c.links, id))
    ensures FirstOn(c.on[id := false], After(c.links, id)) == FirstOn(c.on, After(c.links, id))
  {
    Around(c.links, id);
    NoWiring(c.on, c.on[id := false], Before(c.links, id));
    NoWiring(c.on, c.on[id := false], After(c.links, id));
  }

  lemma {:induction false} NoWiring(on: Switches, on': Switches, links: seq<nat>)
    requires forall id :: id in links ==> On(on, id) == On(on', id)
    ensures FirstOn(on, links) == FirstOn(on', links) && OnCount(on, links) == OnCount(on', links)
  {
    if links != [] {
      assert links[0] in links && forall id :: id in links[1..] ==> id in links;
      NoWiring(on, on', links[1..]);
    }
  }

  /** The wiring of a chain, seen from one of its blocks. */
  lemma WiredAround(c: Chain, id: nat)
    requires id in c.links && NoRepeats(c.links)
    ensures var pre, post := Before(c.links, id), After(c.links, id);
            var u := Feed(c.on, pre, c.input);
            var v := if On(c.on, id) then OutOf(id) else u;
            && Feed(c.on, c.links, c.input) == Feed(c.on, post, v)
            && (WiredFrom(c.procs, c.on, c.links, c.input) <==>
                WiredFrom(c.procs, c.on, pre, c.input) && WiredFrom(c.procs, c.on, post, v) &&
                (On(c.on, id) ==> id in c.procs && c.procs[id].input == u))
  {
    var pre, post := Before(c.links, id), After(c.links, id);
    Around(c.links, id);
    FeedSplit(c.on, pre + [id], post, c.input);
    FeedSplit(c.on, pre, [id], c.input);
    WiredSplit(c.procs, c.on, pre + [id], post, c.input);
    WiredSplit(c.procs, c.on, pre, [id], c.input);
    assert [id][1..] == [];
  }

  lemma PartsOf(c: Chain, id: nat)
    requires Shaped(c) && id in c.links
    ensures forall x :: x in Before(c.links, id) ==> x in c.procs && x != id && Some(x) != FirstOn(c.on, After(c.links, id))
    ensures forall x :: x in After(c.links, id) ==> x in c.procs && x != id
    ensures NoRepeats(After(c.links, id)) && NoRepeats(Before(c.links, id))
  {
    var pre, post := Before(c.links, id), After(c.links, id);
    Around(c.links, id);
    FirstOnFacts(c.on, post);
    assert forall x :: x in pre ==> x in c.links;
    assert forall x :: x in post ==> x in c.links;
  }

  /** The part before a switched block stays as it is. */
  lemma SwitchedPre(c: Chain, d: Chain, id: nat, s: Stream)
    requires Shaped(c) && id in c.links && Switched(c, d, id, After(c.links, id), s)
    ensures var pre := Before(c.links, id);
            && WiredFrom(d.procs, d.on, pre, d.input) == WiredFrom(c.procs, c.on, pre, c.input)
            && Feed(d.on, pre, d.input) == Feed(c.on, pre, c.input)
  {
    PartsOf(c, id);
    FrameBoth(c.procs, c.on, d.procs, d.on, Before(c.links, id), c.input);
  }

  /** The part after it is wired to the stream it was attached to. */
  lemma SwitchedPost(c: Chain, d: Chain, id: nat, s: Stream, was: Stream, t: Stream)
    requires Shaped(c) && id in c.links && Switched(c, d, id, After(c.links, id), s)
    requires WiredFrom(c.procs, c.on, After(c.links, id), was)
    ensures var post := After(c.links, id);
            && WiredFrom(d.procs, d.on, post, t) == (FirstOn(c.on, post).None? || s == t)
            && Feed(d.on, post, t) == (if FirstOn(c.on, post).Some? then Feed(c.on, post, was) else t)
  {
    var post := After(c.links, id);
    PartsOf(c, id);
    FirstOnFacts(c.on, post);
    AttachWires(c.procs, c.on, post, was, s, t);
    var a := FirstOn(c.on, post);
    var procs' := if a.Some? then Rewired(c.procs, a.value, s) else c.procs;
    forall x | x in post ensures x in procs' && x in d.procs && procs'[x] == d.procs[x] {}
    FrameBoth(procs', c.on, d.procs, d.on, post, t);
    if a.Some? { FeedForgets(c.on, post, was, t); } else { FeedFacts(c.on, post, t); }
  }

  /** Enabling a block keeps a well-wired chain well wired exactly when at most one block before it is
      enabled. */
  lemma EnableWiredIff(c: Chain, id: nat)
    requires Shaped(c) && Wired(c) && id in c.links && !On(c.on, id)
    ensures Wired(Enable(c, id)) == (OnCount(c.on, Before(c.links, id)) <= 1)
  {
    var pre, post := Before(c.links, id), After(c.links, id);
    var d, u := Enable(c, id), Feed(c.on, pre, c.input);
    Around(c.links, id);
    WiredAround(c, id);
    EnableSwitches(c, id);
    SwitchedPre(c, d, id, OutOf(id));
    SwitchedPost(c, d, id, OutOf(id), u, OutOf(id));
    WiredAround(d, id);
    SourceIsNearestIff(c.on, pre, c.input);
  }

  /** Likewise for disabling. */
  lemma DisableWiredIff(c: Chain, id: nat)
    requires Shaped(c) && Wired(c) && id in c.links && On(c.on, id)
    ensures Wired(Disable(c, id)) == (OnCount(c.on, Before(c.links, id)) <= 1)
  {
    var pre, post := Before(c.links, id), After(c.links, id);
    var d, u := Disable(c, id), Feed(c.on, pre, c.input);
    Around(c.links, id);
    WiredAround(c, id);
    DisableSwitches(c, id);
    SwitchedPre(c, d, id, SourceBefore(c.on, pre, c.input));
    SwitchedPost(c, d, id, SourceBefore(c.on, pre, c.input), OutOf(id), u);
    WiredAround(d, id);
    SourceIsNearestIff(c.on, pre, c.input);
  }

  /** Changing the chain's input never upsets the wiring. */
  lemma SetInputKeepsWired(c: Chain, s: Stream)
    requires Shaped(c) && Wired(c)
    ensures Wired(SetInput(c, s))
  {
    var d := SetInput(c, s);
    FirstOnFacts(c.on, c.links);
    AttachWires(c.procs, c.on, c.links, c.input, s, s);
    if FirstOn(c.on, c.links).Some? { FeedForgets(c.on, c.links, c.input, s); } else { FeedFacts(c.on, c.links, s); }
  }

  // ---------------------------------------------------------------- blocks added and removed

  lemma {:induction false} BeforeAfterLast(links: seq<nat>, id: nat)
    requires id !in links
    ensures Before(links + [id], id) == links && After(links + [id], id) == []
  {
    if links != [] {
      assert (links + [id])[1..] == links[1..] + [id];
      BeforeAfterLast(links[1..], id);
    } else {
      assert links + [id] == [id];
    }
  }

  lemma AddShaped(c: Chain, id: nat, p: Proc)
    requires Shaped(c) && id !in c.links && Wired(c)
    ensures var d := Add(c, id, p, false); Shaped(d) && Wired(d) && d.links == c.links + [id] && !On(d.on, id)
    ensures OnCount(Add(c, id, p, false).on, c.links) == OnCount(c.on, c.links)
  {
    var d := Add(c, id, p, false);
    WiredInProcs(c.procs, c.on, c.links, c.input);
    WiredFrame(c.procs, c.on, d.procs, d.on, c.links, c.input);
    WiredSplit(d.procs, d.on, c.links, [id], c.input);
    FeedSplit(d.on, c.links, [id], c.input);
    assert [id][1..] == [];
  }

  /** A block added disabled changes nothing; added enabled it is wired right exactly when at most one
      block is enabled already. */
  lemma AddWiredIff(c: Chain, id: nat, p: Proc, enabled: bool)
    requires Shaped(c) && Wired(c) && id !in c.links
    ensures Wired(Add(c, id, p, enabled)) == (!enabled || OnCount(c.on, c.links) <= 1)
  {
    AddShaped(c, id, p);
    var d := Add(c, id, p, false);
    BeforeAfterLast(c.links, id);
    if enabled { EnableWiredIff(d, id); }
  }

  function TakenOut(d: Chain, id: nat): Chain {
    d.(links := Unlinked(d.links, id), on := d.on - {id}, procs := d.procs - {id})
  }

  function Unlinked(links: seq<nat>, id: nat): seq<nat> { Before(links, id) + After(links, id) }

  lemma UnlinkedFacts(links: seq<nat>, id: nat)
    requires NoRepeats(links) && id in links
    ensures NoRepeats(Unlinked(links, id))
    ensures forall x :: x in Unlinked(links, id) <==> x in links && x != id
  {
    var pre, post := Before(links, id), After(links, id);
    Around(links, id);
    forall x ensures x in pre + post <==> x in links && x != id { assert x in links <==> x in pre || x == id || x in post; }
    forall i, j | 0 <= i < j < |pre + post| ensures (pre + post)[i] != (pre + post)[j] {
      if i < |pre| <= j { assert pre[i] in pre && post[j - |pre|] in post; }
    }
  }

  lemma TakeOutShaped(d: Chain, id: nat)
    requires Shaped(d) && id in d.links
    ensures Shaped(TakenOut(d, id))
  {
    UnlinkedFacts(d.links, id);
  }

  /** Removing a block that is off leaves the wiring alone. */
  lemma TakeOutWired(d: Chain, id: nat)
    requires Shaped(d) && id in d.links && !On(d.on, id)
    ensures Wired(TakenOut(d, id)) == Wired(d)
  {
    var pre, post, r := Before(d.links, id), After(d.links, id), TakenOut(d, id);
    PartsOf(d, id);
    WiredAround(d, id);
    WiredSplit(r.procs, r.on, pre, post, r.input);
    FeedSplit(r.on, pre, post, r.input);
    TakeOutFrame(d, id, pre, d.input);
    TakeOutFrame(d, id, post, Feed(d.on, pre, d.input));
  }

  lemma TakeOutFrame(d: Chain, id: nat, part: seq<nat>, src: Stream)
    requires forall x :: x in part ==> x in d.procs && x != id
    ensures var r := TakenOut(d, id);
            WiredFrom(d.procs, d.on, part, src) == WiredFrom(r.procs, r.on, part, src) && Feed(d.on, part, src) == Feed(r.on, part, src)
  {
    var r := TakenOut(d, id);
    FrameBoth(d.procs, d.on, r.procs, r.on, part, src);
  }

  lemma FrameBoth(procs: Procs, on: Switches, procs': Procs, on': Switches, links: seq<nat>, src: Stream)
    requires forall id :: id in links ==> On(on, id) == On(on', id)
    requires forall id :: id in links ==> id in procs && id in procs' && procs[id] == procs'[id]
    ensures WiredFrom(procs, on, links, src) == WiredFrom(procs', on', links, src)
    ensures Feed(on, links, src) == Feed(on', links, src)
  {
    WiredFrame(procs, on, procs', on', links, src);
  }

  lemma SwitchKeepsShaped(c: Chain, id: nat)
    requires Shaped(c)
    ensures Shaped(Enable(c, id)) && Shaped(Disable(c, id))
    ensures Enable(c, id).links == c.links && Disable(c, id).links == c.links
  {
    if id in c.links {
      if On(c.on, id) { DisableSwitches(c, id); } else { EnableSwitches(c, id); }
    }
  }

  lemma RemoveWiredIff(c: Chain, id: nat)
    requires Shaped(c) && Wired(c) && id in c.links
    ensures Shaped(Remove(c, id))
    ensures Wired(Remove(c, id)) == (!On(c.on, id) || OnCount(c.on, Before(c.links, id)) <= 1)
  {
    var d := Disable(c, id);
    SwitchKeepsShaped(c, id);
    if On(c.on, id) {
      DisableWiredIff(c, id);
      DisableSwitches(c, id);
    }
    TakeOutShaped(d, id);
    TakeOutWired(d, id);
  }
}
