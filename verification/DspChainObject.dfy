/** The chain as an object that rewires the processors it links: core/src/dsp/chain.h.

    Every method takes the step of module DspChains of the same name.  Processors are referred to by
    name, which stands for their address; `at` resolves it.  `changed` is what the source passes to
    its callback, when it calls it. */
module DspChainObjects {
  import opened Wrappers
  import opened Seqs
  import opened DspBlocks
  import opened DspChains

  class BlockChain {
    var input: Stream
    var out: Stream
    var links: seq<nat>
    var states: Switches
    var running: bool
    var at: map<nat, Processor>
    ghost var objects: set<Processor>
    ghost var procs: Procs

    /** `procs` mirrors the state of the linked processors, which are among `objects`. */
    ghost predicate Valid()
      reads this, objects
    {
      && procs.Keys == at.Keys && states.Keys == at.Keys
      && (forall id :: id in at ==> at[id] in objects && at[id].id == id && procs[id] == at[id].data)
      && NoRepeats(links) && (forall id :: id in links <==> id in at)
    }

    ghost function View(): Chain
      reads this
    {
      Chain(input, out, links, states, procs, running)
    }

    constructor (s: Stream)
      ensures Valid() && View() == Chain(s, s, [], map[], map[], false) && objects == {}
    {
      input, out, links, states, running, at, objects, procs := s, s, [], map[], false, map[], {}, map[];
    }

    // ---------------------------------------------------------------- one processor

    method RewireBlock(id: nat, s: Stream)
      requires Valid() && id in at
      modifies this`procs, at[id]
      ensures Valid() && procs == old(procs)[id := Rewire(old(procs)[id], s)]
    {
      at[id].SetInput(s);
      procs := procs[id := at[id].data];
    }

    method StartOne(id: nat)
      requires Valid() && id in at
      modifies this`procs, at[id]
      ensures Valid() && procs == old(procs)[id := old(procs)[id].(block := Start(old(procs)[id].block))]
    {
      at[id].StartBlock();
      procs := procs[id := at[id].data];
    }

    method StopOne(id: nat)
      requires Valid() && id in at
      modifies this`procs, at[id]
      ensures Valid() && procs == old(procs)[id := old(procs)[id].(block := Stop(old(procs)[id].block))]
    {
      at[id].StopBlock();
      procs := procs[id := at[id].data];
    }

    method FeedBlock(id: nat, s: Stream)
      requires Valid() && id in at
      modifies this`procs, at[id]
      ensures Valid() && procs == old(procs)[id := Joined(old(procs)[id], s, running)]
    {
      ghost var before := procs;
      RewireBlock(id, s);
      if running { StartOne(id); }
      FedIs(before, procs, id, s, running);
    }

    method JoinBlock(id: nat, s: Stream)
      requires Valid() && id in at
      modifies this`procs, this`states, at[id]
      ensures Valid() && states == old(states)[id := true]
      ensures procs == old(procs)[id := Joined(old(procs)[id], s, running)]
    {
      FeedBlock(id, s);
      SwitchTo(id, true);
    }

    method SwitchTo(id: nat, on: bool)
      requires Valid() && id in at
      modifies this`states
      ensures Valid() && states == old(states)[id := on]
    {
      states := states[id := on];
    }

    // ---------------------------------------------------------------- neighbours

    method BlockBefore(id: nat) returns (b: Option<nat>)
      requires id in links && forall x :: x in links ==> x in states
      ensures b == FirstOn(states, Before(links, id))
    {
      var i := 0;
      while i < |links|
        invariant 0 <= i <= |links| && id in links[i..]
        invariant FirstOn(states, Before(links[i..], id)) == FirstOn(states, Before(links, id))
      {
        if links[i] == id { return None; }
        BeforeStep(states, links, i, id);
        if states[links[i]] { return Some(links[i]); }
        i := i + 1;
      }
      b := None;
    }

    method BlockAfter(id: nat) returns (a: Option<nat>)
      requires id in links && NoRepeats(links) && forall x :: x in links ==> x in states
      ensures a == FirstOn(states, After(links, id))
    {
      var found := false;
      for i := 0 to |links|
        invariant !found ==> id in links[i..] && After(links[i..], id) == After(links, id)
        invariant found ==> id !in links[i..] && FirstOn(states, links[i..]) == FirstOn(states, After(links, id))
      {
        AfterStep(states, links, i, id);
        if links[i] == id {
          found := true;
          continue;
        }
        if states[links[i]] && found { return Some(links[i]); }
      }
      a := None;
    }

    /** What follows the touched block reads `s`, or the output becomes `s`. */
    method AttachTo(after: Option<nat>, s: Stream) returns (changed: Option<Stream>)
      requires Valid() && (after.Some? ==> after.value in at)
      modifies this`procs, this`out, objects
      ensures Valid() && View() == AttachAt(old(View()), after, s)
      ensures changed == if after.None? then Some(out) else None
    {
      if after.Some? {
        RewireBlock(after.value, s);
        changed := None;
      } else {
        out := s;
        changed := Some(out);
      }
    }

    // ---------------------------------------------------------------- operations

    /** Not `ok` is the source's exception for a block that is not in the chain. */
    method EnableBlock(id: nat) returns (ok: bool, changed: Option<Stream>)
      requires Valid()
      modifies this`procs, this`out, this`states, objects
      ensures Valid() && View() == Enable(old(View()), id) && ok == (id in old(states))
      ensures if changed.Some? then changed.value == out else out == old(out)
    {
      changed := None;
      ok := id in states;
      if !ok || states[id] { return; }
      var before := BlockBefore(id);
      var after := BlockAfter(id);
      NeighbourLinked(states, links, id);
      changed := InsertBlock(id, before, after);
    }

    method InsertBlock(id: nat, before: Option<nat>, after: Option<nat>) returns (changed: Option<Stream>)
      requires Valid() && id in at && (after.Some? ==> after.value in at)
      modifies this`procs, this`out, this`states, objects
      ensures Valid() && View() == EnableBetween(old(View()), id, before, after)
      ensures changed == if after.None? then Some(out) else None
    {
      changed := AttachTo(after, OutOf(id));
      ghost var c := View();
      var s := if before.Some? then OutOf(before.value) else input;
      JoinBlock(id, s);
      assert input == c.input;
      assert out == c.out;
      assert links == c.links;
      assert running == c.running;
      JoinedIs(c, id, s, procs, states);
      assert View() == JoinAt(c, id, s);
      assert c == AttachAt(old(View()), after, OutOf(id));
    }

    method DisableBlock(id: nat) returns (ok: bool, changed: Option<Stream>)
      requires Valid()
      modifies this`procs, this`out, this`states, objects
      ensures Valid() && View() == Disable(old(View()), id) && ok == (id in old(states))
      ensures if changed.Some? then changed.value == out else out == old(out)
    {
      changed := None;
      ok := id in states;
      if !ok || !states[id] { return; }
      ghost var c := View();
      StopLinked(id);
      StoppedIs(c, id, procs, states);
      changed := Bypass(id);
    }

    method Bypass(id: nat) returns (changed: Option<Stream>)
      requires Valid() && id in at
      modifies this`procs, this`out, objects
      ensures Valid() && View() == CloseGap(old(View()), id)
      ensures if changed.Some? then changed.value == out else out == old(out)
    {
      var before := BlockBefore(id);
      var after := BlockAfter(id);
      NeighbourLinked(states, links, id);
      changed := AttachTo(after, if before.Some? then OutOf(before.value) else input);
    }

    method StopLinked(id: nat)
      requires Valid() && id in at
      modifies this`procs, this`states, at[id]
      ensures Valid() && states == old(states)[id := false]
      ensures procs == old(procs)[id := old(procs)[id].(block := Stop(old(procs)[id].block))]
    {
      StopOne(id);
      SwitchTo(id, false);
    }

    method SetChainInput(s: Stream) returns (changed: Option<Stream>)
      requires Valid()
      modifies this`input, this`procs, this`out, objects
      ensures Valid() && View() == SetInput(old(View()), s)
      ensures if changed.Some? then changed.value == out else out == old(out)
    {
      input := s;
      var first := FirstEnabled();
      FirstOnFacts(states, links);
      changed := AttachTo(first, s);
    }

    method FirstEnabled() returns (first: Option<nat>)
      requires forall x :: x in links ==> x in states
      ensures first == FirstOn(states, links)
    {
      for i := 0 to |links|
        invariant FirstOn(states, links) == FirstOn(states, links[i..])
      {
        assert links[i..][0] == links[i] && links[i..][1..] == links[i + 1..];
        if states[links[i]] { return Some(links[i]); }
      }
      first := None;
    }

    method AddBlock(block: Processor, enabled: bool) returns (ok: bool)
      requires Valid()
      modifies this, objects, block
      ensures Valid() && ok == (block.id !in old(states)) && objects == old(objects) + (if ok then {block} else {})
      ensures View() == Add(old(View()), block.id, old(block.data), enabled)
    {
      ok := block.id !in states;
      if !ok { return; }
      LinkBlock(block);
      if enabled { var _, _ := EnableBlock(block.id); }
    }

    method LinkBlock(block: Processor)
      requires Valid() && block.id !in states
      modifies this`links, this`states, this`at, this`objects, this`procs
      ensures Valid() && objects == old(objects) + {block}
      ensures View() == Add(old(View()), block.id, block.data, false)
    {
      links := links + [block.id];
      states := states[block.id := false];
      at := at[block.id := block];
      objects := objects + {block};
      procs := procs[block.id := block.data];
    }

    method RemoveBlock(id: nat) returns (ok: bool, changed: Option<Stream>)
      requires Valid()
      modifies this, objects
      ensures Valid() && View() == Remove(old(View()), id) && ok == (id in old(states)) && objects == old(objects)
      ensures if changed.Some? then changed.value == out else out == old(out)
    {
      ok, changed := DisableBlock(id);
      if !ok { return; }
      UnlinkBlock(id);
    }

    method UnlinkBlock(id: nat)
      requires Valid() && id in states
      modifies this`links, this`states, this`at, this`procs
      ensures Valid() && View() == TakenOut(old(View()), id)
    {
      UnlinkedFacts(links, id);
      LeaveLinked(id, Unlinked(links, id));
    }

    method LeaveLinked(id: nat, rest: seq<nat>)
      requires Valid() && id in states && NoRepeats(rest) && forall x :: x in rest <==> x in links && x != id
      modifies this`links, this`states, this`at, this`procs
      ensures Valid() && links == rest && states == old(states) - {id} && procs == old(procs) - {id}
    {
      links, states, at, procs := rest, states - {id}, at - {id}, procs - {id};
    }

    method EnableNext(i: nat, ghost t: seq<Chain>)
      requires Valid() && i < |links| && Trail(Enable, links, t) && View() == t[i]
      modifies this`procs, this`out, this`states, objects
      ensures Valid() && View() == t[i + 1]
    {
      var _, _ := EnableBlock(links[i]);
    }

    method EnableAllBlocks()
      requires Valid()
      modifies this`procs, this`out, this`states, objects
      ensures Valid() && View() == EnableEach(old(View()), links)
    {
      ghost var t := EnableTrail(View(), links);
      for i := 0 to |links|
        invariant Valid() && View() == t[i]
      {
        EnableNext(i, t);
      }
    }

    method DisableNext(i: nat, ghost t: seq<Chain>)
      requires Valid() && i < |links| && Trail(Disable, links, t) && View() == t[i]
      modifies this`procs, this`out, this`states, objects
      ensures Valid() && View() == t[i + 1]
    {
      var _, _ := DisableBlock(links[i]);
    }

    method DisableAllBlocks()
      requires Valid()
      modifies this`procs, this`out, this`states, objects
      ensures Valid() && View() == DisableEach(old(View()), links)
    {
      ghost var t := DisableTrail(View(), links);
      for i := 0 to |links|
        invariant Valid() && View() == t[i]
      {
        DisableNext(i, t);
      }
    }

    method StartAll()
      requires Valid()
      modifies this`procs, this`running, objects
      ensures Valid() && View() == StartChain(old(View()))
    {
      if running { return; }
      StartLinks();
      running := true;
    }

    method StartLinks()
      requires Valid()
      modifies this`procs, objects
      ensures Valid() && procs == StartEach(old(procs), states, links)
    {
      ghost var t := StartTrail(procs, states, links);
      for i := 0 to |links|
        invariant Valid() && procs == t[i]
      {
        if !states[links[i]] { continue; }
        StartOne(links[i]);
      }
    }

    method StopAll()
      requires Valid()
      modifies this`procs, this`running, objects
      ensures Valid() && View() == StopChain(old(View()))
    {
      if !running { return; }
      StopLinks();
      running := false;
    }

    method StopLinks()
      requires Valid()
      modifies this`procs, objects
      ensures Valid() && procs == StopEach(old(procs), states, links)
    {
      ghost var t := StopTrail(procs, states, links);
      for i := 0 to |links|
        invariant Valid() && procs == t[i]
      {
        if !states[links[i]] { continue; }
        StopOne(links[i]);
      }
    }
  }

  lemma FedIs(before: Procs, procs: Procs, id: nat, s: Stream, running: bool)
    requires id in before
    requires var p := Rewire(before[id], s);
             procs == if running then before[id := p][id := p.(block := Start(p.block))] else before[id := p]
    ensures procs == before[id := Joined(before[id], s, running)]
  {
  }

  lemma JoinedIs(c: Chain, id: nat, s: Stream, procs: Procs, on: Switches)
    requires id in c.procs && procs == c.procs[id := Joined(c.procs[id], s, c.running)] && on == c.on[id := true]
    ensures JoinAt(c, id, s) == Chain(c.input, c.out, c.links, on, procs, c.running)
  {
  }

  lemma StoppedIs(c: Chain, id: nat, procs: Procs, on: Switches)
    requires id in c.procs && on == c.on[id := false]
    requires procs == c.procs[id := c.procs[id].(block := Stop(c.procs[id].block))]
    ensures Stopped(c, id) == Chain(c.input, c.out, c.links, on, procs, c.running)
  {
  }

  /** The states on the way when `step` is taken for each of ids in turn. */
  ghost predicate Trail<S(!new)>(step: (S, nat) -> S, ids: seq<nat>, t: seq<S>) {
    |t| == |ids| + 1 && forall k :: 0 <= k < |ids| ==> t[k + 1] == step(t[k], ids[k])
  }

  /** One step of starting the enabled blocks. */
  function StartOn(on: Switches): (Procs, nat) -> Procs { (procs: Procs, id: nat) => StartAt(procs, on, id) }

  lemma {:induction false} StartTrail(procs: Procs, on: Switches, ids: seq<nat>) returns (t: seq<Procs>)
    ensures Trail(StartOn(on), ids, t) && t[0] == procs && t[|ids|] == StartEach(procs, on, ids)
    decreases ids
  {
    t := [procs];
    if ids != [] {
      var rest := StartTrail(StartAt(procs, on, ids[0]), on, ids[1..]);
      t := [procs] + rest;
    }
  }

  /** One step of stopping the enabled blocks. */
  function StopOn(on: Switches): (Procs, nat) -> Procs { (procs: Procs, id: nat) => StopAt(procs, on, id) }

  lemma {:induction false} StopTrail(procs: Procs, on: Switches, ids: seq<nat>) returns (t: seq<Procs>)
    ensures Trail(StopOn(on), ids, t) && t[0] == procs && t[|ids|] == StopEach(procs, on, ids)
    decreases ids
  {
    t := [procs];
    if ids != [] {
      var rest := StopTrail(StopAt(procs, on, ids[0]), on, ids[1..]);
      t := [procs] + rest;
    }
  }

  lemma {:induction false} EnableTrail(c: Chain, ids: seq<nat>) returns (t: seq<Chain>)
    ensures Trail(Enable, ids, t) && t[0] == c && t[|ids|] == EnableEach(c, ids)
    decreases ids
  {
    t := [c];
    if ids != [] {
      var rest := EnableTrail(Enable(c, ids[0]), ids[1..]);
      t := [c] + rest;
    }
  }

  lemma {:induction false} DisableTrail(c: Chain, ids: seq<nat>) returns (t: seq<Chain>)
    ensures Trail(Disable, ids, t) && t[0] == c && t[|ids|] == DisableEach(c, ids)
    decreases ids
  {
    t := [c];
    if ids != [] {
      var rest := DisableTrail(Disable(c, ids[0]), ids[1..]);
      t := [c] + rest;
    }
  }

  lemma BeforeStep(on: Switches, links: seq<nat>, i: nat, id: nat)
    requires i < |links| && links[i] != id && id in links[i..]
    ensures id in links[i + 1..]
    ensures FirstOn(on, Before(links[i..], id)) == if On(on, links[i]) then Some(links[i]) else FirstOn(on, Before(links[i + 1..], id))
  {
    var s := links[i..];
    assert s == [links[i]] + links[i + 1..] && s[1..] == links[i + 1..];
    assert ([s[0]] + Before(s[1..], id))[1..] == Before(s[1..], id);
  }

  lemma AfterStep(on: Switches, links: seq<nat>, i: nat, id: nat)
    requires i < |links| && NoRepeats(links)
    ensures links[i] == id ==> After(links[i..], id) == links[i + 1..] && id !in links[i + 1..]
    ensures links[i] != id ==> After(links[i..], id) == After(links[i + 1..], id)
    ensures links[i] != id ==> (id in links[i..] <==> id in links[i + 1..])
    ensures FirstOn(on, links[i..]) == if On(on, links[i]) then Some(links[i]) else FirstOn(on, links[i + 1..])
  {
    var s := links[i..];
    assert s == [links[i]] + links[i + 1..] && s[1..] == links[i + 1..];
    assert links[i] !in links[i + 1..];
  }

  lemma NeighbourLinked(on: Switches, links: seq<nat>, id: nat)
    requires id in links && NoRepeats(links)
    ensures var a := FirstOn(on, After(links, id)); a.Some? ==> a.value in links && a.value != id
  {
    FirstOnFacts(on, After(links, id));
    Around(links, id);
  }
}
