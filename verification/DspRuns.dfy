/** Sequences of operations on a chain of DSP processors: core/src/dsp/chain.h. */
module DspRuns {
  import opened Wrappers
  import opened Seqs
  import opened DspBlocks
  import opened DspChains

  // ---------------------------------------------------------------- all blocks at once

  lemma {:induction false} BeforeAt(links: seq<nat>, i: nat)
    requires i < |links| && NoRepeats(links)
    ensures Before(links, links[i]) == links[..i] && After(links, links[i]) == links[i + 1..]
  {
    if i > 0 {
      assert links[1..][i - 1] == links[i] && links[0] != links[i];
      BeforeAt(links[1..], i - 1);
      assert links[..i] == [links[0]] + links[1..][..i - 1];
    }
  }

  lemma {:induction false} CountAll(on: Switches, links: seq<nat>, state: bool)
    requires forall id :: id in links ==> On(on, id) == state
    ensures OnCount(on, links) == if state then |links| else 0
  {
    if links != [] { CountAll(on, links[1..], state); }
  }

  lemma OthersSame(c: Chain, id: nat, x: nat)
    requires Shaped(c) && x != id
    ensures On(Enable(c, id).on, x) == On(c.on, x) && On(Disable(c, id).on, x) == On(c.on, x)
    ensures Enable(c, id).input == c.input && Disable(c, id).input == c.input
    ensures Enable(c, id).running == c.running && Disable(c, id).running == c.running
  {
    if id in c.links {
      if On(c.on, id) { DisableSwitches(c, id); } else { EnableSwitches(c, id); }
    }
  }

  lemma SelfSwitched(c: Chain, id: nat)
    requires Shaped(c) && id in c.links
    ensures On(Enable(c, id).on, id) && !On(Disable(c, id).on, id)
  {
    if On(c.on, id) { DisableSwitches(c, id); } else { EnableSwitches(c, id); }
  }

  /** The block at place i is enabled, as is everything before it, but it does not read the output of
      the block before it. */
  ghost predicate Misread(c: Chain, i: nat) {
    && i < |c.links| && (forall j :: 0 <= j <= i ==> On(c.on, c.links[j])) && c.links[i] in c.procs
    && c.procs[c.links[i]].input != Feed(c.on, c.links[..i], c.input)
  }

  lemma MisreadIsUnwired(c: Chain, i: nat)
    requires Shaped(c) && Misread(c, i)
    ensures !Wired(c)
  {
    BeforeAt(c.links, i);
    WiredAround(c, c.links[i]);
  }

  lemma MisreadStays(c: Chain, i: nat, k: nat)
    requires Shaped(c) && Misread(c, i) && i < k < |c.links|
    ensures Misread(Enable(c, c.links[k]), i)
  {
    var d, id := Enable(c, c.links[k]), c.links[k];
    if !On(c.on, id) {
      BeforeAt(c.links, k);
      EnableSwitches(c, id);
      FirstOnFacts(c.on, c.links[k + 1..]);
      assert c.links[i] !in c.links[k + 1..];
      forall j | 0 <= j <= i ensures On(d.on, c.links[j]) { assert c.links[j] != id; }
      SameFeed(c, d, i);
    }
  }

  lemma SameFeed(c: Chain, d: Chain, i: nat)
    requires i < |c.links| && forall j :: 0 <= j <= i ==> On(c.on, c.links[j]) && On(d.on, c.links[j])
    ensures Feed(d.on, c.links[..i], c.input) == Feed(c.on, c.links[..i], c.input)
  {
    FeedFrame(c.on, d.on, c.links[..i], c.input);
  }

  lemma {:induction false} FeedFrame(on: Switches, on': Switches, links: seq<nat>, src: Stream)
    requires forall id :: id in links ==> On(on, id) == On(on', id)
    ensures Feed(on, links, src) == Feed(on', links, src)
    decreases links
  {
    if links != [] {
      assert links[0] in links && forall id :: id in links[1..] ==> id in links;
      FeedFrame(on, on', links[1..], if On(on, links[0]) then OutOf(links[0]) else src);
    }
  }

  lemma {:induction false} MisreadForGood(c: Chain, i: nat, places: seq<nat>)
    requires Shaped(c) && Misread(c, i) && forall j :: 0 <= j < |places| ==> i < places[j] < |c.links|
    ensures !Wired(EnableEach(c, NamesAt(c.links, places)))
    decreases places
  {
    if places == [] {
      MisreadIsUnwired(c, i);
    } else {
      var k := places[0];
      MisreadStays(c, i, k);
      SwitchKeepsShaped(c, c.links[k]);
      MisreadForGood(Enable(c, c.links[k]), i, places[1..]);
      assert NamesAt(c.links, places)[1..] == NamesAt(c.links, places[1..]);
    }
  }

  function NamesAt(links: seq<nat>, places: seq<nat>): (r: seq<nat>)
    requires forall j :: 0 <= j < |places| ==> places[j] < |links|
    ensures |r| == |places|
  {
    seq(|places|, j requires 0 <= j < |places| => links[places[j]])
  }

  ghost predicate OnFrom(c: Chain, i: nat) { forall j :: i <= j < |c.links| && j >= 2 ==> On(c.on, c.links[j]) }

  lemma SwitchAt(c: Chain, i: nat)
    requires Shaped(c) && i < |c.links|
    ensures var d, e := Enable(c, c.links[i]), Disable(c, c.links[i]);
            && Shaped(d) && Shaped(e) && d.links == c.links && e.links == c.links
            && On(d.on, c.links[i]) && !On(e.on, c.links[i])
            && forall j :: 0 <= j < |c.links| && j != i ==>
                 On(d.on, c.links[j]) == On(c.on, c.links[j]) && On(e.on, c.links[j]) == On(c.on, c.links[j])
  {
    SwitchKeepsShaped(c, c.links[i]);
    SelfSwitched(c, c.links[i]);
    forall j | 0 <= j < |c.links| && j != i
      ensures On(Enable(c, c.links[i]).on, c.links[j]) == On(c.on, c.links[j])
      ensures On(Disable(c, c.links[i]).on, c.links[j]) == On(c.on, c.links[j])
    {
      OthersSame(c, c.links[i], c.links[j]);
    }
  }

  lemma EachStep(c: Chain, links: seq<nat>, i: nat)
    requires i < |links|
    ensures EnableEach(c, links[i..]) == EnableEach(Enable(c, links[i]), links[i + 1..])
    ensures DisableEach(c, links[i..]) == DisableEach(Disable(c, links[i]), links[i + 1..])
  {
    assert links[i..][0] == links[i] && links[i..][1..] == links[i + 1..];
  }

  /** The places after i. */
  function Later(i: nat, n: nat): (r: seq<nat>)
    requires i < n
    ensures |r| == n - i - 1 && forall j :: 0 <= j < |r| ==> r[j] == i + 1 + j
  {
    seq(n - i - 1, j requires 0 <= j => i + 1 + j)
  }

  lemma LaterNames(links: seq<nat>, i: nat)
    requires i < |links|
    ensures NamesAt(links, Later(i, |links|)) == links[i + 1..]
  {
  }

  lemma ThirdOnMisreads(c: Chain, i: nat)
    requires Shaped(c) && Wired(c) && 2 <= i < |c.links| && !On(c.on, c.links[i])
    requires forall j :: 0 <= j < i ==> On(c.on, c.links[j])
    ensures var d := Enable(c, c.links[i]); Shaped(d) && d.links == c.links && Misread(d, i)
  {
    var d := Enable(c, c.links[i]);
    BeforeAt(c.links, i);
    CountAll(c.on, c.links[..i], true);
    SwitchAt(c, i);
    EnableSwitches(c, c.links[i]);
    SourceIsNearestIff(c.on, c.links[..i], c.input);
    SameFeedOff(c, d, i);
  }

  /** Enabling a block from the third place on after all blocks before it goes wrong for good. */
  lemma OffBreaks(c: Chain, i: nat)
    requires Shaped(c) && Wired(c) && 2 <= i < |c.links| && !On(c.on, c.links[i])
    requires forall j :: 0 <= j < i ==> On(c.on, c.links[j])
    ensures !Wired(EnableEach(c, c.links[i..]))
  {
    ThirdOnMisreads(c, i);
    LaterNames(c.links, i);
    MisreadForGood(Enable(c, c.links[i]), i, Later(i, |c.links|));
    EachStep(c, c.links, i);
  }

  lemma OnStaysWired(c: Chain, i: nat)
    requires Shaped(c) && Wired(c) && i < |c.links| && forall j :: 0 <= j < i ==> On(c.on, c.links[j])
    requires i < 2 || On(c.on, c.links[i])
    ensures Wired(Enable(c, c.links[i]))
  {
    if !On(c.on, c.links[i]) {
      BeforeAt(c.links, i);
      CountAll(c.on, c.links[..i], true);
      EnableWiredIff(c, c.links[i]);
    }
  }

  lemma {:induction false} EnableRest(c: Chain, i: nat)
    requires Shaped(c) && Wired(c) && i <= |c.links| && forall j :: 0 <= j < i ==> On(c.on, c.links[j])
    ensures Wired(EnableEach(c, c.links[i..])) == OnFrom(c, i)
    decreases |c.links| - i
  {
    if i < |c.links| {
      if i < 2 || On(c.on, c.links[i]) {
        OnStaysWired(c, i);
        SwitchAt(c, i);
        EnableRest(Enable(c, c.links[i]), i + 1);
        EachStep(c, c.links, i);
      } else {
        OffBreaks(c, i);
      }
    }
  }

  lemma SameFeedOff(c: Chain, d: Chain, i: nat)
    requires i < |c.links| && NoRepeats(c.links)
    requires forall j :: 0 <= j < |c.links| && j != i ==> On(d.on, c.links[j]) == On(c.on, c.links[j])
    ensures Feed(d.on, c.links[..i], c.input) == Feed(c.on, c.links[..i], c.input)
  {
    FeedFrame(c.on, d.on, c.links[..i], c.input);
  }

  /** Enabling all blocks keeps the wiring exactly when everything from the third block on is enabled
      already. */
  lemma EnableAllWiredIff(c: Chain)
    requires Shaped(c) && Wired(c)
    ensures Wired(EnableEach(c, c.links)) == OnFrom(c, 0)
  {
    assert c.links[0..] == c.links;
    EnableRest(c, 0);
  }

  lemma OffStaysWired(c: Chain, i: nat)
    requires Shaped(c) && Wired(c) && i < |c.links| && forall j :: 0 <= j < i ==> !On(c.on, c.links[j])
    ensures Wired(Disable(c, c.links[i]))
  {
    if On(c.on, c.links[i]) {
      BeforeAt(c.links, i);
      CountAll(c.on, c.links[..i], false);
      DisableWiredIff(c, c.links[i]);
    }
  }

  lemma {:induction false} DisableRest(c: Chain, i: nat)
    requires Shaped(c) && Wired(c) && i <= |c.links| && forall j :: 0 <= j < i ==> !On(c.on, c.links[j])
    ensures Wired(DisableEach(c, c.links[i..]))
    decreases |c.links| - i
  {
    if i < |c.links| {
      OffStaysWired(c, i);
      SwitchAt(c, i);
      DisableRest(Disable(c, c.links[i]), i + 1);
      EachStep(c, c.links, i);
    }
  }

  /** Disabling all blocks always keeps it. */
  lemma DisableAllKeepsWired(c: Chain)
    requires Shaped(c) && Wired(c)
    ensures Wired(DisableEach(c, c.links))
  {
    assert c.links[0..] == c.links;
    DisableRest(c, 0);
  }

  // ---------------------------------------------------------------- runs

  datatype ChainOp =
    | DoSetInput(s: Stream)
    | DoAdd(id: nat, p: Proc, enabled: bool)
    | DoRemove(id: nat)
    | DoEnable(id: nat)
    | DoDisable(id: nat)
    | DoEnableAll
    | DoDisableAll
    | DoStartAll
    | DoStopAll

  /** One operation; what the source rejects with an exception changes nothing. */
  function Take(c: Chain, op: ChainOp): Chain {
    match op
    case DoSetInput(s) => SetInput(c, s)
    case DoAdd(id, p, enabled) => Add(c, id, p, enabled)
    case DoRemove(id) => Remove(c, id)
    case DoEnable(id) => Enable(c, id)
    case DoDisable(id) => Disable(c, id)
    case DoEnableAll => EnableEach(c, c.links)
    case DoDisableAll => DisableEach(c, c.links)
    case DoStartAll => StartChain(c)
    case DoStopAll => StopChain(c)
  }

  /** At most one block before the touched one is enabled. */
  predicate Safe(c: Chain, op: ChainOp) {
    match op
    case DoAdd(id, _, enabled) => id !in c.links && enabled ==> OnCount(c.on, c.links) <= 1
    case DoRemove(id) => id in c.links && On(c.on, id) ==> OnCount(c.on, Before(c.links, id)) <= 1
    case DoEnable(id) => id in c.links && !On(c.on, id) ==> OnCount(c.on, Before(c.links, id)) <= 1
    case DoDisable(id) => id in c.links && On(c.on, id) ==> OnCount(c.on, Before(c.links, id)) <= 1
    case DoEnableAll => forall j :: 2 <= j < |c.links| ==> On(c.on, c.links[j])
    case _ => true
  }

  lemma {:induction false} StartEachInputs(procs: Procs, on: Switches, ids: seq<nat>)
    ensures var p, q := StartEach(procs, on, ids), StopEach(procs, on, ids);
            && p.Keys == procs.Keys && q.Keys == procs.Keys
            && forall id :: id in procs ==> p[id].input == procs[id].input && q[id].input == procs[id].input
    decreases ids
  {
    if ids != [] {
      var id := ids[0];
      var on0 := On(on, id) && id in procs;
      StartEachInputs(if on0 then procs[id := procs[id].(block := Start(procs[id].block))] else procs, on, ids[1..]);
      StartEachInputs(if on0 then procs[id := procs[id].(block := Stop(procs[id].block))] else procs, on, ids[1..]);
    }
  }

  lemma SamePlumbing(c: Chain, d: Chain)
    requires Shaped(c) && Wired(c)
    requires d.input == c.input && d.out == c.out && d.links == c.links && d.on == c.on && d.procs.Keys == c.procs.Keys
    requires forall id :: id in c.procs ==> d.procs[id].input == c.procs[id].input
    ensures Wired(d)
  {
    WiredFrame(c.procs, c.on, d.procs, d.on, c.links, c.input);
  }

  /** Every operation keeps a well-wired chain well wired exactly when it is safe. */
  lemma StepWiredIff(c: Chain, op: ChainOp)
    requires Shaped(c) && Wired(c)
    ensures Wired(Take(c, op)) == Safe(c, op)
  {
    match op
    case DoSetInput(s) => SetInputKeepsWired(c, s);
    case DoAdd(id, p, enabled) => if id !in c.links { AddWiredIff(c, id, p, enabled); }
    case DoRemove(id) => if id in c.links { RemoveWiredIff(c, id); }
    case DoEnable(id) => if id in c.links && !On(c.on, id) { EnableWiredIff(c, id); }
    case DoDisable(id) => if id in c.links && On(c.on, id) { DisableWiredIff(c, id); }
    case DoEnableAll => EnableAllWiredIff(c);
    case DoDisableAll => DisableAllKeepsWired(c);
    case DoStartAll =>
      StartEachInputs(c.procs, c.on, c.links);
      SamePlumbing(c, StartChain(c));
    case DoStopAll =>
      StartEachInputs(c.procs, c.on, c.links);
      SamePlumbing(c, StopChain(c));
  }

  // ---------------------------------------------------------------- which blocks run

  const RUNNING := Block(true, false, 0, true, false)

  function Duty(c: Chain, id: nat): Block { if c.running && On(c.on, id) then RUNNING else IDLE }

  /** A block of the chain runs, worker and all, exactly when the chain runs and it is enabled. */
  ghost predicate OnDuty(c: Chain) { forall id :: id in c.procs ==> c.procs[id].block == Duty(c, id) }

  lemma RewireKeepsDuty(p: Proc, s: Stream)
    requires p.block == IDLE || p.block == RUNNING
    ensures Rewire(p, s).block == p.block
  {
  }

  lemma EnableKeepsDuty(c: Chain, id: nat)
    requires Shaped(c) && OnDuty(c)
    ensures OnDuty(Enable(c, id))
  {
    if id in c.links && !On(c.on, id) {
      EnableSwitches(c, id);
      NextIsOther(c, id);
      var d, b := Enable(c, id), SourceBefore(c.on, Before(c.links, id), c.input);
      RewireKeepsDuty(c.procs[id], b);
      forall x | x in d.procs ensures d.procs[x].block == Duty(d, x) {
        assert On(d.on, x) == (x == id || On(c.on, x));
        RewireKeepsDuty(c.procs[x], OutOf(id));
      }
    }
  }

  lemma DisableKeepsDuty(c: Chain, id: nat)
    requires Shaped(c) && OnDuty(c)
    ensures OnDuty(Disable(c, id))
  {
    if id in c.links && On(c.on, id) {
      DisableSwitches(c, id);
      NextIsOther(c, id);
      var d, b := Disable(c, id), SourceBefore(c.on, Before(c.links, id), c.input);
      forall x | x in d.procs ensures d.procs[x].block == Duty(d, x) {
        assert On(d.on, x) == (x != id && On(c.on, x));
        RewireKeepsDuty(c.procs[x], b);
      }
    }
  }

  lemma {:induction false} EachKeepsDuty(c: Chain, ids: seq<nat>)
    requires Shaped(c) && OnDuty(c)
    ensures Shaped(EnableEach(c, ids)) && OnDuty(EnableEach(c, ids))
    ensures Shaped(DisableEach(c, ids)) && OnDuty(DisableEach(c, ids))
    decreases ids
  {
    if ids != [] {
      SwitchKeepsShaped(c, ids[0]);
      EnableKeepsDuty(c, ids[0]);
      DisableKeepsDuty(c, ids[0]);
      EachKeepsDuty(Enable(c, ids[0]), ids[1..]);
      EachKeepsDuty(Disable(c, ids[0]), ids[1..]);
    }
  }

  lemma {:induction false} StartEachFacts(procs: Procs, on: Switches, ids: seq<nat>)
    requires NoRepeats(ids) && forall id :: id in ids ==> id in procs
    ensures var r := StartEach(procs, on, ids);
            r.Keys == procs.Keys && forall id :: id in procs ==>
              r[id] == if id in ids && On(on, id) then procs[id].(block := Start(procs[id].block)) else procs[id]
    decreases ids
  {
    if ids != [] {
      var id := ids[0];
      assert ids == [id] + ids[1..];
      StartEachFacts(if On(on, id) then procs[id := procs[id].(block := Start(procs[id].block))] else procs, on, ids[1..]);
    }
  }

  lemma {:induction false} StopEachFacts(procs: Procs, on: Switches, ids: seq<nat>)
    requires NoRepeats(ids) && forall id :: id in ids ==> id in procs
    ensures var r := StopEach(procs, on, ids);
            r.Keys == procs.Keys && forall id :: id in procs ==>
              r[id] == if id in ids && On(on, id) then procs[id].(block := Stop(procs[id].block)) else procs[id]
    decreases ids
  {
    if ids != [] {
      var id := ids[0];
      assert ids == [id] + ids[1..];
      StopEachFacts(if On(on, id) then procs[id := procs[id].(block := Stop(procs[id].block))] else procs, on, ids[1..]);
    }
  }

  /** Blocks join a chain while they are idle. */
  predicate Idle(op: ChainOp) { op.DoAdd? ==> op.p.block == IDLE }

  lemma RemoveKeepsDuty(c: Chain, id: nat)
    requires Shaped(c) && OnDuty(c) && id in c.links
    ensures Shaped(Remove(c, id)) && OnDuty(Remove(c, id))
  {
    SwitchKeepsShaped(c, id);
    DisableKeepsDuty(c, id);
    TakeOutShaped(Disable(c, id), id);
  }

  lemma InputKeepsDuty(c: Chain, s: Stream)
    requires Shaped(c) && OnDuty(c)
    ensures Shaped(SetInput(c, s)) && OnDuty(SetInput(c, s))
  {
    FirstOnFacts(c.on, c.links);
    forall id | id in c.procs ensures SetInput(c, s).procs[id].block == c.procs[id].block { RewireKeepsDuty(c.procs[id], s); }
  }

  lemma StepKeepsDuty(c: Chain, op: ChainOp)
    requires Shaped(c) && OnDuty(c) && Idle(op)
    ensures Shaped(Take(c, op)) && OnDuty(Take(c, op))
  {
    match op
    case DoSetInput(s) =>
      InputKeepsDuty(c, s);
    case DoAdd(id, p, enabled) => if id !in c.links { AddKeepsDuty(c, id, p, enabled); }
    case DoRemove(id) => if id in c.links { RemoveKeepsDuty(c, id); }
    case DoEnable(id) =>
      SwitchKeepsShaped(c, id);
      EnableKeepsDuty(c, id);
    case DoDisable(id) =>
      SwitchKeepsShaped(c, id);
      DisableKeepsDuty(c, id);
    case DoEnableAll => EachKeepsDuty(c, c.links);
    case DoDisableAll => EachKeepsDuty(c, c.links);
    case DoStartAll => StartEachFacts(c.procs, c.on, c.links);
    case DoStopAll => StopEachFacts(c.procs, c.on, c.links);
  }

  lemma AddKeepsDuty(c: Chain, id: nat, p: Proc, enabled: bool)
    requires Shaped(c) && OnDuty(c) && id !in c.links && p.block == IDLE
    ensures Shaped(Add(c, id, p, enabled)) && OnDuty(Add(c, id, p, enabled))
  {
    var d := Add(c, id, p, false);
    assert Shaped(d) && OnDuty(d);
    if enabled {
      SwitchKeepsShaped(d, id);
      EnableKeepsDuty(d, id);
    }
  }

  function Empty(input: Stream): Chain { Chain(input, input, [], map[], map[], false) }

  function Run(input: Stream, ops: seq<ChainOp>): Chain {
    if ops == [] then Empty(input) else Take(Run(input, ops[..|ops| - 1]), ops[|ops| - 1])
  }

  /** Through any sequence of operations a block of the chain runs exactly when the chain runs and the
      block is enabled. */
  lemma {:induction false} BlocksRunOnDuty(input: Stream, ops: seq<ChainOp>)
    requires forall op :: op in ops ==> Idle(op)
    ensures Shaped(Run(input, ops)) && OnDuty(Run(input, ops))
  {
    if ops != [] {
      var front, last := ops[..|ops| - 1], ops[|ops| - 1];
      assert last in ops && forall op :: op in front ==> op in ops;
      BlocksRunOnDuty(input, front);
      StepKeepsDuty(Run(input, front), last);
    }
  }

  /** After the first n operations the chain is well wired. */
  ghost predicate WiredAt(input: Stream, ops: seq<ChainOp>, n: nat)
    requires n <= |ops|
  {
    Wired(Run(input, ops[..n]))
  }

  /** Operation n is safe where it is taken. */
  ghost predicate SafeAt(input: Stream, ops: seq<ChainOp>, n: nat)
    requires n < |ops|
  {
    Safe(Run(input, ops[..n]), ops[n])
  }

  lemma NextWiredIff(input: Stream, ops: seq<ChainOp>, n: nat)
    requires n < |ops| && WiredAt(input, ops, n) && forall op :: op in ops ==> Idle(op)
    ensures WiredAt(input, ops, n + 1) <==> SafeAt(input, ops, n)
  {
    assert ops[..n + 1][..n] == ops[..n] && ops[n] in ops;
    assert forall op :: op in ops[..n] ==> op in ops;
    BlocksRunOnDuty(input, ops[..n]);
    StepWiredIff(Run(input, ops[..n]), ops[n]);
  }

  /** The chain is well wired throughout a run exactly when every operation is safe where it is
      taken. */
  lemma {:induction false} SafeRunsStayWired(input: Stream, ops: seq<ChainOp>)
    requires forall op :: op in ops ==> Idle(op)
    ensures (forall n: nat :: n <= |ops| ==> WiredAt(input, ops, n)) <==> (forall n: nat :: n < |ops| ==> SafeAt(input, ops, n))
  {
    ghost var wired := (n: nat) => n <= |ops| && WiredAt(input, ops, n);
    ghost var safe := (n: nat) => n < |ops| && SafeAt(input, ops, n);
    assert ops[..0] == [] && WiredAt(input, ops, 0);
    forall n: nat | n < |ops| && wired(n) ensures wired(n + 1) == safe(n) { NextWiredIff(input, ops, n); }
    AllAlong(wired, safe, |ops|);
    if forall n: nat :: n <= |ops| ==> WiredAt(input, ops, n) {
      forall n: nat | n < |ops| ensures SafeAt(input, ops, n) {
        assert safe(n) by { assert forall k: nat :: k <= |ops| ==> wired(k); }
      }
    }
    if forall n: nat :: n < |ops| ==> SafeAt(input, ops, n) {
      forall n: nat | n <= |ops| ensures WiredAt(input, ops, n) {
        assert wired(n) by { assert forall k: nat :: k < |ops| ==> safe(k); }
      }
    }
  }

  // ---------------------------------------------------------------- what a wired chain computes

  /** The composition of the enabled blocks' functions. */
  function Compose<S>(f: nat -> S -> S, on: Switches, links: seq<nat>, x: S): S
    decreases links
  {
    if links == [] then x else Compose(f, on, links[1..], if On(on, links[0]) then f(links[0])(x) else x)
  }

  /** Every enabled block's output is its function of the stream it reads. */
  ghost predicate Flows<S(!new)>(val: Stream -> S, f: nat -> S -> S, procs: Procs, on: Switches) {
    forall id :: id in procs && On(on, id) ==> val(OutOf(id)) == f(id)(val(procs[id].input))
  }

  lemma {:induction false} FeedComposes<S(!new)>(val: Stream -> S, f: nat -> S -> S, procs: Procs, on: Switches, links: seq<nat>, src: Stream)
    requires WiredFrom(procs, on, links, src) && Flows(val, f, procs, on)
    ensures val(Feed(on, links, src)) == Compose(f, on, links, val(src))
    decreases links
  {
    if links != [] { FeedComposes(val, f, procs, on, links[1..], if On(on, links[0]) then OutOf(links[0]) else src); }
  }

  /** A well-wired chain computes the composition of its enabled blocks, in order. */
  lemma ChainComposes<S(!new)>(val: Stream -> S, f: nat -> S -> S, c: Chain)
    requires Wired(c) && Flows(val, f, c.procs, c.on)
    ensures val(c.out) == Compose(f, c.on, c.links, val(c.input))
  {
    FeedComposes(val, f, c.procs, c.on, c.links, c.input);
  }

  /** Three blocks enabled one after the other: the third reads the first, and the second is left out
      of what the chain computes. */
  lemma ThirdSkipsSecond(input: Stream, p: Proc)
    ensures var c := Add(Add(Add(Empty(input), 1, p, true), 2, p, true), 3, p, true);
            c.links == [1, 2, 3] && 3 in c.procs && c.procs[3].input == OutOf(1) && c.out == OutOf(3) && !Wired(c)
  {
    TwoAreWired(input, p);
    var c := Add(Add(Empty(input), 1, p, true), 2, p, true);
    AddedAtEnd(c, 3, p);
    AddWiredIff(c, 3, p, true);
  }

  lemma AddedAtEnd(c: Chain, id: nat, p: Proc)
    requires Shaped(c) && id !in c.links
    ensures var d := Add(c, id, p, true);
            && Shaped(d) && d.links == c.links + [id] && On(d.on, id) && d.out == OutOf(id) && id in d.procs
            && d.procs[id].input == SourceBefore(c.on, c.links, c.input)
            && forall x :: x in c.links ==> On(d.on, x) == On(c.on, x)
  {
    var e := Add(c, id, p, false);
    assert Shaped(e);
    assert Add(c, id, p, true) == Enable(e, id);
    BeforeAfterLast(c.links, id);
    SwitchKeepsShaped(e, id);
    EnableSwitches(e, id);
    NoWiring(c.on, e.on, c.links);
  }

  lemma OneIsWired(input: Stream, p: Proc)
    ensures var c := Add(Empty(input), 1, p, true);
            Shaped(c) && Wired(c) && c.links == [1] && On(c.on, 1) && OnCount(c.on, [1]) == 1
  {
    AddWiredIff(Empty(input), 1, p, true);
    AddedAtEnd(Empty(input), 1, p);
    assert [1][1..] == [];
  }

  lemma TwoAreWired(input: Stream, p: Proc)
    ensures var c := Add(Add(Empty(input), 1, p, true), 2, p, true);
            Shaped(c) && Wired(c) && c.links == [1, 2] && OnCount(c.on, [1, 2]) == 2 && FirstOn(c.on, [1, 2]) == Some(1)
  {
    OneIsWired(input, p);
    var c1 := Add(Empty(input), 1, p, true);
    AddWiredIff(c1, 2, p, true);
    AddedAtEnd(c1, 2, p);
    assert 1 in c1.links;
    BothOn(Add(c1, 2, p, true).on);
  }

  lemma BothOn(on: Switches)
    requires On(on, 1) && On(on, 2)
    ensures OnCount(on, [1, 2]) == 2 && FirstOn(on, [1, 2]) == Some(1)
  {
    assert [1, 2][1..] == [2] && [2][1..] == [];
    assert OnCount(on, [2]) == 1;
  }
}
