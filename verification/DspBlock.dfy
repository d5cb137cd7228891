/** A DSP block and its worker thread: core/src/dsp/block.h, and the input of a processor:
    core/src/dsp/processor.h.

    `worker` says whether the block owns a live thread.  Giving a block a second thread while it owns
    one ends the program; `crashed` records that. */
module DspBlocks {
  /** Streams are told apart by where they come from. */
  datatype Stream = External(name: nat) | OutOf(block: nat)

  datatype Block = Block(running: bool, tempStopped: bool, depth: nat, worker: bool, crashed: bool)

  const IDLE := Block(false, false, 0, false, false)

  function DoStart(b: Block): Block { b.(worker := true, crashed := b.crashed || b.worker) }

  function DoStop(b: Block): Block { b.(worker := false) }

  function Start(b: Block): Block { if b.running then b else DoStart(b.(running := true)) }

  function Stop(b: Block): Block { if b.running then DoStop(b).(running := false) else b }

  function TempStop(b: Block): Block {
    var c := b.(depth := b.depth + 1);
    if b.depth == 0 && b.running && !b.tempStopped then DoStop(c).(tempStopped := true) else c
  }

  function TempStart(b: Block): Block {
    if b.depth == 0 then b else
    var c := b.(depth := b.depth - 1);
    if c.depth == 0 && c.tempStopped then DoStart(c).(tempStopped := false) else c
  }

  datatype Op = CallStart | CallStop | CallTempStop | CallTempStart

  function Step(b: Block, op: Op): Block {
    match op
    case CallStart => Start(b)
    case CallStop => Stop(b)
    case CallTempStop => TempStop(b)
    case CallTempStart => TempStart(b)
  }

  function Run(b: Block, ops: seq<Op>): Block {
    if ops == [] then b else Step(Run(b, ops[..|ops| - 1]), ops[|ops| - 1])
  }

  // ---------------------------------------------------------------- when the worker is right

  /** The worker is alive exactly when the block runs and is not stopped for a moment. */
  predicate Sound(b: Block) {
    && !b.crashed && b.worker == (b.running && !b.tempStopped)
    && (b.tempStopped ==> b.running && b.depth > 0)
  }

  /** A `stop` that hits a block which is stopped for a moment. */
  predicate Hits(b: Block, op: Op) { op == CallStop && b.running && b.tempStopped }

  predicate EverHits(b: Block, ops: seq<Op>) {
    ops != [] && (EverHits(b, ops[..|ops| - 1]) || Hits(Run(b, ops[..|ops| - 1]), ops[|ops| - 1]))
  }

  /** What such a stop leaves behind for good: a pending restart of a block that may not run, then a
      worker without a running block, or a crash. */
  predicate Broken(b: Block) {
    b.crashed || (b.tempStopped && b.depth > 0 && b.worker == b.running) || (!b.tempStopped && b.worker && !b.running)
  }

  lemma StepFacts(b: Block, op: Op)
    ensures Broken(b) ==> Broken(Step(b, op))
    ensures Sound(b) && Hits(b, op) ==> Broken(Step(b, op))
    ensures Sound(b) && !Hits(b, op) ==> Sound(Step(b, op))
    ensures b.depth == 0 ==> !(Sound(b) && Broken(b))
  {
  }

  lemma {:induction false} RunFacts(b: Block, ops: seq<Op>)
    requires Sound(b)
    ensures if EverHits(b, ops) then Broken(Run(b, ops)) else Sound(Run(b, ops))
  {
    if ops != [] {
      var front, op := ops[..|ops| - 1], ops[|ops| - 1];
      RunFacts(b, front);
      StepFacts(Run(b, front), op);
    }
  }

  /** After any calls in any order, once all brackets are closed, the worker is alive exactly when the
      block runs, unless a `stop` hit it inside a bracket; then never again. */
  lemma HealthyIff(ops: seq<Op>)
    requires Run(IDLE, ops).depth == 0
    ensures var b := Run(IDLE, ops);
            (!b.crashed && b.worker == b.running) == !EverHits(IDLE, ops)
  {
    RunFacts(IDLE, ops);
  }

  /** The shortest way to get there: the bracket's end revives a block that was stopped inside. */
  lemma StopInsideBracket()
    ensures var b := Run(IDLE, [CallStart, CallTempStop, CallStop, CallTempStart]);
            b.depth == 0 && !b.running && b.worker
  {
    var a := [CallStart, CallTempStop, CallStop, CallTempStart];
    assert a[..3] == [CallStart, CallTempStop, CallStop];
    assert a[..3][..2] == [CallStart, CallTempStop];
    assert a[..3][..2][..1] == [CallStart];
    assert a[..3][..2][..1][..0] == [];
    assert Run(IDLE, [CallStart]) == Start(IDLE);
    assert Run(IDLE, [CallStart, CallTempStop]) == TempStop(Start(IDLE));
  }

  /** Whether the last start or stop among the calls was a start. */
  function LastSays(ops: seq<Op>, before: bool): bool {
    if ops == [] then before else
    match ops[|ops| - 1]
    case CallStart => true
    case CallStop => false
    case _ => LastSays(ops[..|ops| - 1], before)
  }

  /** How many brackets are open; closing one too many does nothing. */
  function OpenAfter(ops: seq<Op>): nat {
    if ops == [] then 0 else
    var n := OpenAfter(ops[..|ops| - 1]);
    match ops[|ops| - 1]
    case CallTempStop => n + 1
    case CallTempStart => if n > 0 then n - 1 else 0
    case _ => n
  }

  /** Start and stop alone decide whether a block runs, and brackets alone how deep it is in them. */
  lemma {:induction false} RunningIs(ops: seq<Op>)
    ensures Run(IDLE, ops).running == LastSays(ops, false) && Run(IDLE, ops).depth == OpenAfter(ops)
  {
    if ops != [] { RunningIs(ops[..|ops| - 1]); }
  }

  // ---------------------------------------------------------------- brackets

  /** Brackets only, closed as often as opened and never closed before. */
  predicate Balanced(ops: seq<Op>, open: int) {
    if ops == [] then open == 0
    else match ops[0]
      case CallTempStop => Balanced(ops[1..], open + 1)
      case CallTempStart => open > 0 && Balanced(ops[1..], open - 1)
      case _ => false
  }

  /** The same calls taken from the front. */
  function RunOn(b: Block, ops: seq<Op>): Block
    decreases ops
  {
    if ops == [] then b else RunOn(Step(b, ops[0]), ops[1..])
  }

  lemma {:induction false} RunSplit(b: Block, a: seq<Op>, c: seq<Op>)
    ensures Run(b, a + c) == Run(Run(b, a), c)
  {
    if c == [] {
      assert a + c == a;
    } else {
      RunSplit(b, a, c[..|c| - 1]);
      assert (a + c)[..|a + c| - 1] == a + c[..|c| - 1];
    }
  }

  lemma {:induction false} RunFromFront(b: Block, ops: seq<Op>)
    ensures Run(b, ops) == RunOn(b, ops)
    decreases ops
  {
    if ops != [] {
      RunSplit(b, [ops[0]], ops[1..]);
      assert [ops[0]] + ops[1..] == ops && [ops[0]][..0] == [];
      assert Run(b, [ops[0]]) == Step(b, ops[0]);
      RunFromFront(Step(b, ops[0]), ops[1..]);
    }
  }

  /** The state inside `open` brackets around a block that was in state `b`. */
  function Inside(b: Block, open: nat): Block {
    if open == 0 then b
    else if b.depth > 0 then b.(depth := b.depth + open)
    else b.(depth := open, tempStopped := b.running, worker := false)
  }

  lemma {:induction false} NestedBrackets(b: Block, open: nat, ops: seq<Op>)
    requires Sound(b) && Balanced(ops, open)
    ensures RunOn(Inside(b, open), ops) == b
    decreases ops
  {
    if ops != [] {
      match ops[0]
      case CallTempStop =>
        assert TempStop(Inside(b, open)) == Inside(b, open + 1);
        NestedBrackets(b, open + 1, ops[1..]);
      case CallTempStart =>
        assert TempStart(Inside(b, open)) == Inside(b, open - 1);
        NestedBrackets(b, open - 1, ops[1..]);
    }
  }

  /** However nested, balanced brackets leave a sound block exactly as it was. */
  lemma BracketsRestore(b: Block, ops: seq<Op>)
    requires Sound(b) && Balanced(ops, 0)
    ensures Run(b, ops) == b
  {
    RunFromFront(b, ops);
    NestedBrackets(b, 0, ops);
  }

  // ---------------------------------------------------------------- processors

  function RemoveAll(s: seq<Stream>, x: Stream): seq<Stream> {
    if s == [] then [] else RemoveAll(s[..|s| - 1], x) + (if s[|s| - 1] == x then [] else [s[|s| - 1]])
  }

  /** A processor reads one stream; `inputs` is what stopping it has to interrupt. */
  datatype Proc = Proc(block: Block, input: Stream, inputs: seq<Stream>)

  function Rewire(p: Proc, s: Stream): Proc {
    Proc(TempStart(TempStop(p.block)), s, RemoveAll(p.inputs, p.input) + [s])
  }

  lemma {:induction false} RemovesAll(s: seq<Stream>, x: Stream, y: Stream)
    ensures y in RemoveAll(s, x) <==> y in s && y != x
  {
    if s != [] {
      RemovesAll(s[..|s| - 1], x, y);
      assert s == s[..|s| - 1] + [s[|s| - 1]];
    }
  }

  /** Rewiring swaps the stream a processor reads for another, in its registered inputs too, and does
      not disturb a sound block. */
  lemma RewireFacts(p: Proc, s: Stream, y: Stream)
    requires Sound(p.block)
    ensures Rewire(p, s).block == p.block && Rewire(p, s).input == s
    ensures y in Rewire(p, s).inputs <==> (y in p.inputs && y != p.input) || y == s
  {
    RemovesAll(p.inputs, p.input, y);
    BracketsRestore(p.block, [CallTempStop, CallTempStart]);
    RunFromFront(p.block, [CallTempStop, CallTempStart]);
  }

  /** A mutable processor.  Its fields are kept together in one record. */
  class Processor {
    const id: nat
    var data: Proc

    constructor (id: nat, s: Stream)
      ensures this.id == id && data == Proc(IDLE, s, [s])
    {
      this.id := id;
      data := Proc(IDLE, s, [s]);
    }

    method DoStartWorker()
      modifies this
      ensures data == old(data).(block := DoStart(old(data.block)))
    {
      if data.block.worker { data := data.(block := data.block.(crashed := true)); }
      data := data.(block := data.block.(worker := true));
    }

    method DoStopWorker()
      modifies this
      ensures data == old(data).(block := DoStop(old(data.block)))
    {
      if data.block.worker { data := data.(block := data.block.(worker := false)); }
    }

    method StartBlock()
      modifies this
      ensures data == old(data).(block := Start(old(data.block)))
    {
      if data.block.running { return; }
      data := data.(block := data.block.(running := true));
      DoStartWorker();
    }

    method StopBlock()
      modifies this
      ensures data == old(data).(block := Stop(old(data.block)))
    {
      if !data.block.running { return; }
      DoStopWorker();
      data := data.(block := data.block.(running := false));
    }

    method TempStopBlock()
      modifies this
      ensures data == old(data).(block := TempStop(old(data.block)))
    {
      data := data.(block := data.block.(depth := data.block.depth + 1));
      if data.block.depth > 1 { return; }
      if data.block.running && !data.block.tempStopped {
        DoStopWorker();
        data := data.(block := data.block.(tempStopped := true));
      }
    }

    method TempStartBlock()
      modifies this
      ensures data == old(data).(block := TempStart(old(data.block)))
    {
      if data.block.depth == 0 { return; }
      data := data.(block := data.block.(depth := data.block.depth - 1));
      if data.block.depth > 0 { return; }
      if data.block.tempStopped {
        DoStartWorker();
        data := data.(block := data.block.(tempStopped := false));
      }
    }

    method RegisterInput(s: Stream)
      modifies this
      ensures data == old(data).(inputs := old(data.inputs) + [s])
    {
      data := data.(inputs := data.inputs + [s]);
    }

    method UnregisterInput(s: Stream)
      modifies this
      ensures data == old(data).(inputs := RemoveAll(old(data.inputs), s))
    {
      data := data.(inputs := RemoveAll(data.inputs, s));
    }

    /** The swap happens while the worker is down. */
    method SetInput(s: Stream)
      modifies this
      ensures data == Rewire(old(data), s)
    {
      TempStopBlock();
      UnregisterInput(data.input);
      data := data.(input := s);
      RegisterInput(data.input);
      TempStartBlock();
    }
  }
}
