/** The bounded queue of reports that wait for an operator: backend/operator/approvals.py.

    Every section under the lock is one atomic step.  The callbacks run after the lock is released,
    so a step leaves behind what is still to be called, and later steps, in any order, make the
    calls. */
module Approvals {
  import opened Wrappers
  import opened Arith
  import opened Seqs

  datatype Status = Pending | Approved | Rejected | Expired | Dropped

  datatype Item = Item(id: string, enqueued: int, mission: Option<string>, status: Status,
                       decidedBy: Option<string>, decidedAt: Option<int>, reason: Option<string>)

  type Items = map<string, Item>

  /** `order` is the deque of names; decided items stay in `items` for ever. */
  datatype Queue = Queue(items: Items, order: seq<string>)

  predicate Waiting(items: Items, id: string) { id in items && items[id].status == Pending }

  function Fresh(id: string, enqueued: int, mission: Option<string>): Item {
    Item(id, enqueued, mission, Pending, None, None, None)
  }

  function Drop(i: Item, now: int): Item { i.(status := Dropped, decidedAt := Some(now), reason := Some("queue_full")) }

  function Approve(i: Item, who: string, now: int): Item { i.(status := Approved, decidedBy := Some(who), decidedAt := Some(now)) }

  function Reject(i: Item, who: string, why: string, now: int): Item {
    i.(status := Rejected, decidedBy := Some(who), decidedAt := Some(now), reason := Some(why))
  }

  function Expire(i: Item, now: int): Item { i.(status := Expired, decidedAt := Some(now)) }

  function AgeSeconds(i: Item, now: int): real { (now - i.enqueued) as real / 1000000000.0 }

  // ---------------------------------------------------------------- the sections under the lock

  /** The deque without the decided items at its head. */
  function Skip(items: Items, order: seq<string>): (r: seq<string>)
    ensures |r| <= |order|
  {
    if order == [] || Waiting(items, order[0]) then order else Skip(items, order[1..])
  }

  /** `ok` is false when the deque ran empty before there was room. */
  datatype Evicted = Evicted(items: Items, order: seq<string>, dropped: seq<string>, ok: bool)

  function Evict(items: Items, order: seq<string>, max: int, now: int): Evicted
    decreases |order|
  {
    if |order| < max then Evicted(items, order, [], true)
    else if order == [] then Evicted(items, order, [], false)
    else if Waiting(items, order[0]) then
      var r := Evict(items[order[0] := Drop(items[order[0]], now)], order[1..], max, now);
      r.(dropped := [order[0]] + r.dropped)
    else Evict(items, order[1..], max, now)
  }

  function Enqueue(q: Queue, max: int, item: Item, now: int): Evicted {
    var e := Evict(q.items, Skip(q.items, q.order), max, now);
    if e.ok then Evicted(e.items[item.id := item], e.order + [item.id], e.dropped, true) else e
  }

  datatype Ageing = Ageing(items: Items, expired: seq<string>)

  function ExpireAll(items: Items, order: seq<string>, expiry: real, now: int): Ageing {
    if order == [] then Ageing(items, []) else
    var r, last := ExpireAll(items, order[..|order| - 1], expiry, now), order[|order| - 1];
    if Waiting(r.items, last) && AgeSeconds(r.items[last], now) > expiry
    then Ageing(r.items[last := Expire(r.items[last], now)], r.expired + [last])
    else r
  }

  predicate Shown(items: Items, id: string, expiry: real, now: int) {
    Waiting(items, id) && AgeSeconds(items[id], now) < expiry
  }

  function Listing(items: Items, order: seq<string>, expiry: real, now: int): seq<string> {
    if order == [] then [] else
    var last := order[|order| - 1];
    Listing(items, order[..|order| - 1], expiry, now) + (if Shown(items, last, expiry, now) then [last] else [])
  }

  // ---------------------------------------------------------------- what an enqueue does

  function Tail<T>(s: seq<T>, n: nat): seq<T>
    requires n <= |s|
  {
    s[|s| - n..]
  }

  /** `enqueued` lists all names ever enqueued.  The deque is the end of that list, has room for no
      more than `max`, and holds everything that still waits. */
  ghost predicate QueueOk(q: Queue, max: int, enqueued: seq<string>) {
    && NoRepeats(enqueued) && (forall id :: id in enqueued <==> id in q.items)
    && |q.order| <= |enqueued| && |q.order| <= max && q.order == Tail(enqueued, |q.order|)
    && (forall id :: Waiting(q.items, id) ==> id in q.order)
    && (forall id :: id in q.items ==> q.items[id].id == id)
  }

  lemma {:induction false} SkipKeepsWaiting(items: Items, order: seq<string>, id: string)
    requires id in order && Waiting(items, id)
    ensures id in Skip(items, order)
  {
    if !Waiting(items, order[0]) {
      assert order == [order[0]] + order[1..];
      SkipKeepsWaiting(items, order[1..], id);
    }
  }

  lemma {:induction false} SkipStopsAtWaiting(items: Items, order: seq<string>)
    ensures Skip(items, order) != [] ==> Waiting(items, Skip(items, order)[0])
  {
    if order != [] && !Waiting(items, order[0]) { SkipStopsAtWaiting(items, order[1..]); }
  }

  /** An enqueue fails exactly when the queue was made with no room at all. */
  lemma {:induction false} EvictFailsIff(items: Items, order: seq<string>, max: int, now: int)
    ensures Evict(items, order, max, now).ok <==> max >= 1
    decreases |order|
  {
    if |order| >= max && order != [] {
      var items' := if Waiting(items, order[0]) then items[order[0] := Drop(items[order[0]], now)] else items;
      EvictFailsIff(items', order[1..], max, now);
    }
  }

  /** What an enqueue makes of the queue, in one step. */
  function Admitted(q: Queue, max: int, item: Item, now: int): Evicted {
    var waiting := Skip(q.items, q.order);
    if |waiting| == max && max > 0 && waiting[0] in q.items then
      Evicted(q.items[waiting[0] := Drop(q.items[waiting[0]], now)][item.id := item], waiting[1..] + [item.id], [waiting[0]], true)
    else
      Evicted(q.items[item.id := item], waiting + [item.id], [], true)
  }

  lemma EnqueueIsAdmitted(q: Queue, max: int, item: Item, now: int)
    requires |q.order| <= max && max >= 1
    ensures Enqueue(q, max, item, now) == Admitted(q, max, item, now)
  {
    var waiting := Skip(q.items, q.order);
    SkipStopsAtWaiting(q.items, q.order);
    if |waiting| == max {
      var items' := q.items[waiting[0] := Drop(q.items[waiting[0]], now)];
      assert Evict(items', waiting[1..], max, now) == Evicted(items', waiting[1..], [], true);
    }
  }

  lemma {:induction false} SkipIsTail(items: Items, order: seq<string>)
    ensures Skip(items, order) == Tail(order, |Skip(items, order)|)
  {
    if order != [] && !Waiting(items, order[0]) {
      SkipIsTail(items, order[1..]);
      TailOfTail(order, |order| - 1, |Skip(items, order)|);
    }
  }

  lemma SkipOk(q: Queue, max: int, enqueued: seq<string>)
    requires QueueOk(q, max, enqueued)
    ensures QueueOk(Queue(q.items, Skip(q.items, q.order)), max, enqueued)
  {
    SkipIsTail(q.items, q.order);
    TailOfTail(enqueued, |q.order|, |Skip(q.items, q.order)|);
    forall id | Waiting(q.items, id) ensures id in Skip(q.items, q.order) { SkipKeepsWaiting(q.items, q.order, id); }
  }

  lemma InRest(order: seq<string>)
    requires order != []
    ensures forall id :: id in order && id != order[0] ==> id in order[1..]
  {
    assert order == [order[0]] + order[1..];
  }

  lemma DropHeadOk(q: Queue, max: int, enqueued: seq<string>, now: int)
    requires QueueOk(q, max, enqueued) && q.order != [] && Waiting(q.items, q.order[0])
    ensures QueueOk(Queue(q.items[q.order[0] := Drop(q.items[q.order[0]], now)], q.order[1..]), max, enqueued)
  {
    assert q.order[1..] == Tail(q.order, |q.order| - 1);
    TailOfTail(enqueued, |q.order|, |q.order| - 1);
    var items' := q.items[q.order[0] := Drop(q.items[q.order[0]], now)];
    InRest(q.order);
  }

  lemma AppendOk(q: Queue, max: int, enqueued: seq<string>, item: Item)
    requires QueueOk(q, max, enqueued) && |q.order| < max && item.id !in q.items
    ensures QueueOk(Queue(q.items[item.id := item], q.order + [item.id]), max, enqueued + [item.id])
  {
    TailGrows(enqueued, |q.order|, item.id);
    assert item.id !in enqueued;
  }

  /** At most one item makes room for a new one: the oldest one waiting, and only when the deque,
      counted from that item on, is full.  Nothing else changes. */
  lemma EnqueueFacts(q: Queue, max: int, enqueued: seq<string>, item: Item, now: int)
    requires QueueOk(q, max, enqueued) && max >= 1 && item.id !in q.items && item.status == Pending
    ensures var e := Enqueue(q, max, item, now);
            var waiting := Skip(q.items, q.order);
            && e == Admitted(q, max, item, now)
            && QueueOk(Queue(e.items, e.order), max, enqueued + [item.id])
            && (|waiting| == max ==> Waiting(q.items, waiting[0]) && waiting[0] != item.id)
  {
    var waiting := Skip(q.items, q.order);
    EnqueueIsAdmitted(q, max, item, now);
    SkipStopsAtWaiting(q.items, q.order);
    SkipOk(q, max, enqueued);
    if |waiting| == max {
      DropHeadOk(Queue(q.items, waiting), max, enqueued, now);
      AppendOk(Queue(q.items[waiting[0] := Drop(q.items[waiting[0]], now)], waiting[1..]), max, enqueued, item);
    } else {
      AppendOk(Queue(q.items, waiting), max, enqueued, item);
    }
  }

  lemma TailOfTail<T>(s: seq<T>, n: nat, m: nat)
    requires m <= n <= |s|
    ensures Tail(Tail(s, n), m) == Tail(s, m)
  {
  }

  lemma TailGrows<T>(s: seq<T>, n: nat, x: T)
    requires n <= |s|
    ensures Tail(s + [x], n + 1) == Tail(s, n) + [x]
  {
  }

  /** The item given up is older than everything else that waits. */
  lemma DroppedIsOldest(q: Queue, max: int, enqueued: seq<string>, i: nat, j: nat)
    requires QueueOk(q, max, enqueued) && i < |enqueued| && j < |enqueued|
    requires Skip(q.items, q.order) != [] && enqueued[i] == Skip(q.items, q.order)[0] && Waiting(q.items, enqueued[j])
    ensures i <= j
  {
    var waiting := Skip(q.items, q.order);
    SkipIsTail(q.items, q.order);
    TailOfTail(enqueued, |q.order|, |waiting|);
    SkipKeepsWaiting(q.items, q.order, enqueued[j]);
    var k :| 0 <= k < |waiting| && waiting[k] == enqueued[j];
    assert waiting[k] == enqueued[|enqueued| - |waiting| + k];
    assert waiting[0] == enqueued[|enqueued| - |waiting|];
  }

  // ---------------------------------------------------------------- decided items take up room

  function WaitingCount(items: Items, order: seq<string>): nat {
    if order == [] then 0 else (if Waiting(items, order[0]) then 1 else 0) + WaitingCount(items, order[1..])
  }

  lemma {:induction false} WaitingAtMost(items: Items, order: seq<string>)
    ensures WaitingCount(items, order) <= |order|
    ensures WaitingCount(items, order) == |order| <==> forall id :: id in order ==> Waiting(items, id)
  {
    if order != [] {
      WaitingAtMost(items, order[1..]);
      assert order == [order[0]] + order[1..];
    }
  }

  lemma {:induction false} SkipKeepsCount(items: Items, order: seq<string>)
    ensures WaitingCount(items, Skip(items, order)) == WaitingCount(items, order)
  {
    if order != [] && !Waiting(items, order[0]) { SkipKeepsCount(items, order[1..]); }
  }

  /** Decided items are meant to take up no room, but only those at the head of the deque are
      removed.  An enqueue gives up a waiting item although fewer than `max` wait exactly when the
      deque is full from its oldest waiting item on and holds a decided one behind it. */
  lemma DropsTooEarlyIff(q: Queue, max: int, enqueued: seq<string>, item: Item, now: int)
    requires QueueOk(q, max, enqueued) && max >= 1 && item.id !in q.items && item.status == Pending
    ensures var waiting := Skip(q.items, q.order);
            (Enqueue(q, max, item, now).dropped != [] && WaitingCount(q.items, q.order) < max) ==
            (|waiting| == max && exists id :: id in waiting && !Waiting(q.items, id))
  {
    EnqueueFacts(q, max, enqueued, item, now);
    SkipKeepsCount(q.items, q.order);
    WaitingAtMost(q.items, Skip(q.items, q.order));
  }

  /** Such a queue: room for two, two enqueued, the second approved.  The third makes the first one
      give way although it is the only one waiting. */
  lemma DropsTooEarly()
    ensures var q := Queue(map["a" := Fresh("a", 1, None), "b" := Approve(Fresh("b", 2, None), "op", 3)], ["a", "b"]);
            QueueOk(q, 2, ["a", "b"]) && WaitingCount(q.items, q.order) == 1 &&
            Enqueue(q, 2, Fresh("c", 4, None), 5).dropped == ["a"]
  {
    var a, b := Fresh("a", 1, None), Approve(Fresh("b", 2, None), "op", 3);
    OneWaits(a, b);
    EnqueueIsAdmitted(Queue(map["a" := a, "b" := b], ["a", "b"]), 2, Fresh("c", 4, None), 5);
  }

  lemma OneWaits(a: Item, b: Item)
    requires a.id == "a" && b.id == "b" && a.status == Pending && b.status != Pending
    ensures var items := map["a" := a, "b" := b];
            && QueueOk(Queue(items, ["a", "b"]), 2, ["a", "b"]) && WaitingCount(items, ["a", "b"]) == 1
            && Skip(items, ["a", "b"]) == ["a", "b"]
  {
    var items, order := map["a" := a, "b" := b], ["a", "b"];
    assert order[1..] == ["b"] && ["b"][1..] == [];
    assert WaitingCount(items, ["b"]) == 0;
    assert order == Tail(order, 2);
    assert Waiting(items, order[0]) && !Waiting(items, order[1]);
  }

  // ---------------------------------------------------------------- what expiry does

  ghost predicate Stale(items: Items, id: string, expiry: real, now: int) {
    Waiting(items, id) && AgeSeconds(items[id], now) > expiry
  }

  lemma {:induction false} ExpireFacts(items: Items, order: seq<string>, expiry: real, now: int)
    requires NoRepeats(order)
    ensures var r := ExpireAll(items, order, expiry, now);
            && r.items.Keys == items.Keys && NoRepeats(r.expired)
            && (forall id :: id in r.expired <==> id in order && Stale(items, id, expiry, now))
            && (forall id :: id in items ==> r.items[id] == if id in r.expired then Expire(items[id], now) else items[id])
  {
    if order != [] {
      var front, last := order[..|order| - 1], order[|order| - 1];
      assert order == front + [last] && last !in front;
      ExpireFacts(items, front, expiry, now);
    }
  }

  lemma {:induction false} ListingFacts(items: Items, order: seq<string>, expiry: real, now: int)
    ensures forall id :: id in Listing(items, order, expiry, now) <==> id in order && Shown(items, id, expiry, now)
  {
    if order != [] {
      assert order == order[..|order| - 1] + [order[|order| - 1]];
      ListingFacts(items, order[..|order| - 1], expiry, now);
    }
  }

  lemma {:induction false} ListingSplits(items: Items, a: seq<string>, b: seq<string>, expiry: real, now: int)
    ensures Listing(items, a + b, expiry, now) == Listing(items, a, expiry, now) + Listing(items, b, expiry, now)
  {
    if b == [] {
      assert a + b == a;
    } else {
      assert (a + b)[..|a + b| - 1] == a + b[..|b| - 1];
      ListingSplits(items, a, b[..|b| - 1], expiry, now);
    }
  }

  /** The list holds what waits and is younger than the limit, in the order of the queue. */
  lemma ListingIs(items: Items, a: seq<string>, id: string, b: seq<string>, expiry: real, now: int)
    ensures Listing(items, a + [id] + b, expiry, now) ==
            Listing(items, a, expiry, now)
            + (if id in items && items[id].status == Pending && (now - items[id].enqueued) as real < expiry * 1000000000.0 then [id] else [])
            + Listing(items, b, expiry, now)
  {
    ListingSplits(items, a + [id], b, expiry, now);
    ListingSplits(items, a, [id], expiry, now);
    assert [id][..0] == [];
    if id in items {
      var age := (now - items[id].enqueued) as real;
      assert age / 1000000000.0 < expiry <==> age < expiry * 1000000000.0;
    }
  }

  /** The operator's list and the expiry pass leave a gap of one instant: right after a pass, what
      waits and is not listed is exactly as old as the limit. */
  lemma ListedUntilExpired(q: Queue, max: int, enqueued: seq<string>, expiry: real, now: int, id: string)
    requires QueueOk(q, max, enqueued)
    requires Waiting(ExpireAll(q.items, q.order, expiry, now).items, id)
    ensures var items := ExpireAll(q.items, q.order, expiry, now).items;
            (id in Listing(items, q.order, expiry, now)) == (AgeSeconds(items[id], now) != expiry)
  {
    TailNoRepeats(enqueued, |q.order|);
    ExpireFacts(q.items, q.order, expiry, now);
    ListingFacts(ExpireAll(q.items, q.order, expiry, now).items, q.order, expiry, now);
  }

  lemma TailNoRepeats(s: seq<string>, n: nat)
    requires n <= |s| && NoRepeats(s)
    ensures NoRepeats(Tail(s, n))
  {
    var t := Tail(s, n);
    forall i, j | 0 <= i < j < |t| ensures t[i] != t[j] {
      assert t[i] == s[|s| - n + i] && t[j] == s[|s| - n + j];
    }
  }

  // ---------------------------------------------------------------- whole runs

  /** What the terminal hook was told. */
  datatype Told = Told(id: string, status: Status)

  /** The queue, all names ever enqueued, the calls still to make and the calls made: the approved
      callback, which precedes that item's terminal hook, and the terminal hook. */
  datatype System = System(queue: Queue, enqueued: seq<string>, toCall: multiset<string>, toTell: multiset<string>,
                           called: multiset<string>, told: multiset<Told>)

  const EMPTY := System(Queue(map[], []), [], multiset{}, multiset{}, multiset{}, multiset{})

  datatype Step =
    | DoEnqueue(item: Item, now: int)
    | DoApprove(id: string, who: string, now: int)
    | DoReject(id: string, who: string, why: string, now: int)
    | DoExpire(now: int)
    | Call(id: string)
    | Tell(id: string)

  datatype Limits = Limits(max: int, expiry: real)

  /** New items wait and have names never used before; a call is made only when it is due. */
  ghost predicate Enabled(s: System, step: Step) {
    match step
    case DoEnqueue(item, _) => item.id !in s.queue.items && item.status == Pending
    case Call(id) => id in s.toCall
    case Tell(id) => id in s.toTell && id in s.queue.items
    case _ => true
  }

  ghost function Decide(s: System, id: string, item: Item): System {
    var s' := s.(queue := s.queue.(items := s.queue.items[id := item]));
    if item.status == Approved then s'.(toCall := s.toCall + multiset{id}) else s'.(toTell := s.toTell + multiset{id})
  }

  ghost function Take(lim: Limits, s: System, step: Step): System
    requires Enabled(s, step)
  {
    var q := s.queue;
    match step
    case DoEnqueue(item, now) =>
      Enqueued(s, Enqueue(q, lim.max, item, now), item.id)
    case DoApprove(id, who, now) => if Waiting(q.items, id) then Decide(s, id, Approve(q.items[id], who, now)) else s
    case DoReject(id, who, why, now) => if Waiting(q.items, id) then Decide(s, id, Reject(q.items[id], who, why, now)) else s
    case DoExpire(now) =>
      var r := ExpireAll(q.items, q.order, lim.expiry, now);
      s.(queue := q.(items := r.items), toTell := s.toTell + multiset(r.expired))
    case Call(id) => s.(called := s.called + multiset{id}, toCall := s.toCall - multiset{id}, toTell := s.toTell + multiset{id})
    case Tell(id) => s.(told := s.told + multiset{Told(id, q.items[id].status)}, toTell := s.toTell - multiset{id})
  }

  ghost function Run(lim: Limits, steps: seq<Step>): System {
    if steps == [] then EMPTY else
    var s, step := Run(lim, steps[..|steps| - 1]), steps[|steps| - 1];
    if Enabled(s, step) then Take(lim, s, step) else s
  }

  // ---------------------------------------------------------------- the invariant

  ghost function Owed(s: System, id: string): nat { s.toCall[id] + s.toTell[id] }

  ghost predicate HasStatus(s: System, id: string, status: Status) {
    id in s.queue.items && s.queue.items[id].status == status
  }

  /** The hook of an item, made or owed, is accounted for exactly once the item is decided, and tells
      its status; likewise the callback of an approved item. */
  ghost predicate Accounts(s: System, id: string, status: Status) {
    && s.told[Told(id, status)] + (if HasStatus(s, id, status) then Owed(s, id) else 0) ==
       Indicator(HasStatus(s, id, status) && status != Pending)
    && (id !in s.queue.items ==> Owed(s, id) == 0)
    && s.called[id] + s.toCall[id] == Indicator(HasStatus(s, id, Approved))
  }

  ghost predicate Inv(lim: Limits, s: System) {
    QueueOk(s.queue, lim.max, s.enqueued) && forall id, status :: Accounts(s, id, status)
  }

  ghost predicate Frozen(s: System, s': System) {
    forall id :: id in s.queue.items ==>
      id in s'.queue.items && (s.queue.items[id].status != Pending ==> s'.queue.items[id] == s.queue.items[id])
  }

  ghost function Enqueued(s: System, e: Evicted, id: string): System {
    s.(queue := Queue(e.items, e.order), enqueued := s.enqueued + [id], toTell := s.toTell + multiset(e.dropped))
  }

  lemma NewAccounts(s: System, order: seq<string>, item: Item)
    requires forall id, status :: Accounts(s, id, status)
    requires item.id !in s.queue.items && item.status == Pending
    ensures var s' := Enqueued(s, Evicted(s.queue.items[item.id := item], order, [], true), item.id);
            Frozen(s, s') && forall id, status :: Accounts(s', id, status)
  {
    var s' := Enqueued(s, Evicted(s.queue.items[item.id := item], order, [], true), item.id);
    forall id, status ensures Accounts(s', id, status) {
      assert Accounts(s, id, status) && Accounts(s, id, Pending);
    }
  }

  lemma DropAccounts(s: System, id: string, now: int)
    requires (forall id, status :: Accounts(s, id, status)) && Waiting(s.queue.items, id)
    ensures var s' := Decide(s, id, Drop(s.queue.items[id], now));
            Frozen(s, s') && forall id, status :: Accounts(s', id, status)
  {
    var s' := Decide(s, id, Drop(s.queue.items[id], now));
    forall x, status ensures Accounts(s', x, status) {
      assert Accounts(s, x, status) && Accounts(s, x, Pending);
    }
  }

  /** An enqueue that drops an item is that decision followed by an enqueue that does not. */
  lemma AdmittedAccounts(s: System, max: int, item: Item, now: int)
    requires forall id, status :: Accounts(s, id, status)
    requires item.id !in s.queue.items && item.status == Pending
    requires var waiting := Skip(s.queue.items, s.queue.order);
             |waiting| == max && max > 0 ==> Waiting(s.queue.items, waiting[0]) && waiting[0] != item.id
    ensures var s' := Enqueued(s, Admitted(s.queue, max, item, now), item.id);
            Frozen(s, s') && forall id, status :: Accounts(s', id, status)
  {
    var e := Admitted(s.queue, max, item, now);
    if e.dropped == [] {
      NewAccounts(s, e.order, item);
    } else {
      var id := e.dropped[0];
      assert multiset(e.dropped) == multiset{id};
      DropAccounts(s, id, now);
      var s1 := Decide(s, id, Drop(s.queue.items[id], now));
      NewAccounts(s1, e.order, item);
      assert Enqueued(s, e, item.id) == Enqueued(s1, Evicted(s1.queue.items[item.id := item], e.order, [], true), item.id);
    }
  }

  lemma EnqueueKeeps(lim: Limits, s: System, item: Item, now: int)
    requires Inv(lim, s) && lim.max >= 1 && item.id !in s.queue.items && item.status == Pending
    ensures var s' := Enqueued(s, Enqueue(s.queue, lim.max, item, now), item.id); Inv(lim, s') && Frozen(s, s')
  {
    EnqueueFacts(s.queue, lim.max, s.enqueued, item, now);
    AdmittedAccounts(s, lim.max, item, now);
  }

  lemma DecideKeeps(lim: Limits, s: System, id: string, item: Item)
    requires Inv(lim, s) && Waiting(s.queue.items, id) && item.id == id && item.status != Pending
    ensures Inv(lim, Decide(s, id, item)) && Frozen(s, Decide(s, id, item))
  {
    var s' := Decide(s, id, item);
    forall x, status ensures Accounts(s', x, status) {
      assert Accounts(s, x, status) && Accounts(s, x, Pending);
    }
  }

  lemma ExpiredAccounts(s: System, items: Items, expired: seq<string>, now: int)
    requires (forall id, status :: Accounts(s, id, status)) && NoRepeats(expired) && items.Keys == s.queue.items.Keys
    requires forall id :: id in expired ==> Waiting(s.queue.items, id)
    requires forall id :: id in items ==> items[id] == if id in expired then Expire(s.queue.items[id], now) else s.queue.items[id]
    ensures var s' := s.(queue := s.queue.(items := items), toTell := s.toTell + multiset(expired));
            Frozen(s, s') && forall id, status :: Accounts(s', id, status)
  {
    var s' := s.(queue := s.queue.(items := items), toTell := s.toTell + multiset(expired));
    forall id, status ensures Accounts(s', id, status) {
      assert Accounts(s, id, status) && Accounts(s, id, Pending);
      Once(expired, id);
      assert id in expired <==> id in multiset(expired);
    }
  }

  lemma ExpiredOk(q: Queue, max: int, enqueued: seq<string>, items: Items)
    requires QueueOk(q, max, enqueued) && items.Keys == q.items.Keys
    requires forall id :: id in items ==> items[id].id == id && (items[id].status == Pending ==> items[id] == q.items[id])
    ensures QueueOk(q.(items := items), max, enqueued)
  {
  }

  lemma ExpireKeeps(lim: Limits, s: System, now: int)
    requires Inv(lim, s)
    ensures Inv(lim, Take(lim, s, DoExpire(now))) && Frozen(s, Take(lim, s, DoExpire(now)))
  {
    var q := s.queue;
    TailNoRepeats(s.enqueued, |q.order|);
    ExpireFacts(q.items, q.order, lim.expiry, now);
    var r := ExpireAll(q.items, q.order, lim.expiry, now);
    assert forall id :: id in r.items ==> r.items[id].id == id && (r.items[id].status == Pending ==> r.items[id] == q.items[id]);
    ExpiredOk(q, lim.max, s.enqueued, r.items);
    ExpiredAccounts(s, r.items, r.expired, now);
    assert Take(lim, s, DoExpire(now)) == s.(queue := q.(items := r.items), toTell := s.toTell + multiset(r.expired));
  }

  lemma CallKeeps(lim: Limits, s: System, id: string)
    requires Inv(lim, s) && id in s.toCall
    ensures Inv(lim, Take(lim, s, Call(id))) && Frozen(s, Take(lim, s, Call(id)))
  {
    var s' := Take(lim, s, Call(id));
    forall x, status ensures Accounts(s', x, status) { assert Accounts(s, x, status); }
  }

  lemma TellKeeps(lim: Limits, s: System, id: string)
    requires Inv(lim, s) && Enabled(s, Tell(id))
    ensures Inv(lim, Take(lim, s, Tell(id))) && Frozen(s, Take(lim, s, Tell(id)))
  {
    var s' := Take(lim, s, Tell(id));
    forall x, status ensures Accounts(s', x, status) { assert Accounts(s, x, status); }
  }

  lemma StepKeeps(lim: Limits, s: System, step: Step)
    requires Inv(lim, s) && lim.max >= 1 && Enabled(s, step)
    ensures Inv(lim, Take(lim, s, step)) && Frozen(s, Take(lim, s, step))
  {
    match step
    case DoEnqueue(item, now) => EnqueueKeeps(lim, s, item, now);
    case DoApprove(id, who, now) =>
      if Waiting(s.queue.items, id) { DecideKeeps(lim, s, id, Approve(s.queue.items[id], who, now)); }
    case DoReject(id, who, why, now) =>
      if Waiting(s.queue.items, id) { DecideKeeps(lim, s, id, Reject(s.queue.items[id], who, why, now)); }
    case DoExpire(now) => ExpireKeeps(lim, s, now);
    case Call(id) => CallKeeps(lim, s, id);
    case Tell(id) => TellKeeps(lim, s, id);
  }

  /** In every reachable state the deque holds at most `max` names, lists everything that waits in
      the order it was enqueued, and every call is accounted for. */
  lemma {:induction false} RunKeepsInv(lim: Limits, steps: seq<Step>)
    requires lim.max >= 1
    ensures Inv(lim, Run(lim, steps))
  {
    if steps == [] {
      assert forall id, status :: Accounts(EMPTY, id, status);
    } else {
      var s, step := Run(lim, steps[..|steps| - 1]), steps[|steps| - 1];
      RunKeepsInv(lim, steps[..|steps| - 1]);
      if Enabled(s, step) { StepKeeps(lim, s, step); }
    }
  }

  lemma OneMoreStepFreezes(lim: Limits, steps: seq<Step>, step: Step)
    requires lim.max >= 1
    ensures Frozen(Run(lim, steps), Run(lim, steps + [step]))
  {
    assert (steps + [step])[..|steps|] == steps;
    RunKeepsInv(lim, steps);
    if Enabled(Run(lim, steps), step) { StepKeeps(lim, Run(lim, steps), step); }
  }

  /** Once decided, an item never changes again, whatever races with the decision. */
  lemma {:induction false} DecidedIsFinal(lim: Limits, before: seq<Step>, after: seq<Step>)
    requires lim.max >= 1
    ensures Frozen(Run(lim, before), Run(lim, before + after))
  {
    if after == [] {
      assert before + after == before;
    } else {
      var front, last := after[..|after| - 1], after[|after| - 1];
      DecidedIsFinal(lim, before, front);
      OneMoreStepFreezes(lim, before + front, last);
      assert before + after == (before + front) + [last];
    }
  }

  /** At every point of every run the terminal hook has been told of an item at most once, and only
      its true outcome; the approved callback ran at most once, and only for approved items. */
  lemma CallsAreTrue(lim: Limits, steps: seq<Step>, id: string, status: Status)
    requires lim.max >= 1
    ensures var s := Run(lim, steps);
            && s.told[Told(id, status)] <= Indicator(HasStatus(s, id, status) && status != Pending)
            && s.called[id] <= Indicator(HasStatus(s, id, Approved))
  {
    RunKeepsInv(lim, steps);
    assert Accounts(Run(lim, steps), id, status);
  }

  /** When no call is left to make, every decided item was told exactly once, and the callback ran
      exactly once for every approved item. */
  lemma AllToldAtRest(lim: Limits, steps: seq<Step>, id: string, status: Status)
    requires lim.max >= 1 && Run(lim, steps).toCall == multiset{} && Run(lim, steps).toTell == multiset{}
    ensures var s := Run(lim, steps);
            && s.told[Told(id, status)] == Indicator(HasStatus(s, id, status) && status != Pending)
            && s.called[id] == Indicator(HasStatus(s, id, Approved))
  {
    RunKeepsInv(lim, steps);
    assert Accounts(Run(lim, steps), id, status);
  }

  // ---------------------------------------------------------------- who decides what

  /** Name i of all names ever enqueued is `id`, the oldest that waits, and from it on the queue is
      full. */
  ghost predicate OldestOfFull(lim: Limits, s: System, id: string, i: nat) {
    && i < |s.enqueued| && s.enqueued[i] == id && |s.enqueued| - i >= lim.max
    && forall j :: 0 <= j < i ==> !HasStatus(s, s.enqueued[j], Pending)
  }

  /** The step gives the item, which waits, this outcome. */
  ghost predicate Decides(lim: Limits, s: System, step: Step, id: string, status: Status) {
    && HasStatus(s, id, Pending)
    && match step
       case DoApprove(x, _, _) => x == id && status == Approved
       case DoReject(x, _, _, _) => x == id && status == Rejected
       case DoExpire(now) => status == Expired && (now - s.queue.items[id].enqueued) as real > lim.expiry * 1000000000.0
       case DoEnqueue(item, _) =>
         status == Dropped && item.id !in s.queue.items && item.status == Pending && exists i :: OldestOfFull(lim, s, id, i)
       case _ => false
  }

  /** What the step writes into the item it decides. */
  ghost predicate Recorded(before: Item, after: Item, step: Step) {
    match step
    case DoApprove(_, who, now) => after == before.(status := Approved, decidedBy := Some(who), decidedAt := Some(now))
    case DoReject(_, who, why, now) =>
      after == before.(status := Rejected, decidedBy := Some(who), decidedAt := Some(now), reason := Some(why))
    case DoExpire(now) => after == before.(status := Expired, decidedAt := Some(now))
    case DoEnqueue(_, now) => after == before.(status := Dropped, decidedAt := Some(now), reason := Some("queue_full"))
    case _ => false
  }

  /** The head of the compacted deque, found among all names ever enqueued. */
  lemma HeadAt(q: Queue, max: int, enqueued: seq<string>) returns (h: nat)
    requires QueueOk(q, max, enqueued) && Skip(q.items, q.order) != []
    ensures var waiting := Skip(q.items, q.order);
            && h == |enqueued| - |waiting| && enqueued[h] == waiting[0] && Waiting(q.items, waiting[0])
            && forall j: nat :: j < |enqueued| && Waiting(q.items, enqueued[j]) ==> h <= j
  {
    var waiting := Skip(q.items, q.order);
    SkipIsTail(q.items, q.order);
    TailOfTail(enqueued, |q.order|, |waiting|);
    SkipStopsAtWaiting(q.items, q.order);
    h := |enqueued| - |waiting|;
    forall j: nat | j < |enqueued| && Waiting(q.items, enqueued[j]) ensures h <= j {
      DroppedIsOldest(q, max, enqueued, h, j);
    }
  }

  lemma OldestIsHead(lim: Limits, s: System, id: string, i: nat)
    requires QueueOk(s.queue, lim.max, s.enqueued) && OldestOfFull(lim, s, id, i) && HasStatus(s, id, Pending)
    ensures var waiting := Skip(s.queue.items, s.queue.order); |waiting| == lim.max && waiting != [] && waiting[0] == id
  {
    SkipKeepsWaiting(s.queue.items, s.queue.order, id);
    SkipIsTail(s.queue.items, s.queue.order);
    var h := HeadAt(s.queue, lim.max, s.enqueued);
    assert h <= i;
    assert HasStatus(s, s.enqueued[h], Pending);
  }

  lemma HeadIsOldest(lim: Limits, s: System)
    requires QueueOk(s.queue, lim.max, s.enqueued) && |Skip(s.queue.items, s.queue.order)| == lim.max >= 1
    ensures var waiting := Skip(s.queue.items, s.queue.order);
            HasStatus(s, waiting[0], Pending) && exists i :: OldestOfFull(lim, s, waiting[0], i)
  {
    var h := HeadAt(s.queue, lim.max, s.enqueued);
    assert OldestOfFull(lim, s, Skip(s.queue.items, s.queue.order)[0], h);
  }

  ghost predicate DecidesRightly(lim: Limits, s: System, step: Step, s': System, id: string, status: Status) {
    && (HasStatus(s', id, status) <==> HasStatus(s, id, status) || Decides(lim, s, step, id, status))
    && (Decides(lim, s, step, id, status) ==> Recorded(s.queue.items[id], s'.queue.items[id], step))
  }

  lemma EnqueueDecides(lim: Limits, s: System, item: Item, now: int, id: string, status: Status)
    requires QueueOk(s.queue, lim.max, s.enqueued) && lim.max >= 1 && item.id !in s.queue.items && item.status == Pending
    requires status != Pending
    ensures DecidesRightly(lim, s, DoEnqueue(item, now), Enqueued(s, Enqueue(s.queue, lim.max, item, now), item.id), id, status)
  {
    var waiting := Skip(s.queue.items, s.queue.order);
    EnqueueFacts(s.queue, lim.max, s.enqueued, item, now);
    if |waiting| == lim.max { HeadIsOldest(lim, s); }
    if Decides(lim, s, DoEnqueue(item, now), id, status) {
      var i :| OldestOfFull(lim, s, id, i);
      OldestIsHead(lim, s, id, i);
    }
    assert Enqueued(s, Enqueue(s.queue, lim.max, item, now), item.id).queue.items ==
           if |waiting| == lim.max then s.queue.items[waiting[0] := Drop(s.queue.items[waiting[0]], now)][item.id := item]
           else s.queue.items[item.id := item];
  }

  lemma ExpireDecides(lim: Limits, s: System, now: int, id: string, status: Status)
    requires QueueOk(s.queue, lim.max, s.enqueued) && status != Pending
    ensures DecidesRightly(lim, s, DoExpire(now), Take(lim, s, DoExpire(now)), id, status)
  {
    var q := s.queue;
    TailNoRepeats(s.enqueued, |q.order|);
    ExpireFacts(q.items, q.order, lim.expiry, now);
    if id in q.items {
      var age := (now - q.items[id].enqueued) as real;
      assert age / 1000000000.0 > lim.expiry <==> age > lim.expiry * 1000000000.0;
      assert Stale(q.items, id, lim.expiry, now) <==> Waiting(q.items, id) && age > lim.expiry * 1000000000.0;
    }
  }

  lemma StepDecides(lim: Limits, s: System, step: Step, id: string, status: Status)
    requires Inv(lim, s) && lim.max >= 1 && Enabled(s, step) && status != Pending
    ensures DecidesRightly(lim, s, step, Take(lim, s, step), id, status)
  {
    match step
    case DoEnqueue(item, now) => EnqueueDecides(lim, s, item, now, id, status);
    case DoExpire(now) => ExpireDecides(lim, s, now, id, status);
    case _ =>
  }

  /** Step n of the run gives the item this outcome. */
  ghost predicate DecidedAt(lim: Limits, steps: seq<Step>, id: string, status: Status, n: nat)
    requires n < |steps|
  {
    Decides(lim, Run(lim, steps[..n]), steps[n], id, status)
  }

  /** Over any run, what became of an item is what was done to it while it waited: it is approved or
      rejected exactly if the operator approved or rejected it, expired exactly if an expiry pass found
      it too old, dropped exactly if an enqueue found the queue full from it on, the oldest waiting. */
  lemma {:induction false} OutcomeIff(lim: Limits, steps: seq<Step>, id: string, status: Status)
    requires lim.max >= 1 && status != Pending
    ensures HasStatus(Run(lim, steps), id, status) <==> exists n: nat :: n < |steps| && DecidedAt(lim, steps, id, status, n)
  {
    ghost var holds := (n: nat) => n <= |steps| && HasStatus(Run(lim, steps[..n]), id, status);
    ghost var gains := (n: nat) => n < |steps| && DecidedAt(lim, steps, id, status, n);
    assert steps[..0] == [] && steps[..|steps|] == steps;
    forall n: nat | n < |steps| ensures holds(n + 1) == (holds(n) || gains(n)) { NextOutcome(lim, steps, id, status, n); }
    SomeTime(holds, gains, |steps|);
    if n: nat :| n < |steps| && gains(n) { assert DecidedAt(lim, steps, id, status, n); }
    if n: nat :| n < |steps| && DecidedAt(lim, steps, id, status, n) { assert gains(n); }
  }

  lemma NextOutcome(lim: Limits, steps: seq<Step>, id: string, status: Status, n: nat)
    requires lim.max >= 1 && status != Pending && n < |steps|
    ensures HasStatus(Run(lim, steps[..n + 1]), id, status) <==>
            HasStatus(Run(lim, steps[..n]), id, status) || DecidedAt(lim, steps, id, status, n)
  {
    assert steps[..n + 1][..n] == steps[..n];
    RunKeepsInv(lim, steps[..n]);
    if Enabled(Run(lim, steps[..n]), steps[n]) { StepDecides(lim, Run(lim, steps[..n]), steps[n], id, status); }
  }

  /** Who decided, when and why is written down with the decision and stays. */
  lemma OutcomeIsRecorded(lim: Limits, steps: seq<Step>, id: string, status: Status, n: nat)
    requires lim.max >= 1 && status != Pending && n < |steps| && DecidedAt(lim, steps, id, status, n)
    ensures id in Run(lim, steps).queue.items && Run(lim, steps).queue.items[id].status == status
    ensures Recorded(Run(lim, steps[..n]).queue.items[id], Run(lim, steps).queue.items[id], steps[n])
  {
    var upTo, after := steps[..n + 1], steps[n + 1..];
    assert upTo + after == steps;
    StepRecords(lim, steps, id, status, n);
    FrozenAfter(lim, upTo, after, id);
  }

  lemma FrozenAfter(lim: Limits, before: seq<Step>, after: seq<Step>, id: string)
    requires lim.max >= 1 && id in Run(lim, before).queue.items && Run(lim, before).queue.items[id].status != Pending
    ensures id in Run(lim, before + after).queue.items
    ensures Run(lim, before + after).queue.items[id] == Run(lim, before).queue.items[id]
  {
    DecidedIsFinal(lim, before, after);
  }

  lemma StepRecords(lim: Limits, steps: seq<Step>, id: string, status: Status, n: nat)
    requires lim.max >= 1 && status != Pending && n < |steps| && DecidedAt(lim, steps, id, status, n)
    ensures HasStatus(Run(lim, steps[..n + 1]), id, status)
    ensures Recorded(Run(lim, steps[..n]).queue.items[id], Run(lim, steps[..n + 1]).queue.items[id], steps[n])
  {
    assert steps[..n + 1][..n] == steps[..n];
    RunKeepsInv(lim, steps[..n]);
    StepDecides(lim, Run(lim, steps[..n]), steps[n], id, status);
  }

  /** The approved callback runs only for items an operator approved while they waited. */
  lemma OnlyApprovedAreCalled(lim: Limits, steps: seq<Step>, id: string)
    requires lim.max >= 1 && Run(lim, steps).called[id] > 0
    ensures exists n: nat :: n < |steps| && steps[n].DoApprove? && steps[n].id == id && HasStatus(Run(lim, steps[..n]), id, Pending)
  {
    CallsAreTrue(lim, steps, id, Approved);
    OutcomeIff(lim, steps, id, Approved);
    var n: nat :| n < |steps| && DecidedAt(lim, steps, id, Approved, n);
    assert steps[n].DoApprove? && steps[n].id == id;
  }

  // ---------------------------------------------------------------- the queue as an object

  class ApprovalQueue {
    var items: Items
    var order: seq<string>
    const max: int
    const expiry: real

    constructor (max: int, expiry: real)
      ensures View() == Queue(map[], []) && this.max == max && this.expiry == expiry
    {
      items, order, this.max, this.expiry := map[], [], max, expiry;
    }

    function View(): Queue
      reads this
    {
      Queue(items, order)
    }

    /** The section of `enqueue` under the lock; `dropped` are the items to tell afterwards. */
    method EnqueueItem(item: Item, now: int) returns (ok: bool, dropped: seq<string>)
      modifies this
      ensures Evicted(items, order, dropped, ok) == Enqueue(old(View()), max, item, now)
    {
      CompactHead();
      ok, dropped := MakeRoom(now);
      if ok {
        items := items[item.id := item];
        order := order + [item.id];
      }
    }

    method CompactHead()
      modifies this`order
      ensures order == Skip(items, old(order))
    {
      while order != []
        invariant Skip(items, order) == Skip(items, old(order))
        decreases |order|
      {
        if Waiting(items, order[0]) { break; }
        order := order[1..];
      }
    }

    method MakeRoom(now: int) returns (ok: bool, dropped: seq<string>)
      modifies this
      ensures Evicted(items, order, dropped, ok) == Evict(old(items), old(order), max, now)
    {
      dropped := [];
      while |order| >= max
        invariant var r := Evict(items, order, max, now);
                  r.(dropped := dropped + r.dropped) == Evict(old(items), old(order), max, now)
        decreases |order|
      {
        if order == [] { return false, dropped; }
        var id := order[0];
        order := order[1..];
        if Waiting(items, id) {
          items := items[id := Drop(items[id], now)];
          dropped := dropped + [id];
        }
      }
      ok := true;
    }

    method ApproveItem(id: string, who: string, now: int) returns (item: Option<Item>)
      modifies this`items
      ensures item.Some? == Waiting(old(items), id)
      ensures item.Some? ==> item.value.status == Approved && item.value.decidedBy == Some(who) && item.value.decidedAt == Some(now)
      ensures item.Some? ==> item.value == Approve(old(items)[id], who, now) && items == old(items)[id := item.value]
      ensures item.None? ==> items == old(items)
    {
      if !Waiting(items, id) { return None; }
      items := items[id := Approve(items[id], who, now)];
      item := Some(items[id]);
    }

    method RejectItem(id: string, who: string, why: string, now: int) returns (done: bool)
      modifies this`items
      ensures done == Waiting(old(items), id)
      ensures done ==> id in items && items[id].status == Rejected && items[id].decidedBy == Some(who) && items[id].reason == Some(why)
      ensures items == if done then old(items)[id := Reject(old(items)[id], who, why, now)] else old(items)
    {
      if !Waiting(items, id) { return false; }
      items := items[id := Reject(items[id], who, why, now)];
      done := true;
    }

    method ExpireStale(now: int) returns (expired: seq<string>)
      modifies this`items
      ensures Ageing(items, expired) == ExpireAll(old(items), order, expiry, now)
    {
      expired := [];
      for i := 0 to |order|
        invariant Ageing(items, expired) == ExpireAll(old(items), order[..i], expiry, now)
      {
        assert order[..i + 1][..i] == order[..i];
        var id := order[i];
        if Waiting(items, id) && AgeSeconds(items[id], now) > expiry {
          items := items[id := Expire(items[id], now)];
          expired := expired + [id];
        }
      }
      assert order[..|order|] == order;
    }

    method ListPending(now: int) returns (shown: seq<string>)
      ensures shown == Listing(items, order, expiry, now)
    {
      shown := [];
      for i := 0 to |order|
        invariant shown == Listing(items, order[..i], expiry, now)
      {
        assert order[..i + 1][..i] == order[..i];
        if Shown(items, order[i], expiry, now) { shown := shown + [order[i]]; }
      }
      assert order[..|order|] == order;
    }
  }
}
