/** Rate-limited auto-tasking: backend/coordination/auto_tasker.py.

    A tune reserves a slot under the lock, talks to the network, and then commits or rolls back.
    Reading the clock and reserving form one atomic step: nothing awaits while the lock is held,
    so the lock is never contended.  Steps of different tunes interleave freely.

    The specification state carries a ledger of every reservation ever granted, which the source
    does not keep.  The two promises of the source, a fleet-wide budget per sliding minute and a
    minimum spacing per node, are stated about the ledger and proved for every run; the admission
    rule computed from the trimmed window and the last-tune table is shown to be the rule one would
    write over the ledger. */
module AutoTasking {
  import opened Seqs

  const MINUTE_NS: int := 60000000000

  datatype Phase = InFlight | Succeeded | RolledBack

  datatype Reservation = Reservation(node: string, time: int, phase: Phase) {
    predicate Live() { phase != RolledBack }
  }

  /** How the part of a tune after its reservation went. */
  datatype Outcome = Tuned | NoClient | AlreadyTuned | SendFailed

  datatype Verdict = Granted | RateLimited | OverBudget

  datatype Limits = Limits(minInterval: int, budget: int)

  datatype Counters = Counters(issued: nat, rateLimited: nat, alreadyTuned: nat, overBudget: nat, failed: nat)

  datatype State = State(lastTune: map<string, int>, window: seq<int>, counters: Counters, ledger: seq<Reservation>)

  const START := State(map[], [], Counters(0, 0, 0, 0, 0), [])

  // ---------------------------------------------------------------- steps

  function Trim(w: seq<int>, cutoff: int): seq<int> {
    if w == [] then [] else
    var t := w[|w| - 1];
    Trim(w[..|w| - 1], cutoff) + (if t >= cutoff then [t] else [])
  }

  function LastTune(s: State, node: string): int {
    if node in s.lastTune then s.lastTune[node] else 0
  }

  function Judge(lim: Limits, s: State, node: string, now: int): Verdict {
    if now - LastTune(s, node) < lim.minInterval then RateLimited
    else if |Trim(s.window, now - MINUTE_NS)| < lim.budget then Granted
    else OverBudget
  }

  function Reserve(lim: Limits, s: State, node: string, now: int): State {
    var trimmed := Trim(s.window, now - MINUTE_NS);
    match Judge(lim, s, node, now)
    case RateLimited => s.(counters := s.counters.(rateLimited := s.counters.rateLimited + 1))
    case OverBudget => s.(window := trimmed, counters := s.counters.(overBudget := s.counters.overBudget + 1))
    case Granted =>
      s.(lastTune := s.lastTune[node := now], window := trimmed + [now],
         ledger := s.ledger + [Reservation(node, now, InFlight)])
  }

  function Unlist(last: map<string, int>, node: string, time: int): map<string, int> {
    if node in last && last[node] == time then last - {node} else last
  }

  function Release(s: State, node: string, time: int): State {
    s.(lastTune := Unlist(s.lastTune, node, time), window := RemoveFirst(s.window, time))
  }

  function Count(c: Counters, o: Outcome): Counters {
    match o
    case Tuned => c.(issued := c.issued + 1)
    case NoClient => c
    case AlreadyTuned => c.(alreadyTuned := c.alreadyTuned + 1)
    case SendFailed => c.(failed := c.failed + 1)
  }

  ghost predicate Pending(s: State, id: nat) {
    id < |s.ledger| && s.ledger[id].phase == InFlight
  }

  function Settle(s: State, id: nat, o: Outcome): State
    requires Pending(s, id)
  {
    var r := s.ledger[id];
    var s' := if o == Tuned then s else Release(s, r.node, r.time);
    s'.(counters := Count(s.counters, o),
        ledger := s.ledger[id := Settled(r, if o == Tuned then Succeeded else RolledBack)])
  }

  // ---------------------------------------------------------------- runs

  /** One step of one of the concurrent tunes. */
  datatype Event = Request(node: string, now: int) | Finish(id: nat, outcome: Outcome)

  ghost function Step(lim: Limits, s: State, e: Event): State {
    match e
    case Request(node, now) => Reserve(lim, s, node, now)
    case Finish(id, o) => if Pending(s, id) then Settle(s, id, o) else s
  }

  ghost function Run(lim: Limits, events: seq<Event>): State {
    if events == [] then START else Step(lim, Run(lim, events[..|events| - 1]), events[|events| - 1])
  }

  /** Latest clock reading of a run; the epoch before the first one. */
  function Clock(events: seq<Event>): int {
    if events == [] then 0 else
    match events[|events| - 1]
    case Request(_, now) => now
    case Finish(_, _) => Clock(events[..|events| - 1])
  }

  /** The one assumption about the clock: it never runs backwards. */
  ghost predicate ClockMonotone(events: seq<Event>) {
    forall k :: 0 <= k < |events| && events[k].Request? ==> Clock(events[..k]) <= events[k].now
  }

  // ---------------------------------------------------------------- what the ledger says

  /** t lies in the closed minute that starts at w, in nanoseconds. */
  function During(t: int, w: int): bool { w <= t <= w + 60000000000 }

  function Contribution(r: Reservation, w: int): multiset<int> {
    if r.Live() && During(r.time, w) then multiset{r.time} else multiset{}
  }

  /** Times of the live reservations in the closed minute that starts at w. */
  function LiveIn(l: seq<Reservation>, w: int): multiset<int> {
    if l == [] then multiset{} else LiveIn(l[..|l| - 1], w) + Contribution(l[|l| - 1], w)
  }

  /** How many reservations of the closed minute that starts at w ended in a successful tune. */
  function SuccessesIn(l: seq<Reservation>, w: int): nat {
    if l == [] then 0 else
    var r := l[|l| - 1];
    SuccessesIn(l[..|l| - 1], w) + (if r.phase == Succeeded && During(r.time, w) then 1 else 0)
  }

  function Successes(l: seq<Reservation>): nat {
    if l == [] then 0 else Successes(l[..|l| - 1]) + (if l[|l| - 1].phase == Succeeded then 1 else 0)
  }

  lemma {:induction false} LiveAt(l: seq<Reservation>, w: int, w': int, t: int)
    requires During(t, w) && During(t, w')
    ensures LiveIn(l, w)[t] == LiveIn(l, w')[t]
  {
    if l != [] { LiveAt(l[..|l| - 1], w, w', t); }
  }

  lemma {:induction false} LiveBounds(l: seq<Reservation>, w: int, t: int)
    requires t in LiveIn(l, w)
    ensures During(t, w) && exists i :: 0 <= i < |l| && l[i].Live() && l[i].time == t
  {
    if t in LiveIn(l[..|l| - 1], w) { LiveBounds(l[..|l| - 1], w, t); }
  }

  lemma LiveGrows(l: seq<Reservation>, r: Reservation, w: int)
    ensures LiveIn(l + [r], w) == LiveIn(l, w) + Contribution(r, w)
    ensures Successes(l + [r]) == Successes(l) + (if r.phase == Succeeded then 1 else 0)
  {
    assert (l + [r])[..|l|] == l;
  }

  function Settled(r: Reservation, p: Phase): Reservation { r.(phase := p) }

  function Freed(r: Reservation, p: Phase, w: int): multiset<int> {
    if p == RolledBack then Contribution(r, w) else multiset{}
  }

  /** l' is l with the reservation `id` settled. */
  ghost predicate SettledAt(l: seq<Reservation>, l': seq<Reservation>, id: nat, p: Phase) {
    && id < |l| == |l'| && l[id].phase == InFlight && p != InFlight
    && l'[id] == Settled(l[id], p)
    && forall i :: 0 <= i < |l| && i != id ==> l'[i] == l[i]
  }

  lemma Regroup(a: multiset<int>, a': multiset<int>, freed: multiset<int>, c: multiset<int>)
    requires a == a' + freed
    ensures a + c == a' + c + freed
  {
  }

  lemma FreedHere(a: multiset<int>, r: Reservation, p: Phase, w: int)
    requires r.phase == InFlight && p != InFlight
    ensures a + Contribution(r, w) == a + Contribution(Settled(r, p), w) + Freed(r, p, w)
  {
  }

  lemma {:induction false} LiveSettles(l: seq<Reservation>, l': seq<Reservation>, id: nat, p: Phase, w: int)
    requires SettledAt(l, l', id, p)
    ensures LiveIn(l, w) == LiveIn(l', w) + Freed(l[id], p, w)
  {
    var n := |l| - 1;
    if id < n {
      LiveSettles(l[..n], l'[..n], id, p, w);
      Regroup(LiveIn(l[..n], w), LiveIn(l'[..n], w), Freed(l[id], p, w), Contribution(l[n], w));
    } else {
      assert l[..n] == l'[..n];
      FreedHere(LiveIn(l[..n], w), l[n], p, w);
    }
  }

  lemma {:induction false} SuccessesSettle(l: seq<Reservation>, l': seq<Reservation>, id: nat, p: Phase)
    requires SettledAt(l, l', id, p)
    ensures Successes(l') == Successes(l) + (if p == Succeeded then 1 else 0)
  {
    var n := |l| - 1;
    if id < n { SuccessesSettle(l[..n], l'[..n], id, p); } else { assert l[..n] == l'[..n]; }
  }

  lemma {:induction false} SuccessesAreLive(l: seq<Reservation>, w: int)
    ensures SuccessesIn(l, w) <= |LiveIn(l, w)|
  {
    if l != [] { SuccessesAreLive(l[..|l| - 1], w); }
  }

  lemma CountLast(w: seq<int>, x: int, t: int)
    ensures multiset(w + [x])[t] == multiset(w)[t] + (if x == t then 1 else 0)
  {
  }

  lemma {:induction false} TrimKeeps(w: seq<int>, cutoff: int, t: int)
    ensures multiset(Trim(w, cutoff))[t] == if t >= cutoff then multiset(w)[t] else 0
  {
    if w != [] {
      var front, last := w[..|w| - 1], w[|w| - 1];
      TrimKeeps(front, cutoff, t);
      assert w == front + [last];
      CountLast(front, last, t);
      CountLast(Trim(front, cutoff), last, t);
    }
  }

  lemma {:induction false} RemoveFirstRemoves(w: seq<int>, t: int)
    ensures multiset(RemoveFirst(w, t)) == multiset(w) - multiset{t}
  {
    if w != [] {
      assert w == [w[0]] + w[1..];
      if w[0] != t { RemoveFirstRemoves(w[1..], t); }
    }
  }

  lemma {:induction false} RemoveFirstAt(w: seq<int>, t: int, i: nat)
    requires i <= |w| && t !in w[..i] && (i < |w| ==> w[i] == t)
    ensures RemoveFirst(w, t) == if i < |w| then w[..i] + w[i + 1..] else w
  {
    if i > 0 {
      var rest := w[1..];
      assert w[0] in w[..i];
      assert rest[..i - 1] == w[..i][1..];
      assert i < |w| ==> rest[i - 1] == w[i];
      RemoveFirstAt(rest, t, i - 1);
      if i < |w| {
        assert rest[i..] == w[i + 1..] && w[..i] == [w[0]] + rest[..i - 1];
      }
    }
  }

  // ---------------------------------------------------------------- invariants

  ghost predicate PastLedger(l: seq<Reservation>, clock: int) {
    forall i :: 0 <= i < |l| ==> l[i].time <= clock
  }

  /** The window agrees with the ledger on everything less than a minute old. */
  ghost predicate WindowAgrees(window: seq<int>, l: seq<Reservation>, clock: int) {
    forall t :: t >= clock - MINUTE_NS ==> multiset(window)[t] == LiveIn(l, clock - MINUTE_NS)[t]
  }

  ghost predicate WithinBudget(lim: Limits, l: seq<Reservation>) {
    forall w :: |LiveIn(l, w)| <= Cap(lim)
  }

  function Cap(lim: Limits): nat { if lim.budget >= 0 then lim.budget else 0 }

  ghost predicate Spaced(lim: Limits, l: seq<Reservation>) {
    forall i, j :: 0 <= i < j < |l| && l[i].Live() && l[j].Live() && l[i].node == l[j].node
      ==> l[j].time - l[i].time >= lim.minInterval
  }

  /** A live reservation either is old enough or is shielded by the last-tune table. */
  ghost predicate Shielded(lim: Limits, last: map<string, int>, l: seq<Reservation>, clock: int) {
    forall i :: 0 <= i < |l| && l[i].Live() ==>
      clock - l[i].time >= lim.minInterval || (l[i].node in last && last[l[i].node] >= l[i].time)
  }

  ghost predicate LiveOf(l: seq<Reservation>, node: string, time: int) {
    exists i :: 0 <= i < |l| && l[i].Live() && l[i].node == node && l[i].time == time
  }

  /** Every entry of the last-tune table is the time of a live reservation. */
  ghost predicate TableIsLive(last: map<string, int>, l: seq<Reservation>) {
    forall node :: node in last ==> LiveOf(l, node, last[node])
  }

  ghost predicate TableIsPast(last: map<string, int>, clock: int) {
    clock >= 0 && forall node :: node in last ==> last[node] <= clock
  }

  ghost predicate NodesSpaced(lim: Limits, last: map<string, int>, l: seq<Reservation>, clock: int) {
    Spaced(lim, l) && Shielded(lim, last, l, clock) && TableIsLive(last, l)
  }

  ghost predicate Inv(lim: Limits, s: State, clock: int) {
    && PastLedger(s.ledger, clock)
    && WindowAgrees(s.window, s.ledger, clock)
    && WithinBudget(lim, s.ledger)
    && s.counters.issued == Successes(s.ledger)
    && TableIsPast(s.lastTune, clock)
    && (lim.minInterval > 0 ==> NodesSpaced(lim, s.lastTune, s.ledger, clock))
  }

  /** The window agreement survives the clock moving on. */
  lemma ClockMoves(window: seq<int>, l: seq<Reservation>, clock: int, now: int)
    requires PastLedger(l, clock) && WindowAgrees(window, l, clock) && clock <= now
    ensures PastLedger(l, now) && WindowAgrees(window, l, now)
  {
    forall t | t >= now - MINUTE_NS ensures multiset(window)[t] == LiveIn(l, now - MINUTE_NS)[t] {
      if t <= clock {
        LiveAt(l, clock - MINUTE_NS, now - MINUTE_NS, t);
      } else {
        NoneAfter(l, clock - MINUTE_NS, clock, t);
        NoneAfter(l, now - MINUTE_NS, clock, t);
      }
    }
  }

  lemma NoneAfter(l: seq<Reservation>, w: int, clock: int, t: int)
    requires PastLedger(l, clock) && t > clock
    ensures LiveIn(l, w)[t] == 0
  {
    if t in LiveIn(l, w) { LiveBounds(l, w, t); }
  }

  /** The trimmed window is exactly the live reservations of the last minute. */
  lemma TrimmedWindow(window: seq<int>, l: seq<Reservation>, now: int)
    requires PastLedger(l, now) && WindowAgrees(window, l, now)
    ensures multiset(Trim(window, now - MINUTE_NS)) == LiveIn(l, now - MINUTE_NS)
    ensures |Trim(window, now - MINUTE_NS)| == |LiveIn(l, now - MINUTE_NS)|
  {
    var trimmed, live := multiset(Trim(window, now - MINUTE_NS)), LiveIn(l, now - MINUTE_NS);
    forall t ensures trimmed[t] == live[t] {
      TrimKeeps(window, now - MINUTE_NS, t);
      if t in live { LiveBounds(l, now - MINUTE_NS, t); }
    }
    assert trimmed == live;
    assert |trimmed| == |Trim(window, now - MINUTE_NS)|;
  }

  /** What a reader would write over the ledger: a node is refused when it was tuned too recently
      (or never, within the first interval of the epoch); the fleet is refused when the last minute
      already holds the budget. */
  ghost function LedgerRule(lim: Limits, s: State, node: string, now: int): Verdict {
    if (exists i :: 0 <= i < |s.ledger| && s.ledger[i].Live() && s.ledger[i].node == node &&
          now - s.ledger[i].time < lim.minInterval) || (node !in s.lastTune && now < lim.minInterval)
    then RateLimited
    else if |LiveIn(s.ledger, now - 60000000000)| < lim.budget then Granted
    else OverBudget
  }

  lemma GateInState(lim: Limits, s: State, clock: int, node: string, now: int)
    requires Inv(lim, s, clock) && clock <= now
    ensures Judge(lim, s, node, now) == LedgerRule(lim, s, node, now)
  {
    ClockMoves(s.window, s.ledger, clock, now);
    TrimmedWindow(s.window, s.ledger, now);
    if lim.minInterval > 0 && node in s.lastTune { assert LiveOf(s.ledger, node, s.lastTune[node]); }
  }

  lemma LiveSub(l: seq<Reservation>, w: int, now: int)
    requires PastLedger(l, now) && During(now, w)
    ensures |LiveIn(l, w)| <= |LiveIn(l, now - MINUTE_NS)|
  {
    var a, b := LiveIn(l, w), LiveIn(l, now - MINUTE_NS);
    forall t ensures a[t] <= b[t] {
      if t in a {
        LiveBounds(l, w, t);
        LiveAt(l, w, now - MINUTE_NS, t);
      }
    }
    assert a <= b;
    assert b == a + (b - a);
  }

  lemma GrantKeepsBudget(lim: Limits, l: seq<Reservation>, now: int, r: Reservation)
    requires PastLedger(l, now) && WithinBudget(lim, l) && |LiveIn(l, now - MINUTE_NS)| < lim.budget
    requires r.time == now && r.phase == InFlight
    ensures WithinBudget(lim, l + [r])
  {
    forall w ensures |LiveIn(l + [r], w)| <= Cap(lim) {
      LiveGrows(l, r, w);
      if During(now, w) { LiveSub(l, w, now); }
    }
  }

  lemma TrimKeepsWindow(window: seq<int>, l: seq<Reservation>, now: int)
    requires PastLedger(l, now) && WindowAgrees(window, l, now)
    ensures WindowAgrees(Trim(window, now - MINUTE_NS), l, now)
  {
    TrimmedWindow(window, l, now);
  }

  lemma GrantKeepsWindow(trimmed: seq<int>, l: seq<Reservation>, now: int, r: Reservation)
    requires WindowAgrees(trimmed, l, now)
    requires r.time == now && r.phase == InFlight
    ensures WindowAgrees(trimmed + [now], l + [r], now)
  {
    LiveGrows(l, r, now - MINUTE_NS);
    assert multiset(trimmed + [now]) == multiset(trimmed) + multiset{now};
  }

  lemma GrantKeepsSpacing(lim: Limits, last: map<string, int>, l: seq<Reservation>, clock: int, r: Reservation)
    requires NodesSpaced(lim, last, l, clock) && clock <= r.time && r.phase == InFlight
    requires r.time - (if r.node in last then last[r.node] else 0) >= lim.minInterval > 0
    ensures NodesSpaced(lim, last[r.node := r.time], l + [r], r.time)
  {
    var last', l' := last[r.node := r.time], l + [r];
    forall n | n in last' ensures LiveOf(l', n, last'[n]) {
      if n == r.node {
        assert l'[|l|].Live();
      } else {
        assert LiveOf(l, n, last[n]);
        var i :| 0 <= i < |l| && l[i].Live() && l[i].node == n && l[i].time == last[n];
        assert l'[i] == l[i];
      }
    }
  }

  lemma GrantKeepsInv(lim: Limits, s: State, clock: int, node: string, now: int)
    requires Inv(lim, s, clock) && clock <= now && Judge(lim, s, node, now) == Granted
    requires PastLedger(s.ledger, now) && WindowAgrees(s.window, s.ledger, now)
    ensures Inv(lim, Reserve(lim, s, node, now), now)
  {
    var r := Reservation(node, now, InFlight);
    TrimmedWindow(s.window, s.ledger, now);
    TrimKeepsWindow(s.window, s.ledger, now);
    GrantKeepsBudget(lim, s.ledger, now, r);
    GrantKeepsWindow(Trim(s.window, now - MINUTE_NS), s.ledger, now, r);
    LiveGrows(s.ledger, r, 0);
    if lim.minInterval > 0 { GrantKeepsSpacing(lim, s.lastTune, s.ledger, clock, r); }
  }

  /** Asking for a tune keeps every invariant. */
  lemma ReserveKeepsInv(lim: Limits, s: State, clock: int, node: string, now: int)
    requires Inv(lim, s, clock) && clock <= now
    ensures Inv(lim, Reserve(lim, s, node, now), now)
  {
    ClockMoves(s.window, s.ledger, clock, now);
    match Judge(lim, s, node, now)
    case RateLimited =>
    case OverBudget => TrimKeepsWindow(s.window, s.ledger, now);
    case Granted => GrantKeepsInv(lim, s, clock, node, now);
  }

  lemma SettleKeepsBudget(lim: Limits, l: seq<Reservation>, id: nat, p: Phase)
    requires WithinBudget(lim, l) && id < |l| && l[id].phase == InFlight && p != InFlight
    ensures WithinBudget(lim, l[id := Settled(l[id], p)])
  {
    var l' := l[id := Settled(l[id], p)];
    forall w ensures |LiveIn(l', w)| <= Cap(lim) {
      LiveSettles(l, l', id, p, w);
      assert |LiveIn(l, w)| <= Cap(lim);
    }
  }

  lemma SettleKeepsWindow(window: seq<int>, l: seq<Reservation>, clock: int, id: nat, p: Phase)
    requires WindowAgrees(window, l, clock) && PastLedger(l, clock)
    requires id < |l| && l[id].phase == InFlight && p != InFlight
    ensures WindowAgrees(if p == RolledBack then RemoveFirst(window, l[id].time) else window,
                         l[id := Settled(l[id], p)], clock)
  {
    LiveSettles(l, l[id := Settled(l[id], p)], id, p, clock - MINUTE_NS);
    RemoveFirstRemoves(window, l[id].time);
  }

  lemma CommitKeepsSpacing(lim: Limits, last: map<string, int>, l: seq<Reservation>, clock: int, id: nat)
    requires NodesSpaced(lim, last, l, clock) && id < |l| && l[id].phase == InFlight
    ensures NodesSpaced(lim, last, l[id := Settled(l[id], Succeeded)], clock)
  {
    var l' := l[id := Settled(l[id], Succeeded)];
    forall n | n in last ensures LiveOf(l', n, last[n]) {
      assert LiveOf(l, n, last[n]);
      var i :| 0 <= i < |l| && l[i].Live() && l[i].node == n && l[i].time == last[n];
      assert l'[i].Live() && l'[i].node == n && l'[i].time == last[n];
    }
  }

  /** A rollback deletes the node's entry instead of restoring the older one; the older live
      reservations of the node are far enough in the past by then. */
  lemma RollbackKeepsShield(lim: Limits, last: map<string, int>, l: seq<Reservation>, clock: int, id: nat)
    requires NodesSpaced(lim, last, l, clock) && id < |l| && l[id].phase == InFlight
    requires l[id].time <= clock && lim.minInterval > 0
    ensures Shielded(lim, Unlist(last, l[id].node, l[id].time), l[id := Settled(l[id], RolledBack)], clock)
  {
    var last', l' := Unlist(last, l[id].node, l[id].time), l[id := Settled(l[id], RolledBack)];
    forall i | 0 <= i < |l'| && l'[i].Live()
      ensures clock - l'[i].time >= lim.minInterval || (l'[i].node in last' && last'[l'[i].node] >= l'[i].time)
    {
      assert l'[i] == l[i] && i != id;
    }
  }

  lemma RollbackKeepsSpacing(lim: Limits, last: map<string, int>, l: seq<Reservation>, clock: int, id: nat)
    requires NodesSpaced(lim, last, l, clock) && id < |l| && l[id].phase == InFlight
    requires l[id].time <= clock && lim.minInterval > 0
    ensures NodesSpaced(lim, Unlist(last, l[id].node, l[id].time), l[id := Settled(l[id], RolledBack)], clock)
  {
    var last', l' := Unlist(last, l[id].node, l[id].time), l[id := Settled(l[id], RolledBack)];
    RollbackKeepsShield(lim, last, l, clock, id);
    forall n | n in last' ensures LiveOf(l', n, last'[n]) {
      assert LiveOf(l, n, last[n]);
      var i :| 0 <= i < |l| && l[i].Live() && l[i].node == n && l[i].time == last[n];
      assert i != id && l'[i] == l[i];
    }
  }

  /** Committing or rolling back keeps every invariant. */
  lemma SettleKeepsInv(lim: Limits, s: State, clock: int, id: nat, o: Outcome)
    requires Inv(lim, s, clock) && Pending(s, id)
    ensures Inv(lim, Settle(s, id, o), clock)
  {
    var p := if o == Tuned then Succeeded else RolledBack;
    SettleKeepsBudget(lim, s.ledger, id, p);
    SettleKeepsWindow(s.window, s.ledger, clock, id, p);
    SuccessesSettle(s.ledger, s.ledger[id := Settled(s.ledger[id], p)], id, p);
    if lim.minInterval > 0 {
      if o == Tuned { CommitKeepsSpacing(lim, s.lastTune, s.ledger, clock, id); }
      else { RollbackKeepsSpacing(lim, s.lastTune, s.ledger, clock, id); }
    }
  }

  lemma ClockStep(events: seq<Event>)
    requires ClockMonotone(events) && events != []
    ensures var before, e := events[..|events| - 1], events[|events| - 1];
            ClockMonotone(before) && (e.Request? ==> Clock(before) <= e.now)
  {
    var before := events[..|events| - 1];
    forall k | 0 <= k < |before| && before[k].Request? ensures Clock(before[..k]) <= before[k].now {
      assert before[..k] == events[..k];
    }
  }

  /** The invariants hold after every run, however the steps of the tunes interleave. */
  lemma {:induction false} RunKeepsInv(lim: Limits, events: seq<Event>)
    requires ClockMonotone(events)
    ensures Inv(lim, Run(lim, events), Clock(events))
  {
    if events != [] {
      var before, e := events[..|events| - 1], events[|events| - 1];
      ClockStep(events);
      RunKeepsInv(lim, before);
      var s := Run(lim, before);
      match e
      case Request(node, now) => ReserveKeepsInv(lim, s, Clock(before), node, now);
      case Finish(id, o) =>
        if Pending(s, id) {
          SettleKeepsInv(lim, s, Clock(before), id, o);
        }
    }
  }

  // ---------------------------------------------------------------- the promises over whole runs

  /** The source's gate is the rule over the ledger, in every state a run can reach. */
  lemma GateIsLedgerRule(lim: Limits, events: seq<Event>, node: string, now: int)
    requires ClockMonotone(events) && Clock(events) <= now
    ensures Judge(lim, Run(lim, events), node, now) == LedgerRule(lim, Run(lim, events), node, now)
  {
    RunKeepsInv(lim, events);
    GateInState(lim, Run(lim, events), Clock(events), node, now);
  }

  /** In every run, any closed minute holds at most `budget` reservations that end in success. */
  lemma BudgetHolds(lim: Limits, events: seq<Event>, w: int)
    requires ClockMonotone(events)
    ensures SuccessesIn(Run(lim, events).ledger, w) <= Cap(lim)
  {
    RunKeepsInv(lim, events);
    SuccessesAreLive(Run(lim, events).ledger, w);
  }

  lemma StepTimes(lim: Limits, s: State, e: Event)
    ensures var l, l' := s.ledger, Step(lim, s, e).ledger;
            && |l| <= |l'| <= |l| + 1
            && (forall i :: 0 <= i < |l| ==> l'[i].time == l[i].time)
            && (|l'| > |l| ==> e.Request? && l'[|l|].time == e.now)
  {
  }

  lemma {:induction false} LedgerIsChronological(lim: Limits, events: seq<Event>)
    requires ClockMonotone(events)
    ensures var l := Run(lim, events).ledger; forall i, j :: 0 <= i < j < |l| ==> l[i].time <= l[j].time
  {
    if events != [] {
      var before := events[..|events| - 1];
      ClockStep(events);
      LedgerIsChronological(lim, before);
      RunKeepsInv(lim, before);
      var e := events[|events| - 1];
      assert Run(lim, events) == Step(lim, Run(lim, before), e);
      StepTimes(lim, Run(lim, before), e);
    }
  }

  /** In every run, two successful tunes of one node were reserved at least the interval apart. */
  lemma SpacingHolds(lim: Limits, events: seq<Event>, i: nat, j: nat)
    requires ClockMonotone(events)
    requires var l := Run(lim, events).ledger;
             i < j < |l| && l[i].phase == l[j].phase == Succeeded && l[i].node == l[j].node
    ensures var l := Run(lim, events).ledger; l[j].time - l[i].time >= lim.minInterval
  {
    RunKeepsInv(lim, events);
    LedgerIsChronological(lim, events);
  }

  // ---------------------------------------------------------------- what each step is answered with

  lemma {:induction false} ClockOfPrefix(events: seq<Event>, n: nat)
    requires ClockMonotone(events) && n <= |events|
    ensures ClockMonotone(events[..n]) && (n < |events| && events[n].Request? ==> Clock(events[..n]) <= events[n].now)
  {
    forall k | 0 <= k < n && events[..n][k].Request? ensures Clock(events[..n][..k]) <= events[..n][k].now {
      assert events[..n][..k] == events[..k];
    }
  }

  /** A request puts exactly one reservation on the ledger, its own, when the rule grants it, and none
      when it refuses; nothing else ever does. */
  lemma ReservedIff(lim: Limits, events: seq<Event>, n: nat)
    requires ClockMonotone(events) && n < |events|
    ensures var s, l := Run(lim, events[..n]), Run(lim, events[..n + 1]).ledger;
            match events[n]
            case Request(node, now) =>
              l == if LedgerRule(lim, s, node, now) == Granted then s.ledger + [Reservation(node, now, InFlight)] else s.ledger
            case Finish(_, _) => |l| == |s.ledger|
  {
    ClockOfPrefix(events, n);
    assert events[..n + 1][..n] == events[..n];
    if events[n].Request? { GateIsLedgerRule(lim, events[..n], events[n].node, events[n].now); }
  }

  ghost predicate HasPhase(s: State, id: nat, p: Phase) { id < |s.ledger| && s.ledger[id].phase == p }

  /** Step n is the end of tune `id`, still in flight then, and it went well, or did not. */
  ghost predicate EndsAt(lim: Limits, events: seq<Event>, id: nat, well: bool, n: nat)
    requires n < |events|
  {
    events[n].Finish? && events[n].id == id && events[n].outcome.Tuned? == well && HasPhase(Run(lim, events[..n]), id, InFlight)
  }

  lemma NextPhase(lim: Limits, events: seq<Event>, id: nat, well: bool, n: nat)
    requires n < |events|
    ensures var p := if well then Succeeded else RolledBack;
            HasPhase(Run(lim, events[..n + 1]), id, p) <==> HasPhase(Run(lim, events[..n]), id, p) || EndsAt(lim, events, id, well, n)
  {
    assert events[..n + 1][..n] == events[..n];
  }

  /** A reservation counts as a success exactly if its tune ended well, and as rolled back exactly if
      it ended in any other way. */
  lemma PhaseIff(lim: Limits, events: seq<Event>, id: nat, well: bool)
    ensures HasPhase(Run(lim, events), id, if well then Succeeded else RolledBack) <==>
            exists n: nat :: n < |events| && EndsAt(lim, events, id, well, n)
  {
    var p := if well then Succeeded else RolledBack;
    ghost var holds := (n: nat) => n <= |events| && HasPhase(Run(lim, events[..n]), id, p);
    ghost var gains := (n: nat) => n < |events| && EndsAt(lim, events, id, well, n);
    assert events[..0] == [] && events[..|events|] == events;
    forall n: nat | n < |events| ensures holds(n + 1) == (holds(n) || gains(n)) { NextPhase(lim, events, id, well, n); }
    SomeTime(holds, gains, |events|);
    if n: nat :| n < |events| && gains(n) { assert EndsAt(lim, events, id, well, n); }
    if n: nat :| n < |events| && EndsAt(lim, events, id, well, n) { assert gains(n); }
  }

  /** How many of the requests so far the rule answered with v. */
  ghost function Answered(lim: Limits, events: seq<Event>, v: Verdict): nat {
    if events == [] then 0 else
    var before, e := events[..|events| - 1], events[|events| - 1];
    Answered(lim, before, v) + (if e.Request? && LedgerRule(lim, Run(lim, before), e.node, e.now) == v then 1 else 0)
  }

  /** How many tunes in flight ended with o. */
  ghost function Ended(lim: Limits, events: seq<Event>, o: Outcome): nat {
    if events == [] then 0 else
    var before, e := events[..|events| - 1], events[|events| - 1];
    Ended(lim, before, o) + (if e.Finish? && e.outcome == o && HasPhase(Run(lim, before), e.id, InFlight) then 1 else 0)
  }

  /** Every counter counts what its name says. */
  lemma {:induction false} CountersTally(lim: Limits, events: seq<Event>)
    requires ClockMonotone(events)
    ensures var c := Run(lim, events).counters;
            && c.issued == Ended(lim, events, Tuned) && c.failed == Ended(lim, events, SendFailed)
            && c.alreadyTuned == Ended(lim, events, AlreadyTuned)
            && c.rateLimited == Answered(lim, events, RateLimited) && c.overBudget == Answered(lim, events, OverBudget)
  {
    if events != [] {
      var before, e := events[..|events| - 1], events[|events| - 1];
      ClockStep(events);
      CountersTally(lim, before);
      if e.Request? { GateIsLedgerRule(lim, before, e.node, e.now); }
    }
  }

  // ---------------------------------------------------------------- the object

  class AutoTasker {
    const minInterval: int
    const budget: int
    var lastTune: map<string, int>
    var globalTuneTimes: seq<int>
    var counters: Counters
    ghost var ledger: seq<Reservation>

    ghost function Lim(): Limits { Limits(minInterval, budget) }

    ghost function View(): State
      reads this
    {
      State(lastTune, globalTuneTimes, counters, ledger)
    }

    constructor (minInterval: int, budget: int)
      ensures View() == START && Lim() == Limits(minInterval, budget)
    {
      this.minInterval, this.budget := minInterval, budget;
      lastTune, globalTuneTimes, counters, ledger := map[], [], Counters(0, 0, 0, 0, 0), [];
    }

    /** True when one more tune now stays under the budget; forgets expired entries. */
    method CheckGlobalBudget(now: int) returns (ok: bool)
      modifies this`globalTuneTimes
      ensures globalTuneTimes == Trim(old(globalTuneTimes), now - MINUTE_NS)
      ensures ok == (|globalTuneTimes| < budget)
    {
      var cutoff := now - MINUTE_NS;
      var kept: seq<int> := [];
      for i := 0 to |globalTuneTimes|
        invariant kept == Trim(globalTuneTimes[..i], cutoff)
      {
        assert globalTuneTimes[..i + 1][..i] == globalTuneTimes[..i];
        if globalTuneTimes[i] >= cutoff { kept := kept + [globalTuneTimes[i]]; }
      }
      assert globalTuneTimes[..|globalTuneTimes|] == globalTuneTimes;
      globalTuneTimes := kept;
      return |globalTuneTimes| < budget;
    }

    /** The locked section that opens a tune. */
    method TryReserve(node: string, now: int) returns (granted: bool)
      modifies this
      ensures View() == Reserve(Lim(), old(View()), node, now)
      ensures granted == Judge(Lim(), old(View()), node, now).Granted?
    {
      var last := if node in lastTune then lastTune[node] else 0;
      if now - last < minInterval {
        counters := counters.(rateLimited := counters.rateLimited + 1);
        return false;
      }
      var ok := CheckGlobalBudget(now);
      if !ok {
        counters := counters.(overBudget := counters.overBudget + 1);
        return false;
      }
      lastTune := lastTune[node := now];
      globalTuneTimes := globalTuneTimes + [now];
      ledger := ledger + [Reservation(node, now, InFlight)];
      return true;
    }

    /** The locked section that undoes a reservation, found by node and time. */
    method ReleaseSlot(node: string, time: int)
      modifies this`lastTune, this`globalTuneTimes
      ensures View() == Release(old(View()), node, time)
    {
      if node in lastTune && lastTune[node] == time {
        lastTune := lastTune - {node};
      }
      var i := 0;
      while i < |globalTuneTimes| && globalTuneTimes[i] != time
        invariant 0 <= i <= |globalTuneTimes| && time !in globalTuneTimes[..i]
      {
        i := i + 1;
      }
      RemoveFirstAt(globalTuneTimes, time, i);
      if i < |globalTuneTimes| {
        globalTuneTimes := globalTuneTimes[..i] + globalTuneTimes[i + 1..];
      }
    }

    /** What follows the reservation, once the network answered; `id` is the reservation's place in
        the ledger. */
    method FinishTune(node: string, time: int, outcome: Outcome, ghost id: nat) returns (ok: bool)
      requires Pending(View(), id) && ledger[id].node == node && ledger[id].time == time
      modifies this
      ensures View() == Settle(old(View()), id, outcome)
      ensures ok == (outcome == Tuned)
    {
      ghost var settled := Settled(ledger[id], if outcome == Tuned then Succeeded else RolledBack);
      match outcome {
      case Tuned =>
        counters := counters.(issued := counters.issued + 1);
      case NoClient =>
        ReleaseSlot(node, time);
      case AlreadyTuned =>
        counters := counters.(alreadyTuned := counters.alreadyTuned + 1);
        ReleaseSlot(node, time);
      case SendFailed =>
        counters := counters.(failed := counters.failed + 1);
        ReleaseSlot(node, time);
      }
      ledger := ledger[id := settled];
      return outcome == Tuned;
    }
  }
}
