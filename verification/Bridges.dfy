/** The inbound paths of the two RNS bridges: `handle_inbound` of backend/rns/cmd_handler.py and
    backend/rns/bridge.py.  Both drop loops, peers off the allowlist and duplicates, in that order;
    they differ in which source they believe and in what they count. */
module Bridges {
  import opened Wrappers
  import opened Dedupe
  import Text

  const DEDUPE_LIMIT: nat := 4096

  /** A decoded envelope; an absent source is the empty string. */
  datatype Envelope = Envelope(src: string, uid: string, tsMs: int)

  /** What the local execution path does with a command that reaches it. */
  datatype Handler = Unbound | Accepts | Refuses | Raises

  datatype Fate = BadEnvelope | SourceMismatch | Loop | NotAllowed | Duplicate(m: Message) | Delivered(m: Message)

  function Lower(s: string): string {
    if s == "" then "" else [Text.Lower(s[0])] + Lower(s[1..])
  }

  function PeerKey(src: string): string {
    if src == "" then "_unknown" else Lower(src)
  }

  function MessageOf(src: string, uid: string, tsMs: int): Message {
    Message(PeerKey(src), Key(uid, tsMs / 1000))
  }

  /** The checks both bridges share, once they settled on a source. */
  function Screen(own: string, allowlist: set<string>, seen: Table, src: string, env: Envelope): Fate {
    if src != "" && src == Lower(own) then Loop
    else if allowlist != {} && src !in allowlist then NotAllowed
    else
      var m := MessageOf(src, env.uid, env.tsMs);
      if Seen(seen, m) then Duplicate(m) else Delivered(m)
  }

  /** The command bridge believes the transport; an envelope that disagrees is dropped. */
  function CmdFate(own: string, allowlist: set<string>, seen: Table, env: Option<Envelope>, packetSrc: string): Fate {
    if env.None? then BadEnvelope else
    var claimed, packet := Lower(env.value.src), Lower(packetSrc);
    if packet != "" && claimed != "" && claimed != packet then SourceMismatch
    else Screen(own, allowlist, seen, if packet != "" then packet else claimed, env.value)
  }

  /** The CoT bridge takes the envelope's source and falls back on the transport's. */
  function CotFate(own: string, allowlist: set<string>, seen: Table, env: Option<Envelope>, packetSrc: string): Fate {
    if env.None? then BadEnvelope else
    Screen(own, allowlist, seen, Lower(if env.value.src != "" then env.value.src else packetSrc), env.value)
  }

  /** Only a message that passes every other check touches the cache. */
  function Remember(seen: Table, f: Fate): Table {
    if f.Duplicate? || f.Delivered? then Record(seen, f.m, DEDUPE_LIMIT) else seen
  }

  // ---------------------------------------------------------------- runs

  datatype Arrival = Arrival(own: string, allowlist: set<string>, env: Option<Envelope>, packetSrc: string)

  datatype Trail = Trail(fates: seq<Fate>, seen: Table)

  /** The two bridges differ in which source they believe. */
  datatype Kind = Cmd | Cot

  function FateOf(kind: Kind, a: Arrival, seen: Table): Fate {
    if kind == Cmd then CmdFate(a.own, a.allowlist, seen, a.env, a.packetSrc)
    else CotFate(a.own, a.allowlist, seen, a.env, a.packetSrc)
  }

  function Run(kind: Kind, arrivals: seq<Arrival>): (r: Trail)
    ensures |r.fates| == |arrivals|
  {
    if arrivals == [] then Trail([], map[]) else
    var front := Run(kind, arrivals[..|arrivals| - 1]);
    var a := arrivals[|arrivals| - 1];
    var f := FateOf(kind, a, front.seen);
    Trail(front.fates + [f], Remember(front.seen, f))
  }

  /** The messages that got as far as the cache. */
  function Screened(fates: seq<Fate>): seq<Message> {
    if fates == [] then [] else
    var f := fates[|fates| - 1];
    Screened(fates[..|fates| - 1]) + (if f.Duplicate? || f.Delivered? then [f.m] else [])
  }

  lemma ScreenedSnoc(fates: seq<Fate>, f: Fate)
    ensures Screened(fates + [f]) == if f.Duplicate? || f.Delivered? then Screened(fates) + [f.m] else Screened(fates)
  {
    assert (fates + [f])[..|fates|] == fates;
  }

  lemma ReplaySnoc(h: seq<Message>, m: Message)
    ensures Replay(h + [m], DEDUPE_LIMIT) == Record(Replay(h, DEDUPE_LIMIT), m, DEDUPE_LIMIT)
  {
    assert (h + [m])[..|h|] == h;
  }

  lemma {:induction false} CacheIsHistory(kind: Kind, arrivals: seq<Arrival>)
    ensures Run(kind, arrivals).seen == Replay(Screened(Run(kind, arrivals).fates), DEDUPE_LIMIT)
  {
    if arrivals != [] {
      var front := Run(kind, arrivals[..|arrivals| - 1]);
      CacheIsHistory(kind, arrivals[..|arrivals| - 1]);
      var f := Run(kind, arrivals).fates[|arrivals| - 1];
      ScreenedSnoc(front.fates, f);
      if f.Duplicate? || f.Delivered? { ReplaySnoc(Screened(front.fates), f.m); }
    }
  }

  lemma {:induction false} FatesPrefix(kind: Kind, arrivals: seq<Arrival>, n: nat)
    requires n <= |arrivals|
    ensures Run(kind, arrivals[..n]).fates == Run(kind, arrivals).fates[..n]
    decreases |arrivals| - n
  {
    if n < |arrivals| {
      FatesPrefix(kind, arrivals, n + 1);
      assert arrivals[..n + 1][..n] == arrivals[..n];
      assert Run(kind, arrivals[..n]).fates == Run(kind, arrivals[..n + 1]).fates[..n];
    } else {
      assert arrivals[..n] == arrivals;
    }
  }

  lemma FateAt(kind: Kind, arrivals: seq<Arrival>, j: nat)
    requires j < |arrivals|
    ensures Run(kind, arrivals).fates[j] == FateOf(kind, arrivals[j], Run(kind, arrivals[..j]).seen)
  {
    var upTo := arrivals[..j + 1];
    FatesPrefix(kind, arrivals, j + 1);
    assert upTo[..|upTo| - 1] == arrivals[..j] && upTo[|upTo| - 1] == arrivals[j];
    assert Run(kind, arrivals).fates[j] == Run(kind, upTo).fates[j];
  }

  lemma {:induction false} LowerTwice(s: string)
    ensures |Lower(s)| == |s| && Lower(Lower(s)) == Lower(s)
  {
    if s != "" {
      LowerTwice(s[1..]);
      assert Lower(s)[1..] == Lower(s[1..]);
    }
  }

  /** Whose message a bridge takes an arrival for.  The command bridge never counts a message for a
      peer other than the one the transport names, nor for one other than the envelope names; the
      CoT bridge goes by the envelope as far as it names anyone. */
  lemma AttributedTo(kind: Kind, a: Arrival, seen: Table)
    requires var f := FateOf(kind, a, seen); f.Delivered? || f.Duplicate?
    ensures a.env.Some?
    ensures var m, named := FateOf(kind, a, seen).m, a.env.value.src;
            && (kind == Cmd && a.packetSrc != "" ==> m.peer == PeerKey(a.packetSrc))
            && (named != "" ==> m.peer == PeerKey(named))
            && (named == "" ==> m.peer == PeerKey(a.packetSrc))
  {
    LowerTwice(a.packetSrc);
    LowerTwice(a.env.value.src);
  }

  /** The command bridge drops an arrival for its source exactly when transport and envelope name two
      peers that differ in more than case; the CoT bridge never does. */
  lemma MismatchIff(kind: Kind, a: Arrival, seen: Table)
    requires a.env.Some?
    ensures FateOf(kind, a, seen).SourceMismatch? <==>
            kind == Cmd && a.packetSrc != "" && a.env.value.src != "" && PeerKey(a.packetSrc) != PeerKey(a.env.value.src)
  {
    LowerTwice(a.packetSrc);
    LowerTwice(a.env.value.src);
  }

  lemma ReplayGap(before: seq<Fate>, f: Fate, between: seq<Fate>)
    requires Counted(f) && !Seen(Replay(Screened(before + [f] + between), DEDUPE_LIMIT), f.m)
    ensures |KeySet(KeysOf(Screened(between), f.m.peer)) - {f.m.key}| >= DEDUPE_LIMIT
  {
    ScreenedSnoc(before, f);
    ScreenedSplit(before + [f], between);
    AcceptedTwice(Screened(before), f.m, Screened(between), DEDUPE_LIMIT);
  }

  lemma {:induction false} ScreenedSplit(a: seq<Fate>, b: seq<Fate>)
    ensures Screened(a + b) == Screened(a) + Screened(b)
  {
    if b == [] {
      assert a + b == a;
    } else {
      assert (a + b)[..|a + b| - 1] == a + b[..|b| - 1];
      ScreenedSplit(a, b[..|b| - 1]);
    }
  }

  // ---------------------------------------------------------------- fates, read off the arrivals

  /** The character with the ASCII capitals made small. */
  function Small(c: char): char { if 65 <= c as int <= 90 then (c as int + 32) as char else c }

  /** Equal but for the case of ASCII letters. */
  ghost predicate SameName(a: string, b: string) {
    |a| == |b| && forall i :: 0 <= i < |a| ==> Small(a[i]) == Small(b[i])
  }

  lemma {:induction false} LowerIs(s: string)
    ensures |Lower(s)| == |s| && forall i :: 0 <= i < |s| ==> Lower(s)[i] == Small(s[i])
  {
    if s != "" { LowerIs(s[1..]); }
  }

  lemma LowerAlike(a: string, b: string)
    ensures Lower(a) == Lower(b) <==> SameName(a, b)
  {
    LowerIs(a);
    LowerIs(b);
    if Lower(a) == Lower(b) {
      forall i | 0 <= i < |a| ensures Small(a[i]) == Small(b[i]) { assert Lower(a)[i] == Lower(b)[i]; }
    }
  }

  /** The name an arrival is judged by: the command bridge prefers the transport's, the CoT bridge the
      envelope's. */
  function NameOn(kind: Kind, a: Arrival): string
    requires a.env.Some?
  {
    if kind == Cmd && a.packetSrc != "" then a.packetSrc
    else if a.env.value.src != "" then a.env.value.src
    else a.packetSrc
  }

  ghost predicate Spoofed(kind: Kind, a: Arrival)
    requires a.env.Some?
  {
    kind == Cmd && a.packetSrc != "" && a.env.value.src != "" && !SameName(a.packetSrc, a.env.value.src)
  }

  /** The arrival passes every check but the one for duplicates: it decodes, its sources agree, it is
      not our own, and the allowlist, if there is one, has its name in small letters. */
  ghost predicate Admissible(kind: Kind, a: Arrival) {
    && a.env.Some? && !Spoofed(kind, a)
    && !(NameOn(kind, a) != "" && SameName(NameOn(kind, a), a.own))
    && (a.allowlist == {} || Lower(NameOn(kind, a)) in a.allowlist)
  }

  /** The peer whose messages are remembered together. */
  function PeerOf(kind: Kind, a: Arrival): string
    requires a.env.Some?
  {
    if NameOn(kind, a) == "" then "_unknown" else Lower(NameOn(kind, a))
  }

  /** The message got as far as the cache. */
  predicate Counted(f: Fate) { f.Duplicate? || f.Delivered? }

  lemma SettledOn(kind: Kind, a: Arrival, seen: Table)
    requires a.env.Some?
    ensures FateOf(kind, a, seen) ==
            if Spoofed(kind, a) then SourceMismatch else Screen(a.own, a.allowlist, seen, Lower(NameOn(kind, a)), a.env.value)
  {
    LowerTwice(a.packetSrc);
    LowerTwice(a.env.value.src);
    LowerAlike(a.packetSrc, a.env.value.src);
  }

  lemma ScreenIs(a: Arrival, seen: Table, name: string)
    requires a.env.Some?
    ensures var f, own := Screen(a.own, a.allowlist, seen, Lower(name), a.env.value), name != "" && SameName(name, a.own);
            && !f.BadEnvelope? && !f.SourceMismatch? && (f.Loop? <==> own)
            && (Counted(f) <==> !own && (a.allowlist == {} || Lower(name) in a.allowlist))
            && (Counted(f) ==> f.m.peer == if name == "" then "_unknown" else Lower(name))
  {
    LowerTwice(name);
    LowerAlike(name, a.own);
  }

  /** Everything but recency: which arrivals are dropped for what, and which get to the cache, under
      which peer's name. */
  lemma FateIs(kind: Kind, a: Arrival, seen: Table)
    ensures var f := FateOf(kind, a, seen);
            && (f.BadEnvelope? <==> a.env.None?)
            && (a.env.Some? ==> (f.SourceMismatch? <==> Spoofed(kind, a)))
            && (a.env.Some? ==> (f.Loop? <==> !Spoofed(kind, a) && NameOn(kind, a) != "" && SameName(NameOn(kind, a), a.own)))
            && (Counted(f) <==> Admissible(kind, a))
            && (Counted(f) ==> f.m.peer == PeerOf(kind, a))
  {
    if a.env.Some? {
      SettledOn(kind, a, seen);
      ScreenIs(a, seen, NameOn(kind, a));
    }
  }

  predicate InSecond(ms: int, s: int) { 1000 * s <= ms <= 1000 * s + 999 }

  /** Two times in milliseconds lie in the same second. */
  ghost predicate SameSecond(t: int, u: int) { exists s :: InSecond(t, s) && InSecond(u, s) }

  /** The same uid within the same second. */
  ghost predicate SameCommand(a: Arrival, b: Arrival) {
    a.env.Some? && b.env.Some? && a.env.value.uid == b.env.value.uid && SameSecond(a.env.value.tsMs, b.env.value.tsMs)
  }

  lemma SecondsAgree(t: int, u: int)
    ensures SameSecond(t, u) <==> t / 1000 == u / 1000
  {
    assert InSecond(t, t / 1000) && InSecond(u, u / 1000);
    if s :| InSecond(t, s) && InSecond(u, s) { assert t / 1000 == s && u / 1000 == s; }
  }

  lemma CountedKey(kind: Kind, arrivals: seq<Arrival>, k: nat)
    requires k < |arrivals| && Counted(Run(kind, arrivals).fates[k])
    ensures arrivals[k].env.Some?
    ensures Run(kind, arrivals).fates[k].m.key == Key(arrivals[k].env.value.uid, arrivals[k].env.value.tsMs / 1000)
  {
    FateAt(kind, arrivals, k);
  }

  lemma SameKeyIff(kind: Kind, arrivals: seq<Arrival>, i: nat, j: nat)
    requires i < |arrivals| && j < |arrivals|
    requires Counted(Run(kind, arrivals).fates[i]) && Counted(Run(kind, arrivals).fates[j])
    ensures Run(kind, arrivals).fates[i].m.key == Run(kind, arrivals).fates[j].m.key <==> SameCommand(arrivals[i], arrivals[j])
  {
    CountedKey(kind, arrivals, i);
    CountedKey(kind, arrivals, j);
    SecondsAgree(arrivals[i].env.value.tsMs, arrivals[j].env.value.tsMs);
  }

  /** Arrivals k and j both pass the checks and come from the same peer. */
  ghost predicate FromPeerOf(kind: Kind, arrivals: seq<Arrival>, k: nat, j: nat)
    requires k < |arrivals| && j < |arrivals|
  {
    Admissible(kind, arrivals[k]) && Admissible(kind, arrivals[j]) && PeerOf(kind, arrivals[k]) == PeerOf(kind, arrivals[j])
  }

  lemma CountedIff(kind: Kind, arrivals: seq<Arrival>, k: nat)
    requires k < |arrivals|
    ensures var f := Run(kind, arrivals).fates[k];
            (Counted(f) <==> Admissible(kind, arrivals[k])) && (Counted(f) ==> f.m.peer == PeerOf(kind, arrivals[k]))
  {
    FateAt(kind, arrivals, k);
    FateIs(kind, arrivals[k], Run(kind, arrivals[..k]).seen);
  }

  /** The other commands, each a uid and a second, that peer sent strictly between arrivals i and j. */
  ghost function OthersBetween(kind: Kind, arrivals: seq<Arrival>, i: nat, j: nat): set<Key>
    requires i < j < |arrivals|
  {
    set k: nat | i < k < j && FromPeerOf(kind, arrivals, k, j) && !SameCommand(arrivals[k], arrivals[j]) ::
      Key(arrivals[k].env.value.uid, arrivals[k].env.value.tsMs / 1000)
  }

  ghost predicate SentIn(fates: seq<Fate>, peer: string, x: Key) {
    exists k :: 0 <= k < |fates| && Counted(fates[k]) && fates[k].m == Message(peer, x)
  }

  lemma SentSnoc(front: seq<Fate>, f: Fate, peer: string, x: Key)
    ensures SentIn(front + [f], peer, x) <==> SentIn(front, peer, x) || (Counted(f) && f.m == Message(peer, x))
  {
    var fates := front + [f];
    assert fates[|front|] == f;
    if SentIn(front, peer, x) {
      var k :| 0 <= k < |front| && Counted(front[k]) && front[k].m == Message(peer, x);
      assert fates[k] == front[k];
    }
  }

  lemma KeysSnoc(front: seq<Fate>, f: Fate, peer: string)
    ensures KeysOf(Screened(front + [f]), peer) ==
            if Counted(f) && f.m.peer == peer then KeysOf(Screened(front), peer) + [f.m.key] else KeysOf(Screened(front), peer)
  {
    ScreenedSnoc(front, f);
    if Counted(f) { assert (Screened(front) + [f.m])[..|Screened(front)|] == Screened(front); }
  }

  lemma {:induction false} KeysAreSent(fates: seq<Fate>, peer: string, x: Key)
    ensures x in KeysOf(Screened(fates), peer) <==> SentIn(fates, peer, x)
  {
    if fates != [] {
      var front, f := fates[..|fates| - 1], fates[|fates| - 1];
      assert fates == front + [f];
      KeysAreSent(front, peer, x);
      SentSnoc(front, f, peer, x);
      KeysSnoc(front, f, peer);
    }
  }

  lemma OtherIsSent(kind: Kind, arrivals: seq<Arrival>, i: nat, j: nat, x: Key)
    requires i < j < |arrivals| && Admissible(kind, arrivals[j]) && x in OthersBetween(kind, arrivals, i, j)
    ensures var fates := Run(kind, arrivals).fates;
            Counted(fates[j]) && SentIn(fates[i + 1..j], fates[j].m.peer, x) && x != fates[j].m.key
  {
    var fates := Run(kind, arrivals).fates;
    var k: nat :| i < k < j && FromPeerOf(kind, arrivals, k, j) && !SameCommand(arrivals[k], arrivals[j]) &&
      x == Key(arrivals[k].env.value.uid, arrivals[k].env.value.tsMs / 1000);
    CountedIff(kind, arrivals, j);
    CountedIff(kind, arrivals, k);
    CountedKey(kind, arrivals, k);
    SameKeyIff(kind, arrivals, k, j);
    assert fates[i + 1..j][k - i - 1] == fates[k];
  }

  lemma SentIsOther(kind: Kind, arrivals: seq<Arrival>, i: nat, j: nat, x: Key)
    requires i < j < |arrivals| && Counted(Run(kind, arrivals).fates[j])
    requires var fates := Run(kind, arrivals).fates; SentIn(fates[i + 1..j], fates[j].m.peer, x) && x != fates[j].m.key
    ensures x in OthersBetween(kind, arrivals, i, j)
  {
    var fates := Run(kind, arrivals).fates;
    var between := fates[i + 1..j];
    var q :| 0 <= q < |between| && Counted(between[q]) && between[q].m == Message(fates[j].m.peer, x);
    var k := i + 1 + q;
    assert between[q] == fates[k];
    CountedIff(kind, arrivals, j);
    CountedIff(kind, arrivals, k);
    CountedKey(kind, arrivals, k);
    SameKeyIff(kind, arrivals, k, j);
    assert FromPeerOf(kind, arrivals, k, j) && !SameCommand(arrivals[k], arrivals[j]);
  }

  lemma OthersAreKeys(kind: Kind, arrivals: seq<Arrival>, i: nat, j: nat)
    requires i < j < |arrivals| && Counted(Run(kind, arrivals).fates[j])
    ensures var fates := Run(kind, arrivals).fates;
            OthersBetween(kind, arrivals, i, j) == KeySet(KeysOf(Screened(fates[i + 1..j]), fates[j].m.peer)) - {fates[j].m.key}
  {
    var fates := Run(kind, arrivals).fates;
    var peer, keys := fates[j].m.peer, KeysOf(Screened(fates[i + 1..j]), fates[j].m.peer);
    CountedIff(kind, arrivals, j);
    forall x | x in OthersBetween(kind, arrivals, i, j) ensures x in KeySet(keys) - {fates[j].m.key} {
      OtherIsSent(kind, arrivals, i, j, x);
      KeysAreSent(fates[i + 1..j], peer, x);
    }
    forall x | x in KeySet(keys) - {fates[j].m.key} ensures x in OthersBetween(kind, arrivals, i, j) {
      KeysAreSent(fates[i + 1..j], peer, x);
      SentIsOther(kind, arrivals, i, j, x);
    }
  }

  /** Arrival i is the same command from the same peer as arrival j, with fewer than 4096 others of
      that peer in between. */
  ghost predicate RepeatedBy(kind: Kind, arrivals: seq<Arrival>, i: nat, j: nat)
    requires i < j < |arrivals|
  {
    && FromPeerOf(kind, arrivals, i, j) && SameCommand(arrivals[i], arrivals[j])
    && |OthersBetween(kind, arrivals, i, j)| < 4096
  }

  lemma CountedBySeen(kind: Kind, a: Arrival, seen: Table)
    requires Counted(FateOf(kind, a, seen))
    ensures FateOf(kind, a, seen).Duplicate? <==> Seen(seen, FateOf(kind, a, seen).m)
  {
  }

  lemma DuplicateIsSeen(kind: Kind, arrivals: seq<Arrival>, j: nat)
    requires j < |arrivals| && Counted(Run(kind, arrivals).fates[j])
    ensures var fates := Run(kind, arrivals).fates;
            fates[j].Duplicate? <==> Seen(Replay(Screened(fates[..j]), DEDUPE_LIMIT), fates[j].m)
  {
    FateAt(kind, arrivals, j);
    CountedBySeen(kind, arrivals[j], Run(kind, arrivals[..j]).seen);
    FatesPrefix(kind, arrivals, j);
    CacheIsHistory(kind, arrivals[..j]);
  }

  lemma GapSeen(before: seq<Fate>, f: Fate, between: seq<Fate>)
    requires Counted(f) && |KeySet(KeysOf(Screened(between), f.m.peer)) - {f.m.key}| < DEDUPE_LIMIT
    ensures Seen(Replay(Screened(before + [f] + between), DEDUPE_LIMIT), f.m)
  {
    if !Seen(Replay(Screened(before + [f] + between), DEDUPE_LIMIT), f.m) { ReplayGap(before, f, between); }
  }

  lemma RepeatIsSeen(kind: Kind, arrivals: seq<Arrival>, i: nat, j: nat)
    requires i < j < |arrivals| && RepeatedBy(kind, arrivals, i, j)
    ensures Run(kind, arrivals).fates[j].Duplicate?
  {
    var fates := Run(kind, arrivals).fates;
    CountedIff(kind, arrivals, i);
    CountedIff(kind, arrivals, j);
    SameKeyIff(kind, arrivals, i, j);
    OthersAreKeys(kind, arrivals, i, j);
    assert fates[i].m == fates[j].m;
    GapSeen(fates[..i], fates[i], fates[i + 1..j]);
    Around(fates, i, j);
    DuplicateIsSeen(kind, arrivals, j);
  }

  lemma Around(fates: seq<Fate>, i: nat, j: nat)
    requires i < j <= |fates|
    ensures fates[..j] == fates[..i] + [fates[i]] + fates[i + 1..j]
  {
  }

  lemma {:induction false} LastSent(fates: seq<Fate>, peer: string, x: Key) returns (i: nat)
    requires SentIn(fates, peer, x)
    ensures i < |fates| && Counted(fates[i]) && fates[i].m == Message(peer, x) && !SentIn(fates[i + 1..], peer, x)
  {
    i := |fates| - 1;
    while !(Counted(fates[i]) && fates[i].m == Message(peer, x))
      invariant i < |fates| && forall k :: i < k < |fates| ==> !(Counted(fates[k]) && fates[k].m == Message(peer, x))
      decreases i
    {
      i := i - 1;
    }
  }

  lemma LastInMiddle(a: seq<Key>, x: Key, b: seq<Key>, i: nat)
    requires i < |a| + 1 + |b| && (a + [x] + b)[i] == x && x !in (a + [x] + b)[i + 1..] && x !in b
    ensures i == |a|
  {
    var h := a + [x] + b;
    assert h[|a|] == x && forall k :: |a| < k < |h| ==> h[k] == b[k - |a| - 1];
    assert forall k :: i < k < |h| ==> h[k] in h[i + 1..];
  }

  lemma RecentIsShort(a: seq<Key>, x: Key, b: seq<Key>, limit: nat)
    requires RecentlyUsed(a + [x] + b, x, limit) && x !in b
    ensures |KeySet(b)| < limit
  {
    var h := a + [x] + b;
    var i :| 0 <= i < |h| && h[i] == x && x !in h[i + 1..] && |KeySet(h[i + 1..])| < limit;
    LastInMiddle(a, x, b, i);
    assert h[i + 1..] == b;
  }

  lemma SeenIsRepeat(kind: Kind, arrivals: seq<Arrival>, j: nat) returns (i: nat)
    requires j < |arrivals| && Run(kind, arrivals).fates[j].Duplicate?
    ensures i < j && RepeatedBy(kind, arrivals, i, j)
  {
    var fates := Run(kind, arrivals).fates;
    var m := fates[j].m;
    var before := fates[..j];
    DuplicateIsSeen(kind, arrivals, j);
    SeenIffRecentlyUsed(Screened(before), m, DEDUPE_LIMIT);
    KeysAreSent(before, m.peer, m.key);
    i := LastSent(before, m.peer, m.key);
    var after := before[i + 1..];
    assert before == before[..i] + [before[i]] + after && after == fates[i + 1..j] && before[i] == fates[i];
    KeysAround(before[..i], before[i], after);
    KeysAreSent(after, m.peer, m.key);
    RecentIsShort(KeysOf(Screened(before[..i]), m.peer), m.key, KeysOf(Screened(after), m.peer), DEDUPE_LIMIT);
    OthersAreKeys(kind, arrivals, i, j);
    SameKeyIff(kind, arrivals, i, j);
    CountedIff(kind, arrivals, i);
    CountedIff(kind, arrivals, j);
    assert m.key !in KeySet(KeysOf(Screened(after), m.peer));
    assert KeySet(KeysOf(Screened(after), m.peer)) - {m.key} == KeySet(KeysOf(Screened(after), m.peer));
  }

  lemma KeysAround(before: seq<Fate>, f: Fate, after: seq<Fate>)
    requires Counted(f)
    ensures KeysOf(Screened(before + [f] + after), f.m.peer) ==
            KeysOf(Screened(before), f.m.peer) + [f.m.key] + KeysOf(Screened(after), f.m.peer)
  {
    ScreenedSplit(before + [f], after);
    ScreenedSnoc(before, f);
    KeysOfSplit(Screened(before + [f]), Screened(after), f.m.peer);
    assert (Screened(before) + [f.m])[..|Screened(before)|] == Screened(before);
  }

  /** Over any run, on what arrives alone: an arrival is a duplicate exactly when it passes the other
      checks and an earlier one of its peer carries the same uid in the same second, with fewer than
      4096 other commands of that peer in between; it is delivered exactly when it passes them and
      there is no such earlier one. */
  lemma DeliveredIff(kind: Kind, arrivals: seq<Arrival>, j: nat)
    requires j < |arrivals|
    ensures var f := Run(kind, arrivals).fates[j];
            && (f.Duplicate? <==> Admissible(kind, arrivals[j]) && exists i: nat :: i < j && RepeatedBy(kind, arrivals, i, j))
            && (f.Delivered? <==> Admissible(kind, arrivals[j]) && !exists i: nat :: i < j && RepeatedBy(kind, arrivals, i, j))
  {
    CountedIff(kind, arrivals, j);
    if Run(kind, arrivals).fates[j].Duplicate? { var i := SeenIsRepeat(kind, arrivals, j); }
    if i: nat :| i < j && RepeatedBy(kind, arrivals, i, j) { RepeatIsSeen(kind, arrivals, i, j); }
  }

  /** No command is delivered again unless its peer had at least 4096 other ones pass the checks since. */
  lemma NoEarlyReplay(kind: Kind, arrivals: seq<Arrival>, i: nat, j: nat)
    requires i < j < |arrivals| && FromPeerOf(kind, arrivals, i, j) && SameCommand(arrivals[i], arrivals[j])
    requires Run(kind, arrivals).fates[j].Delivered?
    ensures |OthersBetween(kind, arrivals, i, j)| >= 4096
  {
    DeliveredIff(kind, arrivals, j);
    assert !RepeatedBy(kind, arrivals, i, j);
  }

  // ---------------------------------------------------------------- the objects

  datatype CmdStats = CmdStats(received: nat, dispatched: nat, dispatchRejected: nat, deduped: nat,
                               loopSuppressed: nat, allowlistRejected: nat, envelopeErrors: nat)
  {
    /** Every inbound envelope is in exactly one of these. */
    function Total(): nat { received + deduped + loopSuppressed + allowlistRejected + envelopeErrors }
  }

  function CmdCount(s: CmdStats, f: Fate, h: Handler): CmdStats {
    match f
    case BadEnvelope => s.(envelopeErrors := s.envelopeErrors + 1)
    case SourceMismatch => s.(envelopeErrors := s.envelopeErrors + 1)
    case Loop => s.(loopSuppressed := s.loopSuppressed + 1)
    case NotAllowed => s.(allowlistRejected := s.allowlistRejected + 1)
    case Duplicate(_) => s.(deduped := s.deduped + 1)
    case Delivered(_) =>
      var s' := s.(received := s.received + 1);
      match h
      case Unbound => s'
      case Accepts => s'.(dispatched := s.dispatched + 1)
      case Refuses => s'.(dispatchRejected := s.dispatchRejected + 1)
      case Raises => s'.(dispatchRejected := s.dispatchRejected + 1)
  }

  /** The counters after a run of fates, each with what the local path made of it. */
  function CmdTotals(fates: seq<Fate>, hs: seq<Handler>): CmdStats
    requires |hs| == |fates|
  {
    if fates == [] then CmdStats(0, 0, 0, 0, 0, 0, 0) else
    var n := |fates| - 1;
    CmdCount(CmdTotals(fates[..n], hs[..n]), fates[n], hs[n])
  }

  function CotTotals(fates: seq<Fate>): CotStats {
    if fates == [] then CotStats(0, 0, 0, 0) else CotCount(CotTotals(fates[..|fates| - 1]), fates[|fates| - 1])
  }

  /** How many of the fates satisfy p, looking at what the local path did as well. */
  ghost function HowMany(fates: seq<Fate>, hs: seq<Handler>, p: (Fate, Handler) -> bool): nat
    requires |hs| == |fates|
  {
    if fates == [] then 0 else
    var n := |fates| - 1;
    HowMany(fates[..n], hs[..n], p) + (if p(fates[n], hs[n]) then 1 else 0)
  }

  predicate Passed(f: Fate, h: Handler) { f.Delivered? }
  predicate Executed(f: Fate, h: Handler) { f.Delivered? && h == Accepts }
  predicate Declined(f: Fate, h: Handler) { f.Delivered? && (h == Refuses || h == Raises) }
  predicate Repeated(f: Fate, h: Handler) { f.Duplicate? }
  predicate Own(f: Fate, h: Handler) { f.Loop? }
  predicate Barred(f: Fate, h: Handler) { f.NotAllowed? }
  predicate Garbled(f: Fate, h: Handler) { f.BadEnvelope? || f.SourceMismatch? }

  /** Each counter counts what its name says. */
  lemma {:induction false} CountersTally(fates: seq<Fate>, hs: seq<Handler>)
    requires |hs| == |fates|
    ensures var s := CmdTotals(fates, hs);
            && s.received == HowMany(fates, hs, Passed) && s.deduped == HowMany(fates, hs, Repeated)
            && s.loopSuppressed == HowMany(fates, hs, Own) && s.allowlistRejected == HowMany(fates, hs, Barred)
            && s.envelopeErrors == HowMany(fates, hs, Garbled)
            && s.dispatched == HowMany(fates, hs, Executed) && s.dispatchRejected == HowMany(fates, hs, Declined)
    ensures var s := CotTotals(fates);
            && s.received == HowMany(fates, hs, Passed) && s.deduped == HowMany(fates, hs, Repeated)
            && s.loopSuppressed == HowMany(fates, hs, Own) && s.allowlistRejected == HowMany(fates, hs, Barred)
  {
    if fates != [] { CountersTally(fates[..|fates| - 1], hs[..|fates| - 1]); }
  }

  /** One lookup in the cache, as both bridges do it. */
  class PeerCache {
    var buckets: Table

    constructor ()
      ensures buckets == map[]
    {
      buckets := map[];
    }

    method DedupeSeen(src: string, uid: string, tsMs: int) returns (seen: bool)
      modifies this
      ensures var m := MessageOf(src, uid, tsMs);
              && seen == Seen(old(buckets), m) && buckets == Record(old(buckets), m, DEDUPE_LIMIT)
              && m.key == Key(uid, tsMs / 1000) && m.peer == if src == "" then "_unknown" else Lower(src)
    {
      var peer := PeerKey(src);
      if peer !in buckets { buckets := buckets[peer := []]; }
      var bucket := buckets[peer];
      var key := Key(uid, tsMs / 1000);
      if key in bucket {
        var i := IndexOf(bucket, key);
        buckets := buckets[peer := bucket[..i] + bucket[i + 1..] + [key]];
        return true;
      }
      bucket := bucket + [key];
      if |bucket| > DEDUPE_LIMIT { bucket := bucket[1..]; }
      buckets := buckets[peer := bucket];
      return false;
    }
  }

  class CmdBridge {
    const ownHash: string
    const cache: PeerCache
    var allowlist: set<string>
    var stats: CmdStats

    constructor (own: string, allow: set<string>)
      ensures fresh(cache) && cache.buckets == map[]
      ensures ownHash == own && allowlist == set p | p in allow :: Lower(p)
      ensures stats == CmdStats(0, 0, 0, 0, 0, 0, 0)
    {
      ownHash, allowlist, stats := own, set p | p in allow :: Lower(p), CmdStats(0, 0, 0, 0, 0, 0, 0);
      cache := new PeerCache();
    }

    method SetAllowlist(peers: set<string>)
      modifies this`allowlist
      ensures allowlist == set p | p in peers :: Lower(p)
    {
      allowlist := set p | p in peers :: Lower(p);
    }

    method HandleInbound(env: Option<Envelope>, packetSrc: string, handler: Handler) returns (ok: bool, ghost fate: Fate)
      modifies this`stats, cache
      ensures fate == CmdFate(ownHash, allowlist, old(cache.buckets), env, packetSrc)
      ensures cache.buckets == Remember(old(cache.buckets), fate)
      ensures stats == CmdCount(old(stats), fate, handler) && stats.Total() == old(stats).Total() + 1
      ensures ok <==> fate.Delivered? && handler == Accepts
    {
      if env.None? {
        stats := stats.(envelopeErrors := stats.envelopeErrors + 1);
        return false, BadEnvelope;
      }
      var claimed, packet := Lower(env.value.src), Lower(packetSrc);
      var src;
      if packet != "" {
        if claimed != "" && claimed != packet {
          stats := stats.(envelopeErrors := stats.envelopeErrors + 1);
          return false, SourceMismatch;
        }
        src := packet;
      } else {
        src := claimed;
      }
      ok, fate := ScreenAndDispatch(src, env.value, handler);
    }

    method ScreenAndDispatch(src: string, env: Envelope, handler: Handler) returns (ok: bool, ghost fate: Fate)
      modifies this`stats, cache
      ensures fate == Screen(ownHash, allowlist, old(cache.buckets), src, env)
      ensures cache.buckets == Remember(old(cache.buckets), fate)
      ensures stats == CmdCount(old(stats), fate, handler) && stats.Total() == old(stats).Total() + 1
      ensures ok <==> fate.Delivered? && handler == Accepts
    {
      fate := Screen(ownHash, allowlist, cache.buckets, src, env);
      if src != "" && src == Lower(ownHash) {
        stats := stats.(loopSuppressed := stats.loopSuppressed + 1);
        return false, fate;
      }
      if allowlist != {} && src !in allowlist {
        stats := stats.(allowlistRejected := stats.allowlistRejected + 1);
        return false, fate;
      }
      var seen := cache.DedupeSeen(src, env.uid, env.tsMs);
      if seen {
        stats := stats.(deduped := stats.deduped + 1);
        return false, fate;
      }
      stats := stats.(received := stats.received + 1);
      if handler == Unbound { return false, fate; }
      if handler == Accepts {
        stats := stats.(dispatched := stats.dispatched + 1);
      } else {
        stats := stats.(dispatchRejected := stats.dispatchRejected + 1);
      }
      return handler == Accepts, fate;
    }
  }

  datatype CotStats = CotStats(received: nat, deduped: nat, loopSuppressed: nat, allowlistRejected: nat)

  function CotCount(s: CotStats, f: Fate): CotStats {
    match f
    case BadEnvelope => s
    case SourceMismatch => s
    case Loop => s.(loopSuppressed := s.loopSuppressed + 1)
    case NotAllowed => s.(allowlistRejected := s.allowlistRejected + 1)
    case Duplicate(_) => s.(deduped := s.deduped + 1)
    case Delivered(_) => s.(received := s.received + 1)
  }

  class CotBridge {
    const ownHash: string
    const cache: PeerCache
    var allowlist: set<string>
    var stats: CotStats

    constructor (own: string, allow: set<string>)
      ensures fresh(cache) && cache.buckets == map[]
      ensures ownHash == own && allowlist == set p | p in allow :: Lower(p)
      ensures stats == CotStats(0, 0, 0, 0)
    {
      ownHash, allowlist, stats := own, set p | p in allow :: Lower(p), CotStats(0, 0, 0, 0);
      cache := new PeerCache();
    }

    /** An unbound handler still counts as delivered here; a raising one is reported as a failure. */
    method HandleInbound(env: Option<Envelope>, packetSrc: string, handler: Handler) returns (ok: bool, ghost fate: Fate)
      modifies this`stats, cache
      ensures fate == CotFate(ownHash, allowlist, old(cache.buckets), env, packetSrc)
      ensures cache.buckets == Remember(old(cache.buckets), fate)
      ensures stats == CotCount(old(stats), fate)
      ensures ok <==> fate.Delivered? && handler != Raises
    {
      fate := CotFate(ownHash, allowlist, cache.buckets, env, packetSrc);
      if env.None? { return false, fate; }
      var src := Lower(if env.value.src != "" then env.value.src else packetSrc);
      if src != "" && src == Lower(ownHash) {
        stats := stats.(loopSuppressed := stats.loopSuppressed + 1);
        return false, fate;
      }
      if allowlist != {} && src !in allowlist {
        stats := stats.(allowlistRejected := stats.allowlistRejected + 1);
        return false, fate;
      }
      var seen := cache.DedupeSeen(src, env.value.uid, env.value.tsMs);
      if seen {
        stats := stats.(deduped := stats.deduped + 1);
        return false, fate;
      }
      stats := stats.(received := stats.received + 1);
      return handler != Raises, fate;
    }
  }
}
