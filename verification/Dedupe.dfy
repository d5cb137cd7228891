/** Per-peer duplicate suppression: the `_dedupe_seen` caches of backend/rns/cmd_handler.py and
    backend/rns/bridge.py.

    Each peer owns an ordered dictionary of at most `limit` keys, least recently used first.  The
    values stored with the keys are never read, so a bucket is the sequence of its keys.  The
    lemmas tie a bucket, and the answer a lookup gives, to the whole history of messages. */
module Dedupe {
  import opened Seqs
  import opened SetFacts

  datatype Key = Key(uid: string, second: int)

  datatype Message = Message(peer: string, key: Key)

  type Table = map<string, seq<Key>>

  // ---------------------------------------------------------------- one bucket

  function IndexOf(b: seq<Key>, k: Key): (i: nat)
    requires k in b
    ensures i < |b| && b[i] == k && k !in b[..i]
  {
    if b[0] == k then 0 else 1 + IndexOf(b[1..], k)
  }

  /** A hit moves the key to the young end; a miss appends it and may drop the oldest. */
  function Touch(b: seq<Key>, k: Key, limit: nat): seq<Key> {
    if k in b then
      var i := IndexOf(b, k);
      b[..i] + b[i + 1..] + [k]
    else
      var grown := b + [k];
      if |grown| > limit then grown[1..] else grown
  }

  function BucketOf(t: Table, peer: string): seq<Key> {
    if peer in t then t[peer] else []
  }

  function Record(t: Table, m: Message, limit: nat): Table {
    t[m.peer := Touch(BucketOf(t, m.peer), m.key, limit)]
  }

  function Seen(t: Table, m: Message): bool { m.key in BucketOf(t, m.peer) }

  function Replay(h: seq<Message>, limit: nat): Table {
    if h == [] then map[] else Record(Replay(h[..|h| - 1], limit), h[|h| - 1], limit)
  }

  // ---------------------------------------------------------------- history, read without a cache

  /** The keys one peer sent, in order. */
  function KeysOf(h: seq<Message>, peer: string): seq<Key> {
    if h == [] then [] else
    KeysOf(h[..|h| - 1], peer) + (if h[|h| - 1].peer == peer then [h[|h| - 1].key] else [])
  }

  /** Distinct keys of a history, ordered by last use. */
  function LastUses(h: seq<Key>): seq<Key> {
    if h == [] then [] else if h[0] in h[1..] then LastUses(h[1..]) else [h[0]] + LastUses(h[1..])
  }

  function Suffix(s: seq<Key>, n: nat): seq<Key> { if |s| <= n then s else s[|s| - n..] }

  function KeySet(h: seq<Key>): set<Key> { set k | k in h }

  /** k was used, and fewer than `limit` distinct keys came after its last use. */
  ghost predicate RecentlyUsed(h: seq<Key>, k: Key, limit: nat) {
    exists i :: 0 <= i < |h| && h[i] == k && k !in h[i + 1..] && |KeySet(h[i + 1..])| < limit
  }

  function Without(s: seq<Key>, k: Key): seq<Key> {
    if s == [] then [] else if s[0] == k then Without(s[1..], k) else [s[0]] + Without(s[1..], k)
  }

  lemma ConsFacts(x: Key, t: seq<Key>)
    ensures KeySet([x] + t) == {x} + KeySet(t)
    ensures NoRepeats(t) && x !in t ==> NoRepeats([x] + t)
  {
    assert forall k :: k in [x] + t <==> k == x || k in t;
  }

  lemma {:induction false} LastUsesFacts(h: seq<Key>)
    ensures NoRepeats(LastUses(h)) && KeySet(LastUses(h)) == KeySet(h) && |LastUses(h)| == |KeySet(h)|
  {
    if h != [] {
      var x, t := h[0], h[1..];
      LastUsesFacts(t);
      assert h == [x] + t;
      ConsFacts(x, t);
      if x in t {
        assert x in KeySet(t);
        assert KeySet(h) == KeySet(t);
      } else {
        assert x !in KeySet(t);
        assert x !in LastUses(t) by { assert x !in KeySet(LastUses(t)); }
        ConsFacts(x, LastUses(t));
      }
    }
  }

  lemma DistinctTail(a: seq<Key>, b: seq<Key>)
    requires NoRepeats(a + b)
    ensures NoRepeats(b)
  {
    forall i, j | 0 <= i < j < |b| ensures b[i] != b[j] {
      assert (a + b)[|a| + i] == b[i] && (a + b)[|a| + j] == b[j];
    }
  }

  lemma {:induction false} WithoutAbsent(s: seq<Key>, k: Key)
    requires k !in s
    ensures Without(s, k) == s
  {
    if s != [] { WithoutAbsent(s[1..], k); }
  }

  lemma {:induction false} WithoutSplit(a: seq<Key>, b: seq<Key>, k: Key)
    ensures Without(a + b, k) == Without(a, k) + Without(b, k)
  {
    if a == [] {
      assert a + b == b;
    } else {
      assert (a + b)[1..] == a[1..] + b;
      WithoutSplit(a[1..], b, k);
    }
  }

  /** Using k once more moves it to the young end of the ordering by last use. */
  lemma {:induction false} LastUsesSnoc(h: seq<Key>, k: Key)
    ensures LastUses(h + [k]) == Without(LastUses(h), k) + [k]
  {
    var g := h + [k];
    if h == [] {
      assert g[1..] == [];
    } else {
      assert g[1..] == h[1..] + [k];
      LastUsesSnoc(h[1..], k);
      LastUsesFacts(h[1..]);
      assert g[0] in g[1..] <==> h[0] in h[1..] || h[0] == k;
      if h[0] !in h[1..] && h[0] == k {
        assert k !in KeySet(LastUses(h[1..]));
        WithoutAbsent(LastUses(h[1..]), k);
      }
    }
  }

  lemma {:induction false} WithoutPresent(s: seq<Key>, k: Key)
    requires NoRepeats(s) && k in s
    ensures var i := IndexOf(s, k); Without(s, k) == s[..i] + s[i + 1..]
  {
    if s[0] == k {
      WithoutAbsent(s[1..], k);
    } else {
      WithoutPresent(s[1..], k);
    }
  }

  lemma SuffixTail(a: seq<Key>, c: seq<Key>, limit: nat)
    requires |c| == limit || (a == [] && |c| <= limit)
    ensures Suffix(a + c, limit) == c
  {
  }

  lemma TouchHit(aged: seq<Key>, b: seq<Key>, k: Key, limit: nat)
    requires NoRepeats(aged + b) && k in b
    requires |b| == limit || (aged == [] && |b| <= limit)
    ensures Touch(b, k, limit) == Suffix(Without(aged + b, k) + [k], limit)
  {
    var i := IndexOf(b, k);
    DistinctTail(aged, b);
    assert (aged + b)[|aged| + i] == k;
    forall j | 0 <= j < |aged| ensures aged[j] != k { assert (aged + b)[j] == aged[j]; }
    WithoutSplit(aged, b, k);
    WithoutAbsent(aged, k);
    WithoutPresent(b, k);
    SuffixTail(aged, Without(b, k) + [k], limit);
    assert Without(aged + b, k) + [k] == aged + (Without(b, k) + [k]);
  }

  lemma TouchMiss(aged: seq<Key>, b: seq<Key>, k: Key, limit: nat)
    requires k !in b
    requires |b| == limit || (aged == [] && |b| <= limit)
    ensures Touch(b, k, limit) == Suffix(Without(aged + b, k) + [k], limit)
  {
    var grown := b + [k];
    var rest := Without(aged, k);
    WithoutSplit(aged, b, k);
    WithoutAbsent(b, k);
    if |grown| > limit {
      SuffixTail(rest + [grown[0]], grown[1..], limit);
      assert rest + b + [k] == rest + [grown[0]] + grown[1..];
    } else {
      SuffixTail(rest, grown, limit);
      assert rest + b + [k] == rest + grown;
    }
  }

  lemma TouchSuffix(l: seq<Key>, k: Key, limit: nat)
    requires NoRepeats(l)
    ensures Touch(Suffix(l, limit), k, limit) == Suffix(Without(l, k) + [k], limit)
  {
    var b := Suffix(l, limit);
    var aged := l[..|l| - |b|];
    assert l == aged + b;
    if k in b { TouchHit(aged, b, k, limit); } else { TouchMiss(aged, b, k, limit); }
  }

  /** One touch keeps "the last `limit` distinct keys, by last use". */
  lemma TouchKeepsRecency(h: seq<Key>, k: Key, limit: nat)
    ensures Touch(Suffix(LastUses(h), limit), k, limit) == Suffix(LastUses(h + [k]), limit)
  {
    LastUsesFacts(h);
    LastUsesSnoc(h, k);
    TouchSuffix(LastUses(h), k, limit);
  }

  lemma RecordLocal(t: Table, m: Message, peer: string, limit: nat)
    ensures BucketOf(Record(t, m, limit), peer) ==
            if m.peer == peer then Touch(BucketOf(t, peer), m.key, limit) else BucketOf(t, peer)
  {
  }

  /** After any history, a peer's bucket is exactly the last `limit` distinct keys of that peer,
      ordered by last use.  Other peers' messages do not enter. */
  lemma {:induction false} BucketIsRecency(h: seq<Message>, peer: string, limit: nat)
    ensures BucketOf(Replay(h, limit), peer) == Suffix(LastUses(KeysOf(h, peer)), limit)
  {
    if h != [] {
      var front, m := h[..|h| - 1], h[|h| - 1];
      BucketIsRecency(front, peer, limit);
      RecordLocal(Replay(front, limit), m, peer, limit);
      if m.peer == peer {
        TouchKeepsRecency(KeysOf(front, peer), m.key, limit);
      } else {
        assert KeysOf(h, peer) == KeysOf(front, peer);
      }
    }
  }

  /** The key at i, last used there, sits as far from the young end as there are distinct keys
      after it. */
  lemma {:induction false} PlaceInLastUses(h: seq<Key>, i: nat)
    requires i < |h| && h[i] !in h[i + 1..]
    ensures |LastUses(h[i + 1..])| < |LastUses(h)|
    ensures LastUses(h)[|LastUses(h)| - 1 - |LastUses(h[i + 1..])|] == h[i]
  {
    if i > 0 {
      assert h[1..][i - 1 + 1..] == h[i + 1..];
      PlaceInLastUses(h[1..], i - 1);
    } else {
      assert h[i + 1..] == h[1..];
    }
  }

  lemma LastOccurrence(h: seq<Key>, k: Key) returns (i: nat)
    requires k in h
    ensures i < |h| && h[i] == k && k !in h[i + 1..]
    ensures forall j :: i < j < |h| ==> h[j] != k
  {
    i := |h| - 1;
    while h[i] != k
      invariant i < |h| && forall j :: i < j < |h| ==> h[j] != k
      decreases i
    {
      i := i - 1;
    }
  }

  lemma InSuffixIff(l: seq<Key>, p: nat, limit: nat)
    requires NoRepeats(l) && p < |l|
    ensures l[p] in Suffix(l, limit) <==> |l| - p <= limit
  {
    if |l| - p <= limit {
      assert l[p] == Suffix(l, limit)[p - (|l| - |Suffix(l, limit)|)];
    } else {
      forall j | 0 <= j < limit ensures Suffix(l, limit)[j] != l[p] {
        assert Suffix(l, limit)[j] == l[|l| - limit + j];
      }
    }
  }

  lemma SuffixOfLast(h: seq<Key>, k: Key, i: nat, limit: nat)
    requires i < |h| && h[i] == k && k !in h[i + 1..]
    ensures k in Suffix(LastUses(h), limit) <==> |KeySet(h[i + 1..])| < limit
  {
    LastUsesFacts(h);
    LastUsesFacts(h[i + 1..]);
    PlaceInLastUses(h, i);
    InSuffixIff(LastUses(h), |LastUses(h)| - 1 - |LastUses(h[i + 1..])|, limit);
  }

  lemma InRecencyIff(h: seq<Key>, k: Key, limit: nat)
    ensures k in Suffix(LastUses(h), limit) <==> RecentlyUsed(h, k, limit)
  {
    if RecentlyUsed(h, k, limit) {
      var i :| 0 <= i < |h| && h[i] == k && k !in h[i + 1..] && |KeySet(h[i + 1..])| < limit;
      SuffixOfLast(h, k, i, limit);
    }
    if k in Suffix(LastUses(h), limit) {
      LastUsesFacts(h);
      assert k in KeySet(LastUses(h));
      var i := LastOccurrence(h, k);
      SuffixOfLast(h, k, i, limit);
    }
  }

  /** The answer: a message is reported as seen exactly when its peer used the key before with
      fewer than `limit` distinct keys since. */
  lemma SeenIffRecentlyUsed(h: seq<Message>, m: Message, limit: nat)
    ensures Seen(Replay(h, limit), m) <==> RecentlyUsed(KeysOf(h, m.peer), m.key, limit)
  {
    BucketIsRecency(h, m.peer, limit);
    InRecencyIff(KeysOf(h, m.peer), m.key, limit);
  }

  lemma {:induction false} KeysOfSplit(a: seq<Message>, b: seq<Message>, peer: string)
    ensures KeysOf(a + b, peer) == KeysOf(a, peer) + KeysOf(b, peer)
  {
    if b == [] {
      assert a + b == a;
    } else {
      var n := |b| - 1;
      assert (a + b)[..|a + b| - 1] == a + b[..n];
      KeysOfSplit(a, b[..n], peer);
    }
  }

  /** A message accepted again after `before`, itself and `after`: in between the peer sent at
      least `limit` distinct other keys. */
  lemma AcceptedTwice(before: seq<Message>, m: Message, after: seq<Message>, limit: nat)
    requires !Seen(Replay(before + [m] + after, limit), m)
    ensures |KeySet(KeysOf(after, m.peer)) - {m.key}| >= limit
  {
    KeysOfSplit(before + [m], after, m.peer);
    assert (before + [m])[..|before|] == before;
    SeenIffRecentlyUsed(before + [m] + after, m, limit);
    ManySince(KeysOf(before, m.peer), m.key, KeysOf(after, m.peer), limit);
  }

  lemma ManySince(before: seq<Key>, k: Key, tail: seq<Key>, limit: nat)
    requires !RecentlyUsed(before + [k] + tail, k, limit)
    ensures |KeySet(tail) - {k}| >= limit
  {
    var all := before + [k] + tail;
    assert all[|before|] == k;
    var j := LastOccurrence(all, k);
    TailOf(before, k, tail, j);
    SliceKeys(tail, j - |before|, k);
    SubsetSize(KeySet(all[j + 1..]), KeySet(tail) - {k});
  }

  lemma TailOf(before: seq<Key>, k: Key, tail: seq<Key>, j: nat)
    requires |before| <= j <= |before| + |tail|
    ensures (before + [k] + tail)[j + 1..] == tail[j - |before|..]
  {
  }

  lemma SliceKeys(s: seq<Key>, n: nat, k: Key)
    requires n <= |s| && k !in s[n..]
    ensures KeySet(s[n..]) <= KeySet(s) - {k}
  {
    assert s == s[..n] + s[n..];
  }
}
