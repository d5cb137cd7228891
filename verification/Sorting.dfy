/** Stable insertion sort over an arbitrary order, and the lexicographic order of strings. */
module Sorting {
  import opened Seqs

  ghost predicate TotalPreorder<T(!new)>(le: (T, T) -> bool) {
    && (forall a, b :: le(a, b) || le(b, a))
    && (forall a, b, c :: le(a, b) && le(b, c) ==> le(a, c))
  }

  ghost predicate TotalOrder<T(!new)>(le: (T, T) -> bool) {
    TotalPreorder(le) && forall a, b :: le(a, b) && le(b, a) ==> a == b
  }

  ghost predicate Sorted<T>(le: (T, T) -> bool, s: seq<T>) {
    forall i, j :: 0 <= i < j < |s| ==> le(s[i], s[j])
  }

  /** x goes behind every element that may come before it. */
  function Insert<T>(le: (T, T) -> bool, s: seq<T>, x: T): seq<T> {
    if s == [] then [x] else
    var last := s[|s| - 1];
    if le(last, x) then s + [x] else Insert(le, s[..|s| - 1], x) + [last]
  }

  function Sort<T>(le: (T, T) -> bool, s: seq<T>): seq<T> {
    if s == [] then [] else Insert(le, Sort(le, s[..|s| - 1]), s[|s| - 1])
  }

  lemma AmongThese<T>(r: seq<T>, front: seq<T>, x: T, i: nat)
    requires i < |r| && multiset(r) == multiset(front) + multiset{x}
    ensures r[i] == x || r[i] in front
  {
    assert r[i] in multiset(r);
  }

  lemma {:induction false} InsertKeeps<T(!new)>(le: (T, T) -> bool, s: seq<T>, x: T)
    requires TotalPreorder(le) && Sorted(le, s)
    ensures Sorted(le, Insert(le, s, x)) && multiset(Insert(le, s, x)) == multiset(s) + multiset{x}
  {
    if s != [] {
      var front, last := s[..|s| - 1], s[|s| - 1];
      assert s == front + [last];
      if !le(last, x) {
        InsertKeeps(le, front, x);
        var r := Insert(le, front, x);
        forall i | 0 <= i < |r| ensures le(r[i], last) { AmongThese(r, front, x, i); }
      } else {
        forall i | 0 <= i < |s| ensures le(s[i], x) { assert i < |s| - 1 ==> le(s[i], last); }
      }
    }
  }

  lemma {:induction false} SortSorts<T(!new)>(le: (T, T) -> bool, s: seq<T>)
    requires TotalPreorder(le)
    ensures Sorted(le, Sort(le, s)) && multiset(Sort(le, s)) == multiset(s)
  {
    if s != [] {
      SortSorts(le, s[..|s| - 1]);
      InsertKeeps(le, Sort(le, s[..|s| - 1]), s[|s| - 1]);
      SplitLast(s);
    }
  }

  lemma FirstIsLeast<T(!new)>(le: (T, T) -> bool, s: seq<T>, t: seq<T>)
    requires TotalOrder(le) && Sorted(le, s) && Sorted(le, t) && multiset(s) == multiset(t) && s != [] && t != []
    ensures le(s[0], t[0])
  {
    assert t[0] in multiset(s);
    var i :| 0 <= i < |s| && s[i] == t[0];
    assert i > 0 ==> le(s[0], s[i]);
  }

  /** Two sorted arrangements of the same elements are the same sequence. */
  lemma {:induction false} SortedUnique<T(!new)>(le: (T, T) -> bool, s: seq<T>, t: seq<T>)
    requires TotalOrder(le) && Sorted(le, s) && Sorted(le, t) && multiset(s) == multiset(t)
    ensures s == t
  {
    assert |multiset(s)| == |s| && |multiset(t)| == |t|;
    if s != [] {
      FirstIsLeast(le, s, t);
      FirstIsLeast(le, t, s);
      SplitFirst(s);
      SplitFirst(t);
      SortedUnique(le, s[1..], t[1..]);
      assert s == [s[0]] + s[1..] && t == [t[0]] + t[1..];
    }
  }

  /** Sorting forgets the order its input came in. */
  lemma SortIgnoresOrder<T(!new)>(le: (T, T) -> bool, s: seq<T>, t: seq<T>)
    requires TotalOrder(le) && multiset(s) == multiset(t)
    ensures Sort(le, s) == Sort(le, t)
  {
    SortSorts(le, s);
    SortSorts(le, t);
    SortedUnique(le, Sort(le, s), Sort(le, t));
  }

  lemma {:induction false} InsertKeepsLength<T>(le: (T, T) -> bool, s: seq<T>, x: T)
    ensures |Insert(le, s, x)| == |s| + 1
  {
    if s != [] { InsertKeepsLength(le, s[..|s| - 1], x); }
  }

  lemma {:induction false} SortKeepsLength<T>(le: (T, T) -> bool, s: seq<T>)
    ensures |Sort(le, s)| == |s|
  {
    if s != [] {
      SortKeepsLength(le, s[..|s| - 1]);
      InsertKeepsLength(le, Sort(le, s[..|s| - 1]), s[|s| - 1]);
    }
  }

  lemma {:induction false} InsertAtEnd<T>(le: (T, T) -> bool, s: seq<T>, x: T)
    requires forall y :: y in s ==> le(y, x)
    ensures Insert(le, s, x) == s + [x]
  {
    if s == [] { assert s + [x] == [x]; }
  }

  lemma {:induction false} SortOfSorted<T>(le: (T, T) -> bool, s: seq<T>)
    requires Sorted(le, s)
    ensures Sort(le, s) == s
  {
    if s != [] {
      var front, last := s[..|s| - 1], s[|s| - 1];
      SortOfSorted(le, front);
      forall y | y in front ensures le(y, last) { var i :| 0 <= i < |front| && front[i] == y; assert s[i] == y; }
      InsertAtEnd(le, front, last);
      assert s == front + [last];
    }
  }

  /** The elements of s that x ties with, in their order. */
  ghost function Ties<T>(le: (T, T) -> bool, s: seq<T>, x: T): seq<T> {
    if s == [] then [] else
    var front, last := Ties(le, s[..|s| - 1], x), s[|s| - 1];
    if le(x, last) && le(last, x) then front + [last] else front
  }

  lemma TiesSnoc<T>(le: (T, T) -> bool, s: seq<T>, y: T, x: T)
    ensures Ties(le, s + [y], x) == if le(x, y) && le(y, x) then Ties(le, s, x) + [y] else Ties(le, s, x)
  {
    assert (s + [y])[..|s|] == s;
  }

  lemma {:induction false} InsertIsStable<T(!new)>(le: (T, T) -> bool, s: seq<T>, y: T, x: T)
    requires TotalPreorder(le) && Sorted(le, s)
    ensures Ties(le, Insert(le, s, y), x) == Ties(le, s + [y], x)
  {
    TiesSnoc(le, s, y, x);
    if s == [] {
      assert s + [y] == [y];
    } else {
      var front, last := s[..|s| - 1], s[|s| - 1];
      if !le(last, y) {
        InsertIsStable(le, front, y, x);
        TiesSnoc(le, front, y, x);
        TiesSnoc(le, Insert(le, front, y), last, x);
      }
    }
  }

  /** Elements that tie stay in their order. */
  lemma {:induction false} SortIsStable<T(!new)>(le: (T, T) -> bool, s: seq<T>, x: T)
    requires TotalPreorder(le)
    ensures Ties(le, Sort(le, s), x) == Ties(le, s, x)
  {
    if s != [] {
      var front, last := s[..|s| - 1], s[|s| - 1];
      var sorted := Sort(le, front);
      SortIsStable(le, front, x);
      SortSorts(le, front);
      InsertIsStable(le, sorted, last, x);
      TiesSnoc(le, sorted, last, x);
      assert Sort(le, s) == Insert(le, sorted, last);
    }
  }

  predicate LexLe(a: string, b: string) {
    if a == "" then true else if b == "" then false
    else a[0] < b[0] || (a[0] == b[0] && LexLe(a[1..], b[1..]))
  }

  lemma {:induction false} LexTotal(a: string, b: string)
    ensures LexLe(a, b) || LexLe(b, a)
    ensures LexLe(a, b) && LexLe(b, a) ==> a == b
  {
    if a != "" && b != "" && a[0] == b[0] {
      LexTotal(a[1..], b[1..]);
      assert a == [a[0]] + a[1..] && b == [b[0]] + b[1..];
    }
  }

  lemma {:induction false} LexTransitive(a: string, b: string, c: string)
    requires LexLe(a, b) && LexLe(b, c)
    ensures LexLe(a, c)
  {
    if a != "" && a[0] == b[0] && b[0] == c[0] { LexTransitive(a[1..], b[1..], c[1..]); }
  }

  lemma LexIsTotalOrder()
    ensures TotalOrder(LexLe)
  {
    forall a, b ensures LexLe(a, b) || LexLe(b, a) { LexTotal(a, b); }
    forall a, b | LexLe(a, b) && LexLe(b, a) ensures a == b { LexTotal(a, b); }
    forall a, b, c | LexLe(a, b) && LexLe(b, c) ensures LexLe(a, c) { LexTransitive(a, b, c); }
  }

  /** In the dictionary a comes no later than b: up to some place they agree, and there a ends or has
      the smaller character. */
  ghost predicate Precedes(a: string, b: string) {
    exists k: nat :: k <= |a| && k <= |b| && a[..k] == b[..k] && (k == |a| || (k < |b| && a[k] < b[k]))
  }

  lemma {:induction false} LexIsDictionary(a: string, b: string)
    ensures LexLe(a, b) <==> Precedes(a, b)
  {
    if a == "" || b == "" {
      assert a[..0] == b[..0];
    } else {
      LexIsDictionary(a[1..], b[1..]);
      if a[0] == b[0] {
        PrecedesTail(a, b);
      } else {
        assert a[..0] == b[..0];
        assert forall k: nat :: 0 < k <= |a| && k <= |b| ==> a[..k][0] == a[0] && b[..k][0] == b[0];
      }
    }
  }

  lemma PrecedesTail(a: string, b: string)
    requires a != "" && b != "" && a[0] == b[0]
    ensures Precedes(a, b) <==> Precedes(a[1..], b[1..])
  {
    if k: nat :| k <= |a| && k <= |b| && a[..k] == b[..k] && (k == |a| || (k < |b| && a[k] < b[k])) {
      assert k > 0;
      assert a[1..][..k - 1] == a[..k][1..] && b[1..][..k - 1] == b[..k][1..];
    }
    if k: nat :| k <= |a[1..]| && k <= |b[1..]| && a[1..][..k] == b[1..][..k] && (k == |a[1..]| || (k < |b[1..]| && a[1..][k] < b[1..][k])) {
      assert a[..k + 1] == [a[0]] + a[1..][..k] && b[..k + 1] == [b[0]] + b[1..][..k];
    }
  }
}
