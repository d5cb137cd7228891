/** Sequences: repetition, taking elements away, and what steps keep. */
module Seqs {
  lemma SplitLast<T>(s: seq<T>)
    requires s != []
    ensures multiset(s) == multiset(s[..|s| - 1]) + multiset{s[|s| - 1]}
  {
    assert s == s[..|s| - 1] + [s[|s| - 1]];
  }

  lemma SplitFirst<T>(s: seq<T>)
    requires s != []
    ensures multiset(s[1..]) == multiset(s) - multiset{s[0]}
  {
    assert s == [s[0]] + s[1..];
  }

  lemma JoinAllButLast<T>(a: seq<T>, b: seq<T>)
    requires b != []
    ensures a + b[..|b| - 1] + [b[|b| - 1]] == a + b
  {
  }

  ghost predicate NoRepeats<T>(s: seq<T>) { forall i, j :: 0 <= i < j < |s| ==> s[i] != s[j] }

  lemma SameMultisetNoRepeats<T>(m: seq<T>, s: seq<T>)
    requires multiset(m) == multiset(s) && NoRepeats(m)
    ensures NoRepeats(s)
  {
    forall i, j | 0 <= i < j < |s| ensures s[i] != s[j] {
      if s[i] == s[j] {
        Twice(s, i, j);
        Once(m, s[i]);
        assert false;
      }
    }
  }

  lemma Twice<T>(s: seq<T>, i: nat, j: nat)
    requires i < j < |s| && s[i] == s[j]
    ensures multiset(s)[s[i]] >= 2
  {
    assert s == s[..j] + [s[j]] + s[j + 1..];
    assert s[i] == s[..j][i] && s[i] in s[..j];
  }

  lemma {:induction false} Once<T>(m: seq<T>, x: T)
    requires NoRepeats(m)
    ensures multiset(m)[x] <= 1
  {
    if m != [] {
      var front := m[..|m| - 1];
      Once(front, x);
      assert m == front + [m[|m| - 1]];
      if m[|m| - 1] == x { assert x !in front; }
    }
  }

  function RemoveFirst<T(==)>(s: seq<T>, x: T): seq<T> {
    if s == [] then [] else if s[0] == x then s[1..] else [s[0]] + RemoveFirst(s[1..], x)
  }

  lemma {:induction false} RemoveFirstFacts<T>(s: seq<T>, x: T)
    requires NoRepeats(s)
    ensures NoRepeats(RemoveFirst(s, x))
    ensures forall y :: y in RemoveFirst(s, x) <==> y in s && y != x
  {
    if s != [] {
      assert s == [s[0]] + s[1..];
      assert s[0] !in s[1..];
      RemoveFirstFacts(s[1..], x);
    }
  }

  /** What holds at first has held all along exactly when every step kept it. */
  lemma {:induction false} AllAlong(holds: nat -> bool, keeps: nat -> bool, n: nat)
    requires holds(0) && forall k: nat :: k < n && holds(k) ==> holds(k + 1) == keeps(k)
    ensures (forall k: nat :: k <= n ==> holds(k)) <==> (forall k: nat :: k < n ==> keeps(k))
  {
    if n > 0 {
      AllAlong(holds, keeps, n - 1);
      assert holds(n - 1) ==> holds(n - 1 + 1) == keeps(n - 1);
      if forall k: nat :: k < n ==> keeps(k) { assert holds(n - 1); }
    }
  }

  /** What does not hold at first and, once gained, stays, holds exactly if some step gained it. */
  lemma {:induction false} SomeTime(holds: nat -> bool, gains: nat -> bool, n: nat)
    requires !holds(0) && forall k: nat :: k < n ==> holds(k + 1) == (holds(k) || gains(k))
    ensures holds(n) <==> exists k: nat :: k < n && gains(k)
  {
    if n > 0 {
      SomeTime(holds, gains, n - 1);
      assert holds(n - 1 + 1) == (holds(n - 1) || gains(n - 1));
    }
  }
}
