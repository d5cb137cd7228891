/** Copying a configuration to another device: the placeholder handling and the payload of
    backend/rns/token.py, and `placeholder_paths` of backend/rns/schema.py.

    Encryption, compression and JSON text are taken to be undone exactly by their inverses. */
module Replication {
  import opened Wrappers
  import opened Seqs
  import opened Text
  import opened Schema

  // ---------------------------------------------------------------- paths

  function Path(i: nat, name: string): string { "interfaces." + Decimal(i) + "." + name }

  /** A path says which field of which entry it stands for. */
  lemma PathInjective(i: nat, f: string, j: nat, g: string)
    requires Path(i, f) == Path(j, g)
    ensures i == j && f == g
  {
    var p := "interfaces.";
    assert Path(i, f)[|p|..] == Decimal(i) + "." + f && Path(j, g)[|p|..] == Decimal(j) + "." + g;
    DecimalHasNoDot(i);
    DecimalHasNoDot(j);
    SplitAtDot(Decimal(i), f, Decimal(j), g);
    DecimalInjective(i, j);
  }

  predicate Entries(es: seq<Json>) { forall i :: 0 <= i < |es| ==> es[i].Obj? && TypeOf(es[i].fields).Str? }

  /** Which fields belong to one device, by type of entry; the results hold for any such table that
      lists no field twice and not the type itself. */
  type Table = string -> seq<string>

  ghost predicate TableOk(tb: Table) { forall t :: NoRepeats(tb(t)) && "type" !in tb(t) }

  function LocalNames(tb: Table, m: Fields): seq<string> { if TypeOf(m).Str? then tb(TypeOf(m).s) else [] }

  predicate Local(tb: Table, m: Fields, k: string) { k in m && k in LocalNames(tb, m) }

  /** The paths of the first n of an entry's device-local names that it has. */
  function PathsIn(tb: Table, m: Fields, i: nat, n: nat): seq<string>
    requires n <= |LocalNames(tb, m)|
  {
    if n == 0 then [] else
    PathsIn(tb, m, i, n - 1) + (if LocalNames(tb, m)[n - 1] in m then [Path(i, LocalNames(tb, m)[n - 1])] else [])
  }

  function Paths(tb: Table, es: seq<Json>): seq<string>
    requires Entries(es)
  {
    if es == [] then [] else
    var m, i := es[|es| - 1].fields, |es| - 1;
    Paths(tb, es[..i]) + PathsIn(tb, m, i, |LocalNames(tb, m)|)
  }

  ghost predicate InPath(tb: Table, m: Fields, i: nat, names: seq<string>, p: string, k: string) {
    k in names && k in m && p == Path(i, k)
  }

  ghost predicate HasPath(tb: Table, m: Fields, i: nat, names: seq<string>, p: string) {
    exists k :: InPath(tb, m, i, names, p, k)
  }

  lemma HasPathGrows(tb: Table, m: Fields, i: nat, names: seq<string>, last: string, p: string)
    ensures HasPath(tb, m, i, names + [last], p) <==> HasPath(tb, m, i, names, p) || (last in m && p == Path(i, last))
  {
    var more := names + [last];
    if k :| InPath(tb, m, i, more, p, k) { assert k != last ==> InPath(tb, m, i, names, p, k); }
    if k :| InPath(tb, m, i, names, p, k) { assert InPath(tb, m, i, more, p, k); }
    if last in m && p == Path(i, last) { assert InPath(tb, m, i, more, p, last); }
  }

  lemma {:induction false} PathsInFacts(tb: Table, m: Fields, i: nat, n: nat)
    requires TableOk(tb) && n <= |LocalNames(tb, m)|
    ensures forall p :: p in PathsIn(tb, m, i, n) <==> HasPath(tb, m, i, LocalNames(tb, m)[..n], p)
    ensures NoRepeats(PathsIn(tb, m, i, n))
  {
    if n > 0 {
      var names := LocalNames(tb, m);
      var last := names[n - 1];
      PathsInFacts(tb, m, i, n - 1);
      assert NoRepeats(tb(TypeOf(m).s));
      var fewer := names[..n - 1];
      assert names[..n] == fewer + [last];
      forall p: string { HasPathGrows(tb, m, i, fewer, last, p); }
      if Path(i, last) in PathsIn(tb, m, i, n - 1) {
        var k :| InPath(tb, m, i, fewer, Path(i, last), k);
        PathInjective(i, k, i, last);
      }
    }
  }

  ghost predicate PathOf(tb: Table, es: seq<Json>, p: string, i: nat, k: string) {
    i < |es| && es[i].Obj? && Local(tb, es[i].fields, k) && p == Path(i, k)
  }

  ghost predicate IsPath(tb: Table, es: seq<Json>, p: string) { exists i: nat, k :: PathOf(tb, es, p, i, k) }

  lemma PathsApart(tb: Table, es: seq<Json>, i: nat, p: string, m: Fields)
    requires i < |es| && IsPath(tb, es[..i], p)
    ensures !HasPath(tb, m, i, LocalNames(tb, m), p)
  {
    var j: nat, k :| PathOf(tb, es[..i], p, j, k);
    forall l ensures !InPath(tb, m, i, LocalNames(tb, m), p, l) {
      if p == Path(i, l) { PathInjective(j, k, i, l); }
    }
  }

  lemma JoinNoRepeats<T>(a: seq<T>, b: seq<T>)
    requires NoRepeats(a) && NoRepeats(b) && forall x :: x in a ==> x !in b
    ensures NoRepeats(a + b)
  {
    var s := a + b;
    forall i, j | 0 <= i < j < |s| ensures s[i] != s[j] {
      if i < |a| <= j { assert a[i] in a && s[j] == b[j - |a|]; }
    }
  }

  /** The paths are those of all device-local fields present, each once. */
  lemma {:induction false} PathsFacts(tb: Table, es: seq<Json>)
    requires TableOk(tb) && Entries(es)
    ensures forall p :: p in Paths(tb, es) <==> IsPath(tb, es, p)
    ensures NoRepeats(Paths(tb, es))
  {
    if es != [] {
      var i := |es| - 1;
      var m := es[i].fields;
      var names := LocalNames(tb, m);
      PathsFacts(tb, es[..i]);
      PathsInFacts(tb, m, i, |names|);
      assert names[..|names|] == names;
      forall p: string { OnePath(tb, es, p); }
      forall p | p in Paths(tb, es[..i]) ensures p !in PathsIn(tb, m, i, |names|) { PathsApart(tb, es, i, p, m); }
      JoinNoRepeats(Paths(tb, es[..i]), PathsIn(tb, m, i, |names|));
    }
  }

  lemma OnePath(tb: Table, es: seq<Json>, p: string)
    requires es != [] && es[|es| - 1].Obj?
    ensures var i := |es| - 1;
            var m := es[i].fields;
            IsPath(tb, es, p) <==> IsPath(tb, es[..i], p) || HasPath(tb, m, i, LocalNames(tb, m), p)
  {
    var i := |es| - 1;
    var m := es[i].fields;
    if j: nat, k :| PathOf(tb, es, p, j, k) {
      if j < i { assert PathOf(tb, es[..i], p, j, k); } else { assert InPath(tb, m, i, LocalNames(tb, m), p, k); }
    }
    if j: nat, k :| PathOf(tb, es[..i], p, j, k) { assert PathOf(tb, es, p, j, k); }
    if k :| InPath(tb, m, i, LocalNames(tb, m), p, k) { assert PathOf(tb, es, p, i, k); }
  }

  method PathsOfEntry(tb: Table, m: Fields, i: nat) returns (paths: seq<string>)
    ensures paths == PathsIn(tb, m, i, |LocalNames(tb, m)|)
  {
    paths := [];
    var names := LocalNames(tb, m);
    for n := 0 to |names|
      invariant paths == PathsIn(tb, m, i, n)
    {
      if names[n] in m { paths := paths + [Path(i, names[n])]; }
    }
  }

  method PlaceholderPaths(tb: Table, es: seq<Json>) returns (paths: seq<string>)
    requires Entries(es)
    ensures paths == Paths(tb, es)
  {
    paths := [];
    for i := 0 to |es|
      invariant paths == Paths(tb, es[..i])
    {
      assert es[..i + 1][..i] == es[..i];
      var more := PathsOfEntry(tb, es[i].fields, i);
      paths := paths + more;
    }
    assert es[..|es|] == es;
  }

  // ---------------------------------------------------------------- markers

  const MARK := "$placeholder"

  function Marker(i: nat, k: string): Json { Obj(map[MARK := Str(Path(i, k))]) }

  function ReplaceEntry(tb: Table, m: Fields, i: nat): Fields { map k | k in m :: if Local(tb, m, k) then Marker(i, k) else m[k] }

  function Replace(tb: Table, es: seq<Json>): (r: seq<Json>)
    requires Entries(es)
    ensures |r| == |es|
  {
    seq(|es|, i requires 0 <= i < |es| => Obj(ReplaceEntry(tb, es[i].fields, i)))
  }

  method ReplacePlaceholders(tb: Table, es: seq<Json>) returns (r: seq<Json>)
    requires Entries(es)
    ensures r == Replace(tb, es)
  {
    r := es;
    for i := 0 to |es|
      invariant |r| == |es| && r[i..] == es[i..]
      invariant forall j :: 0 <= j < i ==> r[j] == Obj(ReplaceEntry(tb, es[j].fields, j))
    {
      var m := es[i].fields;
      var names, entry := LocalNames(tb, m), m;
      for n := 0 to |names|
        invariant entry.Keys == m.Keys
        invariant forall k :: k in m ==> entry[k] == if k in names[..n] then Marker(i, k) else m[k]
      {
        if names[n] in entry { entry := entry[names[n] := Marker(i, names[n])]; }
      }
      assert names[..|names|] == names;
      assert entry == ReplaceEntry(tb, m, i);
      assert r[i + 1..] == es[i + 1..] by { assert r[i..][1..] == es[i..][1..]; }
      r := r[i := Obj(entry)];
    }
  }

  /** Device-local values do not travel: entries that differ only in them are exported alike. */
  lemma NothingLocalLeaves(tb: Table, es: seq<Json>, fs: seq<Json>)
    requires TableOk(tb) && Entries(es) && Entries(fs) && |es| == |fs|
    requires forall i, k :: 0 <= i < |es| ==>
               (k in es[i].fields <==> k in fs[i].fields) && (k in es[i].fields && !Local(tb, es[i].fields, k) ==> es[i].fields[k] == fs[i].fields[k])
    ensures Replace(tb, es) == Replace(tb, fs)
  {
    forall i | 0 <= i < |es| ensures Replace(tb, es)[i] == Replace(tb, fs)[i] {
      var m, m' := es[i].fields, fs[i].fields;
      assert "type" !in tb(TypeOf(m).s);
      assert "type" in m && "type" in m';
      assert TypeOf(m) == TypeOf(m');
      assert ReplaceEntry(tb, m, i) == ReplaceEntry(tb, m', i);
    }
  }

  // ---------------------------------------------------------------- filling in

  predicate IsMarker(v: Json) { v.Obj? && MARK in v.fields }

  function MarkOf(v: Json): Json
    requires IsMarker(v)
  {
    v.fields[MARK]
  }

  predicate Supplied(path: Json, values: Fields) { path.Str? && path.s in values }

  function Fill(v: Json, values: Fields): Json {
    if IsMarker(v) && Supplied(MarkOf(v), values) then values[MarkOf(v).s] else v
  }

  function FillEntry(m: Fields, values: Fields): Fields { map k | k in m :: Fill(m[k], values) }

  predicate Unfilled(v: Json, values: Fields) { IsMarker(v) && !Supplied(MarkOf(v), values) }

  function MissingIn(m: Fields, values: Fields): set<Json> {
    set k | k in m && Unfilled(m[k], values) :: MarkOf(m[k])
  }

  /** Looking a path up takes its hash. */
  predicate Hashes(m: Fields) { forall k :: k in m && IsMarker(m[k]) ==> !Unhashable(MarkOf(m[k])) }

  datatype Applied = Applied(entries: seq<Json>, missing: set<Json>)

  function Apply(es: seq<Json>, values: Fields): Result<Applied, Fault> {
    if es == [] then Ok(Applied([], {})) else
    var front, e := Apply(es[..|es| - 1], values), es[|es| - 1];
    if front.Err? || !e.Obj? || !Hashes(e.fields) then Err(Crash)
    else Ok(Applied(front.value.entries + [Obj(FillEntry(e.fields, values))],
                    front.value.missing + MissingIn(e.fields, values)))
  }

  method FillOne(m: Fields, values: Fields) returns (crashed: bool, entry: Fields, missing: set<Json>)
    ensures crashed == !Hashes(m)
    ensures !crashed ==> entry == FillEntry(m, values) && missing == MissingIn(m, values)
  {
    entry, missing, crashed := m, {}, false;
    var rest := m.Keys;
    while rest != {}
      invariant rest <= m.Keys && entry.Keys == m.Keys
      invariant forall k :: k in m ==> entry[k] == if k in rest then m[k] else Fill(m[k], values)
      invariant forall k :: k in m && k !in rest && IsMarker(m[k]) ==> !Unhashable(MarkOf(m[k]))
      invariant missing == set k | k in m && k !in rest && Unfilled(m[k], values) :: MarkOf(m[k])
      decreases rest
    {
      var k :| k in rest;
      var v := m[k];
      if IsMarker(v) {
        var path := MarkOf(v);
        if Unhashable(path) { return true, entry, missing; }
        if Supplied(path, values) {
          entry := entry[k := values[path.s]];
        } else {
          missing := missing + {path};
        }
      }
      rest := rest - {k};
    }
  }

  lemma {:induction false} CrashStays(es: seq<Json>, i: nat, values: Fields)
    requires i <= |es| && Apply(es[..i], values).Err?
    ensures Apply(es, values) == Err(Crash)
    decreases |es|
  {
    if i == |es| {
      assert es[..i] == es;
    } else {
      assert es[..|es| - 1][..i] == es[..i];
      CrashStays(es[..|es| - 1], i, values);
    }
  }

  method ApplyValues(es: seq<Json>, values: Fields) returns (r: Result<Applied, Fault>)
    ensures r == Apply(es, values)
  {
    var a := Applied([], {});
    for i := 0 to |es|
      invariant Apply(es[..i], values) == Ok(a)
    {
      assert es[..i + 1][..i] == es[..i];
      if !es[i].Obj? { CrashStays(es, i + 1, values); return Err(Crash); }
      var crashed, entry, missing := FillOne(es[i].fields, values);
      if crashed { CrashStays(es, i + 1, values); return Err(Crash); }
      a := Applied(a.entries + [Obj(entry)], a.missing + missing);
    }
    assert es[..|es|] == es;
    r := Ok(a);
  }

  // ---------------------------------------------------------------- round trip

  ghost predicate Clean(m: Fields) { forall k :: k in m ==> !IsMarker(m[k]) }

  /** Entries that hold no marker before they are exported. */
  ghost predicate AllClean(es: seq<Json>) { forall i :: 0 <= i < |es| ==> es[i].Obj? && Clean(es[i].fields) }

  /** After the replacement exactly the device-local fields are markers. */
  lemma MarkersAreLocal(tb: Table, m: Fields, i: nat, k: string)
    requires Clean(m) && k in m
    ensures IsMarker(ReplaceEntry(tb, m, i)[k]) == Local(tb, m, k)
    ensures Local(tb, m, k) ==> MarkOf(ReplaceEntry(tb, m, i)[k]) == Str(Path(i, k))
    ensures !Local(tb, m, k) ==> ReplaceEntry(tb, m, i)[k] == m[k]
  {
  }

  lemma EntryMissing(tb: Table, m: Fields, i: nat, values: Fields, p: Json)
    requires Clean(m)
    ensures Hashes(ReplaceEntry(tb, m, i))
    ensures p in MissingIn(ReplaceEntry(tb, m, i), values) <==>
              p.Str? && p.s !in values && HasPath(tb, m, i, LocalNames(tb, m), p.s)
  {
    var r := ReplaceEntry(tb, m, i);
    forall k | k in m ensures IsMarker(r[k]) == Local(tb, m, k) && (Local(tb, m, k) ==> MarkOf(r[k]) == Str(Path(i, k))) {
      MarkersAreLocal(tb, m, i, k);
    }
    if p.Str? && p.s !in values && HasPath(tb, m, i, LocalNames(tb, m), p.s) {
      var k :| InPath(tb, m, i, LocalNames(tb, m), p.s, k);
      assert k in r && Unfilled(r[k], values) && MarkOf(r[k]) == p;
    }
    if p in MissingIn(r, values) {
      var k :| k in r && Unfilled(r[k], values) && MarkOf(r[k]) == p;
      assert InPath(tb, m, i, LocalNames(tb, m), p.s, k);
    }
  }

  lemma ReplaceFront(tb: Table, es: seq<Json>)
    requires Entries(es) && es != []
    ensures Replace(tb, es)[..|es| - 1] == Replace(tb, es[..|es| - 1])
  {
  }

  /** For every map of values, what is reported missing is exactly the paths not supplied. */
  lemma {:induction false} MissingExactly(tb: Table, es: seq<Json>, values: Fields)
    requires TableOk(tb) && AllClean(es) && Entries(es)
    ensures Apply(Replace(tb, es), values).Ok?
    ensures forall p :: p in Apply(Replace(tb, es), values).value.missing <==> p.Str? && p.s in Paths(tb, es) && p.s !in values
  {
    if es != [] {
      var i := |es| - 1;
      var m := es[i].fields;
      var names := LocalNames(tb, m);
      ReplaceFront(tb, es);
      MissingExactly(tb, es[..i], values);
      PathsInFacts(tb, m, i, |names|);
      assert names[..|names|] == names;
      EntryMissing(tb, m, i, values, Null);
      var now := MissingIn(ReplaceEntry(tb, m, i), values);
      forall p ensures p in now <==> p.Str? && p.s in PathsIn(tb, m, i, |names|) && p.s !in values {
        EntryMissing(tb, m, i, values, p);
      }
    }
  }

  ghost predicate Restores(tb: Table, values: Fields, m: Fields, i: nat) {
    forall k :: Local(tb, m, k) ==> Path(i, k) in values && values[Path(i, k)] == m[k]
  }

  lemma EntryRestored(tb: Table, m: Fields, i: nat, values: Fields)
    requires Clean(m) && Restores(tb, values, m, i)
    ensures FillEntry(ReplaceEntry(tb, m, i), values) == m
  {
    forall k | k in m ensures Fill(ReplaceEntry(tb, m, i)[k], values) == m[k] { MarkersAreLocal(tb, m, i, k); }
  }

  lemma ApplyOneMore(es: seq<Json>, n: nat, values: Fields)
    requires n < |es| && es[n].Obj? && Hashes(es[n].fields) && Apply(es[..n], values).Ok?
    ensures Apply(es[..n + 1], values).Ok?
    ensures Apply(es[..n + 1], values).value.entries == Apply(es[..n], values).value.entries + [Obj(FillEntry(es[n].fields, values))]
  {
    assert es[..n + 1][..n] == es[..n];
  }

  lemma OneMoreOf(es: seq<Json>, n: nat)
    requires n < |es|
    ensures es[..n + 1] == es[..n] + [es[n]]
  {
  }

  lemma {:induction false} FillUndoesUpTo(tb: Table, es: seq<Json>, values: Fields, n: nat)
    requires AllClean(es) && Entries(es) && n <= |es| && forall i :: 0 <= i < |es| ==> Restores(tb, values, es[i].fields, i)
    ensures Apply(Replace(tb, es)[..n], values).Ok? && Apply(Replace(tb, es)[..n], values).value.entries == es[..n]
  {
    if n > 0 {
      var m := es[n - 1].fields;
      FillUndoesUpTo(tb, es, values, n - 1);
      EntryRestored(tb, m, n - 1, values);
      EntryMissing(tb, m, n - 1, values, Null);
      ApplyOneMore(Replace(tb, es), n - 1, values);
      OneMoreOf(es, n - 1);
    }
  }

  /** Supplying the original values gives the configuration back. */
  lemma FillUndoesReplace(tb: Table, es: seq<Json>, values: Fields)
    requires AllClean(es) && Entries(es) && forall i :: 0 <= i < |es| ==> Restores(tb, values, es[i].fields, i)
    ensures Apply(Replace(tb, es), values).Ok? && Apply(Replace(tb, es), values).value.entries == es
  {
    FillUndoesUpTo(tb, es, values, |es|);
    assert Replace(tb, es)[..|es|] == Replace(tb, es) && es[..|es|] == es;
  }

  /** The original values by path. */
  function LocalsIn(tb: Table, m: Fields, i: nat, n: nat): Fields
    requires n <= |LocalNames(tb, m)|
  {
    if n == 0 then map[] else
    var k := LocalNames(tb, m)[n - 1];
    if k in m then LocalsIn(tb, m, i, n - 1)[Path(i, k) := m[k]] else LocalsIn(tb, m, i, n - 1)
  }

  function Locals(tb: Table, es: seq<Json>): Fields
    requires Entries(es)
  {
    if es == [] then map[] else
    var m, i := es[|es| - 1].fields, |es| - 1;
    Locals(tb, es[..i]) + LocalsIn(tb, m, i, |LocalNames(tb, m)|)
  }

  /** Device-local fields are found under their own paths, and only paths of entry i are used. */
  lemma {:induction false} LocalsInFacts(tb: Table, m: Fields, i: nat, n: nat)
    requires n <= |LocalNames(tb, m)|
    ensures forall k :: k in LocalNames(tb, m)[..n] && k in m ==> Path(i, k) in LocalsIn(tb, m, i, n) && LocalsIn(tb, m, i, n)[Path(i, k)] == m[k]
    ensures forall j: nat, k :: Path(j, k) in LocalsIn(tb, m, i, n) ==> j == i
  {
    if n > 0 {
      var last := LocalNames(tb, m)[n - 1];
      LocalsInFacts(tb, m, i, n - 1);
      assert LocalNames(tb, m)[..n] == LocalNames(tb, m)[..n - 1] + [last];
      forall j: nat, k | Path(j, k) == Path(i, last) ensures j == i && k == last { PathInjective(j, k, i, last); }
    }
  }

  lemma {:induction false} LocalsRestore(tb: Table, es: seq<Json>, j: nat)
    requires Entries(es) && j < |es|
    ensures Restores(tb, Locals(tb, es), es[j].fields, j)
  {
    var i := |es| - 1;
    var m := es[i].fields;
    LocalsInFacts(tb, m, i, |LocalNames(tb, m)|);
    assert LocalNames(tb, m)[..|LocalNames(tb, m)|] == LocalNames(tb, m);
    if j < i {
      LocalsRestore(tb, es[..i], j);
    }
  }

  /** The round trip: replacing the device-local fields by markers and applying their original values
      gives the entries back with nothing missing. */
  lemma RoundTrip(tb: Table, es: seq<Json>)
    requires TableOk(tb) && AllClean(es) && Entries(es)
    ensures Apply(Replace(tb, es), Locals(tb, es)) == Ok(Applied(es, {}))
  {
    var values := Locals(tb, es);
    forall i | 0 <= i < |es| ensures Restores(tb, values, es[i].fields, i) { LocalsRestore(tb, es, i); }
    FillUndoesReplace(tb, es, values);
    NothingMissing(tb, es, values);
  }

  lemma NothingMissing(tb: Table, es: seq<Json>, values: Fields)
    requires TableOk(tb) && AllClean(es) && Entries(es) && forall i :: 0 <= i < |es| ==> Restores(tb, values, es[i].fields, i)
    ensures Apply(Replace(tb, es), values).Ok? && Apply(Replace(tb, es), values).value.missing == {}
  {
    MissingExactly(tb, es, values);
    PathsFacts(tb, es);
    forall p | p in Paths(tb, es) ensures p in values {
      var i: nat, k :| PathOf(tb, es, p, i, k);
      assert Restores(tb, values, es[i].fields, i);
    }
  }

  /** The path a field stands in for, if it is a marker with a text for its path. */
  ghost function StandsFor(v: Json): Option<string> {
    match v
    case Obj(fields) => if "$placeholder" in fields && fields["$placeholder"].Str? then Some(fields["$placeholder"].s) else None
    case _ => None
  }

  lemma {:induction false} AppliedEntries(es: seq<Json>, values: Fields)
    requires Apply(es, values).Ok?
    ensures var r := Apply(es, values).value.entries;
            |r| == |es| && forall i :: 0 <= i < |es| ==> es[i].Obj? && r[i] == Obj(FillEntry(es[i].fields, values))
  {
    if es != [] { AppliedEntries(es[..|es| - 1], values); }
  }

  /** What filling in does to any field of any entries: a marker whose path is supplied gives way to the
      value, and everything else stays. */
  lemma AppliedField(es: seq<Json>, values: Fields, i: nat, k: string)
    requires Apply(es, values).Ok? && i < |es|
    ensures var r := Apply(es, values).value.entries;
            && |r| == |es| && es[i].Obj? && r[i].Obj? && (k in r[i].fields <==> k in es[i].fields)
            && (k in es[i].fields ==>
                  var v := es[i].fields[k];
                  r[i].fields[k] == if StandsFor(v).Some? && StandsFor(v).value in values then values[StandsFor(v).value] else v)
  {
    AppliedEntries(es, values);
  }

  // ---------------------------------------------------------------- filling in in two goes

  ghost predicate NoMarkerValues(values: Fields) { forall p :: p in values ==> !IsMarker(values[p]) }

  lemma FillTwiceEntry(m: Fields, first: Fields, second: Fields)
    requires Hashes(m) && NoMarkerValues(first)
    ensures Hashes(FillEntry(m, first)) && FillEntry(FillEntry(m, first), second) == FillEntry(m, second + first)
    ensures MissingIn(FillEntry(m, first), second) == MissingIn(m, second + first)
  {
    var once := FillEntry(m, first);
    forall k | k in m
      ensures Fill(once[k], second) == Fill(m[k], second + first)
      ensures Unfilled(once[k], second) == Unfilled(m[k], second + first)
      ensures Unfilled(once[k], second) ==> once[k] == m[k]
    {
    }
    forall p ensures p in MissingIn(once, second) <==> p in MissingIn(m, second + first) {
      if p in MissingIn(m, second + first) {
        var k :| k in m && Unfilled(m[k], second + first) && MarkOf(m[k]) == p;
        assert k in once && Unfilled(once[k], second) && MarkOf(once[k]) == p;
      }
    }
  }

  /** Values may be supplied in two goes: what is still missing after the second is what neither
      supplied, and the first value of a path counts. */
  lemma {:induction false} FillTwice(es: seq<Json>, first: Fields, second: Fields)
    requires NoMarkerValues(first) && Apply(es, first).Ok?
    ensures Apply(Apply(es, first).value.entries, second) == Apply(es, second + first)
  {
    if es != [] {
      var front, e := es[..|es| - 1], es[|es| - 1];
      FillTwice(front, first, second);
      FillTwiceEntry(e.fields, first, second);
      var once := Apply(es, first).value.entries;
      assert once[..|once| - 1] == Apply(front, first).value.entries;
    }
  }

  // ---------------------------------------------------------------- the payload of a token

  lemma DeviceLocalIsTable()
    ensures TableOk(DeviceLocal)
  {
    forall t ensures NoRepeats(DeviceLocal(t)) && "type" !in DeviceLocal(t) {}
  }

  function Interfaces(cfg: Fields): seq<Json>
    requires "interfaces" in cfg && cfg["interfaces"].List?
  {
    cfg["interfaces"].items
  }

  lemma AcceptableIsTyped(m: Fields)
    requires Acceptable(m) && HashKey(Get(m, "id", Null)).Some?
    ensures TypeOf(m).Str? && Clean(m)
  {
    forall k | k in m ensures !IsMarker(m[k]) {
      if k != "id" { FieldsAreFlat(m, k); }
    }
  }

  /** A validated configuration can be exported: its entries are typed and hold no markers. */
  lemma ValidatedIsClean(cfg: Json, freshId: nat -> string)
    requires ValidateConfig(cfg, freshId).Ok?
    ensures var out := ValidateConfig(cfg, freshId).value;
            Sound(out) && Entries(Interfaces(out)) && AllClean(Interfaces(out))
  {
    ValidatedIsSound(cfg, freshId);
    var entries := Get(cfg.fields, "interfaces", List([])).items;
    var vs := CheckEach(entries, freshId);
    AddAllFacts(vs);
    var es := AddAll(vs).value.entries;
    CompletedAgain(cfg.fields, es);
    forall i | 0 <= i < |es| ensures es[i].Obj? && TypeOf(es[i].fields).Str? && Clean(es[i].fields) {
      AddAllHolds(vs, i);
      AcceptableIsTyped(es[i].fields);
    }
  }

  /** What the token carries besides the interfaces and three shared settings. */
  datatype Extras = Extras(exportedAt: int, nodeLabel: string, identityPub: Json, identityPrv: Json)

  function Payload(cfg: Fields, x: Extras): Fields
    requires "interfaces" in cfg && cfg["interfaces"].List? && Entries(Interfaces(cfg))
  {
    map["schema_version" := Get(cfg, "schema_version", Int(1)),
        "exported_at" := Int(x.exportedAt),
        "node_label" := if x.nodeLabel != "" then Str(x.nodeLabel) else Get(cfg, "node_label", Str("")),
        "interfaces" := List(Replace(DeviceLocal, Interfaces(cfg))),
        "cot_bridge" := Get(cfg, "cot_bridge", Obj(map[])),
        "peer_allowlist" := Get(cfg, "peer_allowlist", List([])),
        "identity_pub" := x.identityPub,
        "identity_prv" := x.identityPrv]
  }

  /** Which field of which type of interface belongs to the device. */
  ghost predicate BelongsToDevice(t: string, k: string) {
    || (k == "listen_address" && t in {"tcp_server", "udp"})
    || (k == "i2p_sam_address" && t == "i2p")
    || (k in {"allowed_interfaces", "ignored_interfaces"} && t == "auto_interface")
    || (k == "port" && t in {"rnode", "kiss_tnc", "ax25_kiss"})
    || (k == "axint_port" && t == "ax25_kiss")
  }

  lemma DeviceLocalIs(t: string, k: string)
    ensures k in DeviceLocal(t) <==> BelongsToDevice(t, k)
  {
    if k == "axint_port" { assert DeviceLocal("ax25_kiss")[1] == k; }
    if k == "port" { assert DeviceLocal("ax25_kiss")[0] == k; }
    if k == "allowed_interfaces" { assert DeviceLocal("auto_interface")[0] == k; }
    if k == "ignored_interfaces" { assert DeviceLocal("auto_interface")[1] == k; }
  }

  /** What an exported interface looks like, field by field. */
  lemma ExportedField(es: seq<Json>, i: nat, k: string)
    requires Entries(es) && i < |es|
    ensures var m, r := es[i].fields, Replace(DeviceLocal, es)[i];
            && r.Obj? && (k in r.fields <==> k in m)
            && (k in m && BelongsToDevice(TypeOf(m).s, k) ==>
                  r.fields[k] == Obj(map["$placeholder" := Str("interfaces." + Decimal(i) + "." + k)]))
            && (k in m && !BelongsToDevice(TypeOf(m).s, k) ==> r.fields[k] == m[k])
  {
    DeviceLocalIs(TypeOf(es[i].fields).s, k);
  }

  datatype Imported = Imported(cfg: Fields, missing: set<Json>)

  function Shell(payload: Fields): Fields {
    map["schema_version" := Get(payload, "schema_version", Int(1)),
        "node_label" := Get(payload, "node_label", Str("")),
        "cot_bridge" := Get(payload, "cot_bridge", Obj(map[])),
        "peer_allowlist" := Get(payload, "peer_allowlist", List([])),
        "identity_pub" := Get(payload, "identity_pub", Null),
        "identity_prv" := Get(payload, "identity_prv", Null),
        "exported_at" := Get(payload, "exported_at", Null)]
  }

  predicate Empty(v: Json) { (v.Str? && v.s == "") || (v.Obj? && v.fields == map[]) }

  /** The end of the import.  Interfaces that are not a list are walked all the same, which crashes
      unless there is nothing to walk. */
  function Import(payload: Json, values: Fields, freshId: nat -> string): Result<Imported, Fault> {
    if !payload.Obj? || "interfaces" !in payload.fields then Err(Invalid)
    else if !payload.fields["interfaces"].List? then Err(if Empty(payload.fields["interfaces"]) then Invalid else Crash)
    else
      var a := Apply(payload.fields["interfaces"].items, values);
      if a.Err? then Err(a.error) else
      var cfg := Shell(payload.fields)["interfaces" := List(a.value.entries)];
      if a.value.missing != {} then Ok(Imported(cfg, a.value.missing)) else
      var v := ValidateConfig(Obj(cfg), freshId);
      if v.Err? then Err(v.error) else Ok(Imported(v.value, {}))
  }

  /** A payload without a list of interfaces: no list at all, an empty text or an empty object is a
      schema error, anything else in its place a crash. */
  lemma ImportRejects(payload: Json, values: Fields, freshId: nat -> string)
    requires !(payload.Obj? && "interfaces" in payload.fields && payload.fields["interfaces"].List?)
    ensures Import(payload, values, freshId) ==
            if !payload.Obj? || "interfaces" !in payload.fields then Err(Invalid)
            else match payload.fields["interfaces"]
              case Str(s) => Err(if |s| == 0 then Invalid else Crash)
              case Obj(fields) => Err(if |fields| == 0 then Invalid else Crash)
              case _ => Err(Crash)
  {
  }

  lemma ShellOfPayload(cfg: Fields, x: Extras)
    requires Sound(cfg) && Entries(Interfaces(cfg))
    ensures var p := Payload(cfg, x);
            && p["interfaces"] == List(Replace(DeviceLocal, Interfaces(cfg)))
            && Shell(p)["schema_version"] == Get(cfg, "schema_version", Int(1))
            && Shell(p)["cot_bridge"] == Get(cfg, "cot_bridge", Obj(map[]))
            && Shell(p)["peer_allowlist"] == Get(cfg, "peer_allowlist", List([]))
  {
  }

  /** The entries of a validated configuration pass validation inside any other configuration. */
  lemma EntriesPassAnywhere(cfg: Json, freshId: nat -> string, other: Fields, otherId: nat -> string)
    requires ValidateConfig(cfg, freshId).Ok?
    ensures var out := ValidateConfig(cfg, freshId).value;
            Sound(out) &&
            ValidateConfig(Obj(other["interfaces" := out["interfaces"]]), otherId) ==
            Ok(Completed(other["interfaces" := out["interfaces"]], Interfaces(out)))
  {
    ValidatedIsSound(cfg, freshId);
    var entries := Get(cfg.fields, "interfaces", List([])).items;
    EntriesAgain(entries, freshId, otherId);
    CompletedAgain(cfg.fields, AddAll(CheckEach(entries, freshId)).value.entries);
  }

  lemma ImportOf(payload: Fields, values: Fields, es: seq<Json>, freshId: nat -> string, done: Fields)
    requires "interfaces" in payload && payload["interfaces"].List?
    requires Apply(payload["interfaces"].items, values) == Ok(Applied(es, {}))
    requires ValidateConfig(Obj(Shell(payload)["interfaces" := List(es)]), freshId) == Ok(done)
    ensures Import(Obj(payload), values, freshId) == Ok(Imported(done, {}))
  {
  }

  lemma CompletedKeeps(shell: Fields, es: seq<Json>, k: string)
    requires k in shell && k != "interfaces"
    ensures var r := Completed(shell["interfaces" := List(es)], es);
            k in r && r[k] == shell[k] && "interfaces" in r && r["interfaces"] == List(es)
  {
  }

  /** What is imported when all original values are supplied. */
  function Copied(out: Fields, x: Extras): Fields
    requires "interfaces" in out && out["interfaces"].List? && Entries(Interfaces(out))
  {
    Completed(Shell(Payload(out, x))["interfaces" := List(Interfaces(out))], Interfaces(out))
  }

  lemma CopyIsImported(cfg: Json, freshId: nat -> string, x: Extras, otherId: nat -> string)
    requires ValidateConfig(cfg, freshId).Ok?
    ensures var out := ValidateConfig(cfg, freshId).value;
            && Sound(out) && Entries(Interfaces(out))
            && Import(Obj(Payload(out, x)), Locals(DeviceLocal, Interfaces(out)), otherId) == Ok(Imported(Copied(out, x), {}))
  {
    var out := ValidateConfig(cfg, freshId).value;
    ValidatedIsClean(cfg, freshId);
    DeviceLocalIsTable();
    var es := Interfaces(out);
    RoundTrip(DeviceLocal, es);
    ShellOfPayload(out, x);
    EntriesPassAnywhere(cfg, freshId, Shell(Payload(out, x)), otherId);
    ImportOf(Payload(out, x), Locals(DeviceLocal, es), es, otherId, Copied(out, x));
  }

  /** What else the copy carries: the label given with the export, or else the configuration's, the
      identity keys and the time of the export. */
  lemma CopyCarries(out: Fields, x: Extras)
    requires "interfaces" in out && out["interfaces"].List? && Entries(Interfaces(out))
    ensures var c := Copied(out, x);
            && "node_label" in c && "identity_pub" in c && "identity_prv" in c && "exported_at" in c
            && c["node_label"] == (if |x.nodeLabel| > 0 then Str(x.nodeLabel) else if "node_label" in out then out["node_label"] else Str(""))
            && c["identity_pub"] == x.identityPub && c["identity_prv"] == x.identityPrv && c["exported_at"] == Int(x.exportedAt)
  {
    var shell := Shell(Payload(out, x));
    CompletedKeeps(shell, Interfaces(out), "node_label");
    CompletedKeeps(shell, Interfaces(out), "identity_pub");
    CompletedKeeps(shell, Interfaces(out), "identity_prv");
    CompletedKeeps(shell, Interfaces(out), "exported_at");
  }

  lemma CopyAgrees(out: Fields, x: Extras)
    requires Sound(out) && Entries(Interfaces(out))
    requires "schema_version" in out && "cot_bridge" in out && "peer_allowlist" in out
    ensures forall k :: k in {"interfaces", "schema_version", "cot_bridge", "peer_allowlist"} ==>
              k in Copied(out, x) && Copied(out, x)[k] == out[k]
  {
    var es, shell := Interfaces(out), Shell(Payload(out, x));
    ShellOfPayload(out, x);
    CompletedKeeps(shell, es, "schema_version");
    CompletedKeeps(shell, es, "cot_bridge");
    CompletedKeeps(shell, es, "peer_allowlist");
  }

  /** Replication: exporting a configuration and importing it with the original device-local values
      gives back its validated interfaces and its shared settings, with nothing missing. */
  lemma ReplicationRoundTrip(cfg: Json, freshId: nat -> string, x: Extras, otherId: nat -> string)
    requires ValidateConfig(cfg, freshId).Ok?
    ensures var out := ValidateConfig(cfg, freshId).value;
            && Sound(out) && Entries(Interfaces(out))
            && var r := Import(Obj(Payload(out, x)), Locals(DeviceLocal, Interfaces(out)), otherId);
            && r.Ok? && r.value.missing == {}
            && forall k :: k in {"interfaces", "schema_version", "cot_bridge", "peer_allowlist"} ==>
                 k in r.value.cfg && k in out && r.value.cfg[k] == out[k]
  {
    CopyIsImported(cfg, freshId, x, otherId);
    CopyAgrees(ValidateConfig(cfg, freshId).value, x);
  }

  /** Whatever values are supplied at import, the paths reported missing are exactly those of the
      exporter's list that were not supplied. */
  lemma ReplicationMissing(cfg: Json, freshId: nat -> string, x: Extras, values: Fields, otherId: nat -> string)
    requires ValidateConfig(cfg, freshId).Ok?
    ensures var out := ValidateConfig(cfg, freshId).value;
            && Sound(out) && Entries(Interfaces(out))
            && var r := Import(Obj(Payload(out, x)), values, otherId);
            && (r.Ok? ==> forall p :: p in r.value.missing <==> p.Str? && p.s in Paths(DeviceLocal, Interfaces(out)) && p.s !in values)
            && (r.Err? ==> forall p :: p in Paths(DeviceLocal, Interfaces(out)) ==> p in values)
  {
    var out := ValidateConfig(cfg, freshId).value;
    ValidatedIsClean(cfg, freshId);
    DeviceLocalIsTable();
    MissingExactly(DeviceLocal, Interfaces(out), values);
    ShellOfPayload(out, x);
    var missing := Apply(Replace(DeviceLocal, Interfaces(out)), values).value.missing;
    forall p | p in Paths(DeviceLocal, Interfaces(out)) && p !in values ensures missing != {} { assert Str(p) in missing; }
  }
}
