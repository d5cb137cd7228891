/** Crockford base32 as tokens use it: backend/rns/token.py, `_b32encode`, `_b32decode` and the
    choice of the length in `import_token`.

    Bytes and digits are natural numbers below 256 and 32. */
module Base32 {
  import opened Wrappers
  import opened Arith
  import opened Text
  import opened Digits

  type Bytes = seq<nat>

  ghost predicate IsBytes(d: Bytes) { AllBelow(256, d) }

  const CROCKFORD := "0123456789abcdefghjkmnpqrstvwxyz"

  // ---------------------------------------------------------------- encoding

  function CharsFor(n: nat): nat { (n * 8 + 4) / 5 }

  function Spell(ds: seq<nat>): (s: string)
    requires AllBelow(32, ds)
    ensures |s| == |ds|
  {
    seq(|ds|, i requires 0 <= i < |ds| => CROCKFORD[ds[i]])
  }

  function Encode(data: Bytes): string {
    DigitsBelow(32, CharsFor(|data|), Value(256, data));
    Spell(ToDigits(32, CharsFor(|data|), Value(256, data)))
  }

  method EncodeBytes(data: Bytes) returns (s: string)
    ensures s == Encode(data)
  {
    var n := Value(256, data);
    var nchars := CharsFor(|data|);
    DigitsBelow(32, nchars, n);
    ghost var all := ToDigits(32, nchars, n);
    s := "";
    var i := nchars;
    while i > 0
      invariant 0 <= i <= nchars && |s| == nchars - i
      invariant forall p :: 0 <= p < |s| ==> s[p] == CROCKFORD[all[p]]
    {
      i := i - 1;
      DigitsAt(32, nchars, n, i);
      s := s + [CROCKFORD[DigitAt(32, n, i)]];
    }
  }

  // ---------------------------------------------------------------- decoding

  function StripLeft(s: string): string {
    if s != "" && IsSpace(s[0]) then StripLeft(s[1..]) else s
  }

  function StripRight(s: string): string {
    if s != "" && IsSpace(s[|s| - 1]) then StripRight(s[..|s| - 1]) else s
  }

  function Strip(s: string): string { StripRight(StripLeft(s)) }

  function IndexOf(s: string, c: char): (r: Option<nat>)
    ensures r.Some? ==> r.value < |s| && s[r.value] == c
    ensures r.None? ==> c !in s
  {
    if s == "" then None
    else if s[|s| - 1] == c then Some(|s| - 1)
    else IndexOf(s[..|s| - 1], c)
  }

  /** The characters operators tend to type instead of others. */
  function Straighten(c: char): char {
    match c case 'o' => '0' case 'i' => '1' case 'l' => '1' case 'u' => 'v' case _ => c
  }

  function Symbol(c: char): Option<nat> { IndexOf(CROCKFORD, Straighten(Lower(c))) }

  predicate Separator(c: char) { c == '-' || c == ' ' || c == '_' }

  datatype DecodeError = BadChar(c: char) | TooBig

  /** The decoding loop from the point where it has read the number n. */
  function Accumulate(s: string, n: nat): Result<nat, DecodeError>
    decreases s
  {
    if s == "" then Ok(n)
    else if Separator(s[0]) then Accumulate(s[1..], n)
    else if Symbol(s[0]).None? then Err(BadChar(Lower(s[0])))
    else Accumulate(s[1..], n * 32 + Symbol(s[0]).value)
  }

  function ToBytes(n: nat, len: nat): Result<Bytes, DecodeError> {
    if n < Pow(256, len) then Ok(ToDigits(256, len, n)) else Err(TooBig)
  }

  function Finish(r: Result<nat, DecodeError>, len: nat): Result<Bytes, DecodeError> {
    if r.Ok? then ToBytes(r.value, len) else Err(r.error)
  }

  function Decode(s: string, len: nat): Result<Bytes, DecodeError> { Finish(Accumulate(Strip(s), 0), len) }

  lemma AccumulateStep(s: string, i: nat, n: nat)
    requires i < |s|
    ensures Separator(s[i]) ==> Accumulate(s[i..], n) == Accumulate(s[i + 1..], n)
    ensures !Separator(s[i]) && Symbol(s[i]).None? ==> Accumulate(s[i..], n) == Err(BadChar(Lower(s[i])))
    ensures !Separator(s[i]) && Symbol(s[i]).Some? ==>
              Accumulate(s[i..], n) == Accumulate(s[i + 1..], n * 32 + Symbol(s[i]).value)
  {
    assert s[i..][0] == s[i] && s[i..][1..] == s[i + 1..];
  }

  method DecodeText(text: string, len: nat) returns (r: Result<Bytes, DecodeError>)
    ensures r == Decode(text, len)
  {
    var s, n := Strip(text), 0;
    for i := 0 to |s|
      invariant Accumulate(s[i..], n) == Accumulate(s, 0)
    {
      AccumulateStep(s, i, n);
      if Separator(s[i]) { continue; }
      var v := Symbol(s[i]);
      if v.None? { return Err(BadChar(Lower(s[i]))); }
      n := n * 32 + v.value;
    }
    r := ToBytes(n, len);
  }

  // ---------------------------------------------------------------- what decoding depends on

  /** The digits a text spells, if all its characters are understood. */
  function Read(s: string): Option<seq<nat>> {
    if s == "" then Some([]) else
    var front, c := Read(s[..|s| - 1]), s[|s| - 1];
    if front.None? || (!Separator(c) && Symbol(c).None?) then None
    else if Separator(c) then front
    else Some(front.value + [Symbol(c).value])
  }

  lemma {:induction false} AccumulateSplit(a: string, b: string, n: nat)
    ensures Accumulate(a + b, n) ==
            if Accumulate(a, n).Ok? then Accumulate(b, Accumulate(a, n).value) else Accumulate(a, n)
    decreases a
  {
    if a == "" {
      assert a + b == b;
    } else {
      assert (a + b)[1..] == a[1..] + b;
      if Separator(a[0]) {
        AccumulateSplit(a[1..], b, n);
      } else if Symbol(a[0]).Some? {
        AccumulateSplit(a[1..], b, n * 32 + Symbol(a[0]).value);
      }
    }
  }

  lemma {:induction false} AccumulateReads(s: string)
    ensures Accumulate(s, 0).Ok? == Read(s).Some?
    ensures Read(s).Some? ==> Accumulate(s, 0).value == Value(32, Read(s).value) && AllBelow(32, Read(s).value)
  {
    if s != "" {
      var front, c := s[..|s| - 1], s[|s| - 1];
      assert s == front + [c];
      AccumulateReads(front);
      AccumulateSplit(front, [c], 0);
      if Read(front).Some? && Symbol(c).Some? { ValueSnoc(32, Read(front).value, Symbol(c).value); }
    }
  }

  lemma {:induction false} AlphabetIsExact(s: string, v: nat)
    requires v < |s| && forall i, j :: 0 <= i < j < |s| ==> s[i] != s[j]
    ensures IndexOf(s, s[v]) == Some(v)
  {
    if v < |s| - 1 { AlphabetIsExact(s[..|s| - 1], v); }
  }

  lemma AlphabetRises()
    ensures |CROCKFORD| == 32
    ensures forall i :: 0 <= i < 31 ==> CROCKFORD[i] < CROCKFORD[i + 1]
  {
  }

  lemma {:induction false} Rises(i: nat, j: nat)
    requires i < j < 32
    ensures CROCKFORD[i] < CROCKFORD[j]
    decreases j
  {
    AlphabetRises();
    if i < j - 1 { Rises(i, j - 1); }
    assert CROCKFORD[j - 1] < CROCKFORD[j - 1 + 1];
  }

  lemma DigitIsPlain(c: char)
    requires '0' <= c <= '9' || ('a' <= c <= 'z' && c !in "ilou")
    ensures !Separator(c) && !IsSpace(c) && Straighten(Lower(c)) == c
  {
  }

  lemma SymbolOfDigit(v: nat)
    requires v < 32
    ensures var c := CROCKFORD[v]; !Separator(c) && !IsSpace(c) && Straighten(Lower(c)) == c && Symbol(c) == Some(v)
  {
    DigitIsPlain(CROCKFORD[v]);
    forall i, j | 0 <= i < j < 32 ensures CROCKFORD[i] != CROCKFORD[j] { Rises(i, j); }
    AlphabetIsExact(CROCKFORD, v);
  }

  // ---------------------------------------------------------------- round trip

  lemma {:induction false} ReadSpelled(ds: seq<nat>)
    requires AllBelow(32, ds)
    ensures Read(Spell(ds)) == Some(ds)
  {
    if ds != [] {
      var front, d := ds[..|ds| - 1], ds[|ds| - 1];
      ReadSpelled(front);
      SymbolOfDigit(d);
      assert Spell(ds)[..|ds| - 1] == Spell(front);
      assert Read(Spell(ds)) == Some(front + [d]);
      assert ds == front + [d];
    }
  }

  lemma {:induction false} StripNothing(s: string)
    requires forall c :: c in s ==> !IsSpace(c)
    ensures Strip(s) == s
  {
  }

  lemma SpelledIsClean(ds: seq<nat>)
    requires AllBelow(32, ds)
    ensures forall c :: c in Spell(ds) ==> !IsSpace(c) && !Separator(c) && Straighten(Lower(c)) == c
  {
    forall c | c in Spell(ds) ensures !IsSpace(c) && !Separator(c) && Straighten(Lower(c)) == c {
      var i :| 0 <= i < |ds| && Spell(ds)[i] == c;
      SymbolOfDigit(ds[i]);
    }
  }

  /** Five bits a character leave room for the bytes, and the length of the text tells how many. */
  lemma LengthIsExact(n: nat)
    ensures CharsFor(n) * 5 / 8 == n && Pow(256, n) <= Pow(32, CharsFor(n))
  {
    assert Pow(2, 8) == 256 && Pow(2, 5) == 32;
    PowOfPow(2, 8, n);
    PowOfPow(2, 5, CharsFor(n));
    PowMono(2, 8 * n, 5 * CharsFor(n));
  }

  lemma EncodedReads(data: Bytes)
    requires IsBytes(data)
    ensures Accumulate(Encode(data), 0) == Ok(Value(256, data)) && Strip(Encode(data)) == Encode(data)
  {
    var n, k := Value(256, data), CharsFor(|data|);
    DigitsBelow(32, k, n);
    var ds := ToDigits(32, k, n);
    ReadSpelled(ds);
    SpelledIsClean(ds);
    StripNothing(Encode(data));
    AccumulateReads(Encode(data));
    ValueBelow(256, data);
    LengthIsExact(|data|);
    ValueOfDigits(32, k, n);
  }

  /** Decoding gives `data` exactly when the text, read as a number, is its value; leading zeros of
      the text do not matter. */
  lemma DecodesIff(text: string, data: Bytes)
    requires IsBytes(data)
    ensures (Decode(text, |data|) == Ok(data)) == (Accumulate(Strip(text), 0) == Ok(Value(256, data)))
  {
    ValueBelow(256, data);
    DigitsOfValue(256, data);
    var r := Accumulate(Strip(text), 0);
    if r.Ok? && r.value < Pow(256, |data|) { ValueOfDigits(256, |data|, r.value); }
  }

  /** Every byte string survives, and its length can be told from the text. */
  lemma RoundTrip(data: Bytes)
    requires IsBytes(data)
    ensures Decode(Encode(data), |data|) == Ok(data) && |Encode(data)| * 5 / 8 == |data|
  {
    EncodedReads(data);
    DecodesIff(Encode(data), data);
    LengthIsExact(|data|);
  }

  /** The text of `data`, character by character: the bytes make one number, first byte first, and the
      text spells it in base 32, first digit first. */
  lemma EncodedSpells(data: Bytes, j: nat)
    requires j < |Encode(data)|
    ensures 5 * (|Encode(data)| - 1) < 8 * |data| <= 5 * |Encode(data)|
    ensures Pow(32, |Encode(data)| - 1 - j) > 0
    ensures var digit := Value(256, data) / Pow(32, |Encode(data)| - 1 - j) % 32;
            Encode(data)[j] == "0123456789abcdefghjkmnpqrstvwxyz"[digit]
  {
    PowPositive(32, |Encode(data)| - 1 - j);
    DigitsAt(32, CharsFor(|data|), Value(256, data), |Encode(data)| - 1 - j);
  }

  /** What each character means: its place in the alphabet, also as a capital; o is zero, i and l are
      one, u is v. */
  lemma SymbolMeans(v: nat)
    requires v < 32
    ensures var c := "0123456789abcdefghjkmnpqrstvwxyz"[v];
            Symbol(c) == Some(v) && ('a' <= c <= 'z' ==> Symbol(c - 'a' + 'A') == Some(v))
    ensures Symbol('o') == Symbol('O') == Some(0) && Symbol('i') == Symbol('I') == Some(1)
    ensures Symbol('l') == Symbol('L') == Some(1) && Symbol('u') == Symbol('U') == Some(27)
  {
    SymbolOfDigit(v);
    SymbolOfDigit(0);
    SymbolOfDigit(1);
    SymbolOfDigit(27);
    assert CROCKFORD[0] == '0' && CROCKFORD[1] == '1' && CROCKFORD[27] == 'v';
  }

  /** Other characters than letters and digits mean nothing. */
  lemma NoOtherSymbol(c: char)
    requires Symbol(c).Some?
    ensures '0' <= c <= '9' || 'a' <= c <= 'z' || 'A' <= c <= 'Z'
  {
    var d := CROCKFORD[Symbol(c).value];
    assert d == Straighten(Lower(c));
    AlphabetIsPlain();
  }

  lemma AlphabetIsPlain()
    ensures |CROCKFORD| == 32
    ensures forall i :: 0 <= i < 32 ==> '0' <= CROCKFORD[i] <= '9' || 'a' <= CROCKFORD[i] <= 'z'
  {
  }

  // ---------------------------------------------------------------- what may be typed instead

  /** The text without separators, in lower case and with the substitutions undone. */
  function Canon(s: string): (r: string)
    ensures |r| <= |s|
  {
    if s == "" then "" else (if Separator(s[0]) then "" else [Straighten(Lower(s[0]))]) + Canon(s[1..])
  }

  lemma StraightOnce(c: char)
    requires !Separator(c)
    ensures var d := Straighten(Lower(c));
            !Separator(d) && Symbol(d) == Symbol(c) && (Symbol(c).None? ==> Lower(d) == Lower(c))
  {
    if Lower(c) in "oilu" {
      SymbolOfDigit(0);
      SymbolOfDigit(1);
      SymbolOfDigit(27);
    }
  }

  lemma CanonOfSymbol(s: string, n: nat)
    requires s != "" && !Separator(s[0])
    ensures var d := Straighten(Lower(s[0]));
            Separator(d) || Accumulate(Canon(s), n) ==
            if Symbol(d).None? then Err(BadChar(Lower(d))) else Accumulate(Canon(s[1..]), n * 32 + Symbol(d).value)
  {
    var d := Straighten(Lower(s[0]));
    assert Canon(s) == [d] + Canon(s[1..]) && Canon(s)[1..] == Canon(s[1..]);
    AccumulateStep(Canon(s), 0, n);
    assert Canon(s)[0..] == Canon(s);
  }

  lemma {:induction false} CanonDecides(s: string, n: nat)
    ensures Accumulate(s, n) == Accumulate(Canon(s), n)
    decreases s
  {
    if s != "" {
      var c := s[0];
      AccumulateStep(s, 0, n);
      assert s[0..] == s;
      if Separator(c) {
        assert Canon(s) == Canon(s[1..]);
        CanonDecides(s[1..], n);
      } else {
        StraightOnce(c);
        CanonOfSymbol(s, n);
        if Symbol(c).Some? { CanonDecides(s[1..], n * 32 + Symbol(c).value); }
      }
    }
  }

  /** Case, separators and substitutions make no difference to the bytes or to the error. */
  lemma OnlyCanonMatters(s: string, t: string, len: nat)
    requires Canon(Strip(s)) == Canon(Strip(t))
    ensures Decode(s, len) == Decode(t, len)
  {
    CanonDecides(Strip(s), 0);
    CanonDecides(Strip(t), 0);
  }

  lemma {:induction false} CanonOfClean(s: string)
    requires forall c :: c in s ==> !Separator(c) && Straighten(Lower(c)) == c
    ensures Canon(s) == s
  {
    if s != "" {
      assert s[0] in s && s == [s[0]] + s[1..];
      CanonOfClean(s[1..]);
    }
  }

  lemma CanonOfEncoded(data: Bytes)
    requires IsBytes(data)
    ensures Canon(Strip(Encode(data))) == Encode(data)
  {
    DigitsBelow(32, CharsFor(|data|), Value(256, data));
    SpelledIsClean(ToDigits(32, CharsFor(|data|), Value(256, data)));
    EncodedReads(data);
    CanonOfClean(Encode(data));
  }

  // ---------------------------------------------------------------- separators at the edges

  ghost predicate Blank(s: string) { forall c :: c in s ==> IsSpace(c) }

  /** White space of the kind the decoder itself skips. */
  ghost predicate Plain(s: string) { forall c :: c in s ==> c == ' ' }

  ghost predicate IsCore(x: string) { x != "" && !IsSpace(x[0]) && !IsSpace(x[|x| - 1]) }

  lemma {:induction false} StripsLeft(a: string, x: string)
    requires Blank(a) && x != "" && !IsSpace(x[0])
    ensures StripLeft(a + x) == x
  {
    if a == "" {
      assert a + x == x;
    } else {
      assert a[0] in a && (a + x)[1..] == a[1..] + x;
      StripsLeft(a[1..], x);
    }
  }

  lemma {:induction false} StripsRight(x: string, b: string)
    requires Blank(b) && x != "" && !IsSpace(x[|x| - 1])
    ensures StripRight(x + b) == x
  {
    if b == "" {
      assert x + b == x;
    } else {
      assert b[|b| - 1] in b && (x + b)[..|x + b| - 1] == x + b[..|b| - 1];
      StripsRight(x, b[..|b| - 1]);
    }
  }

  lemma StripsTo(a: string, x: string, b: string)
    requires Blank(a) && IsCore(x) && Blank(b)
    ensures Strip(a + x + b) == x
  {
    assert a + x + b == a + (x + b);
    StripsLeft(a, x + b);
    StripsRight(x, b);
  }

  lemma {:induction false} BlanksRead(s: string, n: nat)
    requires Blank(s)
    ensures Plain(s) ==> Accumulate(s, n) == Ok(n)
    ensures !Plain(s) ==> Accumulate(s, n).Err? && Accumulate(s, n).error.BadChar?
    decreases s
  {
    if s != "" {
      assert s[0] in s && s == [s[0]] + s[1..] && s[0..] == s;
      AccumulateStep(s, 0, n);
      if s[0] == ' ' {
        assert forall c :: c in s <==> c == s[0] || c in s[1..];
        BlanksRead(s[1..], n);
      } else {
        BlankIsNoSymbol(s[0]);
      }
    }
  }

  lemma BlankIsNoSymbol(c: char)
    requires IsSpace(c) && c != ' '
    ensures !Separator(c) && Symbol(c).None?
  {
    assert Straighten(Lower(c)) == c;
    if c in CROCKFORD {
      var v :| 0 <= v < 32 && CROCKFORD[v] == c;
      SymbolOfDigit(v);
    }
  }

  /** A separator may be put anywhere inside the text. */
  lemma SeparatorInside(a: string, x: string, y: string, b: string, sep: char, len: nat)
    requires Blank(a) && Blank(b) && x != "" && y != "" && IsCore(x + y) && Separator(sep)
    ensures Decode(a + (x + [sep] + y) + b, len) == Decode(a + (x + y) + b, len)
  {
    StripsTo(a, x + y, b);
    assert IsCore(x + [sep] + y);
    StripsTo(a, x + [sep] + y, b);
    CanonSplit(x + [sep], y);
    CanonSplit(x, [sep]);
    CanonSplit(x, y);
    assert [sep][1..] == "" && Canon([sep]) == Canon("");
    assert Canon(x) + "" == Canon(x);
    OnlyCanonMatters(a + (x + [sep] + y) + b, a + (x + y) + b, len);
  }

  lemma {:induction false} CanonSplit(a: string, b: string)
    ensures Canon(a + b) == Canon(a) + Canon(b)
  {
    if a == "" {
      assert a + b == b;
    } else {
      assert (a + b)[1..] == a[1..] + b;
      CanonSplit(a[1..], b);
    }
  }

  lemma BadIsDifferent(r: Result<nat, DecodeError>, ok: Result<nat, DecodeError>, len: nat)
    requires ok.Ok? && (r.Ok? ==> r == ok) && (r.Err? ==> r.error.BadChar?)
    ensures (Finish(r, len) == Finish(ok, len)) == r.Ok?
  {
  }

  lemma CoreBefore(sep: char, a: string, x: string)
    requires Separator(sep) && Blank(a) && Accumulate(x, 0).Ok?
    ensures var r := Accumulate([sep] + a + x, 0);
            (r.Ok? == Plain(a)) && (r.Ok? ==> r == Accumulate(x, 0)) && (r.Err? ==> r.error.BadChar?)
  {
    var s := [sep] + a + x;
    AccumulateStep(s, 0, 0);
    assert s[0..] == s && s[1..] == a + x;
    AccumulateSplit(a, x, 0);
    BlanksRead(a, 0);
  }

  lemma CoreAfter(x: string, b: string, sep: char)
    requires Separator(sep) && Blank(b) && Accumulate(x, 0).Ok?
    ensures var r := Accumulate(x + b + [sep], 0);
            (r.Ok? == Plain(b)) && (r.Ok? ==> r == Accumulate(x, 0)) && (r.Err? ==> r.error.BadChar?)
  {
    var n := Accumulate(x, 0).value;
    AccumulateSplit(x + b, [sep], 0);
    AccumulateSplit(x, b, 0);
    BlanksRead(b, n);
    AccumulateStep([sep], 0, n);
    assert [sep][0..] == [sep] && [sep][1..] == "";
  }

  /** A dash or underscore before the text hides the white space behind it from `strip`.  The text
      still decodes to the same exactly when that white space is blanks only. */
  lemma SeparatorBeforeIff(a: string, a': string, x: string, b: string, sep: char, len: nat)
    requires Blank(a) && Blank(a') && IsCore(x) && Blank(b) && (sep == '-' || sep == '_') && Accumulate(x, 0).Ok?
    ensures (Decode(a + ([sep] + a' + x) + b, len) == Decode(a + a' + x + b, len)) == Plain(a')
  {
    var y := [sep] + a' + x;
    assert IsCore(y) by { assert y[|y| - 1] == x[|x| - 1]; }
    StripsTo(a + a', x, b);
    StripsTo(a, y, b);
    CoreBefore(sep, a', x);
    BadIsDifferent(Accumulate(y, 0), Accumulate(x, 0), len);
  }

  /** Likewise behind the text. */
  lemma SeparatorAfterIff(a: string, x: string, b: string, b': string, sep: char, len: nat)
    requires Blank(a) && IsCore(x) && Blank(b) && Blank(b') && (sep == '-' || sep == '_') && Accumulate(x, 0).Ok?
    ensures (Decode(a + (x + b + [sep]) + b', len) == Decode(a + x + (b + b'), len)) == Plain(b)
  {
    StripsTo(a, x, b + b');
    StripsTo(a, x + b + [sep], b');
    CoreAfter(x, b, sep);
    BadIsDifferent(Accumulate(x + b + [sep], 0), Accumulate(x, 0), len);
  }

  // ---------------------------------------------------------------- the length of an imported token

  const SHORTEST: int := 57

  datatype PickError = Undecodable(last: Option<DecodeError>) | Crashed

  /** Lengths are tried in turn; only an invalid character leads on to the next one, a number too big
      for the length escapes as a crash.  `dec` decodes the text at a length. */
  function TryLengths(dec: nat -> Result<Bytes, DecodeError>, trials: seq<int>, last: Option<DecodeError>): Result<Bytes, PickError>
    decreases trials
  {
    if trials == [] then Err(Undecodable(last))
    else if trials[0] < SHORTEST then TryLengths(dec, trials[1..], last)
    else
      match dec(trials[0])
      case Ok(blob) => Ok(blob)
      case Err(TooBig) => Err(Crashed)
      case Err(bad) => TryLengths(dec, trials[1..], Some(bad))
  }

  function Trials(expected: nat): seq<int> { [expected, expected - 1, expected + 1] }

  function Decoder(body: string): nat -> Result<Bytes, DecodeError> { (len: nat) => Decode(body, len) }

  function Pick(body: string): Result<Bytes, PickError> {
    TryLengths(Decoder(body), Trials(|body| * 5 / 8), None)
  }

  method PickBlob(body: string) returns (r: Result<Bytes, PickError>)
    ensures r == Pick(body)
  {
    ghost var dec := Decoder(body);
    var trials, last: Option<DecodeError> := Trials(|body| * 5 / 8), None;
    for i := 0 to |trials|
      invariant TryLengths(dec, trials[i..], last) == TryLengths(dec, trials, None)
    {
      TryStep(dec, trials[i], trials[i + 1..], last);
      assert trials[i..] == [trials[i]] + trials[i + 1..];
      if trials[i] < SHORTEST { continue; }
      var d := DecodeText(body, trials[i]);
      if d.Ok? { return Ok(d.value); }
      if d.error.TooBig? { return Err(Crashed); }
      last := Some(d.error);
    }
    r := Err(Undecodable(last));
  }

  lemma TryStep(dec: nat -> Result<Bytes, DecodeError>, t: int, rest: seq<int>, last: Option<DecodeError>)
    ensures t < SHORTEST ==> TryLengths(dec, [t] + rest, last) == TryLengths(dec, rest, last)
    ensures t >= SHORTEST ==>
              TryLengths(dec, [t] + rest, last) ==
              match dec(t)
              case Ok(blob) => Ok(blob)
              case Err(TooBig) => Err(Crashed)
              case Err(bad) => TryLengths(dec, rest, Some(bad))
  {
    assert ([t] + rest)[1..] == rest;
  }

  lemma TrialsAgree(dec: nat -> Result<Bytes, DecodeError>, e: nat)
    requires e >= SHORTEST
    requires dec(e).Err? && dec(e).error.BadChar? ==> dec(e - 1) == dec(e) && dec(e + 1) == dec(e)
    ensures var r := TryLengths(dec, Trials(e), None);
            (r.Ok? == dec(e).Ok?) && (r.Ok? ==> r.value == dec(e).value) && ((r == Err(Crashed)) == (dec(e) == Err(TooBig)))
  {
    TryStep(dec, e, [e - 1, e + 1], None);
    assert [e] + [e - 1, e + 1] == Trials(e);
    if dec(e).Err? && dec(e).error.BadChar? {
      TryStep(dec, e - 1, [e + 1], Some(dec(e).error));
      assert [e - 1] + [e + 1] == [e - 1, e + 1];
      TryStep(dec, e + 1, [], Some(dec(e).error));
      assert [e + 1] + [] == [e + 1];
    }
  }

  /** The second and third length never help: what fails at the first fails at all three. */
  lemma FirstTrialDecides(body: string)
    requires |body| * 5 / 8 >= 57
    ensures var d := Decode(body, |body| * 5 / 8);
            && (Pick(body).Ok? == d.Ok?) && (d.Ok? ==> Pick(body).value == d.value)
            && ((Pick(body) == Err(Crashed)) == (d == Err(TooBig)))
  {
    TrialsAgree(Decoder(body), |body| * 5 / 8);
  }

  /** Texts too short for a token: one byte short they are tried as the shortest token there is, and
      below that they are given up untried. */
  lemma ShortTexts(body: string)
    ensures |body| * 5 / 8 < 56 ==> Pick(body) == Err(Undecodable(None))
    ensures |body| * 5 / 8 == 56 ==>
              var d := Decode(body, 57);
              && (Pick(body).Ok? == d.Ok?) && (d.Ok? ==> Pick(body).value == d.value)
              && ((Pick(body) == Err(Crashed)) == (d == Err(TooBig)))
  {
    var e, dec := |body| * 5 / 8, Decoder(body);
    assert Trials(e)[1..] == [e - 1, e + 1] && [e - 1, e + 1][1..] == [e + 1] && [e + 1][1..] == [];
    if e <= 56 {
      assert TryLengths(dec, Trials(e), None) == TryLengths(dec, [e - 1, e + 1], None);
      assert TryLengths(dec, [e - 1, e + 1], None) == TryLengths(dec, [e + 1], None);
    }
  }

  lemma ToBytesWider(n: nat, len: nat, wider: nat)
    requires n < Pow(256, len) && len < wider
    ensures n < Pow(256, wider) && ToDigits(256, wider, n)[0] == 0
  {
    PowMono(256, len, wider);
    PowMono(256, len, wider - 1);
    DigitsAt(256, wider, n, wider - 1);
    PowPositive(256, wider - 1);
    DivModUnique(n, 0, n, Pow(256, wider - 1));
  }

  /** A token typed back in with any case, substitutions and separators is recovered exactly when the
      characters added do not change the length computed from the text; if they do, the bytes come
      out behind a zero, which is then refused as an unknown version. */
  lemma ImportRecoversIff(text: string, data: Bytes)
    requires IsBytes(data) && |data| >= SHORTEST && Canon(Strip(text)) == Encode(data)
    ensures (Pick(text) == Ok(data)) == (|text| * 5 / 8 == |data|)
    ensures Pick(text) != Ok(data) ==> Pick(text).Ok? && Pick(text).value != [] && Pick(text).value[0] == 0
  {
    var len := |text| * 5 / 8;
    NoShorter(text, data);
    DecodesWider(text, data, len);
    FirstTrialDecides(text);
  }

  lemma DashesAreDropped(x: string)
    requires x != "" && !IsSpace(x[0])
    ensures Strip(x + "--") == x + "--" && Canon(x + "--") == Canon(x)
  {
    StripsTo("", x + "--", "");
    assert "" + (x + "--") + "" == x + "--";
    CanonSplit(x, "--");
    assert "--"[1..] == "-" && "-"[1..] == "" && Canon("-") == "";
    assert Canon(x) + "" == Canon(x);
  }

  /** Two dashes behind an exported token of any content: decoding at its length still gives the bytes,
      but the import computes a greater length and puts a zero in front. */
  lemma DashesSpoilImport(data: Bytes)
    requires IsBytes(data) && |data| >= SHORTEST
    ensures Decode(Encode(data) + "--", |data|) == Ok(data)
    ensures var r := Pick(Encode(data) + "--"); r.Ok? && r.value != data && r.value != [] && r.value[0] == 0
  {
    var x, text := Encode(data), Encode(data) + "--";
    EncodedReads(data);
    CanonOfEncoded(data);
    LengthIsExact(|data|);
    DigitsBelow(32, CharsFor(|data|), Value(256, data));
    SpelledIsClean(ToDigits(32, CharsFor(|data|), Value(256, data)));
    assert x[0] in x;
    DashesAreDropped(x);
    ImportRecoversIff(text, data);
    DecodesWider(text, data, |data|);
  }

  lemma NoShorter(text: string, data: Bytes)
    requires Canon(Strip(text)) == Encode(data)
    ensures |text| * 5 / 8 >= |data|
  {
    StripShrinks(text);
    LengthIsExact(|data|);
  }

  lemma DecodesWider(text: string, data: Bytes, len: nat)
    requires IsBytes(data) && Canon(Strip(text)) == Encode(data) && len >= |data|
    ensures var d := Decode(text, len);
            && d.Ok? && ((d.value == data) == (len == |data|))
            && (len > |data| ==> d.value != [] && d.value[0] == 0)
  {
    CanonOfEncoded(data);
    OnlyCanonMatters(text, Encode(data), len);
    EncodedReads(data);
    ValueBelow(256, data);
    if len == |data| { DigitsOfValue(256, data); } else { ToBytesWider(Value(256, data), |data|, len); }
  }

  lemma {:induction false} StripShrinks(s: string)
    ensures |Strip(s)| <= |s|
  {
    LeftShrinks(s);
    RightShrinks(StripLeft(s));
  }

  lemma {:induction false} LeftShrinks(s: string)
    ensures |StripLeft(s)| <= |s|
  {
    if s != "" { LeftShrinks(s[1..]); }
  }

  lemma {:induction false} RightShrinks(s: string)
    ensures |StripRight(s)| <= |s|
  {
    if s != "" { RightShrinks(s[..|s| - 1]); }
  }
}
