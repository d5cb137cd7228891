/** Character classes of Python strings. */
module Text {
  /** White space as `str.strip` knows it. */
  predicate IsSpace(c: char) {
    var x := c as int;
    9 <= x <= 13 || 28 <= x <= 32 || x == 0x85 || x == 0xa0 || x == 0x1680 || 0x2000 <= x <= 0x200a ||
    x == 0x2028 || x == 0x2029 || x == 0x202f || x == 0x205f || x == 0x3000
  }

  /** Lower case of the ASCII letters. */
  function Lower(c: char): char { if 'A' <= c <= 'Z' then c - 'A' + 'a' else c }

  function Decimal(n: nat): string {
    (if n < 10 then "" else Decimal(n / 10)) + ["0123456789"[n % 10]]
  }

  lemma DigitChar(d: nat)
    requires d < 10
    ensures "0123456789"[d] as int == '0' as int + d
  {
  }

  /** The number a text of decimal digits stands for. */
  function NumberOf(s: string): int {
    if s == "" then 0 else 10 * NumberOf(s[..|s| - 1]) + (s[|s| - 1] as int - '0' as int)
  }

  /** Decimal notation: digits that read as the number, without leading zeros. */
  lemma {:induction false} DecimalReads(n: nat)
    ensures NumberOf(Decimal(n)) == n && (n > 0 ==> Decimal(n)[0] != '0') && Decimal(0) == "0"
    ensures forall c :: c in Decimal(n) ==> '0' <= c <= '9'
  {
    DigitChar(n % 10);
    if n >= 10 {
      DecimalReads(n / 10);
      assert Decimal(n)[..|Decimal(n)| - 1] == Decimal(n / 10);
    } else {
      assert Decimal(n)[..0] == "";
    }
  }

  lemma {:induction false} DecimalHasNoDot(n: nat)
    ensures '.' !in Decimal(n) && Decimal(n) != ""
  {
    DigitChar(n % 10);
    if n >= 10 { DecimalHasNoDot(n / 10); }
  }

  lemma {:induction false} DecimalInjective(m: nat, n: nat)
    requires Decimal(m) == Decimal(n)
    ensures m == n
  {
    var s := Decimal(m);
    DigitChar(m % 10);
    DigitChar(n % 10);
    assert s[|s| - 1] == "0123456789"[m % 10] && s[|s| - 1] == "0123456789"[n % 10];
    assert s[..|s| - 1] == if m < 10 then "" else Decimal(m / 10);
    assert s[..|s| - 1] == if n < 10 then "" else Decimal(n / 10);
    DecimalHasNoDot(m / 10);
    DecimalHasNoDot(n / 10);
    if m >= 10 { DecimalInjective(m / 10, n / 10); }
  }

  /** Texts without a dot are told apart from what follows their dot. */
  lemma {:induction false} SplitAtDot(a: string, x: string, b: string, y: string)
    requires '.' !in a && '.' !in b && a + "." + x == b + "." + y
    ensures a == b && x == y
  {
    var s := a + "." + x;
    assert s[|a|] == '.' && s[|b|] == '.';
    assert forall k :: 0 <= k < |a| ==> s[k] == a[k];
    assert forall k :: 0 <= k < |b| ==> s[k] == b[k];
    assert a == s[..|a|] && b == s[..|b|];
    assert x == s[|a| + 1..] && y == s[|b| + 1..];
  }
}
