/** The string primitives the library borrows from Go's standard library:
    strconv.Atoi (which segments look like list indices), fmt's "%d"
    (how a list position becomes a segment), strings.EqualFold (how isList
    compares prefixes) and the byte order that sort.Strings uses. */
module Text {

  predicate IsDigit(c: char) {
    '0' <= c <= '9'
  }

  predicate AllDigits(s: string) {
    forall i :: 0 <= i < |s| ==> IsDigit(s[i])
  }

  /** The strings strconv.Atoi accepts: an optional '+' or '-' followed by at
      least one ASCII digit, and nothing else. */
  predicate IndexLike(s: string) {
    if |s| > 0 && (s[0] == '+' || s[0] == '-') then
      |s| > 1 && AllDigits(s[1..])
    else
      |s| > 0 && AllDigits(s)
  }

  function DigitValue(c: char): nat
    requires IsDigit(c)
  {
    (c as int) - ('0' as int)
  }

  /** The value of a string of decimal digits, most significant first. */
  function DigitsValue(s: string): nat
    requires AllDigits(s)
  {
    if |s| == 0 then 0 else DigitsValue(s[..|s| - 1]) * 10 + DigitValue(s[|s| - 1])
  }

  /** `idx, _ := strconv.Atoi(s)`: the parsed value, or 0 when Atoi reports a
      syntax error. */
  function Atoi(s: string): (n: int)
    ensures !IndexLike(s) ==> n == 0
    ensures IndexLike(s) && s[0] != '-' ==> n >= 0
    ensures IndexLike(s) && s[0] == '-' ==> n <= 0
  {
    if !IndexLike(s) then 0
    else if s[0] == '-' then -(DigitsValue(s[1..]) as int)
    else if s[0] == '+' then DigitsValue(s[1..])
    else DigitsValue(s)
  }

  function DigitChar(d: nat): char
    requires d < 10
  {
    ('0' as int + d) as char
  }

  /** `fmt.Sprintf("%d", n)` for a non-negative n: base 10, no sign, no padding. */
  function Decimal(n: nat): (s: string)
    ensures |s| > 0 && AllDigits(s)
    ensures n >= 10 <==> |s| > 1
    decreases n
  {
    if n < 10 then [DigitChar(n)] else Decimal(n / 10) + [DigitChar(n % 10)]
  }

  /** A list position printed by fmt is accepted by Atoi and parses back to
      the same position. */
  lemma {:induction false} DecimalRoundTrip(n: nat)
    ensures IndexLike(Decimal(n))
    ensures Atoi(Decimal(n)) == n
    decreases n
  {
    var s := Decimal(n);
    assert s[0] != '+' && s[0] != '-' by { assert IsDigit(s[0]); }
    if n >= 10 {
      DecimalRoundTrip(n / 10);
      assert s[..|s| - 1] == Decimal(n / 10);
      assert DigitValue(s[|s| - 1]) == n % 10;
      assert DigitsValue(s) == DigitsValue(Decimal(n / 10)) * 10 + n % 10;
    } else {
      assert s[..0] == [];
      assert DigitsValue(s) == DigitValue(s[0]) == n;
    }
  }

  /** ASCII lower-casing of one character. */
  function Lower(c: char): char {
    if 'A' <= c <= 'Z' then (c as int + 32) as char else c
  }

  /** strings.EqualFold, restricted to ASCII case folding. */
  predicate EqualFold(a: string, b: string) {
    |a| == |b| && forall i :: 0 <= i < |a| ==> Lower(a[i]) == Lower(b[i])
  }

  /** Strict lexicographic order on code points, which is the order
      sort.Strings gives on the UTF-8 bytes of the same strings. */
  predicate Below(a: string, b: string) {
    |b| > 0 && (|a| == 0 || a[0] < b[0] || (a[0] == b[0] && Below(a[1..], b[1..])))
  }

  lemma {:induction false} BelowIrreflexive(a: string)
    ensures !Below(a, a)
    decreases |a|
  {
    if |a| > 0 {
      BelowIrreflexive(a[1..]);
    }
  }

  lemma {:induction false} BelowTransitive(a: string, b: string, c: string)
    requires Below(a, b) && Below(b, c)
    ensures Below(a, c)
    decreases |a|
  {
    if |a| > 0 && a[0] == b[0] && b[0] == c[0] {
      BelowTransitive(a[1..], b[1..], c[1..]);
    }
  }

  lemma {:induction false} BelowTotal(a: string, b: string)
    requires a != b
    ensures Below(a, b) || Below(b, a)
    decreases |a|
  {
    if |a| > 0 && |b| > 0 && a[0] == b[0] {
      assert a == [a[0]] + a[1..] && b == [b[0]] + b[1..];
      BelowTotal(a[1..], b[1..]);
    }
  }

  lemma BelowAsymmetric(a: string, b: string)
    requires Below(a, b)
    ensures !Below(b, a)
  {
    if Below(b, a) {
      BelowTransitive(a, b, a);
      BelowIrreflexive(a);
    }
  }

  /** A common prefix keeps the order of what follows it. */
  lemma {:induction false} BelowAfterPrefix(p: string, a: string, b: string)
    requires Below(a, b)
    ensures Below(p + a, p + b)
    decreases |p|
  {
    if p == [] {
      assert p + a == a && p + b == b;
    } else {
      BelowAfterPrefix(p[1..], a, b);
      assert (p + a)[1..] == p[1..] + a;
      assert (p + b)[1..] == p[1..] + b;
    }
  }
}
