/** Text helpers of the host language: white space, trimming, decimal digits. */
module Texts {

  /** What `String.prototype.trim` removes (white space and line terminators of ECMA-262). */
  predicate IsSpace(c: char) {
    || c in {'\t', '\n', '\r', ' ', '\U{000B}', '\U{000C}', '\U{00A0}', '\U{FEFF}', '\U{1680}'}
    || '\U{2000}' <= c <= '\U{200A}'
    || c in {'\U{2028}', '\U{2029}', '\U{202F}', '\U{205F}', '\U{3000}'}
  }

  function TrimStart(s: string): string {
    if s != "" && IsSpace(s[0]) then TrimStart(s[1..]) else s
  }

  function TrimEnd(s: string): string {
    if s != "" && IsSpace(s[|s| - 1]) then TrimEnd(s[..|s| - 1]) else s
  }

  function Trim(s: string): string {
    TrimEnd(TrimStart(s))
  }

  predicate AllSpace(s: string) {
    forall i: nat | i < |s| :: IsSpace(s[i])
  }

  /** No white space at either end. */
  predicate Trimmed(s: string) {
    s != "" ==> !IsSpace(s[0]) && !IsSpace(s[|s| - 1])
  }

  lemma {:induction false} TrimStartOf(a: string, t: string)
    requires AllSpace(a) && (t == "" || !IsSpace(t[0]))
    ensures TrimStart(a + t) == t
  {
    if a == "" {
      assert a + t == t;
    } else {
      assert (a + t)[0] == a[0] && (a + t)[1..] == a[1..] + t;
      TrimStartOf(a[1..], t);
    }
  }

  lemma {:induction false} TrimEndOf(t: string, b: string)
    requires AllSpace(b) && (t == "" || !IsSpace(t[|t| - 1]))
    ensures TrimEnd(t + b) == t
    decreases |b|
  {
    if b == "" {
      assert t + b == t;
    } else {
      var n := |b| - 1;
      assert (t + b)[|t + b| - 1] == b[n] && (t + b)[..|t + b| - 1] == t + b[..n];
      TrimEndOf(t, b[..n]);
    }
  }

  /** White space around a text goes, and nothing else. */
  lemma TrimOf(a: string, t: string, b: string)
    requires AllSpace(a) && Trimmed(t) && AllSpace(b)
    ensures Trim(a + t + b) == t
  {
    if t == "" {
      assert a + t + b == (a + b) + "";
      TrimStartOf(a + b, "");
      TrimEndOf("", "");
    } else {
      assert a + t + b == a + (t + b);
      TrimStartOf(a, t + b);
      TrimEndOf(t, b);
    }
  }

  // ------------------------------------------------------------------- digits

  predicate IsDigit(c: char) {
    '0' <= c <= '9'
  }

  function Digit(d: nat): (c: char)
    requires d < 10
    ensures IsDigit(c) && c as int - '0' as int == d
  {
    ('0' as int + d) as char
  }

  /** A natural number in decimal. */
  function Decimal(n: nat): (s: string)
    ensures s != "" && forall i | 0 <= i < |s| :: IsDigit(s[i])
  {
    if n < 10 then [Digit(n)] else Decimal(n / 10) + [Digit(n % 10)]
  }

  function DigitValue(c: char): nat
    requires IsDigit(c)
  {
    c as int - '0' as int
  }

  function Value(s: string): nat
    requires forall i | 0 <= i < |s| :: IsDigit(s[i])
  {
    if s == "" then 0 else Value(s[..|s| - 1]) * 10 + DigitValue(s[|s| - 1])
  }

  lemma {:induction false} DecimalValue(n: nat)
    ensures Value(Decimal(n)) == n
  {
    if n >= 10 {
      DecimalValue(n / 10);
      assert Decimal(n)[..|Decimal(n)| - 1] == Decimal(n / 10);
    }
  }

  lemma DecimalInjective(m: nat, n: nat)
    requires Decimal(m) == Decimal(n)
    ensures m == n
  {
    DecimalValue(m);
    DecimalValue(n);
  }

  /** Digits followed by a non-digit can be read back without knowing where they end. */
  lemma DigitsPrefix(a: string, b: string, s: string, t: string)
    requires a + s == b + t
    requires forall i | 0 <= i < |a| :: IsDigit(a[i])
    requires forall i | 0 <= i < |b| :: IsDigit(b[i])
    requires s == "" || !IsDigit(s[0])
    requires t == "" || !IsDigit(t[0])
    ensures a == b && s == t
  {
    var u := a + s;
    assert |a| < |u| ==> u[|a|] == s[0];
    assert |b| < |u| ==> (b + t)[|b|] == t[0];
    assert forall i | 0 <= i < |a| :: u[i] == a[i];
    assert forall i | 0 <= i < |b| :: (b + t)[i] == b[i];
    assert |a| == |b|;
    assert a == u[..|a|] && b == (b + t)[..|b|];
    assert s == u[|a|..] && t == (b + t)[|b|..];
  }

  // ------------------------------------------------------------------------ split

  /** Position of the first `c`, or the length of the text. */
  function Find(s: string, c: char): (n: nat)
    ensures n <= |s|
    ensures n < |s| ==> s[n] == c
  {
    if s == "" || s[0] == c then 0 else 1 + Find(s[1..], c)
  }

  function Split(s: string, c: char): (r: seq<string>)
    ensures r != []
    decreases |s|
  {
    var n := Find(s, c);
    if n == |s| then [s] else [s[..n]] + Split(s[n + 1..], c)
  }

  function Join(parts: seq<string>, c: char): string {
    if parts == [] then ""
    else if |parts| == 1 then parts[0]
    else parts[0] + [c] + Join(parts[1..], c)
  }

  lemma {:induction false} FindIn(part: string, c: char, rest: string)
    requires c !in part
    ensures Find(part, c) == |part|
    ensures Find(part + [c] + rest, c) == |part|
  {
    if part != "" {
      FindIn(part[1..], c, rest);
      assert (part + [c] + rest)[1..] == part[1..] + [c] + rest;
    }
  }

  lemma {:induction false} SplitJoin(parts: seq<string>, c: char)
    requires parts != [] && forall i: nat | i < |parts| :: c !in parts[i]
    ensures Split(Join(parts, c), c) == parts
    decreases |parts|
  {
    if |parts| == 1 {
      FindIn(parts[0], c, "");
    } else {
      var s, rest := Join(parts, c), Join(parts[1..], c);
      FindIn(parts[0], c, rest);
      SplitJoin(parts[1..], c);
      assert s[..|parts[0]|] == parts[0] && s[|parts[0]| + 1..] == rest;
    }
  }
}
