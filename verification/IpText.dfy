/** Reading numbers and addresses from text the way backup/ip-allow.ts does: `split`, `parseInt`, and the IPv6
    shorthand (section 2.2 of RFC 4291). */
module IpText {
  import opened Common
  import opened Texts

  // --------------------------------------------------------------------- parseInt

  predicate IsRadixDigit(c: char, radix: nat) {
    if radix == 10 then IsDigit(c) else IsDigit(c) || 'a' <= c <= 'f' || 'A' <= c <= 'F'
  }

  function RadixDigit(c: char): nat {
    if '0' <= c <= '9' then c as nat - '0' as nat
    else if 'a' <= c <= 'f' then c as nat - 'a' as nat + 10
    else if 'A' <= c <= 'F' then c as nat - 'A' as nat + 10
    else 0
  }

  /** The longest prefix of digits. */
  function Digits(s: string, radix: nat): string {
    if s == "" || !IsRadixDigit(s[0], radix) then "" else [s[0]] + Digits(s[1..], radix)
  }

  function Read(digits: string, radix: nat): nat {
    if digits == "" then 0 else Read(digits[..|digits| - 1], radix) * radix + RadixDigit(digits[|digits| - 1])
  }

  function Unsigned(s: string): string {
    if s != "" && (s[0] == '-' || s[0] == '+') then s[1..] else s
  }

  function Unprefixed(t: string, radix: nat): string {
    if radix == 16 && |t| >= 2 && t[0] == '0' && (t[1] == 'x' || t[1] == 'X') then t[2..] else t
  }

  /** White space, a sign, for radix 16 an optional `0x`, then as many digits as there are; `None` is NaN. */
  function ParseInt(text: string, radix: nat): Option<int> {
    var s := TrimStart(text);
    var negative := s != "" && s[0] == '-';
    var digits := Digits(Unprefixed(Unsigned(s), radix), radix);
    var n: int := Read(digits, radix);
    if digits == "" then None else Some(if negative then -n else n)
  }

  predicate AllDigits(s: string, radix: nat) {
    forall i: nat | i < |s| :: IsRadixDigit(s[i], radix)
  }

  lemma {:induction false} DigitsAll(s: string, radix: nat)
    requires AllDigits(s, radix)
    ensures Digits(s, radix) == s
  {
    if s != "" {
      assert IsRadixDigit(s[0], radix);
      assert AllDigits(s[1..], radix) by {
        forall i: nat | i < |s[1..]| ensures IsRadixDigit(s[1..][i], radix) { assert IsRadixDigit(s[i + 1], radix); }
      }
      DigitsAll(s[1..], radix);
    }
  }

  /** A text of digits only is read as the number it writes. */
  lemma ParseDigits(s: string, radix: nat)
    requires s != "" && (radix == 10 || radix == 16) && AllDigits(s, radix)
    ensures ParseInt(s, radix) == Some(Read(s, radix))
  {
    assert IsRadixDigit(s[0], radix);
    assert |s| >= 2 ==> IsRadixDigit(s[1], radix);
    assert TrimStart(s) == s;
    DigitsAll(s, radix);
  }

  const HEX_DIGITS := "0123456789abcdef"
  const CAPITAL_DIGITS := "0123456789ABCDEF"

  /** The digits of the two radices and their values. */
  lemma RadixDigits(c: char)
    ensures IsRadixDigit(c, 10) <==> exists k: nat :: k < 10 && c == HEX_DIGITS[k]
    ensures IsRadixDigit(c, 16) <==> exists k: nat :: k < 16 && c in {HEX_DIGITS[k], CAPITAL_DIGITS[k]}
  {
    var d := RadixDigit(c);
    assert IsRadixDigit(c, 10) ==> d < 10 && c == HEX_DIGITS[d];
    assert IsRadixDigit(c, 16) ==> d < 16 && c in {HEX_DIGITS[d], CAPITAL_DIGITS[d]};
  }

  lemma RadixDigitIs(k: nat)
    requires k < 16
    ensures RadixDigit(HEX_DIGITS[k]) == k && RadixDigit(CAPITAL_DIGITS[k]) == k
  {
    assert k < 10 ==> HEX_DIGITS[k] as int == '0' as int + k;
    assert k >= 10 ==> HEX_DIGITS[k] as int == 'a' as int + k - 10;
    assert k >= 10 ==> CAPITAL_DIGITS[k] as int == 'A' as int + k - 10;
  }

  lemma {:induction false} DigitsOf(digits: string, rest: string, radix: nat)
    requires AllDigits(digits, radix) && (rest == "" || !IsRadixDigit(rest[0], radix))
    ensures Digits(digits + rest, radix) == digits
  {
    if digits == "" {
      assert digits + rest == rest;
    } else {
      assert IsRadixDigit(digits[0], radix) && (digits + rest)[1..] == digits[1..] + rest;
      assert AllDigits(digits[1..], radix) by {
        forall i: nat | i < |digits[1..]| ensures IsRadixDigit(digits[1..][i], radix) {
          assert IsRadixDigit(digits[i + 1], radix);
        }
      }
      DigitsOf(digits[1..], rest, radix);
    }
  }

  /** A number as `parseInt` takes it: a sign or none, and for radix 16 a prefix or none. */
  predicate Marks(sign: string, prefix: string, radix: nat) {
    sign in {"", "-", "+"} && (prefix == "" || (radix == 16 && prefix in {"0x", "0X"}))
  }

  /** `parseInt` reads white space, sign, prefix and digits, and stops at the first character that is no digit; without a
      digit there is no number. Only a `0` before an `x` is not read as a digit. */
  lemma ParseIntOf(space: string, sign: string, prefix: string, digits: string, rest: string, radix: nat)
    requires AllSpace(space) && Marks(sign, prefix, radix) && (radix == 10 || radix == 16)
    requires AllDigits(digits, radix) && (rest == "" || !IsRadixDigit(rest[0], radix))
    requires prefix == "" ==> !(radix == 16 && digits == "0" && rest != "" && rest[0] in {'x', 'X'})
    requires digits == "" && sign == "" && prefix == "" && rest != "" ==> !IsSpace(rest[0]) && rest[0] !in {'-', '+'}
    ensures ParseInt(space + (sign + (prefix + (digits + rest))), radix)
         == if digits == "" then None else Some(if sign == "-" then 0 - Read(digits, radix) else Read(digits, radix))
  {
    hide Digits, Read, TrimStart, IsRadixDigit, AllDigits, IsSpace, AllSpace, Unsigned, Unprefixed;
    var s := sign + (prefix + (digits + rest));
    SignStart(sign, prefix, digits, rest, radix);
    TrimStartOf(space, s);
    PrefixStart(prefix, digits, rest, radix);
    DigitsOf(digits, rest, radix);
  }

  lemma SignStart(sign: string, prefix: string, digits: string, rest: string, radix: nat)
    requires Marks(sign, prefix, radix) && AllDigits(digits, radix)
    requires digits == "" && sign == "" && prefix == "" && rest != "" ==> !IsSpace(rest[0]) && rest[0] !in {'-', '+'}
    ensures var s := sign + (prefix + (digits + rest));
            && (s == "" || !IsSpace(s[0]))
            && (sign == "-" <==> s != "" && s[0] == '-')
            && Unsigned(s) == prefix + (digits + rest)
  {
    var t := prefix + (digits + rest);
    if sign != "" {
      assert (sign + t)[1..] == t;
    } else {
      assert sign + t == t;
      if prefix == "" {
        assert t == digits + rest;
        if digits == "" { assert t == rest; } else { assert t[0] == digits[0] && IsRadixDigit(digits[0], radix); }
      }
    }
  }

  lemma PrefixStart(prefix: string, digits: string, rest: string, radix: nat)
    requires Marks("", prefix, radix) && AllDigits(digits, radix) && (rest == "" || !IsRadixDigit(rest[0], radix))
    requires prefix == "" ==> !(radix == 16 && digits == "0" && rest != "" && rest[0] in {'x', 'X'})
    ensures Unprefixed(prefix + (digits + rest), radix) == digits + rest
  {
    var u := digits + rest;
    if prefix != "" {
      assert (prefix + u)[2..] == u;
    } else {
      assert prefix + u == u;
      if |digits| >= 2 {
        assert IsRadixDigit(digits[1], radix) && u[1] == digits[1];
      } else if |digits| == 1 && rest != "" {
        assert u[1] == rest[0];
      } else if digits == "" && rest != "" {
        assert u == rest;
      }
    }
  }

  // ------------------------------------------------------------------- IPv4 text

  /** The four numbers of a dotted text, when there are four and each is a byte. */
  function Octets(ip: string): Option<seq<nat>> {
    var parts := Split(ip, '.');
    if |parts| == 4 && forall i | 0 <= i < 4 :: ByteText(parts[i]) then
      Some([ByteOf(parts[0]), ByteOf(parts[1]), ByteOf(parts[2]), ByteOf(parts[3])])
    else None
  }

  predicate ByteText(part: string) {
    ParseInt(part, 10).Some? && 0 <= ParseInt(part, 10).value <= 255
  }

  function ByteOf(part: string): (n: nat)
    ensures n < 256
  {
    if ByteText(part) then ParseInt(part, 10).value else 0
  }

  lemma {:induction false} DecimalDigits(n: nat)
    ensures AllDigits(Decimal(n), 10) && Read(Decimal(n), 10) == n
  {
    if n >= 10 {
      DecimalDigits(n / 10);
      assert Decimal(n)[..|Decimal(n)| - 1] == Decimal(n / 10);
    } else {
      assert Decimal(n)[..0] == "";
      assert Read("", 10) == 0;
    }
  }

  function DecimalAll(g: seq<nat>): (texts: seq<string>)
    ensures |texts| == |g| && forall i: nat | i < |g| :: texts[i] == Decimal(g[i])
  {
    seq(|g|, i requires 0 <= i < |g| => Decimal(g[i]))
  }

  lemma DecimalPart(n: nat)
    ensures '.' !in Decimal(n) && (ByteText(Decimal(n)) <==> n < 256) && (n < 256 ==> ByteOf(Decimal(n)) == n)
  {
    DecimalDigits(n);
    ParseDigits(Decimal(n), 10);
  }

  predicate FourBytes(g: seq<nat>) {
    |g| == 4 && forall i: nat | i < 4 :: g[i] < 256
  }

  /** Dotted decimal reads back when it is four bytes, and otherwise is no address. */
  lemma OctetsOfDotted(g: seq<nat>)
    requires g != []
    ensures Octets(Join(DecimalAll(g), '.')) == if FourBytes(g) then Some(g) else None
  {
    hide Decimal, ByteText, ByteOf, Join, Split;
    var parts := DecimalAll(g);
    forall i: nat | i < |g|
      ensures '.' !in parts[i] && (ByteText(parts[i]) <==> g[i] < 256) && (g[i] < 256 ==> ByteOf(parts[i]) == g[i])
    {
      DecimalPart(g[i]);
    }
    SplitJoin(parts, '.');
    if |g| == 4 {
      assert FourBytes(g) ==> [g[0], g[1], g[2], g[3]] == g;
      assert forall i: nat | i < 4 :: ByteText(parts[i]) <==> g[i] < 256;
    }
  }

  // ------------------------------------------------------------------- IPv6 text

  /** Position of the first `::`, or the length of the text. */
  function FindPair(s: string): (n: nat)
    ensures n <= |s|
    ensures n < |s| ==> n + 2 <= |s| && s[n] == ':' && s[n + 1] == ':'
  {
    if |s| < 2 then |s|
    else if s[0] == ':' && s[1] == ':' then 0
    else 1 + FindPair(s[1..])
  }

  /** `split("::")[0]` and `[1]`; what a further `::` separates is never looked at. */
  function Head(ip: string): string {
    ip[..FindPair(ip)]
  }

  function Tail(ip: string): string {
    var n := FindPair(ip);
    if n == |ip| then "" else var t := ip[n + 2..]; t[..FindPair(t)]
  }

  function Parts(s: string): seq<string> {
    if s == "" then [] else Split(s, ':')
  }

  function Parsed(texts: seq<string>): (r: seq<Option<int>>)
    ensures |r| == |texts| && forall i: nat | i < |r| :: r[i] == ParseInt(texts[i], 16)
  {
    seq(|texts|, i requires 0 <= i < |texts| => ParseInt(texts[i], 16))
  }

  predicate InRange(v: Option<int>) {
    v.Some? && 0 <= v.value <= 0xffff
  }

  function GroupOf(v: Option<int>): (n: nat)
    ensures n < 0x1_0000
    ensures InRange(v) ==> n == v.value
  {
    if InRange(v) then v.value else 0
  }

  function Values(parsed: seq<Option<int>>): (r: seq<nat>)
    ensures |r| == |parsed| && forall i: nat | i < |r| :: r[i] < 0x1_0000 && r[i] == GroupOf(parsed[i])
  {
    seq(|parsed|, i requires 0 <= i < |parsed| => GroupOf(parsed[i]))
  }

  predicate AllInRange(parsed: seq<Option<int>>) {
    forall i: nat | i < |parsed| :: InRange(parsed[i])
  }

  function Zeros(n: nat): (r: seq<string>)
    ensures |r| == n && forall i: nat | i < n :: r[i] == "0"
  {
    seq(n, i => "0")
  }

  /** The eight texts of the groups, the missing ones filled with zeros. */
  function Filled(ip: string): (r: Option<seq<string>>)
    ensures r.Some? ==> |r.value| == 8
  {
    var head, tail := Parts(Head(ip)), Parts(Tail(ip));
    if |head| + |tail| > 8 then None else Some(head + Zeros(8 - |head| - |tail|) + tail)
  }

  /** The eight groups of an address, when each is a 16-bit number. */
  function Groups(ip: string): (r: Option<seq<nat>>)
    ensures r.Some? ==> |r.value| == 8 && forall i: nat | i < 8 :: r.value[i] < 0x1_0000
  {
    var texts := Filled(ip);
    if texts == None || !AllInRange(Parsed(texts.value)) then None else Some(Values(Parsed(texts.value)))
  }

  // -------------------------------------------------------------- writing an address

  function HexDigit(d: nat): char
    requires d < 16
  {
    if d < 10 then ('0' as int + d) as char else ('a' as int + d - 10) as char
  }

  function Hex(n: nat): (s: string)
    ensures s != ""
  {
    if n < 16 then [HexDigit(n)] else Hex(n / 16) + [HexDigit(n % 16)]
  }

  function HexAll(g: seq<nat>): seq<string> {
    if g == [] then [] else [Hex(g[0])] + HexAll(g[1..])
  }

  /** The address with the groups from `i` to `j` written as `::`. */
  function Shorthand(g: seq<nat>, i: nat, j: nat): string
    requires i <= j <= |g|
  {
    Join(HexAll(g[..i]), ':') + "::" + Join(HexAll(g[j..]), ':')
  }

  lemma {:induction false} HexDigits(n: nat)
    ensures AllDigits(Hex(n), 16) && Read(Hex(n), 16) == n && ':' !in Hex(n)
  {
    if n >= 16 {
      HexDigits(n / 16);
      assert Hex(n)[..|Hex(n)| - 1] == Hex(n / 16);
    } else {
      assert Hex(n)[..0] == "";
      assert Read("", 16) == 0;
    }
  }

  lemma HexGroup(n: nat)
    requires n < 0x1_0000
    ensures ParseInt(Hex(n), 16) == Some(n)
  {
    HexDigits(n);
    ParseDigits(Hex(n), 16);
  }

  lemma {:induction false} HexAllAt(g: seq<nat>)
    ensures |HexAll(g)| == |g|
    ensures forall i: nat | i < |g| :: HexAll(g)[i] == Hex(g[i]) && ':' !in HexAll(g)[i]
  {
    if g != [] {
      HexAllAt(g[1..]);
      HexDigits(g[0]);
    }
  }

  lemma JoinNonEmpty(g: seq<nat>)
    ensures g != [] ==> Join(HexAll(g), ':') != ""
  {
  }

  lemma PartsOfHex(g: seq<nat>)
    ensures Parts(Join(HexAll(g), ':')) == HexAll(g)
  {
    if g != [] {
      JoinNonEmpty(g);
      HexAllAt(g);
      SplitJoin(HexAll(g), ':');
    }
  }

  /** No two colons in a row, and none at the end. */
  predicate NoPair(s: string) {
    s == "" || ((s[0] == ':' ==> |s| > 1 && s[1] != ':') && NoPair(s[1..]))
  }

  lemma {:induction false} FindNoPair(s: string, t: string)
    requires NoPair(s)
    ensures FindPair(s) == |s| && FindPair(s + "::" + t) == |s|
  {
    var u := s + "::" + t;
    if s != "" {
      FindNoPair(s[1..], t);
      assert u[1..] == s[1..] + "::" + t;
      assert u[0] == s[0] && (|s| > 1 ==> u[1] == s[1]);
    }
  }

  lemma {:induction false} NoPairPart(part: string, rest: string)
    requires ':' !in part
    requires rest == "" || (rest[0] == ':' && |rest| > 1 && rest[1] != ':' && NoPair(rest[1..]))
    ensures NoPair(part + rest)
    decreases |part|
  {
    if part == "" {
      assert part + rest == rest;
    } else {
      NoPairPart(part[1..], rest);
      assert (part + rest)[1..] == part[1..] + rest;
    }
  }

  lemma {:induction false} NoPairInHex(g: seq<nat>)
    ensures NoPair(Join(HexAll(g), ':'))
    ensures g != [] ==> Join(HexAll(g), ':')[..1] != ":"
    decreases |g|
  {
    if g != [] {
      HexDigits(g[0]);
      var h, rest := Hex(g[0]), Join(HexAll(g[1..]), ':');
      assert h[0] in h;
      if |g| == 1 {
        NoPairPart(h, "");
        assert h + "" == h;
      } else {
        NoPairInHex(g[1..]);
        JoinNonEmpty(g[1..]);
        assert rest[..1] == [rest[0]];
        NoPairPart(h, ":" + rest);
        assert (":" + rest)[1..] == rest;
        assert Join(HexAll(g), ':') == h + (":" + rest);
      }
    }
  }

  lemma CutPair(a: string, b: string)
    ensures (a + "::" + b)[..|a|] == a
    ensures (a + "::" + b)[|a| + 2..] == b
  {
  }

  lemma AroundPair(a: string, b: string)
    requires NoPair(a) && NoPair(b)
    ensures Head(a + "::" + b) == a && Tail(a + "::" + b) == b
  {
    FindNoPair(a, b);
    FindNoPair(b, "");
    CutPair(a, b);
    assert b[..|b|] == b;
  }

  lemma FilledShorthand(g: seq<nat>, i: nat, j: nat)
    requires i <= j <= |g| == 8
    ensures Filled(Shorthand(g, i, j)) == Some(HexAll(g[..i]) + Zeros(j - i) + HexAll(g[j..]))
  {
    NoPairInHex(g[..i]);
    NoPairInHex(g[j..]);
    AroundPair(Join(HexAll(g[..i]), ':'), Join(HexAll(g[j..]), ':'));
    PartsOfHex(g[..i]);
    PartsOfHex(g[j..]);
    HexAllAt(g[..i]);
    HexAllAt(g[j..]);
  }

  lemma ZeroGroup()
    ensures ParseInt("0", 16) == Some(0)
  {
    HexGroup(0);
    assert Hex(0) == "0";
  }

  lemma AllRead(texts: seq<string>, g: seq<nat>)
    requires |texts| == |g| && forall k: nat | k < |g| :: g[k] < 0x1_0000 && ParseInt(texts[k], 16) == Some(g[k])
    ensures AllInRange(Parsed(texts)) && Values(Parsed(texts)) == g
  {
    forall k: nat | k < |g| ensures InRange(Parsed(texts)[k]) && Values(Parsed(texts))[k] == g[k] {
      assert Parsed(texts)[k] == Some(g[k]);
    }
  }

  /** Section 2.2 of RFC 4291: `::` in place of any run of zero groups reads back to the eight groups. */
  lemma GroupsOfShorthand(g: seq<nat>, i: nat, j: nat)
    requires i <= j <= |g| == 8 && (forall k: nat | k < 8 :: g[k] < 0x1_0000) && forall k: nat | i <= k < j :: g[k] == 0
    ensures Groups(Shorthand(g, i, j)) == Some(g)
  {
    FilledShorthand(g, i, j);
    var texts := HexAll(g[..i]) + Zeros(j - i) + HexAll(g[j..]);
    HexAllAt(g[..i]);
    HexAllAt(g[j..]);
    forall k: nat | k < 8 ensures ParseInt(texts[k], 16) == Some(g[k]) {
      if i <= k < j {
        ZeroGroup();
      } else {
        HexGroup(g[k]);
        assert k >= j ==> g[j..][k - j] == g[k];
      }
    }
    AllRead(texts, g);
  }

  /** All eight groups written out read back too. */
  lemma GroupsOfFull(g: seq<nat>)
    requires |g| == 8 && forall k: nat | k < 8 :: g[k] < 0x1_0000
    ensures Groups(Join(HexAll(g), ':')) == Some(g)
  {
    var ip := Join(HexAll(g), ':');
    NoPairInHex(g);
    FindNoPair(ip, "");
    PartsOfHex(g);
    HexAllAt(g);
    assert ip[..|ip|] == ip;
    assert HexAll(g) + Zeros(0) + [] == HexAll(g);
    forall k: nat | k < 8 ensures ParseInt(HexAll(g)[k], 16) == Some(g[k]) {
      HexGroup(g[k]);
    }
    AllRead(HexAll(g), g);
  }
}
