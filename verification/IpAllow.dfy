/** The network allow list (backup/ip-allow.ts): masked comparisons decide prefix equality (section 3.1 of RFC 4632,
    section 2.3 of RFC 4291). */
module IpAllow {
  import opened Common
  import opened Bits
  import opened IpText

  // ------------------------------------------------------------------------- IPv4

  /** The 32-bit number of a dotted text; -1 when it is none. */
  function Ipv4ToNumber(ip: string): int {
    match Octets(ip)
    case None => -1
    case Some(p) => Or(Or(Or(Shl(p[0], 24), Shl(p[1], 16)), Shl(p[2], 8)), p[3])
  }

  predicate Ipv4InCidr(ip: string, range: string, bits: int) {
    var a, b := Ipv4ToNumber(ip), Ipv4ToNumber(range);
    if a < 0 || b < 0 then false
    else if bits == 0 then true
    else if bits < 0 || bits > 32 then false
    else
      var mask := Shl(WORD - 1, 32 - bits);
      And(a, mask) == And(b, mask)
  }

  function Number4(p: seq<nat>): nat
    requires |p| == 4
  {
    p[0] * 0x100_0000 + p[1] * 0x1_0000 + p[2] * 0x100 + p[3]
  }

  /** A byte joined in below what is there. */
  lemma JoinByte(high: nat, x: nat, k: nat)
    requires x < 0x100
    ensures Or(Up(high, k + 8), Up(x, k)) == Up(0x100 * high + x, k)
  {
    assert Pow2(8) == 0x100;
    UpBelow(x, k, 8);
    OrJoin(high, k + 8, Up(x, k));
    UpByte(high, k);
    UpPlus(0x100 * high, x, k);
  }

  lemma ShiftedByte(x: nat, k: nat)
    requires x < 0x100 && k <= 24
    ensures Shl(x, k) == Up(x, k)
  {
    assert Pow2(8) == 0x100;
    ShlFits(x, k, 8);
  }

  lemma JoinedAt(a: nat, b: nat, c: nat, d: nat, s: nat, t: nat, u: nat)
    requires a < 256 && b < 256 && c < 256 && d < 256 && s == 24 && t == 16 && u == 8
    ensures Or(Or(Or(Shl(a, s), Shl(b, t)), Shl(c, u)), d) == a * 0x100_0000 + b * 0x1_0000 + c * 0x100 + d
  {
    hide Or, Shl, Pow2;
    ShiftedByte(a, s);
    ShiftedByte(b, t);
    ShiftedByte(c, u);
    JoinByte(a, b, t);
    JoinByte(0x100 * a + b, c, u);
    JoinByte(0x100 * (0x100 * a + b) + c, d, 0);
  }

  /** The shifts and joins put the four bytes side by side. */
  lemma JoinedBytes(p: seq<nat>)
    requires |p| == 4 && forall i: nat | i < 4 :: p[i] < 256
    ensures Or(Or(Or(Shl(p[0], 24), Shl(p[1], 16)), Shl(p[2], 8)), p[3]) == Number4(p)
  {
    JoinedAt(p[0], p[1], p[2], p[3], 24, 16, 8);
  }

  lemma Ipv4Number(ip: string)
    ensures Octets(ip).Some? ==> Ipv4ToNumber(ip) == Number4(Octets(ip).value) && 0 <= Ipv4ToNumber(ip) < WORD
    ensures Octets(ip).None? ==> Ipv4ToNumber(ip) == -1
  {
    if Octets(ip).Some? {
      JoinedBytes(Octets(ip).value);
    }
  }

  /** The two addresses start with the same `bits` bits. */
  predicate SamePrefix(a: nat, b: nat, width: nat, bits: int) {
    0 <= bits <= width && a / Pow2(width - bits) == b / Pow2(width - bits)
  }

  lemma MaskedWords(a: nat, b: nat, k: nat)
    requires a < WORD && b < WORD && k < 32
    ensures And(a, Shl(WORD - 1, k)) == And(b, Shl(WORD - 1, k)) <==> a / Pow2(k) == b / Pow2(k)
  {
    Pow2At32();
    ShlOnes(k);
    MaskedEqual(a, b, 32 - k, k);
  }

  /** IPv4: both addresses are readable and their numbers agree after division by `2^(32 - bits)`. */
  lemma Ipv4PrefixIff(ip: string, range: string, bits: int)
    ensures Ipv4InCidr(ip, range, bits)
       <==> Octets(ip).Some? && Octets(range).Some?
            && SamePrefix(Number4(Octets(ip).value), Number4(Octets(range).value), 32, bits)
  {
    Ipv4Number(ip);
    Ipv4Number(range);
    if Octets(ip).Some? && Octets(range).Some? {
      var a, b := Ipv4ToNumber(ip), Ipv4ToNumber(range);
      Pow2At32();
      if bits == 0 {
        assert a / Pow2(32) == 0 && b / Pow2(32) == 0;
      } else if 0 < bits <= 32 {
        MaskedWords(a, b, 32 - bits);
      }
    }
  }

  // ------------------------------------------------------------------------- IPv6

  function Number6(g: seq<nat>): nat {
    if g == [] then 0 else Number6(g[..|g| - 1]) * 0x1_0000 + g[|g| - 1]
  }

  function NumberOf(bytes: seq<nat>): nat {
    if bytes == [] then 0 else NumberOf(bytes[..|bytes| - 1]) * 0x100 + bytes[|bytes| - 1]
  }

  predicate AreBytes(bytes: seq<nat>) {
    forall i: nat | i < |bytes| :: bytes[i] < 256
  }

  /** Two bytes for each group, the high one first. */
  function BytesOf(g: seq<nat>): seq<nat> {
    if g == [] then [] else BytesOf(g[..|g| - 1]) + [g[|g| - 1] / 0x100, g[|g| - 1] % 0x100]
  }

  lemma {:induction false} BytesOfGroups(g: seq<nat>)
    requires forall i: nat | i < |g| :: g[i] < 0x1_0000
    ensures |BytesOf(g)| == 2 * |g| && AreBytes(BytesOf(g)) && NumberOf(BytesOf(g)) == Number6(g)
  {
    if g != [] {
      var before, v := g[..|g| - 1], g[|g| - 1];
      BytesOfGroups(before);
      var bytes := BytesOf(before) + [v / 0x100];
      assert BytesOf(g) == bytes + [v % 0x100];
      assert (bytes + [v % 0x100])[..|bytes|] == bytes && bytes[..|bytes| - 1] == BytesOf(before);
    }
  }

  lemma HighByte(v: nat)
    requires v < 0x1_0000
    ensures And(Shr(v, 8), 0xff) == v / 0x100 && And(v, 0xff) == v % 0x100
  {
    assert Pow2(8) == 0x100;
    assert Ones(8) == 0xff;
    ShrDivides(v, 8);
    AndAll(v / 0x100, 8);
    AndOnes(v, 8);
    UpByte(Shr(v, 8), 0);
  }

  /** The bytes of the groups, filled in pairs; nothing when one is not a 16-bit number. */
  method FillBytes(parsed: seq<Option<int>>) returns (r: Option<array<nat>>)
    requires |parsed| == 8
    ensures r.Some? <==> AllInRange(parsed)
    ensures r.Some? ==> r.value[..] == BytesOf(Values(parsed))
  {
    var bytes := new nat[16](_ => 0);
    ghost var values := Values(parsed);
    for i := 0 to 8
      invariant forall k: nat | k < i :: InRange(parsed[k])
      invariant bytes[..2 * i] == BytesOf(values[..i])
    {
      if !InRange(parsed[i]) {
        return None;
      }
      var v: nat := parsed[i].value;
      PutGroup(bytes, i, v);
      TwoMore(bytes[..], values, i);
    }
    assert values[..8] == values && bytes[..16] == bytes[..];
    return Some(bytes);
  }

  method PutGroup(bytes: array<nat>, i: nat, v: nat)
    requires bytes.Length == 16 && i < 8 && v < 0x1_0000
    modifies bytes
    ensures bytes[..2 * i] == old(bytes[..2 * i])
    ensures bytes[2 * i] == v / 0x100 && bytes[2 * i + 1] == v % 0x100
  {
    HighByte(v);
    bytes[i * 2] := And(Shr(v, 8), 0xff);
    bytes[i * 2 + 1] := And(v, 0xff);
  }

  /** The sixteen bytes of an IPv6 text. */
  method Ipv6ToBytes(ip: string) returns (r: Option<array<nat>>)
    ensures r == None <==> Groups(ip) == None
    ensures r.Some? ==> r.value[..] == BytesOf(Groups(ip).value)
  {
    var texts := Filled(ip);
    if texts == None {
      return None;
    }
    r := FillBytes(Parsed(texts.value));
  }

  lemma TwoMore(bytes: seq<nat>, values: seq<nat>, i: nat)
    requires |bytes| == 16 && i < 8 == |values|
    requires bytes[..2 * i] == BytesOf(values[..i])
    requires bytes[2 * i] == values[i] / 0x100 && bytes[2 * i + 1] == values[i] % 0x100
    ensures bytes[..2 * (i + 1)] == BytesOf(values[..i + 1])
  {
    assert values[..i + 1][..i] == values[..i];
    assert bytes[..2 * (i + 1)] == bytes[..2 * i] + [bytes[2 * i], bytes[2 * i + 1]];
  }

  lemma {:induction false} DropBytes(d: seq<nat>, j: nat)
    requires AreBytes(d) && j <= |d|
    ensures Shr(NumberOf(d), 8 * j) == NumberOf(d[..|d| - j])
    decreases j
  {
    if j == 0 {
      assert d[..|d|] == d;
    } else {
      var before := d[..|d| - 1];
      assert Pow2(8) == 0x100 && d[|d| - 1] < 256;
      ShrDivides(NumberOf(d), 8);
      ShrTwice(NumberOf(d), 8, 8 * (j - 1));
      DropBytes(before, j - 1);
      assert before[..|before| - (j - 1)] == d[..|d| - j];
    }
  }

  lemma {:induction false} NumberInjective(a: seq<nat>, b: seq<nat>)
    requires AreBytes(a) && AreBytes(b) && |a| == |b| && NumberOf(a) == NumberOf(b)
    ensures a == b
    decreases |a|
  {
    if a != [] {
      assert a[|a| - 1] < 256 && b[|b| - 1] < 256;
      NumberInjective(a[..|a| - 1], b[..|b| - 1]);
      assert a == a[..|a| - 1] + [a[|a| - 1]] && b == b[..|b| - 1] + [b[|b| - 1]];
    }
  }

  /** Whole bytes: the quotients agree when the leading bytes do. */
  lemma WholeBytes(a: seq<nat>, b: seq<nat>, k: nat)
    requires AreBytes(a) && AreBytes(b) && |a| == |b| == 16 && k <= 16
    ensures SamePrefix(NumberOf(a), NumberOf(b), 128, 8 * k) <==> a[..k] == b[..k]
  {
    var j := 16 - k;
    assert 128 - 8 * k == 8 * j;
    ShrDivides(NumberOf(a), 8 * j);
    ShrDivides(NumberOf(b), 8 * j);
    DropBytes(a, j);
    DropBytes(b, j);
    if NumberOf(a[..k]) == NumberOf(b[..k]) {
      NumberInjective(a[..k], b[..k]);
    }
  }

  lemma LastByte(d: seq<nat>, k: nat, eight: nat)
    requires k < |d| && eight == 8
    ensures NumberOf(d[..k + 1]) == Up(NumberOf(d[..k]), eight) + d[k]
  {
    assert d[..k + 1][..k] == d[..k] && d[..k + 1][k] == d[k];
    UpByte(NumberOf(d[..k]), 0);
  }

  lemma DropToByte(d: seq<nat>, k: nat, m: nat)
    requires AreBytes(d) && |d| == 16 && k < 16
    ensures Shr(NumberOf(d), 8 * (15 - k) + m) == Shr(NumberOf(d[..k + 1]), m)
  {
    ShrTwice(NumberOf(d), 8 * (15 - k), m);
    DropBytes(d, 15 - k);
  }

  lemma TopOfByte(v: nat, high: nat, x: nat, m: nat, rem: nat)
    requires v == Up(high, m + rem) + x
    ensures Shr(v, m) == Up(high, rem) + Shr(x, m)
  {
    ShrSum(high, x, m, rem);
  }

  lemma TopOfNumber(d: seq<nat>, k: nat, rem: nat)
    requires AreBytes(d) && |d| == 16 && k < 16 && 0 < rem < 8
    ensures Shr(NumberOf(d), 8 * (15 - k) + (8 - rem)) == Up(NumberOf(d[..k]), rem) + Shr(d[k], 8 - rem)
  {
    DropToByte(d, k, 8 - rem);
    LastByte(d, k, 8 - rem + rem);
    TopOfByte(NumberOf(d[..k + 1]), NumberOf(d[..k]), d[k], 8 - rem, rem);
  }

  /** Whole bytes and some more bits. */
  lemma SplitByte(a: seq<nat>, b: seq<nat>, k: nat, rem: nat)
    requires AreBytes(a) && AreBytes(b) && |a| == |b| == 16 && k < 16 && 0 < rem < 8
    ensures SamePrefix(NumberOf(a), NumberOf(b), 128, 8 * k + rem)
       <==> a[..k] == b[..k] && Shr(a[k], 8 - rem) == Shr(b[k], 8 - rem)
  {
    var n := 8 * (15 - k) + (8 - rem);
    assert 128 - (8 * k + rem) == n;
    ShrDivides(NumberOf(a), n);
    ShrDivides(NumberOf(b), n);
    TopOfNumber(a, k, rem);
    TopOfNumber(b, k, rem);
    TopBits(a[k], rem);
    TopBits(b[k], rem);
    if Shr(NumberOf(a), n) == Shr(NumberOf(b), n) {
      SplitUnique(NumberOf(a[..k]), Shr(a[k], 8 - rem), NumberOf(b[..k]), Shr(b[k], 8 - rem), rem);
      NumberInjective(a[..k], b[..k]);
    }
  }

  lemma TopBits(x: nat, rem: nat)
    requires x < 256 && rem < 8
    ensures Shr(x, 8 - rem) < Pow2(rem)
  {
    assert Pow2(8) == 0x100;
    ShrBelow(x, 8 - rem, rem);
  }

  lemma ByteMask(k: nat)
    requires 0 < k < 8
    ensures And(Shl(0xff, k), 0xff) == Up(Ones(8 - k), k)
  {
    assert Ones(8) == 0xff && Pow2(8) == 0x100;
    ShlFits(0xff, k, 8);
    CutMask(8, k, 8);
  }

  lemma MaskedBytes(x: nat, y: nat, rem: nat)
    requires x < 256 && y < 256 && 0 < rem < 8
    ensures var mask := And(Shl(0xff, 8 - rem), 0xff);
            And(x, mask) == And(y, mask) <==> Shr(x, 8 - rem) == Shr(y, 8 - rem)
  {
    assert Pow2(8) == 0x100;
    ByteMask(8 - rem);
    MaskedEqual(x, y, rem, 8 - rem);
    ShrDivides(x, 8 - rem);
    ShrDivides(y, 8 - rem);
  }

  /** IPv6: both addresses are readable and their numbers agree after division by `2^(128 - bits)`. */
  predicate Ipv6Prefix(ip: string, range: string, bits: int) {
    && Groups(ip).Some? && Groups(range).Some?
    && SamePrefix(Number6(Groups(ip).value), Number6(Groups(range).value), 128, bits)
  }

  method Ipv6InCidr(ip: string, range: string, bits: int) returns (ok: bool)
    ensures ok == Ipv6Prefix(ip, range, bits)
  {
    var ipBytes := Ipv6ToBytes(ip);
    var rangeBytes := Ipv6ToBytes(range);
    if ipBytes == None || rangeBytes == None {
      return false;
    }
    if bits < 0 || bits > 128 {
      return false;
    }
    BytesOfGroups(Groups(ip).value);
    BytesOfGroups(Groups(range).value);
    ok := SameStart(ipBytes.value, rangeBytes.value, bits);
  }

  /** The comparison proper: whole bytes in a loop, then the masked byte. */
  method SameStart(a: array<nat>, b: array<nat>, bits: nat) returns (ok: bool)
    requires a.Length == b.Length == 16 && AreBytes(a[..]) && AreBytes(b[..]) && bits <= 128
    ensures ok == SamePrefix(NumberOf(a[..]), NumberOf(b[..]), 128, bits)
  {
    var fullBytes, rem := bits / 8, bits % 8;
    if rem == 0 {
      WholeBytes(a[..], b[..], fullBytes);
    } else {
      SplitByte(a[..], b[..], fullBytes, rem);
    }
    for i := 0 to fullBytes
      invariant a[..i] == b[..i]
    {
      if a[i] != b[i] {
        assert a[..][..fullBytes][i] != b[..][..fullBytes][i];
        return false;
      }
    }
    assert a[..][..fullBytes] == b[..][..fullBytes];
    if rem == 0 {
      return true;
    }
    var mask := And(Shl(0xff, 8 - rem), 0xff);
    assert a[..][fullBytes] < 256 && b[..][fullBytes] < 256;
    MaskedBytes(a[fullBytes], b[fullBytes], rem);
    return And(a[fullBytes], mask) == And(b[fullBytes], mask);
  }
}
