/** The canonical argument text of the agent loop (assistant/agent.ts, `canonical`): JSON with the keys
    sorted at every depth. It decides which tool calls count as "the same call again". */
module Canonical {
  import opened Common
  import opened Texts

  /** Digits behind a decimal point: none, or some that do not end in a zero. */
  type Fraction = s: string | (forall i: nat | i < |s| :: IsDigit(s[i])) && (s == "" || s[|s| - 1] != '0')

  /** A finite number, by the parts of the one shortest text the host writes for it (section 6.1.6.1.20 of ECMA-262):
      two numbers are equal exactly when their parts are. */
  datatype Number = Number(negative: bool, whole: nat, fraction: Fraction, exponent: Option<int>)

  datatype Json =
    | Null
    | Bool(b: bool)
    | Num(n: Number)
    | Str(s: string)
    | Arr(items: seq<Json>)
    | Obj(fields: seq<Field>)

  datatype Field = Field(key: string, value: Json)

  predicate DistinctKeys(fs: seq<Field>) {
    forall i, j | 0 <= i < j < |fs| :: fs[i].key != fs[j].key
  }

  /** What a parser hands over: no object has a key twice. */
  predicate Valid(v: Json) {
    match v
    case Arr(items) => forall i | 0 <= i < |items| :: Valid(items[i])
    case Obj(fields) => DistinctKeys(fields) && forall i | 0 <= i < |fields| :: Valid(fields[i].value)
    case _ => true
  }

  /** Equal up to the order of object keys, at every depth (objects of RFC 8259, section 4, are unordered). */
  ghost predicate Equiv(v: Json, w: Json) {
    match (v, w)
    case (Arr(xs), Arr(ys)) => |xs| == |ys| && forall i | 0 <= i < |xs| :: Equiv(xs[i], ys[i])
    case (Obj(fs), Obj(gs)) =>
      && |fs| == |gs|
      && forall i | 0 <= i < |fs| :: exists j | 0 <= j < |gs| :: fs[i].key == gs[j].key && Equiv(fs[i].value, gs[j].value)
    case _ => v == w
  }

  // ------------------------------------------------------------------ printing

  function Hex(d: nat): (c: char)
    requires d < 16
    ensures c != '"' && c != '\\'
  {
    if d < 10 then Digit(d) else ('a' as int + d - 10) as char
  }

  /** One character of a string as `JSON.stringify` writes it. */
  function Escape(c: char): (e: string)
    ensures e != "" && e[0] != '"'
  {
    match c
    case '"' => "\\\""
    case '\\' => "\\\\"
    case '\U{0008}' => "\\b"
    case '\t' => "\\t"
    case '\n' => "\\n"
    case '\U{000C}' => "\\f"
    case '\r' => "\\r"
    case _ => if c < ' ' then "\\u00" + [Hex(c as int / 16), Hex(c as int % 16)] else [c]
  }

  function Escaped(s: string): string {
    if s == "" then "" else Escape(s[0]) + Escaped(s[1..])
  }

  function Quoted(s: string): string {
    "\"" + Escaped(s) + "\""
  }

  function ExponentText(e: Option<int>): string {
    if e == None then "" else if e.value < 0 then "e-" + Decimal(-e.value) else "e+" + Decimal(e.value)
  }

  function FractionText(f: Fraction): string {
    if f == "" then "" else "." + f
  }

  /** What stands behind the whole part. */
  function PartsText(n: Number): string {
    FractionText(n.fraction) + ExponentText(n.exponent)
  }

  function NumberText(n: Number): string {
    (if n.negative then "-" else "") + (Decimal(n.whole) + PartsText(n))
  }

  /** `Array.prototype.sort` on keys: lexicographic. */
  predicate Less(a: string, b: string) {
    b != "" && (a == "" || a[0] < b[0] || (a[0] == b[0] && Less(a[1..], b[1..])))
  }

  predicate Sorted(fs: seq<Field>) {
    forall i, j | 0 <= i < j < |fs| :: Less(fs[i].key, fs[j].key)
  }

  function Insert(f: Field, fs: seq<Field>): (r: seq<Field>)
    ensures multiset(r) == multiset(fs) + multiset{f}
  {
    if fs == [] || Less(f.key, fs[0].key) then [f] + fs
    else
      assert fs == [fs[0]] + fs[1..];
      [fs[0]] + Insert(f, fs[1..])
  }

  function SortKeys(fs: seq<Field>): (r: seq<Field>)
    ensures multiset(r) == multiset(fs)
  {
    if fs == [] then []
    else
      assert fs == [fs[0]] + fs[1..];
      Insert(fs[0], SortKeys(fs[1..]))
  }

  lemma SameMembers(fs: seq<Field>, r: seq<Field>)
    requires multiset(r) == multiset(fs)
    ensures |r| == |fs| && forall f :: f in r <==> f in fs
  {
    assert |multiset(r)| == |r| && |multiset(fs)| == |fs|;
    forall f ensures f in r <==> f in fs {
      assert f in r <==> f in multiset(r);
      assert f in fs <==> f in multiset(fs);
    }
  }

  lemma SortedBelow(v: Json)
    requires v.Obj?
    ensures forall i | 0 <= i < |SortKeys(v.fields)| :: SortKeys(v.fields)[i].value < v
  {
    var r := SortKeys(v.fields);
    SameMembers(v.fields, r);
    forall i | 0 <= i < |r| ensures r[i].value < v {
      assert r[i] in r;
      var j :| 0 <= j < |v.fields| && v.fields[j] == r[i];
    }
  }

  function Canon(v: Json): string
    decreases v, 1, 0
  {
    match v
    case Null => "null"
    case Bool(b) => if b then "true" else "false"
    case Num(n) => NumberText(n)
    case Str(s) => Quoted(s)
    case Arr(items) => "[" + JoinItems(items, v) + "]"
    case Obj(fields) =>
      SortedBelow(v);
      "{" + JoinFields(SortKeys(fields), v) + "}"
  }

  function JoinItems(items: seq<Json>, ghost parent: Json): string
    requires forall i | 0 <= i < |items| :: items[i] < parent
    decreases parent, 0, |items|
  {
    if items == [] then ""
    else if |items| == 1 then Canon(items[0])
    else Canon(items[0]) + "," + JoinItems(items[1..], parent)
  }

  function JoinFields(fs: seq<Field>, ghost parent: Json): string
    requires forall i | 0 <= i < |fs| :: fs[i].value < parent
    decreases parent, 0, |fs|
  {
    if fs == [] then ""
    else
      var first := Quoted(fs[0].key) + ":" + Canon(fs[0].value);
      if |fs| == 1 then first else first + "," + JoinFields(fs[1..], parent)
  }

  // ------------------------------------------------- equal text, equal arguments

  lemma Assoc(a: string, b: string, c: string)
    ensures (a + b) + c == a + (b + c)
  {
  }

  lemma Cut(a: string, s: string, b: string, t: string)
    requires a + s == b + t && |a| == |b|
    ensures a == b && s == t
  {
    assert a == (a + s)[..|a|] && b == (b + t)[..|b|];
    assert s == (a + s)[|a|..] && t == (b + t)[|b|..];
  }

  lemma FirstOf(a: string, s: string)
    ensures a != "" ==> (a + s)[0] == a[0]
    ensures |a| > 1 ==> (a + s)[1] == a[1]
    ensures a == "" ==> a + s == s
  {
  }

  lemma EscapeCode(c: char, d: char, s: string, t: string)
    requires Escape(c) + s == Escape(d) + t
    ensures c == d && s == t
  {
    FirstOf(Escape(c), s);
    FirstOf(Escape(d), t);
    Cut(Escape(c), s, Escape(d), t);
    EscapeInjective(c, d);
  }

  lemma EscapeInjective(c: char, d: char)
    requires Escape(c) == Escape(d)
    ensures c == d
  {
    if |Escape(c)| == 6 {
      assert Escape(c)[4] == Hex(c as int / 16) && Escape(c)[5] == Hex(c as int % 16);
      assert Escape(d)[4] == Hex(d as int / 16) && Escape(d)[5] == Hex(d as int % 16);
      assert c as int / 16 == d as int / 16 && c as int % 16 == d as int % 16;
    }
  }

  lemma {:induction false} EscapedPrefix(a: string, b: string, s: string, t: string)
    requires s != "" && s[0] == '"' && t != "" && t[0] == '"'
    requires Escaped(a) + s == Escaped(b) + t
    ensures a == b && s == t
  {
    FirstOf(Escaped(a), s);
    FirstOf(Escaped(b), t);
    if a != "" { FirstOf(Escape(a[0]), Escaped(a[1..])); }
    if b != "" { FirstOf(Escape(b[0]), Escaped(b[1..])); }
    if a != "" && b != "" {
      Assoc(Escape(a[0]), Escaped(a[1..]), s);
      Assoc(Escape(b[0]), Escaped(b[1..]), t);
      EscapeCode(a[0], b[0], Escaped(a[1..]) + s, Escaped(b[1..]) + t);
      EscapedPrefix(a[1..], b[1..], s, t);
      assert a == [a[0]] + a[1..] && b == [b[0]] + b[1..];
    }
  }

  lemma QuotedPrefix(a: string, b: string, s: string, t: string)
    requires Quoted(a) + s == Quoted(b) + t
    ensures a == b && s == t
  {
    Assoc("\"" + Escaped(a), "\"", s);
    Assoc("\"" + Escaped(b), "\"", t);
    Assoc("\"", Escaped(a), "\"" + s);
    Assoc("\"", Escaped(b), "\"" + t);
    Cut("\"", Escaped(a) + ("\"" + s), "\"", Escaped(b) + ("\"" + t));
    EscapedPrefix(a, b, "\"" + s, "\"" + t);
    Cut("\"", s, "\"", t);
  }

  /** A text that may follow a value: nothing, or a structural character. */
  predicate Delimited(s: string) {
    s == "" || s[0] in {',', ']', '}'}
  }

  /** The first character tells the kind of a value. */
  predicate Starts(c: char, v: Json) {
    match v
    case Null => c == 'n'
    case Bool(b) => c == if b then 't' else 'f'
    case Num(n) => if n.negative then c == '-' else IsDigit(c)
    case Str(_) => c == '"'
    case Arr(_) => c == '['
    case Obj(_) => c == '{'
  }

  lemma CanonStarts(v: Json, s: string)
    ensures Canon(v) != "" && Starts(Canon(v)[0], v) && (Canon(v) + s)[0] == Canon(v)[0]
  {
    if v.Num? { NumberStarts(v.n); }
    FirstOf(Canon(v), s);
  }

  /** A text that may follow digits of a number. */
  predicate NoDigit(s: string) {
    s == "" || !IsDigit(s[0])
  }

  lemma ExponentPrefix(e: Option<int>, g: Option<int>, s: string, t: string)
    requires ExponentText(e) + s == ExponentText(g) + t && Delimited(s) && Delimited(t)
    ensures e == g && s == t
  {
    FirstOf(ExponentText(e), s);
    FirstOf(ExponentText(g), t);
    if e.Some? && g.Some? {
      var x, y := Decimal(if e.value < 0 then -e.value else e.value), Decimal(if g.value < 0 then -g.value else g.value);
      var p, q := if e.value < 0 then "e-" else "e+", if g.value < 0 then "e-" else "e+";
      assert (ExponentText(e) + s)[1] == p[1] && (ExponentText(g) + t)[1] == q[1];
      Assoc(p, x, s);
      Assoc(q, y, t);
      Cut(p, x + s, q, y + t);
      DigitsPrefix(x, y, s, t);
      DecimalInjective(if e.value < 0 then -e.value else e.value, if g.value < 0 then -g.value else g.value);
    }
  }

  lemma AfterFraction(e: Option<int>, s: string)
    requires Delimited(s)
    ensures NoDigit(ExponentText(e) + s) && (ExponentText(e) + s != "" ==> (ExponentText(e) + s)[0] != '.')
  {
    FirstOf(ExponentText(e), s);
  }

  lemma FractionPrefix(f: Fraction, g: Fraction, s: string, t: string)
    requires FractionText(f) + s == FractionText(g) + t && NoDigit(s) && NoDigit(t)
    requires (s != "" ==> s[0] != '.') && (t != "" ==> t[0] != '.')
    ensures f == g && s == t
  {
    FirstOf(FractionText(f), s);
    FirstOf(FractionText(g), t);
    if f != "" && g != "" {
      Assoc(".", f, s);
      Assoc(".", g, t);
      Cut(".", f + s, ".", g + t);
      DigitsPrefix(f, g, s, t);
    }
  }

  lemma PartsPrefix(m: Number, n: Number, s: string, t: string)
    requires PartsText(m) + s == PartsText(n) + t && Delimited(s) && Delimited(t)
    ensures m.fraction == n.fraction && m.exponent == n.exponent && s == t
  {
    Assoc(FractionText(m.fraction), ExponentText(m.exponent), s);
    Assoc(FractionText(n.fraction), ExponentText(n.exponent), t);
    AfterFraction(m.exponent, s);
    AfterFraction(n.exponent, t);
    FractionPrefix(m.fraction, n.fraction, ExponentText(m.exponent) + s, ExponentText(n.exponent) + t);
    ExponentPrefix(m.exponent, n.exponent, s, t);
  }

  lemma AfterWhole(n: Number, s: string)
    requires Delimited(s)
    ensures NoDigit(PartsText(n) + s)
  {
    Assoc(FractionText(n.fraction), ExponentText(n.exponent), s);
    AfterFraction(n.exponent, s);
    FirstOf(FractionText(n.fraction), ExponentText(n.exponent) + s);
  }

  lemma WholePrefix(m: Number, n: Number, s: string, t: string)
    requires (Decimal(m.whole) + PartsText(m)) + s == (Decimal(n.whole) + PartsText(n)) + t
    requires Delimited(s) && Delimited(t)
    ensures m.whole == n.whole && m.fraction == n.fraction && m.exponent == n.exponent && s == t
  {
    Assoc(Decimal(m.whole), PartsText(m), s);
    Assoc(Decimal(n.whole), PartsText(n), t);
    AfterWhole(m, s);
    AfterWhole(n, t);
    DigitsPrefix(Decimal(m.whole), Decimal(n.whole), PartsText(m) + s, PartsText(n) + t);
    DecimalInjective(m.whole, n.whole);
    PartsPrefix(m, n, s, t);
  }

  lemma NumberPrefix(m: Number, n: Number, s: string, t: string)
    requires NumberText(m) + s == NumberText(n) + t && Delimited(s) && Delimited(t) && (m.negative <==> n.negative)
    ensures m == n && s == t
  {
    var sign, a, b := if m.negative then "-" else "", Decimal(m.whole) + PartsText(m), Decimal(n.whole) + PartsText(n);
    Assoc(sign, a, s);
    Assoc(sign, b, t);
    Cut(sign, a + s, sign, b + t);
    WholePrefix(m, n, s, t);
  }

  lemma NumberStarts(n: Number)
    ensures NumberText(n) != "" && NumberText(n)[0] == if n.negative then '-' else Decimal(n.whole)[0]
  {
    FirstOf(if n.negative then "-" else "", Decimal(n.whole) + PartsText(n));
    FirstOf(Decimal(n.whole), PartsText(n));
  }

  lemma {:induction false} CanonPrefix(v: Json, w: Json, s: string, t: string)
    requires Canon(v) + s == Canon(w) + t && Delimited(s) && Delimited(t)
    ensures Equiv(v, w) && s == t
    decreases v, 1, 0
  {
    CanonStarts(v, s);
    CanonStarts(w, t);
    match v {
      case Null => Cut(Canon(v), s, Canon(w), t);
      case Bool(b) => Cut(Canon(v), s, Canon(w), t);
      case Num(n) => NumberPrefix(n, w.n, s, t);
      case Str(a) => QuotedPrefix(a, w.s, s, t);
      case Arr(items) =>
        Unbracket("[", JoinItems(items, v), "]", s, JoinItems(w.items, w), t);
        ItemsPrefix(items, w.items, v, w, "]" + s, "]" + t);
        Cut("]", s, "]", t);
      case Obj(fields) =>
        SortedBelow(v);
        SortedBelow(w);
        var fs, gs := SortKeys(fields), SortKeys(w.fields);
        Unbracket("{", JoinFields(fs, v), "}", s, JoinFields(gs, w), t);
        FieldsPrefix(fs, gs, v, w, "}" + s, "}" + t);
        Cut("}", s, "}", t);
        UnsortedEquiv(v, w);
    }
  }

  lemma Unbracket(open: string, a: string, close: string, s: string, b: string, t: string)
    requires (open + a + close) + s == (open + b + close) + t
    ensures a + (close + s) == b + (close + t)
  {
    Assoc(open + a, close, s);
    Assoc(open + b, close, t);
    Assoc(open, a, close + s);
    Assoc(open, b, close + t);
    Cut(open, a + (close + s), open, b + (close + t));
  }

  /** The same keys in the same places, with equal values. */
  ghost predicate InPlace(fs: seq<Field>, gs: seq<Field>) {
    |fs| == |gs| && forall i | 0 <= i < |fs| :: fs[i].key == gs[i].key && Equiv(fs[i].value, gs[i].value)
  }

  ghost predicate Matched(f: Field, gs: seq<Field>) {
    exists j | 0 <= j < |gs| :: f.key == gs[j].key && Equiv(f.value, gs[j].value)
  }

  /** A field's partner, found through the two sorted lists. */
  lemma FindMatch(f: Field, fields: seq<Field>, fs: seq<Field>, gs: seq<Field>, others: seq<Field>)
    requires f in fields && multiset(fields) == multiset(fs) && multiset(gs) == multiset(others) && InPlace(fs, gs)
    ensures Matched(f, others)
  {
    var k := IndexIn(f, fields, fs);
    SameMembers(gs, others);
    var j := IndexIn(gs[k], gs, others);
  }

  lemma MatchedEquiv(v: Json, w: Json)
    requires v.Obj? && w.Obj? && |v.fields| == |w.fields| && forall i | 0 <= i < |v.fields| :: Matched(v.fields[i], w.fields)
    ensures Equiv(v, w)
  {
    if v.fields != [] {
      assert Matched(v.fields[0], w.fields);
    }
  }

  /** Agreement field by field after sorting is agreement of the objects. */
  lemma UnsortedEquiv(v: Json, w: Json)
    requires v.Obj? && w.Obj? && InPlace(SortKeys(v.fields), SortKeys(w.fields))
    ensures Equiv(v, w)
  {
    SameMembers(v.fields, SortKeys(v.fields));
    SameMembers(w.fields, SortKeys(w.fields));
    forall i | 0 <= i < |v.fields| ensures Matched(v.fields[i], w.fields) {
      FindMatch(v.fields[i], v.fields, SortKeys(v.fields), SortKeys(w.fields), w.fields);
    }
    MatchedEquiv(v, w);
  }

  lemma IndexIn(f: Field, fs: seq<Field>, gs: seq<Field>) returns (k: nat)
    requires f in fs && multiset(fs) == multiset(gs)
    ensures k < |gs| && gs[k] == f
  {
    SameMembers(fs, gs);
    k :| k < |gs| && gs[k] == f;
  }

  /** The text after the first of several comma-separated values. */
  function Rest(joined: string, last: bool, s: string): string {
    if last then s else "," + (joined + s)
  }

  lemma {:induction false} ItemsPrefix(xs: seq<Json>, ys: seq<Json>, p: Json, q: Json, s: string, t: string)
    requires forall i | 0 <= i < |xs| :: xs[i] < p
    requires forall i | 0 <= i < |ys| :: ys[i] < q
    requires s != "" && s[0] == ']' && t != "" && t[0] == ']'
    requires JoinItems(xs, p) + s == JoinItems(ys, q) + t
    ensures |xs| == |ys| && s == t
    ensures forall i | 0 <= i < |xs| :: Equiv(xs[i], ys[i])
    decreases p, 0, |xs|
  {
    ItemsSplit(xs, p, s);
    ItemsSplit(ys, q, t);
    if xs != [] && ys != [] {
      var u := Rest(JoinItems(xs[1..], p), |xs| == 1, s);
      var w := Rest(JoinItems(ys[1..], q), |ys| == 1, t);
      CanonPrefix(xs[0], ys[0], u, w);
      if |xs| > 1 && |ys| > 1 {
        Cut(",", JoinItems(xs[1..], p) + s, ",", JoinItems(ys[1..], q) + t);
        ItemsPrefix(xs[1..], ys[1..], p, q, s, t);
      }
      forall i | 0 <= i < |xs| ensures Equiv(xs[i], ys[i]) {
        if i > 0 { assert xs[i] == xs[1..][i - 1] && ys[i] == ys[1..][i - 1]; }
      }
    }
  }

  lemma ItemsSplit(xs: seq<Json>, p: Json, s: string)
    requires forall i | 0 <= i < |xs| :: xs[i] < p
    requires s != ""
    ensures xs == [] ==> JoinItems(xs, p) + s == s
    ensures xs != [] ==> JoinItems(xs, p) + s == Canon(xs[0]) + Rest(JoinItems(xs[1..], p), |xs| == 1, s)
    ensures xs != [] ==> Starts((JoinItems(xs, p) + s)[0], xs[0])
  {
    if xs != [] {
      CanonStarts(xs[0], Rest(JoinItems(xs[1..], p), |xs| == 1, s));
      if |xs| > 1 {
        Assoc(Canon(xs[0]) + ",", JoinItems(xs[1..], p), s);
        Assoc(Canon(xs[0]), ",", JoinItems(xs[1..], p) + s);
      }
    }
  }

  lemma {:induction false} FieldsPrefix(fs: seq<Field>, gs: seq<Field>, p: Json, q: Json, s: string, t: string)
    requires forall i | 0 <= i < |fs| :: fs[i].value < p
    requires forall i | 0 <= i < |gs| :: gs[i].value < q
    requires s != "" && s[0] == '}' && t != "" && t[0] == '}'
    requires JoinFields(fs, p) + s == JoinFields(gs, q) + t
    ensures |fs| == |gs| && s == t
    ensures forall i | 0 <= i < |fs| :: fs[i].key == gs[i].key && Equiv(fs[i].value, gs[i].value)
    decreases p, 0, |fs|
  {
    FieldsSplit(fs, p, s);
    FieldsSplit(gs, q, t);
    if fs != [] && gs != [] {
      var u := Rest(JoinFields(fs[1..], p), |fs| == 1, s);
      var w := Rest(JoinFields(gs[1..], q), |gs| == 1, t);
      var a, b := Canon(fs[0].value) + u, Canon(gs[0].value) + w;
      QuotedPrefix(fs[0].key, gs[0].key, ":" + a, ":" + b);
      Cut(":", a, ":", b);
      CanonPrefix(fs[0].value, gs[0].value, u, w);
      if |fs| > 1 && |gs| > 1 {
        Cut(",", JoinFields(fs[1..], p) + s, ",", JoinFields(gs[1..], q) + t);
        FieldsPrefix(fs[1..], gs[1..], p, q, s, t);
      }
      forall i | 0 <= i < |fs| ensures fs[i].key == gs[i].key && Equiv(fs[i].value, gs[i].value) {
        if i > 0 { assert fs[i] == fs[1..][i - 1] && gs[i] == gs[1..][i - 1]; }
      }
    }
  }

  lemma FieldsSplit(fs: seq<Field>, p: Json, s: string)
    requires forall i | 0 <= i < |fs| :: fs[i].value < p
    requires s != ""
    ensures fs == [] ==> JoinFields(fs, p) + s == s
    ensures fs != [] ==>
              && JoinFields(fs, p) + s
              == Quoted(fs[0].key) + (":" + (Canon(fs[0].value) + Rest(JoinFields(fs[1..], p), |fs| == 1, s)))
              && (JoinFields(fs, p) + s)[0] == '"'
  {
    if fs != [] {
      var k, c := Quoted(fs[0].key), Canon(fs[0].value);
      var r := Rest(JoinFields(fs[1..], p), |fs| == 1, s);
      if |fs| > 1 {
        Assoc(k + ":" + c + ",", JoinFields(fs[1..], p), s);
        Assoc(k + ":" + c, ",", JoinFields(fs[1..], p) + s);
      }
      Assoc(k + ":", c, r);
      Assoc(k, ":", c + r);
      FirstOf(k, ":" + (c + r));
    }
  }

  // ------------------------------------------------- equal arguments, equal text

  lemma {:induction false} LessTotal(a: string, b: string)
    ensures a != b ==> Less(a, b) || Less(b, a)
    ensures Less(a, b) ==> !Less(b, a) && a != b
  {
    if a != "" && b != "" && a[0] == b[0] {
      LessTotal(a[1..], b[1..]);
      assert a == [a[0]] + a[1..] && b == [b[0]] + b[1..];
    }
  }

  lemma {:induction false} LessTransitive(a: string, b: string, c: string)
    requires Less(a, b) && Less(b, c)
    ensures Less(a, c)
  {
    if a != "" && a[0] == b[0] && b[0] == c[0] {
      LessTransitive(a[1..], b[1..], c[1..]);
    }
  }

  predicate AllAfter(key: string, fs: seq<Field>) {
    forall i | 0 <= i < |fs| :: Less(key, fs[i].key)
  }

  lemma SortedCons(f: Field, fs: seq<Field>)
    requires Sorted(fs) && AllAfter(f.key, fs)
    ensures Sorted([f] + fs)
  {
  }

  lemma AfterAll(key: string, fs: seq<Field>)
    requires Sorted(fs) && fs != [] && Less(key, fs[0].key)
    ensures AllAfter(key, fs)
  {
    forall i | 0 <= i < |fs| ensures Less(key, fs[i].key) {
      if i > 0 { LessTransitive(key, fs[0].key, fs[i].key); }
    }
  }

  lemma InsertAfter(key: string, f: Field, fs: seq<Field>)
    requires AllAfter(key, fs) && Less(key, f.key)
    ensures AllAfter(key, Insert(f, fs))
  {
    SameMembers([f] + fs, Insert(f, fs));
    forall i | 0 <= i < |Insert(f, fs)| ensures Less(key, Insert(f, fs)[i].key) {
      assert Insert(f, fs)[i] in [f] + fs;
    }
  }

  lemma {:induction false} InsertSorted(f: Field, fs: seq<Field>)
    requires Sorted(fs) && forall i | 0 <= i < |fs| :: fs[i].key != f.key
    ensures Sorted(Insert(f, fs))
  {
    if fs == [] {
    } else if Less(f.key, fs[0].key) {
      AfterAll(f.key, fs);
      SortedCons(f, fs);
    } else {
      LessTotal(f.key, fs[0].key);
      InsertSorted(f, fs[1..]);
      assert AllAfter(fs[0].key, fs[1..]);
      InsertAfter(fs[0].key, f, fs[1..]);
      SortedCons(fs[0], Insert(f, fs[1..]));
    }
  }

  lemma {:induction false} SortKeysSorted(fs: seq<Field>)
    requires DistinctKeys(fs)
    ensures Sorted(SortKeys(fs))
  {
    if fs != [] {
      SortKeysSorted(fs[1..]);
      SameMembers(fs[1..], SortKeys(fs[1..]));
      forall i | 0 <= i < |SortKeys(fs[1..])| ensures SortKeys(fs[1..])[i].key != fs[0].key {
        assert SortKeys(fs[1..])[i] in fs[1..];
      }
      InsertSorted(fs[0], SortKeys(fs[1..]));
    }
  }

  predicate KeyWithin(f: Field, gs: seq<Field>) {
    exists j | 0 <= j < |gs| :: f.key == gs[j].key
  }

  predicate KeysWithin(fs: seq<Field>, gs: seq<Field>) {
    forall i | 0 <= i < |fs| :: KeyWithin(fs[i], gs)
  }

  /** A strictly sorted list is determined by its keys; position by position, not just as a set. */
  lemma {:induction false} SortedKeysAgree(fs: seq<Field>, gs: seq<Field>)
    requires Sorted(fs) && Sorted(gs) && |fs| == |gs| && KeysWithin(fs, gs)
    ensures forall i | 0 <= i < |fs| :: fs[i].key == gs[i].key
  {
    forall i | 0 <= i < |fs| ensures fs[i].key == gs[i].key {
      SortedKeyAt(fs, gs, i);
    }
  }

  /** Keys sorted into a list of the same length cannot skip a position: by induction each lands at or after
      its own index, and the last ones leave no room to move. */
  lemma {:induction false} LandsAtOrAfter(fs: seq<Field>, gs: seq<Field>, i: nat, j: nat)
    requires Sorted(fs) && Sorted(gs) && KeysWithin(fs, gs)
    requires i < |fs| && j < |gs| && fs[i].key == gs[j].key
    ensures i <= j
  {
    if i > 0 {
      assert KeyWithin(fs[i - 1], gs);
      var k :| 0 <= k < |gs| && fs[i - 1].key == gs[k].key;
      LandsAtOrAfter(fs, gs, i - 1, k);
      SortedOrder(gs, k, j);
    }
  }

  lemma SortedOrder(gs: seq<Field>, k: nat, j: nat)
    requires Sorted(gs) && k < |gs| && j < |gs| && Less(gs[k].key, gs[j].key)
    ensures k < j
  {
    LessTotal(gs[k].key, gs[j].key);
  }

  lemma {:induction false} LandsAtOrBefore(fs: seq<Field>, gs: seq<Field>, i: nat, j: nat)
    requires Sorted(fs) && Sorted(gs) && |fs| == |gs| && KeysWithin(fs, gs)
    requires i < |fs| && j < |gs| && fs[i].key == gs[j].key
    ensures j <= i
    decreases |fs| - i
  {
    if i + 1 < |fs| {
      assert KeyWithin(fs[i + 1], gs);
      var k :| 0 <= k < |gs| && fs[i + 1].key == gs[k].key;
      LandsAtOrBefore(fs, gs, i + 1, k);
      SortedOrder(gs, j, k);
    }
  }

  lemma SortedKeyAt(fs: seq<Field>, gs: seq<Field>, i: nat)
    requires Sorted(fs) && Sorted(gs) && |fs| == |gs| && KeysWithin(fs, gs) && i < |fs|
    ensures fs[i].key == gs[i].key
  {
    assert KeyWithin(fs[i], gs);
    var j :| 0 <= j < |gs| && fs[i].key == gs[j].key;
    LandsAtOrAfter(fs, gs, i, j);
    LandsAtOrBefore(fs, gs, i, j);
  }

  lemma {:induction false} CanonOfEquiv(v: Json, w: Json)
    requires Valid(v) && Valid(w) && Equiv(v, w)
    ensures Canon(v) == Canon(w)
    decreases v
  {
    match v {
      case Arr(items) =>
        forall i | 0 <= i < |items| ensures Canon(items[i]) == Canon(w.items[i]) {
          CanonOfEquiv(items[i], w.items[i]);
        }
        JoinItemsAgree(items, w.items, v, w);
      case Obj(fields) =>
        forall i, j | 0 <= i < |fields| && 0 <= j < |w.fields| && Equiv(fields[i].value, w.fields[j].value)
          ensures Canon(fields[i].value) == Canon(w.fields[j].value)
        {
          CanonOfEquiv(fields[i].value, w.fields[j].value);
        }
        SortedFieldsAgree(v, w);
        SortedBelow(v);
        SortedBelow(w);
        JoinFieldsAgree(SortKeys(fields), SortKeys(w.fields), v, w);
      case _ =>
    }
  }

  lemma {:induction false} JoinItemsAgree(xs: seq<Json>, ys: seq<Json>, p: Json, q: Json)
    requires forall i | 0 <= i < |xs| :: xs[i] < p
    requires forall i | 0 <= i < |ys| :: ys[i] < q
    requires |xs| == |ys| && forall i | 0 <= i < |xs| :: Canon(xs[i]) == Canon(ys[i])
    ensures JoinItems(xs, p) == JoinItems(ys, q)
  {
    if |xs| > 1 { JoinItemsAgree(xs[1..], ys[1..], p, q); }
  }

  lemma {:induction false} JoinFieldsAgree(fs: seq<Field>, gs: seq<Field>, p: Json, q: Json)
    requires forall i | 0 <= i < |fs| :: fs[i].value < p
    requires forall i | 0 <= i < |gs| :: gs[i].value < q
    requires |fs| == |gs|
    requires forall i | 0 <= i < |fs| :: fs[i].key == gs[i].key && Canon(fs[i].value) == Canon(gs[i].value)
    ensures JoinFields(fs, p) == JoinFields(gs, q)
  {
    if |fs| > 1 { JoinFieldsAgree(fs[1..], gs[1..], p, q); }
  }

  /** A field of the same key and the same text. */
  predicate SameText(f: Field, g: Field) {
    f.key == g.key && Canon(f.value) == Canon(g.value)
  }

  predicate Printed(f: Field, gs: seq<Field>) {
    exists j | 0 <= j < |gs| :: SameText(f, gs[j])
  }

  lemma PrintedAmong(f: Field, fields: seq<Field>, gs: seq<Field>)
    requires Printed(f, fields) && multiset(fields) == multiset(gs)
    ensures Printed(f, gs)
  {
    var l :| 0 <= l < |fields| && SameText(f, fields[l]);
    var j := IndexIn(fields[l], fields, gs);
    assert SameText(f, gs[j]);
  }

  lemma FieldPrinted(v: Json, w: Json, f: Field)
    requires v.Obj? && w.Obj? && Equiv(v, w) && f in v.fields
    requires forall i, j | 0 <= i < |v.fields| && 0 <= j < |w.fields| && Equiv(v.fields[i].value, w.fields[j].value) ::
               Canon(v.fields[i].value) == Canon(w.fields[j].value)
    ensures Printed(f, w.fields)
  {
    var k :| 0 <= k < |v.fields| && v.fields[k] == f;
    var l :| 0 <= l < |w.fields| && v.fields[k].key == w.fields[l].key && Equiv(v.fields[k].value, w.fields[l].value);
    assert SameText(f, w.fields[l]);
  }

  /** In sorted lists with the same keys the partner stands at the same place. */
  lemma PrintedInPlace(fs: seq<Field>, gs: seq<Field>)
    requires Sorted(fs) && Sorted(gs) && |fs| == |gs|
    requires forall i | 0 <= i < |fs| :: Printed(fs[i], gs)
    ensures forall i | 0 <= i < |fs| :: fs[i].key == gs[i].key && Canon(fs[i].value) == Canon(gs[i].value)
  {
    PrintedKeys(fs, gs);
    SortedKeysAgree(fs, gs);
    forall i | 0 <= i < |fs| ensures Canon(fs[i].value) == Canon(gs[i].value) {
      assert Printed(fs[i], gs);
      var j :| 0 <= j < |gs| && SameText(fs[i], gs[j]);
      if i < j { LessTotal(gs[i].key, gs[j].key); } else if j < i { LessTotal(gs[j].key, gs[i].key); }
    }
  }

  lemma PrintedKeys(fs: seq<Field>, gs: seq<Field>)
    requires forall i | 0 <= i < |fs| :: Printed(fs[i], gs)
    ensures KeysWithin(fs, gs)
  {
    forall i | 0 <= i < |fs| ensures KeyWithin(fs[i], gs) {
      assert Printed(fs[i], gs);
      var j :| 0 <= j < |gs| && SameText(fs[i], gs[j]);
    }
  }

  lemma SortedFieldsAgree(v: Json, w: Json)
    requires v.Obj? && w.Obj? && Valid(v) && Valid(w) && Equiv(v, w)
    requires forall i, j | 0 <= i < |v.fields| && 0 <= j < |w.fields| && Equiv(v.fields[i].value, w.fields[j].value) ::
               Canon(v.fields[i].value) == Canon(w.fields[j].value)
    ensures var fs, gs := SortKeys(v.fields), SortKeys(w.fields);
            |fs| == |gs| && forall i | 0 <= i < |fs| :: fs[i].key == gs[i].key && Canon(fs[i].value) == Canon(gs[i].value)
  {
    var fs, gs := SortKeys(v.fields), SortKeys(w.fields);
    SameMembers(v.fields, fs);
    SameMembers(w.fields, gs);
    SortKeysSorted(v.fields);
    SortKeysSorted(w.fields);
    forall i | 0 <= i < |fs| ensures Printed(fs[i], gs) {
      assert fs[i] in fs;
      FieldPrinted(v, w, fs[i]);
      PrintedAmong(fs[i], w.fields, gs);
    }
    PrintedInPlace(fs, gs);
  }

  /** The canonical text is a complete invariant: equal texts exactly for equal arguments. */
  lemma CanonComplete(v: Json, w: Json)
    requires Valid(v) && Valid(w)
    ensures Canon(v) == Canon(w) <==> Equiv(v, w)
  {
    if Equiv(v, w) {
      CanonOfEquiv(v, w);
    } else if Canon(v) == Canon(w) {
      CanonPrefix(v, w, "", "");
    }
  }
}
