/** The key of a tool call (assistant/agent.ts, `seenCalls`): the tool's name, a colon, the canonical
    arguments. The name is whatever the model wrote, colons and braces included, so the key is read from
    the right: no canonical object ends in a colon followed by a shorter canonical object. */
module CallKeys {
  import opened Texts
  import opened Canonical

  function Key(name: string, args: Json): string {
    name + ":" + Canon(args)
  }

  // ------------------------------------------------------------------- a scanner

  /** Reading a text from the left: outside or inside a string literal, with the bracket depth; `Bad` after a
      backslash outside a literal. */
  datatype Scan = Out(depth: int) | In(depth: int) | Esc(depth: int) | Bad

  function Step(st: Scan, c: char): Scan {
    match st
    case Out(d) =>
      if c == '"' then In(d)
      else if c in {'{', '['} then Out(d + 1)
      else if c in {'}', ']'} then Out(d - 1)
      else if c == '\\' then Bad
      else Out(d)
    case In(d) => if c == '"' then Out(d) else if c == '\\' then Esc(d) else In(d)
    case Esc(d) => In(d)
    case Bad => Bad
  }

  function Run(st: Scan, s: string): Scan
    decreases |s|
  {
    if s == "" then st else Run(Step(st, s[0]), s[1..])
  }

  /** The depth never falls below `d` on the way. */
  predicate Stays(st: Scan, s: string, d: int)
    decreases |s|
  {
    && (st.Bad? || st.depth >= d)
    && (s != "" ==> Stays(Step(st, s[0]), s[1..], d))
  }

  /** Off by half a literal: started inside one. */
  predicate Odd(st: Scan) {
    st.In? || st.Bad?
  }

  /** From outside, the text ends where it began and never dips below. */
  ghost predicate Neutral(s: string) {
    forall d: int :: Run(Out(d), s) == Out(d) && Stays(Out(d), s, d)
  }

  /** From inside a literal it ends inside one, or breaks. */
  ghost predicate KeepsOdd(s: string) {
    forall st: Scan | Odd(st) :: Odd(Run(st, s))
  }

  ghost predicate Balanced(s: string) {
    Neutral(s) && KeepsOdd(s)
  }

  lemma {:induction false} RunConcat(st: Scan, a: string, b: string)
    ensures Run(st, a + b) == Run(Run(st, a), b)
    decreases |a|
  {
    if a == "" {
      assert a + b == b;
    } else {
      assert (a + b)[1..] == a[1..] + b;
      RunConcat(Step(st, a[0]), a[1..], b);
    }
  }

  lemma {:induction false} StaysConcat(st: Scan, a: string, b: string, d: int)
    ensures Stays(st, a + b, d) <==> Stays(st, a, d) && Stays(Run(st, a), b, d)
    decreases |a|
  {
    if a == "" {
      assert a + b == b;
    } else {
      assert (a + b)[1..] == a[1..] + b;
      StaysConcat(Step(st, a[0]), a[1..], b, d);
    }
  }

  lemma {:induction false} StaysLess(st: Scan, s: string, d: int, e: int)
    requires Stays(st, s, d) && e <= d
    ensures Stays(st, s, e)
    decreases |s|
  {
    if s != "" { StaysLess(Step(st, s[0]), s[1..], d, e); }
  }

  lemma BalancedConcat(a: string, b: string)
    requires Balanced(a) && Balanced(b)
    ensures Balanced(a + b)
  {
    forall d: int ensures Run(Out(d), a + b) == Out(d) && Stays(Out(d), a + b, d) {
      RunConcat(Out(d), a, b);
      StaysConcat(Out(d), a, b, d);
    }
    forall st: Scan | Odd(st) ensures Odd(Run(st, a + b)) {
      RunConcat(st, a, b);
    }
  }

  predicate Plain(c: char) {
    c !in {'"', '\\', '{', '}', '[', ']'}
  }

  lemma {:induction false} PlainBalanced(s: string)
    requires forall i | 0 <= i < |s| :: Plain(s[i])
    ensures Balanced(s)
  {
    forall st: Scan ensures (st.Out? || st.In? || st.Bad? ==> Run(st, s) == st) && (st.Out? ==> Stays(st, s, st.depth)) {
      PlainRun(st, s);
    }
  }

  predicate AllPlain(s: string) {
    forall i: nat | i < |s| :: Plain(s[i])
  }

  lemma PlainPlus(s: string, t: string)
    requires AllPlain(s) && AllPlain(t)
    ensures AllPlain(s + t)
  {
  }

  /** No quote and no bracket in a number. */
  lemma NumberPlain(n: Number)
    ensures AllPlain(NumberText(n))
  {
    PlainPlus(FractionText(n.fraction), ExponentText(n.exponent));
    PlainPlus(Decimal(n.whole), PartsText(n));
    PlainPlus(if n.negative then "-" else "", Decimal(n.whole) + PartsText(n));
  }

  lemma {:induction false} PlainRun(st: Scan, s: string)
    requires forall i | 0 <= i < |s| :: Plain(s[i])
    ensures st.Out? || st.In? || st.Bad? ==> Run(st, s) == st
    ensures st.Out? ==> Stays(st, s, st.depth)
  {
    if s != "" && !st.Esc? { PlainRun(st, s[1..]); }
  }

  lemma BracketRun(st: Scan, open: char, s: string, close: char)
    ensures Run(st, [open] + s + [close]) == Step(Run(Step(st, open), s), close)
  {
    RunConcat(st, [open] + s, [close]);
    RunConcat(st, [open], s);
    RunOne(st, open);
    RunOne(Run(Step(st, open), s), close);
  }

  lemma BracketNeutral(open: char, s: string, close: char)
    requires open in {'{', '['} && close in {'}', ']'} && Neutral(s)
    ensures Neutral([open] + s + [close])
  {
    var t := [open] + s + [close];
    forall d: int ensures Run(Out(d), t) == Out(d) && Stays(Out(d), t, d) {
      assert Run(Out(d + 1), s) == Out(d + 1);
      BracketRun(Out(d), open, s, close);
      BracketStays(d, open, s, close);
    }
  }

  lemma BracketStays(d: int, open: char, s: string, close: char)
    requires open in {'{', '['} && Run(Out(d + 1), s) == Out(d + 1) && Stays(Out(d + 1), s, d + 1)
    ensures Stays(Out(d), [open] + s + [close], d)
  {
    StaysConcat(Out(d), [open] + s, [close], d);
    StaysConcat(Out(d), [open], s, d);
    RunConcat(Out(d), [open], s);
    RunOne(Out(d), open);
    StaysOne(Out(d), open, d);
    StaysLess(Out(d + 1), s, d + 1, d);
    StaysOne(Out(d + 1), close, d);
  }

  lemma BracketBalanced(open: char, s: string, close: char)
    requires open in {'{', '['} && close in {'}', ']'} && Balanced(s)
    ensures Balanced([open] + s + [close])
  {
    BracketNeutral(open, s, close);
    BracketOdd(open, s, close);
  }

  lemma BracketOdd(open: char, s: string, close: char)
    requires open in {'{', '['} && close in {'}', ']'} && KeepsOdd(s)
    ensures KeepsOdd([open] + s + [close])
  {
    var t := [open] + s + [close];
    forall st: Scan | Odd(st) ensures Odd(Run(st, t)) {
      BracketRun(st, open, s, close);
      OddStep(st, open, s, close);
    }
  }

  lemma OddStep(st: Scan, open: char, s: string, close: char)
    requires open in {'{', '['} && close in {'}', ']'} && KeepsOdd(s) && Odd(st)
    ensures Odd(Step(Run(Step(st, open), s), close))
  {
    var inner := Step(st, open);
    assert Odd(inner);
    assert Odd(Run(inner, s));
  }

  lemma RunOne(st: Scan, c: char)
    ensures Run(st, [c]) == Step(st, c)
  {
    assert [c][1..] == "";
  }

  lemma StaysOne(st: Scan, c: char, d: int)
    ensures Stays(st, [c], d) <==> (st.Bad? || st.depth >= d) && (Step(st, c).Bad? || Step(st, c).depth >= d)
  {
    assert [c][1..] == "";
  }

  // ----------------------------------------------------------- canonical texts

  lemma EscapeScan(c: char, st: Scan)
    ensures st.In? ==> Run(st, Escape(c)) == st && Stays(st, Escape(c), st.depth)
    ensures st.Out? ==> Run(st, Escape(c)).Out? || Run(st, Escape(c)).Bad?
    ensures st.Bad? ==> Run(st, Escape(c)).Bad?
  {
    var e := Escape(c);
    if |e| == 1 {
      RunOne(st, e[0]);
      if st.In? { StaysOne(st, e[0], st.depth); }
    } else {
      assert e[0] == '\\';
      assert e == [e[0]] + e[1..];
      RunConcat(st, [e[0]], e[1..]);
      RunOne(st, e[0]);
      if st.In? {
        StaysConcat(st, [e[0]], e[1..], st.depth);
        StaysOne(st, e[0], st.depth);
        assert e[1..] == [e[1]] + e[2..];
        RunConcat(Esc(st.depth), [e[1]], e[2..]);
        RunOne(Esc(st.depth), e[1]);
        StaysConcat(Esc(st.depth), [e[1]], e[2..], st.depth);
        StaysOne(Esc(st.depth), e[1], st.depth);
        InLiteral(In(st.depth), e[2..]);
      } else if !st.Esc? {
        BadStays(e[1..]);
      }
    }
  }

  lemma {:induction false} InLiteral(st: Scan, s: string)
    requires st.In? && forall i | 0 <= i < |s| :: s[i] != '"' && s[i] != '\\'
    ensures Run(st, s) == st && Stays(st, s, st.depth)
  {
    if s != "" { InLiteral(st, s[1..]); }
  }

  lemma {:induction false} BadStays(s: string)
    ensures Run(Bad, s) == Bad
  {
    if s != "" { BadStays(s[1..]); }
  }

  lemma {:induction false} EscapedScan(s: string, st: Scan)
    ensures st.In? ==> Run(st, Escaped(s)) == st && Stays(st, Escaped(s), st.depth)
    ensures st.Out? || st.Bad? ==> Run(st, Escaped(s)).Out? || Run(st, Escaped(s)).Bad?
  {
    if s != "" {
      EscapeScan(s[0], st);
      RunConcat(st, Escape(s[0]), Escaped(s[1..]));
      if st.In? { StaysConcat(st, Escape(s[0]), Escaped(s[1..]), st.depth); }
      EscapedScan(s[1..], Run(st, Escape(s[0])));
    }
  }

  lemma QuotedBalanced(s: string)
    ensures Balanced(Quoted(s))
  {
    var q, e := "\"", Escaped(s);
    forall st: Scan ensures Run(st, Quoted(s)) == Step(Run(Step(st, '"'), e), '"') {
      RunConcat(st, q + e, q);
      RunConcat(st, q, e);
      RunOne(st, '"');
      RunOne(Run(Step(st, '"'), e), '"');
    }
    forall d: int ensures Run(Out(d), Quoted(s)) == Out(d) && Stays(Out(d), Quoted(s), d) {
      EscapedScan(s, In(d));
      StaysConcat(Out(d), q + e, q, d);
      StaysConcat(Out(d), q, e, d);
      RunConcat(Out(d), q, e);
      RunOne(Out(d), '"');
      StaysOne(Out(d), '"', d);
      StaysOne(In(d), '"', d);
    }
    forall st: Scan | Odd(st) ensures Odd(Run(st, Quoted(s))) {
      EscapedScan(s, Step(st, '"'));
    }
  }

  lemma {:induction false} CanonBalanced(v: Json)
    ensures Balanced(Canon(v))
    decreases v, 1, 0
  {
    match v {
      case Null => PlainBalanced(Canon(v));
      case Bool(_) => PlainBalanced(Canon(v));
      case Num(n) =>
        NumberPlain(n);
        PlainBalanced(Canon(v));
      case Str(s) => QuotedBalanced(s);
      case Arr(items) =>
        ItemsBalanced(items, v);
        BracketBalanced('[', JoinItems(items, v), ']');
      case Obj(fields) =>
        SortedBelow(v);
        FieldsBalanced(SortKeys(fields), v);
        BracketBalanced('{', JoinFields(SortKeys(fields), v), '}');
    }
  }

  lemma {:induction false} ItemsBalanced(xs: seq<Json>, p: Json)
    requires forall i | 0 <= i < |xs| :: xs[i] < p
    ensures Balanced(JoinItems(xs, p))
    decreases p, 0, |xs|
  {
    if xs == [] {
      PlainBalanced("");
    } else {
      CanonBalanced(xs[0]);
      if |xs| > 1 {
        ItemsBalanced(xs[1..], p);
        PlainBalanced(",");
        BalancedConcat(Canon(xs[0]), ",");
        BalancedConcat(Canon(xs[0]) + ",", JoinItems(xs[1..], p));
      }
    }
  }

  lemma {:induction false} FieldsBalanced(fs: seq<Field>, p: Json)
    requires forall i | 0 <= i < |fs| :: fs[i].value < p
    ensures Balanced(JoinFields(fs, p))
    decreases p, 0, |fs|
  {
    if fs == [] {
      PlainBalanced("");
    } else {
      var k, c := Quoted(fs[0].key), Canon(fs[0].value);
      QuotedBalanced(fs[0].key);
      CanonBalanced(fs[0].value);
      PlainBalanced(":");
      BalancedConcat(k, ":");
      BalancedConcat(k + ":", c);
      if |fs| > 1 {
        FieldsBalanced(fs[1..], p);
        PlainBalanced(",");
        BalancedConcat(k + ":" + c, ",");
        BalancedConcat(k + ":" + c + ",", JoinFields(fs[1..], p));
      }
    }
  }

  // ------------------------------------------------------------------- the keys

  /** Inside an object's text one is never outside all brackets. */
  lemma InsideObject(v: Json, p: string, q: string)
    requires v.Obj? && Canon(v) == p + q && p != "" && q != ""
    ensures var st := Run(Out(0), p); st.Bad? || st.depth >= 1
  {
    SortedBelow(v);
    var inner := JoinFields(SortKeys(v.fields), v);
    FieldsBalanced(SortKeys(v.fields), v);
    var body, rest := InsideBraces(inner, p, q);
    RunConcat(Out(0), "{", body);
    RunOne(Out(0), '{');
    StaysConcat(Out(1), body, rest, 1);
    StaysEnd(Out(1), body, 1);
  }

  /** A cut between the braces. */
  lemma InsideBraces(inner: string, p: string, q: string) returns (body: string, rest: string)
    requires "{" + inner + "}" == p + q && p != "" && q != ""
    ensures p == "{" + body && inner == body + rest
  {
    var whole := "{" + inner + "}";
    body, rest := p[1..], q[..|q| - 1];
    assert p[0] == whole[0] && q[|q| - 1] == whole[|whole| - 1];
    assert p == "{" + body && q == rest + "}";
    assert whole[1..|whole| - 1] == inner;
    assert whole[1..|whole| - 1] == body + rest;
  }

  lemma {:induction false} StaysEnd(st: Scan, s: string, d: int)
    requires Stays(st, s, d)
    ensures Run(st, s).Bad? || Run(st, s).depth >= d
    decreases |s|
  {
    if s != "" { StaysEnd(Step(st, s[0]), s[1..], d); }
  }

  /** From inside an object's brackets or literals, another object's text does not lead out. */
  lemma EndsInside(st: Scan, w: Json)
    requires st.Bad? || (!st.Esc? && st.depth >= 1)
    ensures Run(st, Canon(w)) != Out(0)
  {
    CanonBalanced(w);
    if st.Out? {
      assert Run(Out(st.depth), Canon(w)) == st;
    } else {
      assert Odd(st);
    }
  }

  lemma NoObjectInsideAnother(v: Json, x: string, w: Json)
    requires v.Obj? && w.Obj?
    ensures Canon(v) != x + ":" + Canon(w)
  {
    if Canon(v) == x + ":" + Canon(w) {
      InsideObject(v, x + ":", Canon(w));
      AfterColon(Out(0), x);
      EndsInside(Run(Out(0), x + ":"), w);
      RunConcat(Out(0), x + ":", Canon(w));
      EndsOutside(v);
    }
  }

  lemma AfterColon(st: Scan, x: string)
    ensures !Run(st, x + ":").Esc?
  {
    RunConcat(st, x, ":");
    RunOne(Run(st, x), ':');
  }

  lemma EndsOutside(v: Json)
    ensures Run(Out(0), Canon(v)) == Out(0)
  {
    CanonBalanced(v);
  }

  /** Two calls have the same key exactly when they name the same tool and their arguments are equal up to
      key order, whatever characters the names hold. */
  lemma KeyComplete(m: string, v: Json, n: string, w: Json)
    requires v.Obj? && w.Obj? && Valid(v) && Valid(w)
    ensures Key(m, v) == Key(n, w) <==> m == n && Equiv(v, w)
  {
    CanonComplete(v, w);
    if Key(m, v) == Key(n, w) {
      KeyLength(m, v, n, w);
      KeyLength(n, w, m, v);
      Assoc(m, ":", Canon(v));
      Assoc(n, ":", Canon(w));
      Cut(m, ":" + Canon(v), n, ":" + Canon(w));
      Cut(":", Canon(v), ":", Canon(w));
    }
  }

  lemma KeyLength(m: string, v: Json, n: string, w: Json)
    requires v.Obj? && w.Obj? && Key(m, v) == Key(n, w)
    ensures |n| <= |m|
  {
    if |m| < |n| {
      var x := n[|m| + 1..];
      assert Canon(v) == Key(m, v)[|m| + 1..];
      assert x + ":" + Canon(w) == Key(n, w)[|m| + 1..];
      NoObjectInsideAnother(v, x, w);
    }
  }
}
