/** "Did you mean" (assistant/arguments.ts): the edit distance computed in one array row, and the known name
    nearest to an unknown one. */
module EditDistance {
  import opened Common

  // -------------------------------------------------------------- the definition

  function Min(a: nat, b: nat): nat { if a < b then a else b }

  function Init(s: string): string
    requires s != ""
  {
    s[..|s| - 1]
  }

  function End(s: string): char
    requires s != ""
  {
    s[|s| - 1]
  }

  /** Levenshtein's distance. */
  function Lev(a: string, b: string): nat
    decreases |a| + |b|
  {
    if a == "" then |b|
    else if b == "" then |a|
    else Min(Min(Lev(Init(a), b) + 1, Lev(a, Init(b)) + 1),
             Lev(Init(a), Init(b)) + if End(a) == End(b) then 0 else 1)
  }

  // ------------------------------------------------------------------ the scripts

  datatype Edit = Keep | Delete | Insert(c: char) | Substitute(c: char)

  function Cost(script: seq<Edit>): nat {
    if script == [] then 0 else Cost(script[..|script| - 1]) + if script[|script| - 1].Keep? then 0 else 1
  }

  /** The text a script makes of `a`, when it consumes exactly `a`. */
  function Apply(script: seq<Edit>, a: string): Option<string>
    decreases |script|
  {
    if script == [] then (if a == "" then Some("") else None)
    else
      var before, last := script[..|script| - 1], script[|script| - 1];
      if !last.Insert? && a == "" then None
      else
        var b := Apply(before, if last.Insert? then a else Init(a));
        if b == None then None
        else match last
          case Keep => Some(b.value + [End(a)])
          case Delete => b
          case Insert(c) => Some(b.value + [c])
          case Substitute(c) => Some(b.value + [c])
  }

  /** A cheapest script. */
  function Best(a: string, b: string): seq<Edit>
    decreases |a| + |b|
  {
    if a == "" && b == "" then []
    else if a == "" then Best(a, Init(b)) + [Insert(End(b))]
    else if b == "" then Best(Init(a), b) + [Delete]
    else if Lev(a, b) == Lev(Init(a), b) + 1 then Best(Init(a), b) + [Delete]
    else if Lev(a, b) == Lev(a, Init(b)) + 1 then Best(a, Init(b)) + [Insert(End(b))]
    else Best(Init(a), Init(b)) + [if End(a) == End(b) then Keep else Substitute(End(b))]
  }

  lemma LastEdit(script: seq<Edit>, e: Edit)
    ensures (script + [e])[..|script|] == script
    ensures Cost(script + [e]) == Cost(script) + if e.Keep? then 0 else 1
  {
    assert (script + [e])[..|script|] == script;
  }

  lemma LastInsert(script: seq<Edit>, c: char, a: string, b: string)
    requires Apply(script, a) == Some(b)
    ensures Apply(script + [Insert(c)], a) == Some(b + [c])
  {
    LastEdit(script, Insert(c));
  }

  lemma LastDelete(script: seq<Edit>, a: string, b: string)
    requires a != "" && Apply(script, Init(a)) == Some(b)
    ensures Apply(script + [Delete], a) == Some(b)
  {
    LastEdit(script, Delete);
  }

  lemma LastOver(script: seq<Edit>, e: Edit, a: string, b: string)
    requires a != "" && Apply(script, Init(a)) == Some(b) && (e.Keep? || e.Substitute?)
    ensures Apply(script + [e], a) == Some(b + [if e.Keep? then End(a) else e.c])
  {
    LastEdit(script, e);
  }

  lemma Whole(b: string)
    requires b != ""
    ensures Init(b) + [End(b)] == b
  {
  }

  lemma {:induction false} BestWorks(a: string, b: string)
    ensures Apply(Best(a, b), a) == Some(b)
    ensures Cost(Best(a, b)) == Lev(a, b)
    decreases |a| + |b|
  {
    if a == "" && b == "" {
    } else if b == "" || (a != "" && Lev(a, b) == Lev(Init(a), b) + 1) {
      BestWorks(Init(a), b);
      LastEdit(Best(Init(a), b), Delete);
      LastDelete(Best(Init(a), b), a, b);
    } else if a == "" || Lev(a, b) == Lev(a, Init(b)) + 1 {
      BestWorks(a, Init(b));
      LastEdit(Best(a, Init(b)), Insert(End(b)));
      LastInsert(Best(a, Init(b)), End(b), a, Init(b));
      Whole(b);
    } else {
      BestWorks(Init(a), Init(b));
      BestOver(a, b);
    }
  }

  lemma BestOver(a: string, b: string)
    requires a != "" && b != "" && Lev(a, b) != Lev(Init(a), b) + 1 && Lev(a, b) != Lev(a, Init(b)) + 1
    requires Apply(Best(Init(a), Init(b)), Init(a)) == Some(Init(b))
    requires Cost(Best(Init(a), Init(b))) == Lev(Init(a), Init(b))
    ensures Apply(Best(a, b), a) == Some(b)
    ensures Cost(Best(a, b)) == Lev(a, b)
  {
    var e := if End(a) == End(b) then Keep else Substitute(End(b));
    LastEdit(Best(Init(a), Init(b)), e);
    LastOver(Best(Init(a), Init(b)), e, a, Init(b));
    Whole(b);
  }

  /** No script is cheaper. */
  lemma {:induction false} NoScriptCheaper(script: seq<Edit>, a: string, b: string)
    requires Apply(script, a) == Some(b)
    ensures Lev(a, b) <= Cost(script)
    decreases |script|
  {
    if script != [] {
      var before, last := script[..|script| - 1], script[|script| - 1];
      var b' := Apply(before, if last.Insert? then a else Init(a)).value;
      NoScriptCheaper(before, if last.Insert? then a else Init(a), b');
      if last.Delete? {
        assert b == b';
      } else {
        assert Init(b) == b';
      }
    }
  }

  /** The distance is the length of a shortest script of insertions, deletions and substitutions. */
  lemma LevIsShortestScript(a: string, b: string)
    ensures exists script :: Apply(script, a) == Some(b) && Cost(script) == Lev(a, b)
    ensures forall script | Apply(script, a) == Some(b) :: Lev(a, b) <= Cost(script)
  {
    BestWorks(a, b);
    forall script | Apply(script, a) == Some(b) ensures Lev(a, b) <= Cost(script) {
      NoScriptCheaper(script, a, b);
    }
  }

  // -------------------------------------------------------------------- a metric

  lemma {:induction false} LevSymmetric(a: string, b: string)
    ensures Lev(a, b) == Lev(b, a)
    decreases |a| + |b|
  {
    if a != "" && b != "" {
      LevSymmetric(Init(a), b);
      LevSymmetric(a, Init(b));
      LevSymmetric(Init(a), Init(b));
    }
  }

  lemma {:induction false} LevZeroIffEqual(a: string, b: string)
    ensures Lev(a, b) == 0 <==> a == b
    decreases |a| + |b|
  {
    if a != "" && b != "" {
      LevZeroIffEqual(Init(a), Init(b));
      assert a == Init(a) + [End(a)] && b == Init(b) + [End(b)];
      if a == b { assert Init(a) == Init(b); }
    }
  }

  /** One script after another, as a single one. */
  function Compose(s: seq<Edit>, t: seq<Edit>): seq<Edit>
    decreases |s| + |t|
  {
    if s == [] || (t != [] && t[|t| - 1].Insert?) then
      if t == [] then [] else Compose(s, t[..|t| - 1]) + [t[|t| - 1]]
    else
      var s', x := s[..|s| - 1], s[|s| - 1];
      if x.Delete? || t == [] then Compose(s', t) + [x]
      else
        var t', y := t[..|t| - 1], t[|t| - 1];
        match (x, y)
        case (Insert(_), Delete) => Compose(s', t')
        case (Insert(c), Keep) => Compose(s', t') + [Insert(c)]
        case (Insert(_), Substitute(c)) => Compose(s', t') + [Insert(c)]
        case (_, Delete) => Compose(s', t') + [Delete]
        case (_, Keep) => Compose(s', t') + [x]
        case (_, Substitute(c)) => Compose(s', t') + [Substitute(c)]
        case (_, Insert(c)) => Compose(s', t') + [Insert(c)]
  }

  lemma {:induction false} ComposeWorks(s: seq<Edit>, t: seq<Edit>, a: string, b: string, c: string)
    requires Apply(s, a) == Some(b) && Apply(t, b) == Some(c)
    ensures Apply(Compose(s, t), a) == Some(c) && Cost(Compose(s, t)) <= Cost(s) + Cost(t)
    decreases |s| + |t|
  {
    if t != [] && t[|t| - 1].Insert? {
      var t', y := t[..|t| - 1], t[|t| - 1];
      assert Init(Apply(t', b).value + [y.c]) == Apply(t', b).value;
      ComposeWorks(s, t', a, b, Init(c));
      LastEdit(Compose(s, t'), y);
      LastInsert(Compose(s, t'), y.c, a, Init(c));
    } else if s != [] && s[|s| - 1].Delete? {
      var s', x := s[..|s| - 1], s[|s| - 1];
      ComposeWorks(s', t, Init(a), b, c);
      LastEdit(Compose(s', t), x);
      LastDelete(Compose(s', t), a, c);
    } else if s != [] && t != [] {
      var s', x := s[..|s| - 1], s[|s| - 1];
      var t', y := t[..|t| - 1], t[|t| - 1];
      var a' := if x.Insert? then a else Init(a);
      var c' := if y.Delete? then c else Init(c);
      assert Init(Apply(s', a').value + [End(b)]) == Apply(s', a').value;
      assert y.Delete? || Init(Apply(t', Init(b)).value + [End(c)]) == Apply(t', Init(b)).value;
      ComposeWorks(s', t', a', Init(b), c');
      ComposeLast(s, t, a, b, c);
    }
  }

  lemma ComposeLast(s: seq<Edit>, t: seq<Edit>, a: string, b: string, c: string)
    requires s != [] && t != [] && !t[|t| - 1].Insert? && !s[|s| - 1].Delete?
    requires Apply(s, a) == Some(b) && Apply(t, b) == Some(c)
    requires var a' := if s[|s| - 1].Insert? then a else if a == "" then a else Init(a);
             var c' := if t[|t| - 1].Delete? || c == "" then c else Init(c);
             Apply(Compose(s[..|s| - 1], t[..|t| - 1]), a') == Some(c')
    requires Cost(Compose(s[..|s| - 1], t[..|t| - 1])) <= Cost(s[..|s| - 1]) + Cost(t[..|t| - 1])
    ensures Apply(Compose(s, t), a) == Some(c) && Cost(Compose(s, t)) <= Cost(s) + Cost(t)
  {
    var x, y := s[|s| - 1], t[|t| - 1];
    var rest := Compose(s[..|s| - 1], t[..|t| - 1]);
    if !y.Delete? { Whole(c); }
    if x.Insert? {
      if !y.Delete? {
        LastEdit(rest, Insert(End(c)));
        LastInsert(rest, End(c), a, Init(c));
      }
    } else if y.Delete? {
      LastEdit(rest, Delete);
      LastDelete(rest, a, c);
    } else {
      var e := if y.Keep? then x else y;
      LastEdit(rest, e);
      LastOver(rest, e, a, Init(c));
    }
  }

  lemma LevTriangle(a: string, b: string, c: string)
    ensures Lev(a, c) <= Lev(a, b) + Lev(b, c)
  {
    BestWorks(a, b);
    BestWorks(b, c);
    ComposeWorks(Best(a, b), Best(b, c), a, b, c);
    NoScriptCheaper(Compose(Best(a, b), Best(b, c)), a, c);
  }

  // --------------------------------------------------------------- the single row

  lemma LevCell(a: string, b: string, i: nat, j: nat)
    requires 0 < i <= |a| && 0 < j <= |b|
    ensures Lev(a[..i], b[..j])
         == Min(Min(Lev(a[..i - 1], b[..j]) + 1, Lev(a[..i], b[..j - 1]) + 1),
                Lev(a[..i - 1], b[..j - 1]) + if a[i - 1] == b[j - 1] then 0 else 1)
  {
    assert Init(a[..i]) == a[..i - 1] && Init(b[..j]) == b[..j - 1];
  }

  /** The row after the first `j` cells were overwritten for the `i`-th character of `a`. */
  ghost predicate RowAt(row: seq<nat>, a: string, b: string, i: nat, j: nat) {
    && 0 < i <= |a| && j <= |b| + 1 && |row| == |b| + 1
    && (forall k: nat | k < j :: row[k] == Lev(a[..i], b[..k]))
    && (forall k: nat | j <= k <= |b| :: row[k] == Lev(a[..i - 1], b[..k]))
  }

  lemma NextCell(row: seq<nat>, a: string, b: string, i: nat, j: nat, last: nat, cell: nat)
    requires RowAt(row, a, b, i, j) && 0 < j <= |b| && last == Lev(a[..i - 1], b[..j - 1])
    requires cell == Min(Min(row[j] + 1, row[j - 1] + 1), last + if a[i - 1] == b[j - 1] then 0 else 1)
    ensures RowAt(row[j := cell], a, b, i, j + 1)
  {
    hide Lev;
    LevCell(a, b, i, j);
  }

  lemma FirstCell(row: seq<nat>, a: string, b: string, i: nat)
    requires RowAt(row, a, b, i, 0)
    ensures RowAt(row[0 := i], a, b, i, 1)
  {
    assert b[..0] == "" && |a[..i]| == i;
  }

  lemma NextRow(row: seq<nat>, a: string, b: string, i: nat)
    requires RowAt(row, a, b, i, |b| + 1) && i < |a|
    ensures RowAt(row, a, b, i + 1, 0)
  {
  }

  lemma StartRow(row: seq<nat>, a: string, b: string)
    requires a != "" && |row| == |b| + 1 && forall k: nat | k <= |b| :: row[k] == k
    ensures RowAt(row, a, b, 1, 0)
  {
    assert a[..0] == "" && forall k: nat | k <= |b| :: |b[..k]| == k;
  }

  /** One row of the table, in place. */
  method OverwriteRow(prev: array<nat>, a: string, b: string, i: nat)
    requires RowAt(prev[..], a, b, i, 0)
    modifies prev
    ensures RowAt(prev[..], a, b, i, |b| + 1)
  {
    var last := prev[0];
    FirstCell(prev[..], a, b, i);
    prev[0] := i;
    for j := 1 to |b| + 1
      invariant last == Lev(a[..i - 1], b[..j - 1])
      invariant RowAt(prev[..], a, b, i, j)
    {
      var tmp := prev[j];
      var cell := Min(Min(prev[j] + 1, prev[j - 1] + 1), last + if a[i - 1] == b[j - 1] then 0 else 1);
      NextCell(prev[..], a, b, i, j, last, cell);
      prev[j] := cell;
      last := tmp;
    }
  }

  method Distance(a: string, b: string) returns (d: nat)
    ensures d == Lev(a, b)
  {
    var prev := new nat[|b| + 1]((i: nat) => i);
    if a != "" { StartRow(prev[..], a, b); }
    for i := 1 to |a| + 1
      invariant i <= |a| ==> RowAt(prev[..], a, b, i, 0)
      invariant i == |a| + 1 && a != "" ==> RowAt(prev[..], a, b, |a|, |b| + 1)
      invariant a == "" ==> prev[|b|] == |b|
    {
      OverwriteRow(prev, a, b, i);
      if i < |a| { NextRow(prev[..], a, b, i); }
    }
    d := prev[|b|];
    assert a[..|a|] == a && b[..|b|] == b && prev[..][|b|] == d;
  }

  // ---------------------------------------------------------------- nearest name

  predicate Occurs(s: string, t: string, i: nat)
    requires i <= |s|
  {
    t <= s[i..]
  }

  predicate Includes(s: string, t: string) {
    exists i: nat | i <= |s| :: Occurs(s, t, i)
  }

  /** Somewhere in the text, at its ends too, the other one stands. */
  lemma IncludesIff(s: string, t: string)
    ensures Includes(s, t) <==> exists before: string, after: string :: s == before + t + after
  {
    if Includes(s, t) {
      var i: nat :| i <= |s| && Occurs(s, t, i);
      assert s == s[..i] + t + s[i + |t|..];
    }
    if before: string, after: string :| s == before + t + after {
      assert s[|before|..] == t + after;
      assert Occurs(s, t, |before|);
    }
  }

  function DistanceTo(lower: string -> string, name: string, k: string): nat {
    Lev(lower(name), lower(k))
  }

  /** Of the first `i` known names, `k` is the first at the smallest distance. */
  ghost predicate FirstNearest(lower: string -> string, name: string, known: seq<string>, i: nat, k: nat) {
    && k < i <= |known|
    && (forall j: nat | j < i :: DistanceTo(lower, name, known[k]) <= DistanceTo(lower, name, known[j]))
    && (forall j: nat | j < k :: DistanceTo(lower, name, known[k]) < DistanceTo(lower, name, known[j]))
  }

  lemma OneFirstNearest(lower: string -> string, name: string, known: seq<string>, i: nat, k: nat, l: nat)
    requires FirstNearest(lower, name, known, i, k) && FirstNearest(lower, name, known, i, l)
    ensures k == l
  {
    var dk, dl := DistanceTo(lower, name, known[k]), DistanceTo(lower, name, known[l]);
    assert dk == dl;
  }

  predicate CloseEnough(lower: string -> string, name: string, k: string) {
    || DistanceTo(lower, name, k) <= (if |name| / 3 > 2 then |name| / 3 else 2)
    || Includes(lower(name), lower(k))
    || Includes(lower(k), lower(name))
  }

  /** The first known name at the smallest distance, if it is close enough; nothing otherwise. */
  ghost predicate Nearest(lower: string -> string, name: string, known: seq<string>, r: Option<string>) {
    if known == [] then r == None
    else exists k: nat :: FirstNearest(lower, name, known, |known|, k)
                          && r == if CloseEnough(lower, name, known[k]) then Some(known[k]) else None
  }

  lemma NearestUnique(lower: string -> string, name: string, known: seq<string>, r: Option<string>, s: Option<string>)
    requires Nearest(lower, name, known, r) && Nearest(lower, name, known, s)
    ensures r == s
  {
    if known != [] {
      var k: nat :| FirstNearest(lower, name, known, |known|, k)
                    && r == if CloseEnough(lower, name, known[k]) then Some(known[k]) else None;
      var l: nat :| FirstNearest(lower, name, known, |known|, l)
                    && s == if CloseEnough(lower, name, known[l]) then Some(known[l]) else None;
      OneFirstNearest(lower, name, known, |known|, k, l);
    }
  }

  method NearestName(lower: string -> string, name: string, known: seq<string>) returns (r: Option<string>)
    ensures Nearest(lower, name, known, r)
  {
    var best: Option<(nat, nat)> := None;
    for i := 0 to |known|
      invariant best == None <==> i == 0
      invariant best.Some? ==> FirstNearest(lower, name, known, i, best.value.0)
                               && best.value.1 == DistanceTo(lower, name, known[best.value.0])
    {
      var d := Distance(lower(name), lower(known[i]));
      if best == None || d < best.value.1 {
        best := Some((i, d));
      }
    }
    if best == None {
      return None;
    }
    var near := known[best.value.0];
    var within := if |name| / 3 > 2 then |name| / 3 else 2;
    var close := best.value.1 <= within || Includes(lower(name), lower(near)) || Includes(lower(near), lower(name));
    assert close == CloseEnough(lower, name, near);
    r := if close then Some(near) else None;
  }
}
