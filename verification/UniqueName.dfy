/** File names that do not collide (collections/export-options.ts, uniqueName). Lower-casing is a parameter; all that is
    asked of it is that numbered names which differ in their number stay different. */
module UniqueName {
  import opened Common
  import opened Texts

  /** Position of the last dot, or -1. */
  function LastDot(name: string): (i: int)
    ensures -1 <= i < |name|
  {
    if name == "" then -1
    else if name[|name| - 1] == '.' then |name| - 1
    else LastDot(name[..|name| - 1])
  }

  function Stem(name: string): string {
    var dot := LastDot(name);
    if dot > 0 then name[..dot] else name
  }

  function Extension(name: string): string {
    var dot := LastDot(name);
    if dot > 0 then name[dot..] else ""
  }

  function Numbered(name: string, n: nat): string {
    Stem(name) + " (" + Decimal(n) + ")" + Extension(name)
  }

  lemma {:induction false} LastDotIs(name: string)
    ensures LastDot(name) >= 0 ==> name[LastDot(name)] == '.'
    ensures forall i: nat | LastDot(name) < i < |name| :: name[i] != '.'
  {
    if name != "" && name[|name| - 1] != '.' {
      var before := name[..|name| - 1];
      LastDotIs(before);
      forall i: nat | LastDot(name) < i < |name| ensures name[i] != '.' {
        if i < |before| { assert before[i] != '.'; }
      }
    }
  }

  /** The number goes in front of the extension: the part from the last dot, unless that dot begins the name. */
  lemma NumberGoesBeforeExtension(name: string)
    ensures Stem(name) + Extension(name) == name
    ensures Extension(name) != "" ==> Extension(name)[0] == '.' && '.' !in Extension(name)[1..] && Stem(name) != ""
    ensures Extension(name) == "" ==> forall i: nat | 0 < i < |name| :: name[i] != '.'
  {
    LastDotIs(name);
  }

  /** Lower-casing keeps the numbers of a name apart. */
  ghost predicate KeepsNumbers(lower: string -> string) {
    forall name: string, m: nat, n: nat :: lower(Numbered(name, m)) == lower(Numbered(name, n)) ==> m == n
  }

  // ------------------------------------------------- what the host's lower-casing does

  /** A lower-casing under which what stands around the number of a name does not depend on the number, and digits stay
      as they are. Letters may change with what surrounds them, as a final sigma does, and become several. */
  ghost predicate LeavesNumbers(lower: string -> string, before: string -> string, after: string -> string) {
    forall name: string, n: nat :: lower(Numbered(name, n)) == before(name) + (Decimal(n) + after(name))
  }

  lemma LeavingKeepsNumbers(lower: string -> string, before: string -> string, after: string -> string)
    requires LeavesNumbers(lower, before, after)
    ensures KeepsNumbers(lower)
  {
    forall name: string, m: nat, n: nat | lower(Numbered(name, m)) == lower(Numbered(name, n)) ensures m == n {
      SameMiddle(before(name), Decimal(m), Decimal(n), after(name));
      DecimalInjective(m, n);
    }
  }

  /** Each letter by itself, which may become several. */
  function Each(f: char -> string, s: string): string {
    if s == "" then "" else f(s[0]) + Each(f, s[1..])
  }

  lemma {:induction false} EachPlus(f: char -> string, s: string, t: string)
    ensures Each(f, s + t) == Each(f, s) + Each(f, t)
  {
    if s == "" {
      assert s + t == t;
    } else {
      assert (s + t)[1..] == s[1..] + t;
      EachPlus(f, s[1..], t);
    }
  }

  lemma {:induction false} EachFixed(f: char -> string, s: string)
    requires forall i: nat | i < |s| :: f(s[i]) == [s[i]]
    ensures Each(f, s) == s
  {
    if s != "" {
      assert f(s[0]) == [s[0]];
      EachFixed(f, s[1..]);
    }
  }

  lemma NumberedLower(f: char -> string, name: string, n: nat)
    requires forall c | IsDigit(c) :: f(c) == [c]
    ensures Each(f, Numbered(name, n)) == Each(f, Stem(name) + " (") + (Decimal(n) + Each(f, ")" + Extension(name)))
  {
    var a, b := Stem(name) + " (", ")" + Extension(name);
    assert Numbered(name, n) == a + (Decimal(n) + b);
    EachPlus(f, a, Decimal(n) + b);
    EachPlus(f, Decimal(n), b);
    EachFixed(f, Decimal(n));
  }

  lemma NumberStays(f: char -> string, name: string, m: nat, n: nat)
    requires forall c | IsDigit(c) :: f(c) == [c]
    requires Each(f, Numbered(name, m)) == Each(f, Numbered(name, n))
    ensures m == n
  {
    NumberedLower(f, name, m);
    NumberedLower(f, name, n);
    SameMiddle(Each(f, Stem(name) + " ("), Decimal(m), Decimal(n), Each(f, ")" + Extension(name)));
    DecimalInjective(m, n);
  }

  /** Any lower-casing that works letter by letter, to one letter or several, and leaves digits alone will do. */
  lemma LetterwiseKeepsNumbers(f: char -> string)
    requires forall c | IsDigit(c) :: f(c) == [c]
    ensures KeepsNumbers(s => Each(f, s))
  {
    var lower := s => Each(f, s);
    forall name: string, m: nat, n: nat | lower(Numbered(name, m)) == lower(Numbered(name, n)) ensures m == n {
      NumberStays(f, name, m, n);
    }
  }

  lemma SameMiddle(a: string, x: string, y: string, b: string)
    requires a + (x + b) == a + (y + b)
    ensures x == y
  {
    assert (a + (x + b))[|a|..] == x + b && (a + (y + b))[|a|..] == y + b;
    assert |x + b| == |y + b|;
    assert (x + b)[..|x|] == x && (y + b)[..|y|] == y;
  }

  // --------------------------------------------------------------------- allocation

  /** The plain name is taken and so are the numbers from 2 up to `n`. */
  ghost predicate TakenBelow(lower: string -> string, taken: set<string>, name: string, n: nat) {
    lower(name) in taken && forall k: nat | 2 <= k < n :: lower(Numbered(name, k)) in taken
  }

  /** The name itself when it is free, otherwise the free numbered name with the least number. */
  ghost predicate Allocated(lower: string -> string, taken: set<string>, name: string, got: string) {
    if lower(name) !in taken then got == name
    else exists n: nat :: 2 <= n <= |taken| + 2 && got == Numbered(name, n) && lower(got) !in taken
                          && TakenBelow(lower, taken, name, n)
  }

  lemma TakenAt(lower: string -> string, taken: set<string>, name: string, n: nat, k: nat)
    requires TakenBelow(lower, taken, name, n) && 2 <= k < n
    ensures lower(Numbered(name, k)) in taken
  {
  }

  lemma AllocatedUnique(lower: string -> string, taken: set<string>, name: string, got: string, other: string)
    requires Allocated(lower, taken, name, got) && Allocated(lower, taken, name, other)
    ensures got == other
  {
    if lower(name) in taken {
      var m: nat :| 2 <= m && got == Numbered(name, m) && lower(got) !in taken && TakenBelow(lower, taken, name, m);
      var n: nat :| 2 <= n && other == Numbered(name, n) && lower(other) !in taken && TakenBelow(lower, taken, name, n);
      if m < n { TakenAt(lower, taken, name, n, m); }
      if n < m { TakenAt(lower, taken, name, m, n); }
    }
  }

  /** The numbered candidates tried so far, which were all taken: as many members of `taken`. */
  ghost predicate Tried(lower: string -> string, taken: set<string>, name: string, n: nat, tried: set<string>) {
    && n >= 2 && tried <= taken && |tried| == n - 2
    && forall x | x in tried :: exists k: nat :: 2 <= k < n && x == lower(Numbered(name, k))
  }

  lemma NotTried(lower: string -> string, taken: set<string>, name: string, n: nat, tried: set<string>)
    requires KeepsNumbers(lower) && Tried(lower, taken, name, n, tried)
    ensures lower(Numbered(name, n)) !in tried
  {
    forall x | x in tried ensures x != lower(Numbered(name, n)) {
      var k: nat :| 2 <= k < n && x == lower(Numbered(name, k));
    }
  }

  lemma TriedMore(lower: string -> string, taken: set<string>, name: string, n: nat, tried: set<string>)
    requires KeepsNumbers(lower) && Tried(lower, taken, name, n, tried) && lower(Numbered(name, n)) in taken
    ensures Tried(lower, taken, name, n + 1, tried + {lower(Numbered(name, n))})
  {
    NotTried(lower, taken, name, n, tried);
  }

  lemma TriedFit(lower: string -> string, taken: set<string>, name: string, n: nat, tried: set<string>)
    requires Tried(lower, taken, name, n, tried)
    ensures n <= |taken| + 2
  {
    SubsetSize(tried, taken);
  }

  /** What is taken after these names were given out. */
  function TakenWith(lower: string -> string, taken: set<string>, got: seq<string>): set<string>
    decreases |got|
  {
    if got == [] then taken
    else TakenWith(lower, taken, got[..|got| - 1]) + {lower(got[|got| - 1])}
  }

  /** Each name is the one allocated for what was asked, against the names taken before it. */
  ghost predicate AllNamed(lower: string -> string, taken: set<string>, names: seq<string>, got: seq<string>)
    decreases |names|
  {
    && |got| == |names|
    && (names == [] ||
        var n := |names| - 1;
        && AllNamed(lower, taken, names[..n], got[..n])
        && Allocated(lower, TakenWith(lower, taken, got[..n]), names[n], got[n]))
  }

  /** That determines the names of a whole export. */
  lemma {:induction false} AllNamedUnique(lower: string -> string, taken: set<string>, names: seq<string>,
                                          got: seq<string>, other: seq<string>)
    requires AllNamed(lower, taken, names, got) && AllNamed(lower, taken, names, other)
    ensures got == other
    decreases |names|
  {
    if names != [] {
      var n := |names| - 1;
      AllNamedUnique(lower, taken, names[..n], got[..n], other[..n]);
      AllocatedUnique(lower, TakenWith(lower, taken, got[..n]), names[n], got[n], other[n]);
      assert got == got[..n] + [got[n]] && other == other[..n] + [other[n]];
    }
  }

  ghost predicate GivenOut(lower: string -> string, got: seq<string>, x: string) {
    exists i: nat :: i < |got| && x == lower(got[i])
  }

  lemma GivenOutMore(lower: string -> string, got: seq<string>, name: string)
    ensures forall x :: GivenOut(lower, got + [name], x) <==> GivenOut(lower, got, x) || x == lower(name)
    ensures forall i: nat | i < |got| :: GivenOut(lower, got, lower(got[i]))
  {
    forall x ensures GivenOut(lower, got + [name], x) <==> GivenOut(lower, got, x) || x == lower(name) {
      assert (got + [name])[|got|] == name;
      if GivenOut(lower, got, x) {
        var i: nat :| i < |got| && x == lower(got[i]);
        assert (got + [name])[i] == got[i];
      }
    }
  }

  /** Names allocated one after the other are new, and no two agree in lower case. */
  lemma {:induction false} NamesApart(lower: string -> string, taken: set<string>, names: seq<string>, got: seq<string>)
    requires AllNamed(lower, taken, names, got)
    ensures forall i: nat, j: nat | i < j < |got| :: lower(got[i]) != lower(got[j])
    ensures forall i: nat | i < |got| :: lower(got[i]) !in taken
    ensures forall x :: x in TakenWith(lower, taken, got) <==> x in taken || GivenOut(lower, got, x)
    decreases |names|
  {
    if names != [] {
      var n := |names| - 1;
      NamesApart(lower, taken, names[..n], got[..n]);
      GivenOutMore(lower, got[..n], got[n]);
      assert got == got[..n] + [got[n]];
      forall i: nat | i < n ensures lower(got[i]) != lower(got[n]) && lower(got[i]) !in taken {
        assert GivenOut(lower, got[..n], lower(got[..n][i])) && got[..n][i] == got[i];
      }
      forall i: nat, j: nat | i < j < n ensures lower(got[i]) != lower(got[j]) {
        assert got[..n][i] == got[i] && got[..n][j] == got[j];
      }
    }
  }

  lemma NamedMore(lower: string -> string, taken: set<string>, names: seq<string>, k: nat, got: seq<string>,
                  name: string)
    requires k < |names| && AllNamed(lower, taken, names[..k], got)
    requires Allocated(lower, TakenWith(lower, taken, got), names[k], name)
    ensures AllNamed(lower, taken, names[..k + 1], got + [name])
    ensures TakenWith(lower, taken, got + [name]) == TakenWith(lower, taken, got) + {lower(name)}
  {
    assert names[..k + 1][..k] == names[..k] && (got + [name])[..k] == got;
  }

  /** The names given out in one folder, lower-cased. */
  class Folder {
    const lower: string -> string
    var taken: set<string>

    constructor (lower: string -> string)
      ensures this.lower == lower && taken == {}
    {
      this.lower := lower;
      taken := {};
    }

    /** Ends because only finitely many numbers can be taken. */
    method UniqueName(name: string) returns (candidate: string)
      requires KeepsNumbers(lower)
      modifies this
      ensures Allocated(lower, old(taken), name, candidate)
      ensures lower(candidate) !in old(taken)
      ensures taken == old(taken) + {lower(candidate)}
    {
      candidate := name;
      if lower(name) in taken {
        candidate := FirstFree(name);
      }
      taken := taken + {lower(candidate)};
    }

    method FirstFree(name: string) returns (candidate: string)
      requires KeepsNumbers(lower) && lower(name) in taken
      ensures Allocated(lower, taken, name, candidate) && lower(candidate) !in taken
    {
      var n := 2;
      candidate := Numbered(name, n);
      ghost var tried: set<string> := {};
      while lower(candidate) in taken
        invariant n >= 2 && candidate == Numbered(name, n)
        invariant TakenBelow(lower, taken, name, n)
        invariant Tried(lower, taken, name, n, tried)
        decreases |taken| + 2 - n
      {
        TriedMore(lower, taken, name, n, tried);
        tried := tried + {lower(candidate)};
        n := n + 1;
        TriedFit(lower, taken, name, n, tried);
        candidate := Numbered(name, n);
      }
      TriedFit(lower, taken, name, n, tried);
    }

    /** A whole list of files: no two names agree in lower case, and none was taken before. */
    method NameAll(names: seq<string>) returns (got: seq<string>)
      requires KeepsNumbers(lower)
      modifies this
      ensures AllNamed(lower, old(taken), names, got) && taken == TakenWith(lower, old(taken), got)
      ensures forall i: nat, j: nat | i < j < |got| :: lower(got[i]) != lower(got[j])
      ensures forall i: nat | i < |got| :: lower(got[i]) !in old(taken)
      ensures forall x :: x in taken <==> x in old(taken) || GivenOut(lower, got, x)
    {
      got := [];
      for k := 0 to |names|
        invariant |got| == k && AllNamed(lower, old(taken), names[..k], got) && taken == TakenWith(lower, old(taken), got)
      {
        var name := UniqueName(names[k]);
        NamedMore(lower, old(taken), names, k, got, name);
        got := got + [name];
      }
      assert names[..|names|] == names;
      NamesApart(lower, old(taken), names, got);
    }
  }
}
