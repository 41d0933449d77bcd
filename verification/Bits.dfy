/** Bit operations on natural numbers, and the division they amount to. */
module Bits {

  function Pow2(n: nat): (p: nat)
    ensures p > 0
  {
    if n == 0 then 1 else 2 * Pow2(n - 1)
  }

  const WORD := 0x1_0000_0000

  /** Bitwise AND, bit by bit. */
  function And(x: nat, y: nat): nat
    decreases x
  {
    if x == 0 || y == 0 then 0 else 2 * And(x / 2, y / 2) + if x % 2 == 1 && y % 2 == 1 then 1 else 0
  }

  /** Bitwise OR, bit by bit. */
  function Or(x: nat, y: nat): nat
    decreases x
  {
    if x == 0 then y else 2 * Or(x / 2, y / 2) + if x % 2 == 1 || y % 2 == 1 then 1 else 0
  }

  /** Right shift of a non-negative number. */
  function Shr(x: nat, k: nat): nat
    decreases k
  {
    if k == 0 then x else Shr(x / 2, k - 1)
  }

  /** `k` left shifts of a 32-bit pattern: the bit that leaves the word is lost. */
  function Shl32(x: nat, k: nat): nat {
    if k == 0 then x else Shl32(x, k - 1) * 2 % WORD
  }

  /** The language's `<<`: the count is taken modulo 32. */
  function Shl(x: nat, count: nat): nat {
    Shl32(x, count % 32)
  }

  /** Left shift without a word size. */
  function Up(x: nat, k: nat): nat {
    if k == 0 then x else 2 * Up(x, k - 1)
  }

  function Ones(n: nat): nat {
    if n == 0 then 0 else 2 * Ones(n - 1) + 1
  }

  // ------------------------------------------------------------------- division

  lemma AtLeast(m: nat, k: nat)
    requires k > 0
    ensures m * k >= m
  {
  }

  lemma Difference(m: int, q: int, d: int)
    ensures m * (q - d) == m * q - m * d
  {
  }

  lemma EuclidUnique(m: nat, q: nat, r: nat, d: nat, e: nat)
    requires m * q + r == m * d + e && r < m && e < m
    ensures q == d
  {
    Difference(m, q, d);
    Difference(m, d, q);
    if q > d { AtLeast(m, q - d); }
    if q < d { AtLeast(m, d - q); }
  }

  lemma Quotient(x: nat, m: nat)
    requires m > 0
    ensures x / m >= 0 && 0 <= x - m * (x / m) < m
  {
  }

  lemma TwiceProduct(p: nat, d: nat)
    ensures (2 * p) * d == 2 * (p * d)
  {
  }

  lemma HalfThenDivide(x: nat, p: nat)
    requires p > 0
    ensures (x / 2) / p == x / (2 * p)
  {
    Quotient(x / 2, p);
    Quotient(x, 2 * p);
    var d, q := (x / 2) / p, x / (2 * p);
    TwiceProduct(p, d);
    EuclidUnique(2 * p, q, x - (2 * p) * q, d, x - (2 * p) * d);
  }

  /** A right shift by `k` divides by `2^k`. */
  lemma {:induction false} ShrDivides(x: nat, k: nat)
    ensures Shr(x, k) == x / Pow2(k)
    decreases k
  {
    if k > 0 {
      ShrDivides(x / 2, k - 1);
      HalfThenDivide(x, Pow2(k - 1));
    }
  }

  lemma {:induction false} ShrTwice(x: nat, m: nat, n: nat)
    ensures Shr(x, m + n) == Shr(Shr(x, m), n)
    decreases m
  {
    if m > 0 {
      ShrTwice(x / 2, m - 1, n);
    }
  }

  lemma {:induction false} ShrBelow(x: nat, k: nat, n: nat)
    requires x < Pow2(k + n)
    ensures Shr(x, k) < Pow2(n)
    decreases k
  {
    if k > 0 {
      ShrBelow(x / 2, k - 1, n);
    }
  }

  // -------------------------------------------------------------- masks and joins

  lemma AndEven(x: nat, y: nat)
    ensures And(x, 2 * y) == 2 * And(x / 2, y)
  {
    assert (2 * y) / 2 == y && (2 * y) % 2 == 0;
    assert x / 2 == 0 ==> And(x / 2, y) == 0;
  }

  lemma AndOdd(x: nat, y: nat)
    ensures And(x, 2 * y + 1) == 2 * And(x / 2, y) + x % 2
  {
    assert (2 * y + 1) / 2 == y && (2 * y + 1) % 2 == 1;
  }

  /** `n` ones keep the low `n` bits: what they drop is the rest. */
  lemma {:induction false} AndOnes(x: nat, n: nat)
    ensures x == And(x, Ones(n)) + Up(Shr(x, n), n)
    decreases n
  {
    if n == 0 {
    } else {
      AndOdd(x, Ones(n - 1));
      AndOnes(x / 2, n - 1);
    }
  }

  /** A mask of ones above `k` zeros drops the low `k` bits. */
  lemma {:induction false} AndMask(x: nat, ones: nat, k: nat)
    ensures And(x, Up(ones, k)) == Up(And(Shr(x, k), ones), k)
    decreases k
  {
    if k > 0 {
      AndEven(x, Up(ones, k - 1));
      AndMask(x / 2, ones, k - 1);
    }
  }

  lemma {:induction false} UpZero(k: nat)
    ensures Up(0, k) == 0
  {
    if k > 0 { UpZero(k - 1); }
  }

  lemma {:induction false} UpInjective(x: nat, y: nat, k: nat)
    requires Up(x, k) == Up(y, k)
    ensures x == y
  {
    if k > 0 { UpInjective(x, y, k - 1); }
  }

  lemma {:induction false} ShrZero(x: nat, n: nat)
    requires x < Pow2(n)
    ensures Shr(x, n) == 0
    decreases n
  {
    if n > 0 { ShrZero(x / 2, n - 1); }
  }

  lemma AndAll(x: nat, n: nat)
    requires x < Pow2(n)
    ensures And(x, Ones(n)) == x
  {
    AndOnes(x, n);
    ShrZero(x, n);
    UpZero(n);
  }

  /** Two numbers agree under a mask of `n` ones above `k` zeros exactly when they agree after dropping `k` bits. */
  lemma MaskedEqual(x: nat, y: nat, n: nat, k: nat)
    requires x < Pow2(k + n) && y < Pow2(k + n)
    ensures And(x, Up(Ones(n), k)) == And(y, Up(Ones(n), k)) <==> x / Pow2(k) == y / Pow2(k)
  {
    AndMask(x, Ones(n), k);
    AndMask(y, Ones(n), k);
    ShrBelow(x, k, n);
    ShrBelow(y, k, n);
    AndAll(Shr(x, k), n);
    AndAll(Shr(y, k), n);
    if Up(Shr(x, k), k) == Up(Shr(y, k), k) {
      UpInjective(Shr(x, k), Shr(y, k), k);
    }
    ShrDivides(x, k);
    ShrDivides(y, k);
  }

  lemma OrEven(x: nat, y: nat)
    ensures Or(2 * x, y) == 2 * Or(x, y / 2) + y % 2
  {
    assert (2 * x) / 2 == x && (2 * x) % 2 == 0;
  }

  lemma {:induction false} OrZero(x: nat)
    ensures Or(x, 0) == x
    decreases x
  {
    if x > 0 { OrZero(x / 2); }
  }

  /** Bits joined to a number that has zeros in their place are added to it. */
  lemma {:induction false} OrJoin(x: nat, k: nat, y: nat)
    requires y < Pow2(k)
    ensures Or(Up(x, k), y) == Up(x, k) + y
    decreases k
  {
    if k == 0 {
      OrZero(x);
    } else {
      OrJoin(x, k - 1, y / 2);
      OrEven(Up(x, k - 1), y);
    }
  }

  lemma {:induction false} UpPlus(x: nat, y: nat, k: nat)
    ensures Up(x, k) + Up(y, k) == Up(x + y, k)
  {
    if k > 0 { UpPlus(x, y, k - 1); }
  }

  /** Dropping low bits of a number whose high part starts above them. */
  lemma {:induction false} ShrSum(high: nat, x: nat, m: nat, n: nat)
    ensures Shr(Up(high, m + n) + x, m) == Up(high, n) + Shr(x, m)
    decreases m
  {
    if m > 0 {
      assert (2 * Up(high, m - 1 + n) + x) / 2 == Up(high, m - 1 + n) + x / 2;
      ShrSum(high, x / 2, m - 1, n);
    }
  }

  /** High part and low part of a number are determined by it. */
  lemma {:induction false} SplitUnique(a: nat, u: nat, b: nat, v: nat, n: nat)
    requires u < Pow2(n) && v < Pow2(n) && Up(a, n) + u == Up(b, n) + v
    ensures a == b && u == v
    decreases n
  {
    if n > 0 {
      SplitUnique(a, u / 2, b, v / 2, n - 1);
    }
  }

  // ------------------------------------------------------------------ 32-bit words

  lemma Pow2At32()
    ensures Pow2(32) == WORD
  {
    assert Pow2(8) == 0x100;
    assert Pow2(16) == 0x1_0000;
    assert Pow2(24) == 0x100_0000;
  }

  lemma {:induction false} UpOnes(n: nat, k: nat)
    ensures Up(Ones(n), k) + Pow2(k) == Pow2(n + k)
    decreases k, n
  {
    if k > 0 {
      UpOnes(n, k - 1);
    } else if n > 0 {
      UpOnes(n - 1, 0);
    }
  }

  /** Shifting a word of ones up leaves ones above zeros. */
  lemma {:induction false} ShiftedOnes(k: nat)
    requires k <= 32
    ensures Shl32(WORD - 1, k) == Up(Ones(32 - k), k)
  {
    Pow2At32();
    UpOnes(32 - k, k);
    if k == 0 {
    } else {
      ShiftedOnes(k - 1);
      UpOnes(32 - (k - 1), k - 1);
      Pow2Monotone(k, 32);
    }
  }

  lemma {:induction false} Pow2Monotone(m: nat, n: nat)
    requires m <= n
    ensures Pow2(m) <= Pow2(n)
    decreases n - m
  {
    if m < n { Pow2Monotone(m + 1, n); }
  }

  /** A shift that loses nothing. */
  lemma {:induction false} ShiftFits(x: nat, k: nat)
    requires Up(x, k) < WORD
    ensures Shl32(x, k) == Up(x, k)
  {
    if k > 0 { ShiftFits(x, k - 1); }
  }

  lemma UpByte(x: nat, k: nat)
    ensures Up(x, k + 8) == Up(256 * x, k)
  {
    UpSome(x, k, 8);
    assert Up(x, 1) == 2 * x;
    assert Up(x, 2) == 4 * x;
    assert Up(x, 3) == 8 * x;
    assert Up(x, 4) == 16 * x;
    assert Up(x, 5) == 32 * x;
    assert Up(x, 6) == 64 * x;
    assert Up(x, 7) == 128 * x;
    assert Up(x, 8) == 256 * x;
  }

  lemma {:induction false} UpSome(x: nat, k: nat, n: nat)
    ensures Up(x, k + n) == Up(Up(x, n), k)
    decreases k
  {
    if k > 0 { UpSome(x, k - 1, n); }
  }

  lemma {:induction false} UpBelow(x: nat, k: nat, n: nat)
    requires x < Pow2(n)
    ensures Up(x, k) < Pow2(n + k)
    decreases k
  {
    if k > 0 { UpBelow(x, k - 1, n); }
  }

  /** A number of `n` bits shifted within the word. */
  lemma ShlFits(x: nat, k: nat, n: nat)
    requires x < Pow2(n) && n + k <= 32 && k < 32
    ensures Shl(x, k) == Up(x, k)
  {
    hide Pow2, Up;
    UpBelow(x, k, n);
    Pow2Monotone(n + k, 32);
    Pow2At32();
    ShiftFits(x, k);
  }

  lemma {:induction false} OnesAndOnes(m: nat, n: nat)
    requires n <= m
    ensures And(Ones(m), Ones(n)) == Ones(n)
    decreases n
  {
    if n > 0 {
      OnesAndOnes(m - 1, n - 1);
      AndOdd(Ones(m), Ones(n - 1));
      assert Ones(m) / 2 == Ones(m - 1) && Ones(m) % 2 == 1;
    }
  }

  /** Ones above `k` zeros, cut to the low `n` bits. */
  lemma {:induction false} CutMask(m: nat, k: nat, n: nat)
    requires k <= n <= m + k
    ensures And(Up(Ones(m), k), Ones(n)) == Up(Ones(n - k), k)
    decreases k
  {
    if k == 0 {
      OnesAndOnes(m, n);
    } else {
      CutMask(m, k - 1, n - 1);
      AndOdd(Up(Ones(m), k), Ones(n - 1));
      assert Up(Ones(m), k) / 2 == Up(Ones(m), k - 1) && Up(Ones(m), k) % 2 == 0;
    }
  }

  lemma ShlOnes(k: nat)
    requires k < 32
    ensures Shl(WORD - 1, k) == Up(Ones(32 - k), k)
  {
    ShiftedOnes(k);
  }
}
