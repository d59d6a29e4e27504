/**
 Mask arithmetic on 64-bit words (src/align.rs) and the powers of two beneath it.

 A word is a natural number below 2^64; `And` is the bitwise conjunction, defined bit by
 bit, so that what the masks of `round_up`, `round_down` and `is_aligned` compute is
 proved rather than assumed.
 */
module Align {

  function Pow2(k: nat): (r: nat)
    ensures r >= 1
  {
    if k == 0 then 1 else 2 * Pow2(k - 1)
  }

  const WORD: nat := 0x1_0000_0000_0000_0000

  /** Bitwise conjunction. */
  function And(x: nat, y: nat): nat {
    if x == 0 || y == 0 then 0 else 2 * And(x / 2, y / 2) + (x % 2) * (y % 2)
  }

  /** Bitwise complement of a word. */
  function Not(x: nat): nat
    requires x < WORD
  {
    WORD - 1 - x
  }

  ghost predicate IsPow2(a: nat) {
    exists k: nat :: k < 64 && a == Pow2(k)
  }

  /** x is a multiple of a. */
  ghost predicate Multiple(x: nat, a: nat) {
    exists k: nat :: x == k * a
  }

  /** The mask functions, additions wrapping at 2^64. */
  function RoundUp(x: nat, a: nat): nat
    requires 1 <= a <= WORD
  {
    And((x + a - 1) % WORD, Not(a - 1))
  }

  function RoundDown(x: nat, a: nat): nat
    requires 1 <= a <= WORD
  {
    And(x, Not(a - 1))
  }

  predicate IsAligned(x: nat, a: nat)
    requires 1 <= a
  {
    And(x, a - 1) == 0
  }

  // ------------------------------------------------------------------

  lemma {:induction false} Pow2Add(j: nat, k: nat)
    ensures Pow2(j + k) == Pow2(j) * Pow2(k)
  {
    if j > 0 {
      Pow2Add(j - 1, k);
      assert Pow2(j + k) == 2 * Pow2(j - 1 + k);
      assert 2 * (Pow2(j - 1) * Pow2(k)) == (2 * Pow2(j - 1)) * Pow2(k);
    }
  }

  lemma {:induction false} Pow2Grows(j: nat, k: nat)
    requires j < k
    ensures 2 * Pow2(j) <= Pow2(k)
  {
    if j + 1 < k { Pow2Grows(j, k - 1); }
  }

  lemma Pow2Of64()
    ensures Pow2(64) == WORD
  {
    assert Pow2(8) == 256;
    Pow2Add(8, 8);
    Pow2Add(16, 16);
    Pow2Add(32, 32);
  }

  lemma Pow2Multiple(j: nat, k: nat)
    requires j <= k
    ensures Multiple(Pow2(k), Pow2(j))
  {
    Pow2Add(k - j, j);
  }

  lemma MultipleSum(x: nat, y: nat, a: nat)
    requires Multiple(x, a) && Multiple(y, a)
    ensures Multiple(x + y, a)
  {
    var i: nat :| x == i * a;
    var j: nat :| y == j * a;
    assert x + y == (i + j) * a;
  }

  lemma MultipleProduct(x: nat, m: nat, a: nat)
    requires Multiple(x, a)
    ensures Multiple(m * x, a)
  {
    var i: nat :| x == i * a;
    assert m * x == (m * i) * a by {
      assert m * (i * a) == (m * i) * a;
    }
  }

  lemma MultipleTransitive(x: nat, b: nat, a: nat)
    requires Multiple(x, b) && Multiple(b, a)
    ensures Multiple(x, a)
  {
    var i: nat :| x == i * b;
    MultipleProduct(b, i, a);
  }

  lemma MultipleMod(x: nat, a: nat)
    requires a >= 1
    ensures Multiple(x, a) <==> x % a == 0
  {
    if Multiple(x, a) {
      var i: nat :| x == i * a;
      ModOfProduct(i, a);
    }
    assert x == (x / a) * a + x % a;
  }

  lemma ProductBound(d: int, a: int)
    requires a >= 1
    ensures d >= 1 ==> d * a >= a
    ensures d <= -1 ==> d * a <= -a
  {
  }

  lemma ModOfProduct(i: nat, a: nat)
    requires a >= 1
    ensures (i * a) % a == 0
  {
    UniqueMod(i * a, a, i, 0);
  }

  lemma UniqueMod(x: nat, a: nat, q: nat, r: nat)
    requires a >= 1 && x == q * a + r && r < a
    ensures x % a == r && x / a == q
  {
    var q', r' := x / a, x % a;
    assert x == q' * a + r';
    assert (q - q') * a == r' - r;
    ProductBound(q - q', a);
  }

  // ------------------------------------------------------------------
  // What the masks do

  lemma {:induction false} AndAllOnes(x: nat, w: nat)
    requires x < Pow2(w)
    ensures And(x, Pow2(w) - 1) == x
  {
    if x > 0 {
      assert (Pow2(w) - 1) / 2 == Pow2(w - 1) - 1 && (Pow2(w) - 1) % 2 == 1;
      AndAllOnes(x / 2, w - 1);
    }
  }

  lemma HalfMod(x: nat, k: nat)
    requires k >= 1
    ensures x % Pow2(k) == 2 * ((x / 2) % Pow2(k - 1)) + x % 2
  {
    var p := Pow2(k - 1);
    var q, r := (x / 2) / p, (x / 2) % p;
    assert x / 2 == q * p + r;
    assert x == q * (2 * p) + (2 * r + x % 2);
    UniqueMod(x, 2 * p, q, 2 * r + x % 2);
  }

  /** Masking with the complement of 2^k - 1 in w bits clears the low k bits. */
  lemma {:induction false} AndClearsLow(x: nat, w: nat, k: nat)
    requires k <= w && x < Pow2(w)
    ensures Pow2(k) <= Pow2(w)
    ensures And(x, Pow2(w) - Pow2(k)) == x - x % Pow2(k)
  {
    if k < w { Pow2Grows(k, w); }
    if k == 0 {
      AndAllOnes(x, w);
    } else {
      HalfMod(x, k);
      var y := Pow2(w) - Pow2(k);
      assert y / 2 == Pow2(w - 1) - Pow2(k - 1) && y % 2 == 0;
      AndClearsLow(x / 2, w - 1, k - 1);
      if x == 0 { } else if y == 0 { assert x % Pow2(k) == x; }
    }
  }

  /** Masking with 2^k - 1 keeps the low k bits. */
  lemma {:induction false} AndKeepsLow(x: nat, k: nat)
    ensures And(x, Pow2(k) - 1) == x % Pow2(k)
  {
    if k > 0 {
      HalfMod(x, k);
      assert (Pow2(k) - 1) / 2 == Pow2(k - 1) - 1 && (Pow2(k) - 1) % 2 == 1;
      AndKeepsLow(x / 2, k - 1);
    }
  }

  lemma WordMask(x: nat, k: nat)
    requires x < WORD && k < 64
    ensures Pow2(k) <= WORD && And(x, Not(Pow2(k) - 1)) == x - x % Pow2(k)
  {
    var w := 64;
    Pow2Of64();
    Pow2Grows(k, w);
    AndClearsLow(x, w, k);
  }

  /** `round_up` is the least multiple of a that is not below x. */
  lemma RoundUpIsLeast(x: nat, a: nat)
    requires IsPow2(a) && x + a - 1 < WORD
    ensures 1 <= a <= WORD && Multiple(RoundUp(x, a), a) && x <= RoundUp(x, a) < x + a
  {
    var k: nat :| k < 64 && a == Pow2(k);
    var y := x + a - 1;
    assert y % WORD == y;
    WordMask(y, k);
    FloorIsMultiple(y, a);
    assert RoundUp(x, a) == y - y % a;
  }

  /** `round_down` is the greatest multiple of a that is not above x. */
  lemma RoundDownIsGreatest(x: nat, a: nat)
    requires IsPow2(a) && x < WORD
    ensures 1 <= a <= WORD && Multiple(RoundDown(x, a), a) && RoundDown(x, a) <= x < RoundDown(x, a) + a
  {
    var k: nat :| k < 64 && a == Pow2(k);
    WordMask(x, k);
    FloorIsMultiple(x, a);
  }

  /** `is_aligned` tests for a multiple. */
  lemma IsAlignedIsMultiple(x: nat, a: nat)
    requires IsPow2(a)
    ensures IsAligned(x, a) <==> Multiple(x, a)
  {
    var k: nat :| k < 64 && a == Pow2(k);
    AndKeepsLow(x, k);
    MultipleMod(x, a);
  }

  lemma FloorIsMultiple(x: nat, a: nat)
    requires a >= 1
    ensures Multiple(x - x % a, a)
  {
    assert x - x % a == (x / a) * a;
  }

  /** Two multiples of a closer than a are equal. */
  lemma MultiplesApart(x: nat, y: nat, a: nat)
    requires Multiple(x, a) && Multiple(y, a) && x <= y < x + a
    ensures x == y
  {
    var i: nat :| x == i * a;
    var j: nat :| y == j * a;
    assert y - x == (j - i) * a;
    if a >= 1 { ProductBound(j - i, a); }
  }

  /** Distinct multiples of a are at least a apart. */
  lemma MultipleStep(x: nat, y: nat, a: nat)
    requires Multiple(x, a) && Multiple(y, a) && x < y
    ensures x + a <= y
  {
    if y < x + a { MultiplesApart(x, y, a); }
  }
}
