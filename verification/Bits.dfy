/** 32-bit machine words as bounded naturals, with C's shifts and bitwise operators defined
    bit by bit. Everything about masks and packed fields in the project rests on the lemmas here. */
module Bits {

  /** The values of a `uint32_t` (also of a pointer, on this 32-bit target). */
  type Word = x: int | 0 <= x < 0x1_0000_0000

  /** The result of 32-bit arithmetic: reduction modulo 2^32. (The cases but the last are redundant;
      they spare the proofs a division.) */
  function Wrap(x: int): Word {
    if 0 <= x < 0x1_0000_0000 then x
    else if -0x1_0000_0000 <= x < 0 then x + 0x1_0000_0000
    else if 0x1_0000_0000 <= x < 0x2_0000_0000 then x - 0x1_0000_0000
    else x % 0x1_0000_0000
  }

  function Pow2(k: nat): (p: nat)
    ensures p >= 1
  {
    if k == 0 then 1 else 2 * Pow2(k - 1)
  }

  /** `x << k`, without truncation. */
  function Shl(x: nat, k: nat): (r: nat)
    ensures r >= x
  {
    if k == 0 then x else 2 * Shl(x, k - 1)
  }

  /** `x >> k`. */
  function Shr(x: nat, k: nat): (r: nat)
    ensures r <= x
  {
    if k == 0 then x else Shr(x / 2, k - 1)
  }

  /** The low `k` bits of `x`. */
  function Low(x: nat, k: nat): (r: nat)
    ensures r <= x && r < Pow2(k)
  {
    if k == 0 then 0 else x % 2 + 2 * Low(x / 2, k - 1)
  }

  /** Bit `k` of `x`. */
  function Bit(x: nat, k: nat): (b: nat)
    ensures b <= 1
  {
    if k == 0 then x % 2 else Bit(x / 2, k - 1)
  }

  function And(a: nat, b: nat): (r: nat)
    ensures r <= a && r <= b
  {
    if a == 0 || b == 0 then 0
    else (if a % 2 == 1 && b % 2 == 1 then 1 else 0) + 2 * And(a / 2, b / 2)
  }

  function Or(a: nat, b: nat): (r: nat)
    ensures a <= r && b <= r <= a + b
  {
    if a == 0 then b
    else if b == 0 then a
    else (if a % 2 == 1 || b % 2 == 1 then 1 else 0) + 2 * Or(a / 2, b / 2)
  }

  // ----- multiplication and division ------------------------------------------------

  lemma MulMono(a: int, b: int, d: int)
    requires a <= b && 0 <= d
    ensures a * d <= b * d
  {
    assert (b - a) * d >= 0;
  }

  lemma DivModUnique(x: int, y: int, d: int)
    requires 0 <= y < d
    ensures (x * d + y) / d == x && (x * d + y) % d == y
  {
    var n := x * d + y;
    var q := n / d;
    assert n == d * q + n % d && d * q == q * d;
    assert (x + 1) * d == x * d + d && (q + 1) * d == q * d + d;
    if q > x {
      MulMono(x + 1, q, d);
    } else if q < x {
      MulMono(q + 1, x, d);
    }
  }

  lemma {:induction false} Pow2Add(j: nat, k: nat)
    ensures Pow2(j + k) == Pow2(j) * Pow2(k)
  {
    if j != 0 {
      Pow2Add(j - 1, k);
      assert Pow2(j + k) == 2 * (Pow2(j - 1) * Pow2(k)) == 2 * Pow2(j - 1) * Pow2(k);
    }
  }

  lemma {:induction false} Pow2Mono(j: nat, k: nat)
    requires j <= k
    ensures Pow2(j) <= Pow2(k)
    decreases k
  {
    if j < k { Pow2Mono(j, k - 1); }
  }

  /** Distinct powers of two differ by a factor of two at least. */
  lemma Pow2StrictMono(j: nat, k: nat)
    requires j < k
    ensures 2 * Pow2(j) <= Pow2(k)
  {
    Pow2Mono(j + 1, k);
  }

  lemma Pow2Values()
    ensures Pow2(4) == 16 && Pow2(5) == 32 && Pow2(24) == 0x100_0000 && Pow2(28) == 0x1000_0000
    ensures Pow2(31) == 0x8000_0000 && Pow2(32) == 0x1_0000_0000
  {
    assert Pow2(8) == 0x100 && Pow2(16) == 0x1_0000;
    assert Pow2(24) == 0x100_0000;
    assert Pow2(28) == 0x1000_0000;
    assert Pow2(32) == 0x1_0000_0000;
  }

  // ----- shifts ---------------------------------------------------------------------

  lemma {:induction false} ShlIsMul(x: nat, k: nat)
    ensures Shl(x, k) == x * Pow2(k)
  {
    if k != 0 {
      ShlIsMul(x, k - 1);
      assert 2 * (x * Pow2(k - 1)) == x * (2 * Pow2(k - 1));
    }
  }

  lemma Shl5(x: nat)
    ensures Shl(x, 5) == 32 * x
  {
    ShlIsMul(x, 5);
  }

  lemma {:induction false} ShrLow(x: nat, k: nat)
    ensures x == Shl(Shr(x, k), k) + Low(x, k)
  {
    if k != 0 { ShrLow(x / 2, k - 1); }
  }

  lemma ShrIsDiv(x: nat, k: nat)
    ensures Shr(x, k) == x / Pow2(k) && Low(x, k) == x % Pow2(k)
  {
    ShrLow(x, k);
    ShlIsMul(Shr(x, k), k);
    DivModUnique(Shr(x, k), Low(x, k), Pow2(k));
  }

  /** Extracting the two parts of a word packed from a high and a low field. */
  lemma {:induction false} ShrOfSum(a: nat, b: nat, k: nat)
    requires b < Pow2(k)
    ensures Shr(Shl(a, k) + b, k) == a && Low(Shl(a, k) + b, k) == b
  {
    if k != 0 {
      assert (Shl(a, k) + b) / 2 == Shl(a, k - 1) + b / 2;
      ShrOfSum(a, b / 2, k - 1);
    }
  }

  lemma FieldsOf(u: nat, a: nat, b: nat, k: nat)
    requires u == Shl(a, k) + b && b < Pow2(k)
    ensures Shr(u, k) == a && Low(u, k) == b
  {
    ShrOfSum(a, b, k);
  }

  lemma {:induction false} ShrSum(x: nat, j: nat, k: nat)
    ensures Shr(Shr(x, j), k) == Shr(x, j + k)
  {
    if j != 0 { ShrSum(x / 2, j - 1, k); }
  }

  lemma {:induction false} ShlSum(x: nat, j: nat, k: nat)
    ensures Shl(Shl(x, j), k) == Shl(x, j + k)
    decreases k
  {
    if k != 0 { ShlSum(x, j, k - 1); }
  }

  /** A right shift commutes with OR. */
  lemma {:induction false} ShrOfOr(x: nat, y: nat, k: nat)
    ensures Shr(Or(x, y), k) == Or(Shr(x, k), Shr(y, k))
  {
    if k != 0 {
      OrStep(x, y);
      Halved(Or(x, y), Or(x / 2, y / 2), if x % 2 == 1 || y % 2 == 1 then 1 else 0);
      ShrOfOr(x / 2, y / 2, k - 1);
    }
  }

  lemma {:induction false} ShrOfOnes(n: nat, k: nat)
    requires k <= n
    ensures Shr(Pow2(n) - 1, k) == Pow2(n - k) - 1
  {
    if k != 0 {
      assert (Pow2(n) - 1) / 2 == Pow2(n - 1) - 1;
      ShrOfOnes(n - 1, k - 1);
    }
  }

  lemma {:induction false} BitOfShr(x: nat, k: nat)
    ensures Bit(x, k) == Shr(x, k) % 2
  {
    if k != 0 { BitOfShr(x / 2, k - 1); }
  }

  // ----- AND, OR --------------------------------------------------------------------

  lemma OrStep(x: nat, y: nat)
    ensures Or(x, y) == (if x % 2 == 1 || y % 2 == 1 then 1 else 0) + 2 * Or(x / 2, y / 2)
  {
  }

  lemma AndStep(x: nat, y: nat)
    ensures And(x, y) == (if x % 2 == 1 && y % 2 == 1 then 1 else 0) + 2 * And(x / 2, y / 2)
  {
  }

  lemma Halved(u: nat, x: nat, b: nat)
    requires u == 2 * x + b && b <= 1
    ensures u / 2 == x && u % 2 == b
  {
  }

  lemma {:induction false} OrBelow(b: nat, d: nat, k: nat)
    requires b < Pow2(k) && d < Pow2(k)
    ensures Or(b, d) < Pow2(k)
  {
    if k != 0 {
      OrBelow(b / 2, d / 2, k - 1);
      OrStep(b, d);
    }
  }

  lemma OrByHalves(u: nat, x: nat, v: nat, y: nat, e: nat, f: nat)
    requires u == 2 * x + e && v == 2 * y + f && e <= 1 && f <= 1
    ensures Or(u, v) == 2 * Or(x, y) + (if e == 1 || f == 1 then 1 else 0)
  {
    Halved(u, x, e);
    Halved(v, y, f);
    OrStep(u, v);
  }

  /** The low bits of an OR are the OR of the low bits. */
  lemma {:induction false} LowOfOr(x: nat, y: nat, k: nat)
    ensures Low(Or(x, y), k) == Or(Low(x, k), Low(y, k))
  {
    if k != 0 {
      LowOfOr(x / 2, y / 2, k - 1);
      LowOfHalves(x, y, k, Or(x / 2, y / 2), Low(x / 2, k - 1), Low(y / 2, k - 1));
    }
  }

  lemma LowOfHalves(x: nat, y: nat, k: nat, u: nat, p: nat, q: nat)
    requires k != 0 && u == Or(x / 2, y / 2) && p == Low(x / 2, k - 1) && q == Low(y / 2, k - 1)
    requires Low(u, k - 1) == Or(p, q)
    ensures Low(Or(x, y), k) == Or(Low(x, k), Low(y, k))
  {
    var bit := if x % 2 == 1 || y % 2 == 1 then 1 else 0;
    OrStep(x, y);
    OrByHalves(Low(x, k), p, Low(y, k), q, x % 2, y % 2);
    LowStep(Or(x, y), u, bit, k);
  }

  lemma LowStep(u: nat, x: nat, b: nat, k: nat)
    requires u == 2 * x + b && b <= 1 && k > 0
    ensures Low(u, k) == 2 * Low(x, k - 1) + b
  {
    Halved(u, x, b);
  }

  /** OR distributes over a split into high and low parts. */
  lemma OrSplit(u: nat, v: nat, a: nat, b: nat, c: nat, d: nat, k: nat)
    requires u == Shl(a, k) + b && v == Shl(c, k) + d && b < Pow2(k) && d < Pow2(k)
    ensures Or(u, v) == Shl(Or(a, c), k) + Or(b, d)
  {
    FieldsOf(u, a, b, k);
    FieldsOf(v, c, d, k);
    OrParts(u, v, k);
  }

  lemma OrParts(x: nat, y: nat, k: nat)
    ensures Or(x, y) == Shl(Or(Shr(x, k), Shr(y, k)), k) + Or(Low(x, k), Low(y, k))
  {
    ShrOfOr(x, y, k);
    LowOfOr(x, y, k);
    ShrLow(Or(x, y), k);
  }

  /** Fields that share no bit: the union is the sum. */
  lemma OrDisjoint(a: nat, b: nat, k: nat)
    requires b < Pow2(k)
    ensures Or(Shl(a, k), b) == Shl(a, k) + b
  {
    ShlZero(k);
    OrSplit(Shl(a, k), b, a, 0, 0, b, k);
  }

  lemma OrDisjointLow(b: nat, a: nat, k: nat)
    requires b < Pow2(k)
    ensures Or(b, Shl(a, k)) == b + Shl(a, k)
  {
    ShlZero(k);
    OrSplit(b, Shl(a, k), 0, b, a, 0, k);
  }

  lemma {:induction false} ShlZero(k: nat)
    ensures Shl(0, k) == 0 && Shr(0, k) == 0
  {
    if k != 0 { ShlZero(k - 1); }
  }

  lemma {:induction false} ShlOne(k: nat)
    ensures Shl(1, k) == Pow2(k)
  {
    if k != 0 { ShlOne(k - 1); }
  }

  /** OR with an all-ones field of the same width. */
  lemma {:induction false} OrOnes(x: nat, k: nat)
    requires x < Pow2(k)
    ensures Or(x, Pow2(k) - 1) == Pow2(k) - 1
  {
    if k != 0 {
      OrByHalves(x, x / 2, Pow2(k) - 1, Pow2(k - 1) - 1, x % 2, 1);
      OrOnes(x / 2, k - 1);
    }
  }

  /** Masking with 2^k - 1 keeps the low k bits. */
  lemma {:induction false} AndLowMask(x: nat, k: nat)
    ensures And(x, Pow2(k) - 1) == Low(x, k)
  {
    if k != 0 {
      var m := Pow2(k) - 1;
      assert m % 2 == 1 && m / 2 == Pow2(k - 1) - 1;
      AndStep(x, m);
      AndLowMask(x / 2, k - 1);
    }
  }

  /** Masking with a shifted mask selects that field, in place. */
  lemma {:induction false} AndField(x: nat, m: nat, k: nat)
    ensures And(x, Shl(m, k)) == Shl(And(Shr(x, k), m), k)
  {
    if k != 0 {
      AndField(x / 2, m, k - 1);
      AndEvenMask(x, Shl(m, k), Shl(m, k - 1));
    }
  }

  lemma AndEvenMask(x: nat, u: nat, m: nat)
    requires u == 2 * m
    ensures And(x, u) == 2 * And(x / 2, m)
  {
    Halved(u, m, 0);
    AndStep(x, u);
  }

  /** Extracting the field of `w` bits at position `k` with mask and shift. */
  lemma MaskedField(x: nat, w: nat, k: nat)
    ensures And(x, Shl(Pow2(w) - 1, k)) == Shl(x / Pow2(k) % Pow2(w), k)
    ensures Shr(And(x, Shl(Pow2(w) - 1, k)), k) == x / Pow2(k) % Pow2(w)
  {
    AndField(x, Pow2(w) - 1, k);
    AndLowMask(Shr(x, k), w);
    ShrIsDiv(x, k);
    ShrIsDiv(Shr(x, k), w);
    ShrOfSum(x / Pow2(k) % Pow2(w), 0, k);
  }

  /** OR with a single bit sets it ... */
  lemma {:induction false} OrBit(x: nat, k: nat)
    ensures Or(x, Pow2(k)) == x + (if Bit(x, k) == 1 then 0 else Pow2(k))
  {
    OrStep(x, Pow2(k));
    if k == 0 {
      assert Or(x / 2, 0) == x / 2;
    } else {
      OrBit(x / 2, k - 1);
    }
  }

  /** ... and leaves every other bit alone. */
  lemma {:induction false} OrBitFrame(x: nat, k: nat, i: nat)
    ensures Bit(Or(x, Pow2(k)), i) == if i == k then 1 else Bit(x, i)
  {
    OrStep(x, Pow2(k));
    if k == 0 {
      assert Or(x / 2, 0) == x / 2;
    } else if i != 0 {
      OrBitFrame(x / 2, k - 1, i - 1);
    }
  }

  /** AND with the complement of a single bit clears it. */
  lemma {:induction false} AndClearBit(x: nat, mask: nat, k: nat, n: nat)
    requires k < n && x < Pow2(n) && mask + Pow2(k) == Pow2(n) - 1
    ensures And(x, mask) == x - (if Bit(x, k) == 1 then Pow2(k) else 0)
  {
    if k == 0 {
      AndClearLowBit(x, mask, n);
    } else {
      AndClearBit(x / 2, mask / 2, k - 1, n - 1);
      AndOddMask(x, mask, mask / 2);
    }
  }

  lemma AndOddMask(x: nat, u: nat, m: nat)
    requires u == 2 * m + 1
    ensures And(x, u) == x % 2 + 2 * And(x / 2, m)
  {
    Halved(u, m, 1);
    AndStep(x, u);
  }

  lemma AndClearLowBit(x: nat, mask: nat, n: nat)
    requires n > 0 && x < Pow2(n) && mask == Pow2(n) - 2
    ensures And(x, mask) == x - x % 2
  {
    var m := Pow2(n - 1) - 1;
    AndEvenMask(x, mask, m);
    AndLowMask(x / 2, n - 1);
    LowSmall(x / 2, n - 1);
  }

  /** A set bit is worth its power of two ... */
  lemma {:induction false} BitLe(x: nat, k: nat)
    ensures Bit(x, k) == 1 ==> Pow2(k) <= x
  {
    if k != 0 { BitLe(x / 2, k - 1); }
  }

  /** ... and a clear one leaves room for it. */
  lemma {:induction false} BitRoom(x: nat, k: nat, n: nat)
    requires k < n && x < Pow2(n) && Bit(x, k) == 0
    ensures x + Pow2(k) < Pow2(n)
  {
    if k == 0 {
      assert Pow2(n) == 2 * Pow2(n - 1);
    } else {
      BitRoom(x / 2, k - 1, n - 1);
    }
  }

  lemma {:induction false} ShrZero(x: nat, k: nat)
    ensures Shr(x, k) == 0 <==> x < Pow2(k)
  {
    if k != 0 { ShrZero(x / 2, k - 1); }
  }

  /** The OR of two words is a word. */
  lemma Or32(x: nat, y: nat)
    requires x < 0x1_0000_0000 && y < 0x1_0000_0000
    ensures Or(x, y) < 0x1_0000_0000
  {
    Pow2Values();
    OrBelow(x, y, 32);
  }

  lemma {:induction false} LowSmall(x: nat, k: nat)
    requires x < Pow2(k)
    ensures Low(x, k) == x && Shr(x, k) == 0
  {
    if k != 0 { LowSmall(x / 2, k - 1); }
  }
}
