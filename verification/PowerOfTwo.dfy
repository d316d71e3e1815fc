/** The power-of-two helpers of malinternal.c. */
module PowerOfTwo {
  import opened Bits

  /** The number of significant bits of `x`. */
  function BitLength(x: nat): (n: nat)
    ensures x < Pow2(n)
    ensures n > 0 ==> Pow2(n - 1) <= x
  {
    if x == 0 then 0 else 1 + BitLength(x / 2)
  }

  /** The exponent of the least power of two that is at least `v`; see `CeilLog2Least`. */
  function CeilLog2(v: nat): nat
    requires v >= 1
  {
    BitLength(v - 1)
  }

  /** `CeilLog2` is the least exponent whose power reaches `v`. */
  lemma CeilLog2Least(v: nat, k: nat)
    requires v >= 1
    ensures v <= Pow2(k) <==> CeilLog2(v) <= k
  {
    var n := CeilLog2(v);
    if k < n { Pow2Mono(k, n - 1); } else { Pow2Mono(n, k); }
  }

  lemma {:induction false} BitLengthBound(x: nat, n: nat)
    requires x < Pow2(n)
    ensures BitLength(x) <= n
  {
    if BitLength(x) > n { Pow2Mono(n, BitLength(x) - 1); }
  }

  function Min(a: nat, b: nat): nat { if a <= b then a else b }

  /** The upper `t` of the `n` bits of `x` are all ones. */
  ghost predicate OnesFromTop(x: nat, n: nat, t: nat) {
    t <= n && x < Pow2(n) && Shr(x, n - t) == Pow2(t) - 1
  }

  /** One round `x |= x >> s` doubles the run of ones below the top bit. */
  lemma SmearStep(x: nat, n: nat, s: nat)
    requires OnesFromTop(x, n, Min(s, n))
    ensures OnesFromTop(Or(x, Shr(x, s)), n, Min(2 * s, n))
  {
    if s >= n {
      ShrZero(x, s);
      Pow2Mono(n, s);
    } else {
      SmearGrows(x, n, s, Min(2 * s, n) - s);
    }
  }

  lemma SmearGrows(x: nat, n: nat, s: nat, d: nat)
    requires OnesFromTop(x, n, s) && d <= s && s + d <= n
    ensures OnesFromTop(Or(x, Shr(x, s)), n, s + d)
  {
    SmearStaysBelow(x, n, s);
    SmearRun(x, n - s - d, s, d);
  }

  lemma SmearRun(x: nat, lo: nat, s: nat, d: nat)
    requires d <= s && Shr(x, lo + d) == Pow2(s) - 1
    ensures Shr(Or(x, Shr(x, s)), lo) == Pow2(s + d) - 1
  {
    ShrOfOr(x, Shr(x, s), lo);
    ShiftedRun(x, lo, s, d);
    ShrSum(x, lo, d);
    OnesJoin(Shr(x, lo), s, d);
  }

  lemma ShiftedRun(x: nat, lo: nat, s: nat, d: nat)
    requires d <= s && Shr(x, lo + d) == Pow2(s) - 1
    ensures Shr(Shr(x, s), lo) == Pow2(d) - 1
  {
    var e: nat := s - d;
    ShrSwap(x, s, lo, lo + d, e);
    ShrOfOnes(s, e);
  }

  lemma ShrSwap(x: nat, a: nat, b: nat, c: nat, d: nat)
    requires a + b == c + d
    ensures Shr(Shr(x, a), b) == Shr(Shr(x, c), d)
  {
    ShrSum(x, a, b);
    ShrSum(x, c, d);
  }

  lemma SmearStaysBelow(x: nat, n: nat, s: nat)
    requires x < Pow2(n)
    ensures Or(x, Shr(x, s)) < Pow2(n)
  {
    Pow2Mono(0, n);
    OrBelow(x, Shr(x, s), n);
  }

  /** `s` leading ones over `d` bits that are OR-ed with ones. */
  lemma OnesJoin(x: nat, s: nat, d: nat)
    requires Shr(x, d) == Pow2(s) - 1
    ensures Or(x, Pow2(d) - 1) == Pow2(s + d) - 1
  {
    var h := Pow2(s) - 1;
    ShrLow(x, d);
    OrLowPart(x, h, Low(x, d), Pow2(d) - 1, d);
    OrOnes(Low(x, d), d);
    ShlOnes(s, d);
  }

  lemma OrLowPart(x: nat, a: nat, b: nat, c: nat, k: nat)
    requires x == Shl(a, k) + b && b < Pow2(k) && c < Pow2(k)
    ensures Or(x, c) == Shl(a, k) + Or(b, c)
  {
    ShlZero(k);
    OrSplit(x, c, a, b, 0, c, k);
  }

  lemma {:induction false} ShlOnes(s: nat, d: nat)
    ensures Shl(Pow2(s) - 1, d) == Pow2(s + d) - Pow2(d)
  {
    if d != 0 {
      ShlOnes(s, d - 1);
      assert Pow2(s + d) == 2 * Pow2(s + (d - 1));
    }
  }

  /** next_pow2: the smearing trick yields the least power of two that is at least `v`, for every
      `v` whose answer fits 32 bits, and 0 for the other values. */
  method NextPow2(v0: Word) returns (v: Word)
    ensures 1 <= v0 <= 0x8000_0000 ==> v == Pow2(CeilLog2(v0))
    ensures v0 == 0 || v0 > 0x8000_0000 ==> v == 0
  {
    v := Wrap(v0 - 1);
    ghost var n := SmearExponent(v0, v);
    v := SmearAll(v, n);
    v := Wrap(v + 1);
  }

  /** The number of bits the smearing fills: within range the answer's exponent, otherwise 32. */
  lemma SmearExponent(v0: Word, x: Word) returns (n: nat)
    requires x == if v0 == 0 then 0xFFFF_FFFF else v0 - 1
    ensures n <= 32 && OnesFromTop(x, n, Min(1, n))
    ensures 1 <= v0 <= 0x8000_0000 ==> n == CeilLog2(v0) && Pow2(n) < 0x1_0000_0000
    ensures v0 == 0 || v0 > 0x8000_0000 ==> Pow2(n) == 0x1_0000_0000
  {
    SmearStart(x);
    n := BitLength(x);
    if 1 <= v0 <= 0x8000_0000 {
      SmearEnd(v0, n);
    } else {
      SmearOverflow(x, n);
    }
  }

  /** The five statements `v |= v >> s` of next_pow2. */
  method SmearAll(v0: Word, ghost n: nat) returns (v: Word)
    requires OnesFromTop(v0, n, Min(1, n)) && n <= 32
    ensures v == Pow2(n) - 1
  {
    v := Smear(v0, 1, n);
    v := Smear(v, 2, n);
    v := Smear(v, 4, n);
    v := Smear(v, 8, n);
    v := Smear(v, 16, n);
    AllOnes(v, n, 32);
  }

  lemma AllOnes(x: nat, n: nat, s: nat)
    requires OnesFromTop(x, n, Min(s, n)) && n <= s
    ensures x == Pow2(n) - 1
  {
  }

  lemma SmearStart(x: Word)
    ensures OnesFromTop(x, BitLength(x), Min(1, BitLength(x))) && BitLength(x) <= 32
  {
    Pow2Values();
    BitLengthBound(x, 32);
    if x > 0 { TopBit(x, BitLength(x)); }
  }

  method Smear(v: Word, s: nat, ghost n: nat) returns (r: Word)
    requires OnesFromTop(v, n, Min(s, n))
    ensures OnesFromTop(r, n, Min(2 * s, n))
  {
    Or32(v, Shr(v, s));
    SmearStep(v, n, s);
    r := Or(v, Shr(v, s));
  }

  /** The final increment: within range it reaches the least power of two ... */
  lemma SmearEnd(v0: Word, n: nat)
    requires 1 <= v0 <= 0x8000_0000 && n == CeilLog2(v0)
    ensures Pow2(n) < 0x1_0000_0000
  {
    Pow2Values();
    BitLengthBound(v0 - 1, 31);
    Pow2Mono(n, 31);
  }

  /** ... and out of range it wraps to zero. */
  lemma SmearOverflow(x: Word, n: nat)
    requires x >= 0x8000_0000 && n == BitLength(x) && n <= 32
    ensures Pow2(n) == 0x1_0000_0000
  {
    Pow2Values();
    if n < 32 { Pow2Mono(n, 31); }
  }

  lemma {:induction false} TopBit(x: nat, n: nat)
    requires n > 0 && Pow2(n - 1) <= x < Pow2(n)
    ensures Shr(x, n - 1) == 1
  {
    if n > 1 { TopBit(x / 2, n - 1); }
  }

  /** powlog2: the position of the highest set bit. */
  method Powlog2(v0: Word) returns (r: Word)
    ensures v0 > 0 ==> Pow2(r) <= v0 < Pow2(r + 1)
    ensures v0 == 0 ==> r == 0
    ensures r < 32
  {
    var v := v0;
    r := 0;
    v := Shr(v, 1);
    Pow2Values();
    while v != 0
      invariant r < 32 && v == Shr(v0, r + 1)
      invariant v0 > 0 ==> Shr(v0, r) != 0
      invariant v0 == 0 ==> r == 0
      decreases v
    {
      ShrSum(v0, r + 1, 1);
      r := r + 1;
      if r >= 32 { ShrZero(v0, r); Pow2Mono(32, r); }
      v := Shr(v, 1);
    }
    ShrZero(v0, r + 1);
    ShrZero(v0, r);
  }

  /** `powlog2` inverts `2^k`. */
  lemma Powlog2Unique(v: nat, r: nat, k: nat)
    requires v == Pow2(k) && Pow2(r) <= v < Pow2(r + 1)
    ensures r == k
  {
    if r < k { Pow2Mono(r + 1, k); } else if k < r { Pow2StrictMono(k, r); }
  }

  /** Some bit of a positive word is set. */
  lemma {:induction false} SomeBit(x: nat) returns (i: nat)
    requires x > 0
    ensures Bit(x, i) == 1
  {
    if x % 2 == 1 { i := 0; } else { i := SomeBit(x / 2); i := i + 1; }
  }

  /** What is left of the word after `n` steps of the loop of max_powlog2_alignment. */
  function LeftAfter(v: Word, n: nat): (w: nat)
    ensures w == Shr(v, 5 + n)
  {
    if n == 0 then Shr(v, 5)
    else
      ShrSum(v, 4 + n, 1);
      Shr(LeftAfter(v, n - 1), 1)
  }

  /** The loop finds a one, at whatever step, if and only if the word is at least 32; on 1 to 31, which are no
      addresses of a region, it goes on for ever. */
  lemma AlignmentSearchEnds(v: Word)
    ensures (exists n: nat :: And(LeftAfter(v, n), 1) == 1) <==> v >= 32
  {
    Pow2Values();
    ShrZero(v, 5);
    if v >= 32 {
      var n := SomeBit(Shr(v, 5));
      BitOfShr(Shr(v, 5), n);
      ShrSum(v, 5, n);
      AndLowMask(LeftAfter(v, n), 1);
      assert And(LeftAfter(v, n), 1) == 1;
    } else {
      forall n: nat ensures And(LeftAfter(v, n), 1) != 1 {
        ShrSum(v, 5, n);
        AndLowMask(LeftAfter(v, n), 1);
      }
    }
  }

  /** max_powlog2_alignment: 31 for address 0, otherwise the lowest bit set from bit 5 up. The other words are
      those on which its search does not end (`AlignmentSearchEnds`). */
  method MaxPowlog2Alignment(v0: Word) returns (r: Word)
    requires v0 == 0 || v0 >= 32
    ensures 5 <= r <= 31
    ensures v0 == 0 ==> r == 31
    ensures v0 != 0 ==> Bit(v0, r) == 1 && forall i: nat :: 5 <= i < r ==> Bit(v0, i) == 0
  {
    if v0 == 0 { return 31; }
    r := 4;
    var v: Word := Shr(v0, r);
    r := r + 1;
    v := Shr(v, 1);
    ShrSum(v0, 4, 1);
    Pow2Values();
    ShrLow(v0, 5);
    ShlZero(5);
    BitOfShr(v0, r);
    while And(v, 1) != 1
      invariant 5 <= r <= 31 && v >= 1
      invariant v == Shr(v0, r)
      invariant forall i: nat :: 5 <= i < r ==> Bit(v0, i) == 0
      decreases v
    {
      AndLowMask(v, 1);
      BitOfShr(v0, r);
      ShrSum(v0, r, 1);
      r := r + 1;
      v := Shr(v, 1);
      if r >= 32 {
        ShrZero(v0, 32);
        assert false;
      }
    }
    AndLowMask(v, 1);
    BitOfShr(v0, r);
  }

  /** On a nonzero multiple of 32 the result is exactly the number of trailing zeros. */
  lemma {:induction false} LowestBitIsAlignment(v: nat, r: nat)
    requires Bit(v, r) == 1 && forall i: nat :: i < r ==> Bit(v, i) == 0
    ensures v == Shl(2 * Shr(v, r + 1) + 1, r)
  {
    if r == 0 {
      assert Shr(v, 1) == v / 2;
    } else {
      assert Bit(v, 0) == 0;
      forall i: nat | i < r - 1 ensures Bit(v / 2, i) == 0 {
        assert Bit(v, i + 1) == 0;
      }
      LowestBitIsAlignment(v / 2, r - 1);
    }
  }

  /** is_power_of_two */
  predicate IsPowerOfTwo(v: Word) {
    v != 0 && And(v, Wrap(v - 1)) == 0
  }

  lemma {:induction false} AndSelf(x: nat)
    ensures And(x, x) == x
  {
    if x != 0 { AndSelf(x / 2); }
  }

  lemma ClearOdd(h: nat)
    ensures And(2 * h + 1, 2 * h) == 2 * h
    ensures h > 0 ==> 2 * h + 1 != Pow2(BitLength(h))
  {
    Halved(2 * h + 1, h, 1);
    AndEvenMask(2 * h + 1, 2 * h, h);
    AndSelf(h);
  }

  lemma AndPredecessor(h: nat)
    requires h > 0
    ensures And(2 * h, 2 * h - 1) == 2 * And(h, h - 1)
  {
    AndStep(2 * h, 2 * h - 1);
  }

  lemma {:induction false} ClearLowestBit(v: nat)
    requires v > 0
    ensures And(v, v - 1) == 0 <==> v == Pow2(BitLength(v) - 1)
  {
    assert BitLength(v) - 1 == BitLength(v / 2);
    if v % 2 == 1 {
      ClearOdd(v / 2);
    } else {
      ClearLowestBit(v / 2);
      AndPredecessor(v / 2);
    }
  }

  /** is_power_of_two accepts exactly the powers of two. */
  lemma IsPowerOfTwoCorrect(v: Word)
    ensures IsPowerOfTwo(v) <==> exists k: nat :: v == Pow2(k)
  {
    if v > 0 {
      ClearLowestBit(v);
      if k: nat :| v == Pow2(k) {
        Powlog2Unique(v, BitLength(v) - 1, k);
      }
    }
  }
}
