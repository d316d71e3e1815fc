/** largest_covering_MPU_region: the largest legal MPU region around an address inside a block.
    A legal region is dyadic: its size is a power of two and its base a multiple of the size. */
module CoveringRegion {
  import opened Bits
  import opened PowerOfTwo

  /** The base of the dyadic interval of size 2^j that contains `a`. */
  function Base(a: nat, j: nat): (b: nat)
  {
    Shl(Shr(a, j), j)
  }

  function Top(a: nat, j: nat): (t: nat) {
    Base(a, j) + Pow2(j)
  }

  /** The dyadic interval of size 2^j around `a` lies inside [start, end). */
  predicate Fits(start: nat, end: nat, a: nat, j: nat) {
    start <= Base(a, j) && Top(a, j) <= end
  }

  /** What the kernel guarantees of a block and of an address looked up in it; `end` is one past
      the last address. */
  predicate InDomain(start: nat, end: nat, a: nat) {
    Low(start, 5) == 0 && Low(end, 5) == 0 && start <= a < end <= 0x8000_0000
  }

  function SearchDown(start: nat, end: nat, a: nat, j: nat): (x: nat)
    ensures x <= j
    ensures Fits(start, end, a, x) || x == 0
    ensures forall k: nat :: x < k <= j ==> !Fits(start, end, a, k)
  {
    if j == 0 || Fits(start, end, a, j) then j else SearchDown(start, end, a, j - 1)
  }

  /** The specification: the largest exponent whose dyadic interval around `a` fits the block. */
  function CoverExp(start: nat, end: nat, a: nat): nat {
    SearchDown(start, end, a, 31)
  }

  // ----- dyadic intervals ------------------------------------------------------------

  lemma {:induction false} ShlAdd(x: nat, y: nat, k: nat)
    ensures Shl(x + y, k) == Shl(x, k) + Shl(y, k)
  {
    if k != 0 { ShlAdd(x, y, k - 1); }
  }

  lemma BaseContains(a: nat, j: nat)
    ensures Base(a, j) <= a < Top(a, j)
  {
    ShrLow(a, j);
  }

  /** The only dyadic interval of a given size that contains `a`. */
  lemma BaseUnique(a: nat, j: nat, p: nat)
    requires Shl(p, j) <= a < Shl(p, j) + Pow2(j)
    ensures Base(a, j) == Shl(p, j)
  {
    ShrOfSum(p, a - Shl(p, j), j);
  }

  /** An interval is the left or the right half of the next larger one. */
  lemma Parent(a: nat, j: nat)
    ensures Base(a, j + 1) == Base(a, j) || Base(a, j + 1) + Pow2(j) == Base(a, j)
  {
    var q := Shr(a, j);
    ShrSum(a, j, 1);
    assert Shr(a, j + 1) == q / 2;
    assert Base(a, j + 1) == 2 * Shl(q / 2, j);
    ShlAdd(q / 2, q / 2, j);
    if q % 2 == 1 {
      ShlAdd(2 * (q / 2), 1, j);
      ShlOne(j);
    }
  }

  lemma {:induction false} Nested(a: nat, j: nat, k: nat)
    requires j <= k
    ensures Base(a, k) <= Base(a, j) && Top(a, j) <= Top(a, k)
    decreases k
  {
    if j < k {
      Nested(a, j, k - 1);
      Parent(a, k - 1);
    }
  }

  lemma FitsMono(start: nat, end: nat, a: nat, j: nat, k: nat)
    requires j <= k && Fits(start, end, a, k)
    ensures Fits(start, end, a, j)
  {
    Nested(a, j, k);
  }

  /** A fitting exponent whose successor does not fit is the largest. */
  lemma CoverExpIs(start: nat, end: nat, a: nat, j: nat)
    requires j <= 31 && Fits(start, end, a, j)
    requires j == 31 || !Fits(start, end, a, j + 1)
    ensures CoverExp(start, end, a) == j
  {
    var x := CoverExp(start, end, a);
    if x > j { FitsMono(start, end, a, j + 1, x); }
  }

  /** The interval of size `n` around an address, by division. */
  lemma BaseIs(a: nat, j: nat, n: nat, q: nat)
    requires n == Pow2(j) && q * n <= a < q * n + n
    ensures Base(a, j) == q * n
  {
    ShrIsDiv(a, j);
    DivModUnique(q, a - q * n, n);
    ShlIsMul(q, j);
  }

  /** The covering region, when the intervals of its size and of the next larger one are known. */
  lemma CoverAt(start: nat, end: nat, a: nat, j: nat, n: nat, q: nat, q2: nat)
    requires j <= 30 && n == Pow2(j) && q * n <= a < q * n + n && q2 * (2 * n) <= a < q2 * (2 * n) + 2 * n
    requires start <= q * n && q * n + n <= end && (q2 * (2 * n) < start || end < q2 * (2 * n) + 2 * n)
    ensures CoverExp(start, end, a) == j && Base(a, j) == q * n
  {
    BaseIs(a, j, n, q);
    BaseIs(a, j + 1, 2 * n, q2);
    CoverExpIs(start, end, a, j);
  }

  /** The smallest region always fits, because blocks are made of 32-byte units. */
  lemma SmallestFits(start: nat, end: nat, a: nat)
    requires InDomain(start, end, a)
    ensures Fits(start, end, a, 5)
    ensures CoverExp(start, end, a) >= 5
  {
    ShrLow(start, 5); ShrLow(end, 5); ShrLow(a, 5);
    var s, e, q := Shr(start, 5), Shr(end, 5), Shr(a, 5);
    Shl5(s); Shl5(e); Shl5(q);
    assert Pow2(5) == 32;
    assert s <= q < e;
  }

  /** Any aligned power-of-two interval inside the block that covers `a` is no larger than the
      specified one: the exponent is the maximum over all legal regions, of whatever size. */
  lemma CoverExpMaximal(start: nat, end: nat, a: nat, p: nat, k: nat)
    requires InDomain(start, end, a)
    requires start <= Shl(p, k) <= a < Shl(p, k) + Pow2(k) <= end
    ensures k <= CoverExp(start, end, a)
  {
    BaseUnique(a, k, p);
    Pow2Values();
    if k > 31 { Pow2Mono(32, k); }
    assert Fits(start, end, a, k);
  }

  // ----- alignment of the two ends ---------------------------------------------------

  /** `r` is what max_powlog2_alignment answers for the nonzero address `v`. */
  ghost predicate IsAlignment(v: nat, r: nat) {
    5 <= r && Bit(v, r) == 1 && forall i: nat :: 5 <= i < r ==> Bit(v, i) == 0
  }

  lemma {:induction false} BitOfShl(q: nat, j: nat, i: nat)
    ensures Bit(Shl(q, j), i) == if i < j then 0 else Bit(q, i - j)
  {
    if j != 0 {
      assert Shl(q, j) / 2 == Shl(q, j - 1) && Shl(q, j) % 2 == 0;
      if i != 0 { BitOfShl(q, j - 1, i - 1); }
    }
  }

  /** A multiple of 2^j is aligned on 2^j at least, and better exactly when the factor is even. */
  lemma AlignmentOfShl(q: nat, j: nat, r: nat) returns (m: nat)
    requires j >= 5 && IsAlignment(Shl(q, j), r)
    ensures r >= j && Shl(q, j) == Shl(m, r) && m % 2 == 1
    ensures r == j <==> q % 2 == 1
  {
    var v := Shl(q, j);
    forall i: nat | i < r ensures Bit(v, i) == 0 {
      BitOfShl(q, j, i);
    }
    BitOfShl(q, j, r);
    BitOfShl(q, j, j);
    LowestBitIsAlignment(v, r);
    m := 2 * Shr(v, r + 1) + 1;
  }

  /** All intervals around `a` that end at a point aligned on 2^r, up to size 2^r. */
  lemma SharedTop(a: nat, top: nat, j: nat, r: nat, m: nat, k: nat)
    requires top == Top(a, j) == Shl(m, r) && m >= 1 && j <= k <= r
    ensures Top(a, k) == top && Pow2(k) <= top
  {
    BaseContains(a, j);
    Pow2Mono(j, k);
    ShlSum(m, r - k, k);
    var p := Shl(m, r - k);
    ShlAdd(p - 1, 1, k);
    ShlOne(k);
    BaseUnique(a, k, p - 1);
  }

  /** All intervals around `a` that begin at a point aligned on 2^r, up to size 2^r. */
  lemma SharedBase(a: nat, bottom: nat, j: nat, r: nat, m: nat, k: nat)
    requires bottom == Base(a, j) == Shl(m, r) && j <= k <= r
    ensures Base(a, k) == bottom
  {
    BaseContains(a, j);
    Pow2Mono(j, k);
    ShlSum(m, r - k, k);
    BaseUnique(a, k, Shl(m, r - k));
  }

  lemma BaseZero(a: nat, j: nat, k: nat)
    requires Base(a, j) == 0 && j <= k <= 31
    ensures Base(a, k) == 0
  {
    ShlZero(31);
    SharedBase(a, 0, j, 31, 0, k);
  }

  /** The situation at the top of the source's loop: the candidate is the interval of exponent `j`
      around `a`, and the alignments `t` and `b` of its two ends have been computed. */
  ghost predicate Candidate(start: nat, end: nat, a: nat, bottom: nat, top: nat, j: nat) {
    && InDomain(start, end, a)
    && 5 <= j <= 31 && Fits(start, end, a, j)
    && bottom == Base(a, j) && top == Top(a, j)
  }

  ghost predicate AlignedAs(v: nat, r: nat) {
    if v == 0 then r == 31 else r <= 31 && IsAlignment(v, r)
  }

  /** The end with the better alignment is shared by all larger candidates up to that alignment. */
  lemma BetterEnd(start: nat, end: nat, a: nat, bottom: nat, top: nat, j: nat, t: nat, b: nat)
    requires Candidate(start, end, a, bottom, top, j) && AlignedAs(top, t) && AlignedAs(bottom, b)
    ensures t > b ==> t > j && forall k: nat :: j <= k <= t ==> Top(a, k) == top && Pow2(k) <= top
    ensures t <= b ==> (b > j || j == 31) && b >= j
    ensures t <= b ==> forall k: nat :: j <= k <= b ==> Base(a, k) == bottom
  {
    var q := Shr(a, j);
    ShlAdd(q, 1, j);
    ShlOne(j);
    var mt := AlignmentOfShl(q + 1, j, t);
    if bottom == 0 {
      forall k: nat | j <= k <= b ensures Base(a, k) == bottom {
        BaseZero(a, j, k);
      }
    } else {
      var mb := AlignmentOfShl(q, j, b);
      if t > b {
        forall k: nat | j <= k <= t ensures Top(a, k) == top && Pow2(k) <= top {
          SharedTop(a, top, j, t, mt, k);
        }
      } else {
        forall k: nat | j <= k <= b ensures Base(a, k) == bottom {
          SharedBase(a, bottom, j, b, mb, k);
        }
      }
    }
  }

  // ----- the algorithm ---------------------------------------------------------------

  /** The candidate the loop starts from. */
  lemma FirstCandidate(start: Word, end: Word, a: Word)
    requires InDomain(start, end, a)
    ensures Candidate(start, end, a, And(a, 0xFFFF_FFE0), Wrap(And(a, 0xFFFF_FFE0) + 32), 5)
    ensures Fits(start, end, a, CoverExp(start, end, a))
    ensures Pow2(31) == 0x8000_0000
  {
    Pow2Values();
    AlignDown32(a);
    SmallestFits(start, end, a);
  }

  /** The region computed by the source equals the specified one. The ghost `j` is the exponent of
      the current candidate; every pass raises it until a break or the fixed point [0, 2^31), so
      the 32 passes of the source always suffice. No addition or subtraction wraps. */
  method LargestCoveringMpuRegion(start: Word, lastAddr: Word, a: Word) returns (bottom: Word, top: Word)
    requires InDomain(start, lastAddr + 1, a)
    ensures bottom == Base(a, CoverExp(start, lastAddr + 1, a))
    ensures top == Top(a, CoverExp(start, lastAddr + 1, a))
    ensures start <= bottom <= a < top <= lastAddr + 1
  {
    var endAddr := lastAddr + 1;
    FirstCandidate(start, endAddr, a);
    BaseContains(a, CoverExp(start, endAddr, a));
    bottom := And(a, 0xFFFF_FFE0);
    top := Wrap(bottom + 32);
    ghost var j := 5;
    var i := 0;
    while i < 32
      invariant 0 <= i <= 32
      invariant Candidate(start, endAddr, a, bottom, top, j)
      invariant j >= 5 + i || j == 31
    {
      CandidateEnds(start, endAddr, a, bottom, top, j);
      var t := MaxPowlog2Alignment(top);
      var b := MaxPowlog2Alignment(bottom);
      BetterEnd(start, endAddr, a, bottom, top, j, t, b);
      var done;
      if t > b {
        bottom, done, j := KeepTop(start, endAddr, a, top, t, j);
      } else {
        top, done, j := KeepBottom(start, endAddr, a, bottom, b, j);
      }
      if done { return; }
      i := i + 1;
    }
    CoverExpIs(start, endAddr, a, 31);
  }

  /** The first branch of the loop: `top` is kept, and `bottom` goes as far down as its alignment allows. `done` is
      the source's break; otherwise the next candidate has exponent `k`. */
  method KeepTop(start: Word, endAddr: Word, a: Word, top: Word, t: nat, ghost j: nat)
    returns (bottom: Word, done: bool, ghost k: nat)
    requires InDomain(start, endAddr, a) && 5 <= j < t <= 31 && Fits(start, endAddr, a, j)
    requires forall k: nat :: j <= k <= t ==> Top(a, k) == top && Pow2(k) <= top
    ensures done ==> bottom == Base(a, CoverExp(start, endAddr, a)) && top == Top(a, CoverExp(start, endAddr, a))
    ensures !done ==> k == t && Candidate(start, endAddr, a, bottom, top, k)
  {
    k := t;
    assert Top(a, t) == top && Pow2(t) <= top;
    bottom := Wrap(top - Pow2(t));
    done := bottom < start;
    if done {
      bottom := ShrinkBottom(start, endAddr, a, top, t, j);
    }
  }

  /** The second branch: `bottom` is kept, and `top` goes up. */
  method KeepBottom(start: Word, endAddr: Word, a: Word, bottom: Word, b: nat, ghost j: nat)
    returns (top: Word, done: bool, ghost k: nat)
    requires InDomain(start, endAddr, a) && 5 <= j <= b <= 31 && (b > j || j == 31) && Fits(start, endAddr, a, j)
    requires forall k: nat :: j <= k <= b ==> Base(a, k) == bottom
    ensures done ==> bottom == Base(a, CoverExp(start, endAddr, a)) && top == Top(a, CoverExp(start, endAddr, a))
    ensures !done ==> k == b && Candidate(start, endAddr, a, bottom, top, k)
  {
    k := b;
    Pow2Values();
    Pow2Mono(b, 31);
    assert Base(a, b) == bottom;
    top := Wrap(bottom + Pow2(b));
    done := top > endAddr;
    if done {
      top := ShrinkTop(start, endAddr, a, bottom, b, j);
    }
  }

  /** The inner do-while that settles `top` and shrinks towards it. */
  method ShrinkBottom(start: Word, endAddr: Word, a: Word, top: Word, t: nat, ghost j: nat) returns (bottom: Word)
    requires InDomain(start, endAddr, a)
    requires 5 <= j < t <= 31 && Fits(start, endAddr, a, j)
    requires forall k: nat :: j <= k <= t ==> Top(a, k) == top && Pow2(k) <= top
    requires !Fits(start, endAddr, a, t)
    ensures CoverExp(start, endAddr, a) >= j
    ensures bottom == Base(a, CoverExp(start, endAddr, a)) && top == Top(a, CoverExp(start, endAddr, a))
  {
    var tmp := t - 1;
    assert Top(a, tmp) == top;
    bottom := Wrap(top - Pow2(tmp));
    while bottom < start
      invariant j <= tmp < t
      invariant Top(a, tmp) == top && bottom == Base(a, tmp)
      invariant !Fits(start, endAddr, a, tmp + 1)
      decreases tmp
    {
      assert !Fits(start, endAddr, a, tmp);
      tmp := tmp - 1;
      assert Top(a, tmp) == top && Pow2(tmp) <= top;
      bottom := Wrap(top - Pow2(tmp));
    }
    CoverExpIs(start, endAddr, a, tmp);
  }

  /** The inner do-while that settles `bottom` and shrinks towards it. */
  method ShrinkTop(start: Word, endAddr: Word, a: Word, bottom: Word, b: nat, ghost j: nat) returns (top: Word)
    requires InDomain(start, endAddr, a)
    requires 5 <= j < b <= 31 && Fits(start, endAddr, a, j)
    requires forall k: nat :: j <= k <= b ==> Base(a, k) == bottom
    requires !Fits(start, endAddr, a, b)
    ensures CoverExp(start, endAddr, a) >= j
    ensures bottom == Base(a, CoverExp(start, endAddr, a)) && top == Top(a, CoverExp(start, endAddr, a))
  {
    var tmp := b - 1;
    BaseContains(a, tmp);
    Pow2Values();
    Pow2Mono(tmp, 30);
    assert Base(a, tmp) == bottom;
    top := Wrap(bottom + Pow2(tmp));
    while top > endAddr
      invariant j <= tmp < b
      invariant Base(a, tmp) == bottom && top == Top(a, tmp)
      invariant !Fits(start, endAddr, a, tmp + 1)
      decreases tmp
    {
      assert !Fits(start, endAddr, a, tmp);
      tmp := tmp - 1;
      assert Base(a, tmp) == bottom;
      Pow2Mono(tmp, 30);
      top := Wrap(bottom + Pow2(tmp));
    }
    CoverExpIs(start, endAddr, a, tmp);
  }

  /** The first candidate is the 32-byte unit around the address. */
  lemma AlignDown32(a: Word)
    requires a < 0x8000_0000
    ensures And(a, 0xFFFF_FFE0) == Base(a, 5) && Base(a, 5) + 32 < 0x1_0000_0000
  {
    Pow2Values();
    assert Pow2(27) == 0x800_0000;
    ShlIsMul(0x7FF_FFFF, 5);
    AndField(a, 0x7FF_FFFF, 5);
    var q := Shr(a, 5);
    AndLowMask(q, 27);
    ShrLow(a, 5);
    ShlIsMul(q, 5);
    LowSmall(q, 27);
  }

  /** What max_powlog2_alignment requires of the two ends. */
  lemma CandidateEnds(start: nat, end: nat, a: nat, bottom: nat, top: nat, j: nat)
    requires Candidate(start, end, a, bottom, top, j)
    ensures bottom == 0 || bottom >= 32
    ensures 32 <= top <= 0x8000_0000
    ensures bottom + Pow2(j) == top
  {
    assert Pow2(5) == 32;
    Pow2Mono(5, j);
    ShlZero(j);
    if bottom > 0 { ShlAtLeast(Shr(a, j), j); }
  }

  lemma {:induction false} ShlAtLeast(q: nat, j: nat)
    requires q >= 1
    ensures Shl(q, j) >= Pow2(j)
  {
    if j != 0 { ShlAtLeast(q, j - 1); }
  }

  // ----- the covering regions of one block partition it --------------------------------

  predicate InCover(start: nat, end: nat, a: nat, c: nat) {
    var x := CoverExp(start, end, a);
    Base(a, x) <= c < Top(a, x)
  }

  predicate SameCover(start: nat, end: nat, a: nat, c: nat) {
    var x := CoverExp(start, end, a);
    CoverExp(start, end, c) == x && Base(c, x) == Base(a, x)
  }

  /** Facts that a covering region satisfies: legal, inside the block, around the address. */
  lemma CoverFits(start: nat, end: nat, a: nat)
    requires InDomain(start, end, a)
    ensures var x := CoverExp(start, end, a);
            5 <= x <= 31 && start <= Base(a, x) <= a < Top(a, x) <= end
  {
    SmallestFits(start, end, a);
    BaseContains(a, CoverExp(start, end, a));
  }

  /** Every address of a covering region recomputes the same region. */
  lemma CoverStable(start: nat, end: nat, a: nat, c: nat)
    requires InDomain(start, end, a) && InCover(start, end, a, c)
    ensures InDomain(start, end, c) && SameCover(start, end, a, c)
  {
    CoverFits(start, end, a);
    var x := CoverExp(start, end, a);
    BaseUnique(c, x, Shr(a, x));
    if x < 31 {
      Nested(a, x, x + 1);
      BaseUnique(c, x + 1, Shr(a, x + 1));
      assert !Fits(start, end, a, x + 1);
    }
    CoverExpIs(start, end, c, x);
  }

  /** Two covering regions of one block are equal or disjoint. */
  lemma CoverEqualOrDisjoint(start: nat, end: nat, a: nat, b: nat)
    requires InDomain(start, end, a) && InDomain(start, end, b)
    ensures SameCover(start, end, a, b)
         || Top(a, CoverExp(start, end, a)) <= Base(b, CoverExp(start, end, b))
         || Top(b, CoverExp(start, end, b)) <= Base(a, CoverExp(start, end, a))
  {
    var x, y := CoverExp(start, end, a), CoverExp(start, end, b);
    BaseContains(a, x);
    BaseContains(b, y);
    var c := if Base(a, x) <= Base(b, y) then Base(b, y) else Base(a, x);
    if InCover(start, end, a, c) && InCover(start, end, b, c) {
      CoverStable(start, end, a, c);
      CoverStable(start, end, b, c);
    }
  }

  /** So a covering region is known by where it starts. */
  lemma CoverByStart(start: nat, end: nat, a: nat, c: nat)
    requires InDomain(start, end, a) && InDomain(start, end, c)
    ensures InCover(start, end, a, c) <==> Base(a, CoverExp(start, end, a)) == Base(c, CoverExp(start, end, c))
  {
    BaseContains(a, CoverExp(start, end, a));
    BaseContains(c, CoverExp(start, end, c));
    if InCover(start, end, a, c) {
      CoverStable(start, end, a, c);
    } else {
      CoverEqualOrDisjoint(start, end, a, c);
    }
  }

  lemma CoverSymmetric(start: nat, end: nat, a: nat, c: nat)
    requires InDomain(start, end, a) && InDomain(start, end, c)
    ensures InCover(start, end, a, c) <==> InCover(start, end, c, a)
  {
    CoverByStart(start, end, a, c);
    CoverByStart(start, end, c, a);
  }

  /** Where a covering region of exponent x can lie: right half of the interval of exponent x + 1
      around the block's start, or left half of the one around the block's end. */
  lemma CoverPosition(start: nat, end: nat, a: nat)
    requires InDomain(start, end, a) && CoverExp(start, end, a) < 31
    ensures var x := CoverExp(start, end, a);
            Base(a, x) == Base(start, x + 1) + Pow2(x) || Base(a, x) == Base(end, x + 1)
  {
    var x := CoverExp(start, end, a);
    CoverFits(start, end, a);
    Parent(a, x);
    assert !Fits(start, end, a, x + 1);
    if Base(a, x + 1) < start {
      BaseUnique(start, x + 1, Shr(a, x + 1));
    } else {
      BaseUnique(end, x + 1, Shr(a, x + 1));
    }
  }

  /** At most two distinct covering regions of each size: of three of equal size, two coincide. */
  lemma AtMostTwoPerSize(start: nat, end: nat, a: nat, b: nat, c: nat)
    requires InDomain(start, end, a) && InDomain(start, end, b) && InDomain(start, end, c)
    requires CoverExp(start, end, a) == CoverExp(start, end, b) == CoverExp(start, end, c)
    ensures SameCover(start, end, a, b) || SameCover(start, end, a, c) || SameCover(start, end, b, c)
  {
    var x := CoverExp(start, end, a);
    if x < 31 {
      CoverPosition(start, end, a);
      CoverPosition(start, end, b);
      CoverPosition(start, end, c);
    } else {
      Pow2Values();
      ShrZero(a, 31); ShrZero(b, 31); ShrZero(c, 31);
    }
  }
}
