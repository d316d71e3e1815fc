/** configure_LUT_entry and clear_LUT: packing a block's covering region into register words. */
module LookupTable {
  import opened Bits
  import opened CoveringRegion
  import opened MpuRegisters
  import opened PowerOfTwo
  import opened Wrappers

  /** A block entry. `last` is the last address of the block. */
  datatype Block = Block(
    start: Word, last: Word,
    read: bool, write: bool, exec: bool,
    present: bool, accessible: bool
  ) {
    /** What the services guarantee of every block: whole 32-byte units, in the lower half of the
        address space, where the flash, the memory and the peripherals of the chip are. */
    predicate Valid() {
      Low(start, 5) == 0 && Low(last + 1, 5) == 0 && start <= last < 0x8000_0000
    }

    predicate Contains(a: int) {
      start <= a <= last
    }

    function Ap(): nat { if write then 3 else 2 }

    function Xn(): nat { if exec then 0 else 1 }

    /** Exponent of the size of the covering region around `a`. */
    function Exp(a: nat): nat {
      CoverExp(start, last + 1, a)
    }
  }

  /** The two words of slot `i` for a block, or for no block. */
  function RbarWord(i: nat, entry: Option<Block>, a: Word): (w: Word)
    requires i < REGIONS
    requires entry.Some? ==> entry.value.Valid() && entry.value.Contains(a)
  {
    if entry.None? then i + 16
    else
      var b := entry.value;
      CoverRange(b, a);
      Base(a, b.Exp(a)) + 16 + i
  }

  function RasrWord(entry: Option<Block>, a: Word): (w: Word)
    requires entry.Some? ==> entry.value.Valid() && entry.value.Contains(a)
  {
    if entry.None? then 0
    else
      var b := entry.value;
      CoverRange(b, a);
      1 + 2 * (b.Exp(a) - 1) + 0x100_0000 * b.Ap() + 0x1000_0000 * b.Xn()
  }

  lemma CoverRange(b: Block, a: Word)
    requires b.Valid() && b.Contains(a)
    ensures 5 <= b.Exp(a) <= 31
    ensures b.start <= Base(a, b.Exp(a)) <= a < Top(a, b.Exp(a)) <= b.last + 1 <= 0x8000_0000
    ensures Base(a, b.Exp(a)) % 32 == 0
  {
    var x := b.Exp(a);
    CoverFits(b.start, b.last + 1, a);
    BaseAligned(a, x);
  }

  lemma BaseAligned(a: nat, x: nat)
    requires x >= 5
    ensures Base(a, x) % 32 == 0
  {
    var q := Shl(Shr(a, x), x - 5);
    ShlSum(Shr(a, x), x - 5, 5);
    Shl5(q);
    DivModUnique(q, 0, 32);
  }

  function SetEntry(lut: seq<Word>, i: nat, entry: Option<Block>, a: Word): (r: seq<Word>)
    requires |lut| == 2 * REGIONS && i < REGIONS
    requires entry.Some? ==> entry.value.Valid() && entry.value.Contains(a)
    ensures |r| == |lut|
  {
    lut[2 * i := RbarWord(i, entry, a)][2 * i + 1 := RasrWord(entry, a)]
  }

  /** configure_LUT_entry. The TEX, S, C and B fields, all zero, are omitted from the union. */
  method ConfigureLutEntry(lut: array<Word>, i: nat, entry: Option<Block>, a: Word)
    requires lut.Length == 2 * REGIONS && i < REGIONS
    requires entry.Some? ==> entry.value.Valid() && entry.value.Contains(a)
    modifies lut
    ensures lut[..] == SetEntry(old(lut[..]), i, entry, a)
  {
    if entry.None? {
      ClearedWord(i);
      lut[i * 2] := Or(And(i, 0xF), 0x10);
      lut[i * 2 + 1] := 0;
    } else {
      lut[i * 2], lut[i * 2 + 1] := RegionWords(i, entry.value, a);
    }
  }

  /** The branch of configure_LUT_entry for a block. */
  method RegionWords(i: nat, b: Block, a: Word) returns (rbar: Word, rasr: Word)
    requires i < REGIONS && b.Valid() && b.Contains(a)
    ensures rbar == RbarWord(i, Some(b), a) && rasr == RasrWord(Some(b), a)
  {
    CoverRange(b, a);
    var bottom, top := LargestCoveringMpuRegion(b.start, b.last, a);
    var log := SizeLog(top - bottom, b.Exp(a));
    var regionSize := log - 1;
    var ap := 2;
    if b.write { ap := 3; }
    var xn := if b.exec then 0 else 1;
    rbar := AddressWord(bottom, i);
    rasr := AttributeWord(regionSize, ap, xn);
  }

  /** The expression for the first word of a slot. */
  method AddressWord(bottom: Word, i: nat) returns (rbar: Word)
    requires bottom % 32 == 0 && i < REGIONS
    ensures rbar == bottom + 16 + i
  {
    PackRbar(bottom, i);
    rbar := Or(Or(bottom, 0x10), i);
  }

  /** The expression for the second word of a slot. */
  method AttributeWord(size: nat, ap: nat, xn: nat) returns (rasr: Word)
    requires size < 32 && ap < 8 && xn < 2
    ensures rasr == 1 + 2 * size + 0x100_0000 * ap + 0x1000_0000 * xn
  {
    PackRasr(size, ap, xn);
    rasr := Or(Or(Or(1, Shl(size, 1)), Shl(ap, 24)), Shl(xn, 28));
  }

  /** powlog2 of a region size is its exponent. */
  method SizeLog(size: Word, ghost x: nat) returns (log: nat)
    requires size == Pow2(x)
    ensures log == x
  {
    log := Powlog2(size);
    Powlog2Unique(size, log, x);
  }

  lemma ClearedWord(i: nat)
    requires i < 16
    ensures Or(And(i, 0xF), 0x10) == i + 16
  {
    assert Pow2(4) == 16;
    AndLowMask(i, 4);
    LowSmall(i, 4);
    OrDisjointLow(i, 1, 4);
    ShlOne(4);
  }

  lemma PackRbar(base: Word, i: nat)
    requires base % 32 == 0 && i < 16
    ensures Or(Or(base, 0x10), i) == base + 16 + i
  {
    assert Pow2(5) == 32 && Pow2(4) == 16;
    var q := base / 32;
    Shl5(q);
    OrDisjoint(q, 16, 5);
    ShlIsMul(2 * q + 1, 4);
    OrDisjoint(2 * q + 1, i, 4);
  }

  lemma PackRasr(size: nat, ap: nat, xn: nat)
    requires size < 32 && ap < 8 && xn < 2
    ensures Or(Or(Or(1, Shl(size, 1)), Shl(ap, 24)), Shl(xn, 28))
         == 1 + 2 * size + 0x100_0000 * ap + 0x1000_0000 * xn
  {
    AddSize(size);
    AddAp(1 + 2 * size, ap);
    AddXn(1 + 2 * size + 0x100_0000 * ap, xn);
  }

  lemma AddSize(size: nat)
    ensures Or(1, Shl(size, 1)) == 1 + 2 * size
  {
    assert Pow2(1) == 2;
    ShlIsMul(size, 1);
    OrDisjointLow(1, size, 1);
  }

  lemma AddAp(x: nat, ap: nat)
    requires x < 0x100_0000
    ensures Or(x, Shl(ap, 24)) == x + 0x100_0000 * ap
  {
    MaskConstants();
    ShlIsMul(ap, 24);
    OrDisjointLow(x, ap, 24);
  }

  lemma AddXn(x: nat, xn: nat)
    requires x < 0x1000_0000
    ensures Or(x, Shl(xn, 28)) == x + 0x1000_0000 * xn
  {
    MaskConstants();
    ShlIsMul(xn, 28);
    OrDisjointLow(x, xn, 28);
  }

  /** clear_LUT */
  method ClearLut(lut: array<Word>)
    requires lut.Length == 2 * REGIONS
    modifies lut
    ensures lut[..] == ClearedLut()
  {
    var i := 0;
    while i < REGIONS
      invariant 0 <= i <= REGIONS
      invariant forall k :: 0 <= k < i ==> lut[2 * k] == k + 16 && lut[2 * k + 1] == 0
    {
      ConfigureLutEntry(lut, i, None, 0);
      forall k | 0 <= k <= i ensures lut[..][2 * k] == k + 16 && lut[..][2 * k + 1] == 0 {
      }
      i := i + 1;
    }
    forall k | 0 <= k < 2 * REGIONS ensures lut[k] == ClearedLut()[k] {
      assert lut[2 * (k / 2)] == k / 2 + 16 && lut[2 * (k / 2) + 1] == 0;
    }
  }

  function ClearedLut(): (lut: seq<Word>)
    ensures |lut| == 2 * REGIONS
  {
    seq(2 * REGIONS, k requires 0 <= k < 16 => if k % 2 == 0 then k / 2 + 16 else 0)
  }

  // ----- what a configured slot means --------------------------------------------------

  /** The attribute fields give a partition the rights of the block, which always include reading, and leave the kernel
      all of them. */
  predicate Grants(ap: nat, xn: nat, b: Block) {
    && UserRead(ap) && (UserWrite(ap) <==> b.write) && (xn == 0 <==> b.exec)
    && PrivilegedRead(ap) && PrivilegedWrite(ap)
  }

  /** The region is a legal one inside the block, carrying exactly the block's rights. */
  ghost predicate MapsPartOf(r: RegionRegs, b: Block) {
    && Legal(r)
    && b.start <= r.rbar && r.rbar + Pow2(SizeField(r.rasr) + 1) <= b.last + 1
    && Grants(ApField(r.rasr), XnField(r.rasr), b)
  }

  lemma UnpackRasr(size: nat, ap: nat, xn: nat)
    requires size < 32 && ap < 8 && xn < 2
    ensures var w := 1 + 2 * size + 0x100_0000 * ap + 0x1000_0000 * xn;
            EnableField(w) == 1 && SizeField(w) == size && ApField(w) == ap && XnField(w) == xn
  {
  }

  /** Round trip: the register fields of a configured slot decode to the covering region of the
      address (base, size, first and last address) and to the block's rights. */
  lemma SlotDecodes(lut: seq<Word>, i: nat, b: Block, a: Word)
    requires |lut| == 2 * REGIONS && i < REGIONS && b.Valid() && b.Contains(a)
    ensures var r := SlotRegion(SetEntry(lut, i, Some(b), a), i);
            && r.rbar == Base(a, b.Exp(a))
            && SizeField(r.rasr) + 1 == b.Exp(a)
            && LastAddress(r) == Top(a, b.Exp(a)) - 1
            && MapsPartOf(r, b)
            && InRegion(r, a) && Mapped(r, a)
  {
    CoverRange(b, a);
    var w0, w1 := RbarWord(i, Some(b), a), RasrWord(Some(b), a);
    AddressOf(Base(a, b.Exp(a)), 16 + i);
    SlotWords(lut, i, w0, w1);
    RegionDecodes(RegionRegs(AddressField(w0), w1), b, a, b.Exp(a));
  }

  lemma SlotWords(lut: seq<Word>, i: nat, w0: Word, w1: Word)
    requires |lut| == 2 * REGIONS && i < REGIONS
    ensures SlotRegion(lut[2 * i := w0][2 * i + 1 := w1], i) == RegionRegs(AddressField(w0), w1)
  {
  }

  lemma RegionDecodes(r: RegionRegs, b: Block, a: Word, x: nat)
    requires 5 <= x <= 31 && b.start <= Base(a, x) <= a < Top(a, x) <= b.last + 1 <= 0x8000_0000
    requires r.rbar == Base(a, x)
    requires r.rasr == 1 + 2 * (x - 1) + 0x100_0000 * b.Ap() + 0x1000_0000 * b.Xn()
    ensures SizeField(r.rasr) + 1 == x && LastAddress(r) == Top(a, x) - 1
    ensures MapsPartOf(r, b) && InRegion(r, a) && Mapped(r, a)
  {
    UnpackRasr(x - 1, b.Ap(), b.Xn());
    ShrOfSum(Shr(a, x), 0, x);
    LastAddressOf(r, x - 1, Pow2(x));
  }

  /** The round trip in code: a block's slot is configured, the table is loaded, and the readers give back the
      covering region of the address and the block's rights. */
  method ConfigureAndReadBack(hw: MpuHardware, lut: array<Word>, i: nat, b: Block, a: Word)
    returns (start: Word, size: Word, last: Word, ap: Word, xn: Word, enable: Word)
    requires hw.Valid() && Tagged(lut[..]) && i < REGIONS && b.Valid() && b.Contains(a)
    modifies hw, lut
    ensures start == Base(a, b.Exp(a)) && size == Pow2(b.Exp(a)) && last == Top(a, b.Exp(a)) - 1
    ensures Grants(ap, xn, b) && enable == 1
  {
    ghost var was := lut[..];
    SetEntryFrame(was, i, Some(b), a);
    ConfigureLutEntry(lut, i, Some(b), a);
    ConfigureFromLut(hw, lut);
    LutRegionsAligned(lut[..]);
    SlotDecodes(was, i, b, a);
    start := ReadStartAddr(hw, i);
    size := ReadSizeBytes(hw, i);
    last := ReadEndAddr(hw, i);
    ap, xn, enable := ReadAttributes(hw, i);
    SizeInBytes(b, a);
  }

  lemma SizeInBytes(b: Block, a: Word)
    requires b.Valid() && b.Contains(a)
    ensures b.Exp(a) >= 5 && Pow2(b.Exp(a)) <= 0x8000_0000
  {
    CoverRange(b, a);
    Pow2Values();
    Pow2Mono(b.Exp(a), 31);
  }

  /** All other fields are zero, so that no eighth of the region is disabled (bits 8 to 15), and its memory is
      strongly ordered (bits 16 to 21). */
  lemma OtherFieldsZero(b: Block, a: Word)
    requires b.Valid() && b.Contains(a)
    ensures var w := RasrWord(Some(b), a);
            w % 0x100_0000 / 0x40 == 0 && w / 0x800_0000 % 2 == 0 && w / 0x2000_0000 == 0
  {
    CoverRange(b, a);
    UnpackRest(b.Exp(a) - 1, b.Ap(), b.Xn());
  }

  lemma UnpackRest(size: nat, ap: nat, xn: nat)
    requires size < 31 && ap < 8 && xn < 2
    ensures var w := 1 + 2 * size + 0x100_0000 * ap + 0x1000_0000 * xn;
            w % 0x100_0000 / 0x40 == 0 && w / 0x800_0000 % 2 == 0 && w / 0x2000_0000 == 0
  {
    var low := 1 + 2 * size;
    assert low < 0x40;
    assert (low + 0x100_0000 * ap + 0x1000_0000 * xn) % 0x100_0000 == low;
  }

  /** A slot configured for no block is a cleared, disabled region. */
  lemma ClearedSlotDecodes(lut: seq<Word>, i: nat, a: Word)
    requires |lut| == 2 * REGIONS && i < REGIONS
    ensures SlotRegion(SetEntry(lut, i, None, a), i) == CLEARED
  {
  }

  lemma RbarWordTagged(i: nat, entry: Option<Block>, a: Word)
    requires i < REGIONS
    requires entry.Some? ==> entry.value.Valid() && entry.value.Contains(a)
    ensures var w := RbarWord(i, entry, a); ValidField(w) && RegionField(w) == i
  {
    if entry.Some? {
      CoverRange(entry.value, a);
      TagOf(Base(a, entry.value.Exp(a)), i);
    } else {
      TagOf(0, i);
    }
  }

  /** Configuring one slot keeps the tags of the table and every other slot. */
  lemma SetEntryFrame(lut: seq<Word>, i: nat, entry: Option<Block>, a: Word)
    requires Tagged(lut) && i < REGIONS
    requires entry.Some? ==> entry.value.Valid() && entry.value.Contains(a)
    ensures Tagged(SetEntry(lut, i, entry, a))
    ensures forall k :: 0 <= k < REGIONS && k != i ==>
      SlotRegion(SetEntry(lut, i, entry, a), k) == SlotRegion(lut, k)
  {
    var r := SetEntry(lut, i, entry, a);
    RbarWordTagged(i, entry, a);
    forall k | 0 <= k < REGIONS && k != i ensures r[2 * k] == lut[2 * k] && r[2 * k + 1] == lut[2 * k + 1] {
    }
  }

  lemma ClearedLutIsTagged()
    ensures Tagged(ClearedLut())
    ensures forall i :: 0 <= i < REGIONS ==> SlotRegion(ClearedLut(), i) == CLEARED
  {
    forall i | 0 <= i < REGIONS
      ensures ValidField(ClearedLut()[2 * i]) && RegionField(ClearedLut()[2 * i]) == i
      ensures SlotRegion(ClearedLut(), i) == CLEARED
    {
      TagOf(0, i);
      AddressOf(0, 16 + i);
      assert (2 * i) / 2 == i;
    }
  }
}
