/** The MPU registers of sections B3.5.7 to B3.5.9 of the Armv7-M Architecture Reference Manual,
    and the driver of mpu.c that loads and reads them. */
module MpuRegisters {
  import opened Bits

  const REGIONS: nat := 8

  /** The registers of one region: RBAR holds the base address (bits 31:5), RASR the attributes. */
  datatype RegionRegs = RegionRegs(rbar: Word, rasr: Word)

  // ----- what the register fields mean ------------------------------------------------

  function AddressField(rbar: Word): Word { rbar - rbar % 32 }

  function RegionField(rbar: Word): nat { rbar % 16 }

  predicate ValidField(rbar: Word) { rbar / 16 % 2 == 1 }

  function SizeField(rasr: Word): nat { rasr / 2 % 32 }

  function ApField(rasr: Word): nat { rasr / 0x100_0000 % 8 }

  function XnField(rasr: Word): nat { rasr / 0x1000_0000 % 2 }

  function EnableField(rasr: Word): nat { rasr % 2 }

  // Access rights by the AP field (section B3.5.9 of the Armv7-M Architecture Reference Manual): no access, read and
  // write, or read only, for privileged and for unprivileged software. Encoding 4 is reserved.

  predicate PrivilegedRead(ap: nat) { ap == 1 || ap == 2 || ap == 3 || ap == 5 || ap == 6 || ap == 7 }

  predicate PrivilegedWrite(ap: nat) { ap == 1 || ap == 2 || ap == 3 }

  predicate UserRead(ap: nat) { ap == 2 || ap == 3 || ap == 6 || ap == 7 }

  predicate UserWrite(ap: nat) { ap == 3 }

  /** An access to `a` is governed by the region. */
  predicate InRegion(r: RegionRegs, a: Word) {
    EnableField(r.rasr) == 1 && r.rbar <= a < r.rbar + Pow2(SizeField(r.rasr) + 1)
  }

  /** The last address as computed by readPhysicalMPUEndAddr. */
  function LastAddress(r: RegionRegs): Word {
    var size := if SizeField(r.rasr) == 0 then 0 else Wrap(Pow2(SizeField(r.rasr) + 1));
    var e := Wrap(r.rbar + size);
    if e > 0 then e - 1 else e
  }

  /** The test of isMappedInPhysicalMpu. */
  predicate Mapped(r: RegionRegs, a: Word) {
    r.rbar <= a <= LastAddress(r)
  }

  const CLEARED: RegionRegs := RegionRegs(0, 0)

  /** An enabled region the architecture defines: at least 32 bytes, aligned on its size; and in
      the lower half of the address space, where this chip's memories are. */
  ghost predicate Legal(r: RegionRegs) {
    && EnableField(r.rasr) == 1
    && 4 <= SizeField(r.rasr) <= 30
    && Low(r.rbar, SizeField(r.rasr) + 1) == 0
    && r.rbar + Pow2(SizeField(r.rasr) + 1) <= 0x8000_0000
  }

  /** The software test agrees with the hardware, except at address 0 of a cleared region. */
  lemma MappedIffInRegion(r: RegionRegs, a: Word)
    requires Legal(r) || r == CLEARED
    ensures Mapped(r, a) <==> InRegion(r, a) || (r == CLEARED && a == 0)
  {
    if r == CLEARED {
      assert SizeField(0) == 0;
    } else {
      Pow2Mono(5, SizeField(r.rasr) + 1);
      LastAddressOf(r, SizeField(r.rasr), Pow2(SizeField(r.rasr) + 1));
    }
  }

  /** No wrap-around in the computation of the last address. */
  lemma LastAddressOf(r: RegionRegs, size: nat, p: nat)
    requires size == SizeField(r.rasr) && size > 0 && p == Pow2(size + 1)
    requires r.rbar + p <= 0x8000_0000
    ensures LastAddress(r) == r.rbar + p - 1
  {
  }

  // ----- the register file -------------------------------------------------------------

  /** The memory-mapped registers. A write to RBAR with the VALID bit set also selects the region
      named by its REGION field; otherwise RNR selects it. */
  class MpuHardware {
    var enabled: bool
    var privDefEna: bool
    var rnr: Word
    var regions: seq<RegionRegs>

    ghost predicate Valid()
      reads this
    {
      |regions| == REGIONS
    }

    method WriteRnr(v: Word)
      requires Valid()
      modifies this`rnr
      ensures rnr == if v < 256 then v else v % 256
    {
      rnr := v % 256;
    }

    method WriteRbar(v: Word)
      requires Valid()
      requires (if ValidField(v) then RegionField(v) else rnr) < REGIONS
      modifies this`rnr, this`regions
      ensures Valid()
      ensures rnr == if ValidField(v) then RegionField(v) else old(rnr)
      ensures regions == old(regions)[rnr := RegionRegs(AddressField(v), old(regions)[rnr].rasr)]
    {
      if ValidField(v) {
        rnr := RegionField(v);
      }
      regions := regions[rnr := regions[rnr].(rbar := AddressField(v))];
    }

    method WriteRasr(v: Word)
      requires Valid() && rnr < REGIONS
      modifies this`regions
      ensures Valid()
      ensures regions == old(regions)[rnr := RegionRegs(old(regions)[rnr].rbar, v)]
    {
      regions := regions[rnr := regions[rnr].(rasr := v)];
    }

    /** RBAR reads back with VALID as zero and REGION as the low bits of RNR. */
    method ReadRbar() returns (v: Word)
      requires Valid() && rnr < REGIONS && regions[rnr].rbar % 32 == 0
      ensures v == regions[rnr].rbar + rnr
    {
      v := regions[rnr].rbar + rnr;
    }

    method ReadRasr() returns (v: Word)
      requires Valid() && rnr < REGIONS
      ensures v == regions[rnr].rasr
    {
      v := regions[rnr].rasr;
    }
  }

  /** Base addresses held by the hardware are multiples of 32. */
  ghost predicate Aligned(regions: seq<RegionRegs>) {
    |regions| == REGIONS && forall i :: 0 <= i < REGIONS ==> regions[i].rbar % 32 == 0
  }

  // ----- the driver of mpu.c -------------------------------------------------------------

  /** Every slot of a lookup table carries VALID and its own number, so that loading it without
      writing RNR still reaches the right region. */
  ghost predicate Tagged(lut: seq<Word>) {
    && |lut| == 2 * REGIONS
    && forall i :: 0 <= i < REGIONS ==> ValidField(lut[2 * i]) && RegionField(lut[2 * i]) == i
  }

  /** The region a slot of the table describes. */
  function SlotRegion(lut: seq<Word>, i: nat): RegionRegs
    requires 2 * i + 1 < |lut|
  {
    RegionRegs(AddressField(lut[2 * i]), lut[2 * i + 1])
  }

  function LutRegions(lut: seq<Word>): (rs: seq<RegionRegs>)
    requires |lut| == 2 * REGIONS
    ensures |rs| == REGIONS && forall i :: 0 <= i < REGIONS ==> rs[i] == SlotRegion(lut, i)
  {
    seq(REGIONS, i requires 0 <= i < REGIONS => SlotRegion(lut, i))
  }

  lemma LutRegionsAligned(lut: seq<Word>)
    requires |lut| == 2 * REGIONS
    ensures Aligned(LutRegions(lut))
  {
  }

  /** The two stores of the loading loop; the number of the region is in the first word. */
  method LoadSlot(hw: MpuHardware, ghost i: nat, rbar: Word, rasr: Word)
    requires hw.Valid() && i < REGIONS && ValidField(rbar) && RegionField(rbar) == i
    modifies hw`rnr, hw`regions
    ensures hw.Valid()
    ensures hw.regions == old(hw.regions)[i := RegionRegs(AddressField(rbar), rasr)]
  {
    hw.WriteRbar(rbar);
    hw.WriteRasr(rasr);
  }

  /** The three stores of the clearing loop. */
  method ClearRegion(hw: MpuHardware, i: nat)
    requires hw.Valid() && i < REGIONS
    modifies hw`rnr, hw`regions
    ensures hw.Valid()
    ensures hw.regions == old(hw.regions)[i := CLEARED]
  {
    NullRbar();
    hw.WriteRnr(i);
    hw.WriteRbar(0);
    hw.WriteRasr(0);
  }

  lemma NullRbar()
    ensures !ValidField(0) && AddressField(0) == 0
  {
  }

  /** mpu_configure_from_LUT: whatever RNR was, slot i ends up in hardware region i. */
  method ConfigureFromLut(hw: MpuHardware, lut: array<Word>)
    requires hw.Valid() && Tagged(lut[..])
    modifies hw
    ensures hw.Valid() && hw.enabled && hw.privDefEna
    ensures hw.regions == LutRegions(lut[..])
  {
    hw.enabled := false;
    var i := 0;
    while i < REGIONS
      invariant 0 <= i <= REGIONS && hw.Valid()
      invariant forall k :: 0 <= k < i ==> hw.regions[k] == SlotRegion(lut[..], k)
    {
      assert lut[..][2 * i] == lut[2 * i];
      LoadSlot(hw, i, lut[i * 2], lut[i * 2 + 1]);
      i := i + 1;
    }
    hw.privDefEna, hw.enabled := true, true;
  }

  /** mpu_init: all regions cleared and disabled, through RNR this time. */
  method Init(hw: MpuHardware)
    requires hw.Valid()
    modifies hw
    ensures hw.Valid() && hw.enabled && hw.privDefEna
    ensures forall i :: 0 <= i < REGIONS ==> hw.regions[i] == CLEARED
  {
    hw.enabled := false;
    var i := 0;
    while i < REGIONS
      invariant 0 <= i <= REGIONS && hw.Valid()
      invariant forall k :: 0 <= k < i ==> hw.regions[k] == CLEARED
    {
      ClearRegion(hw, i);
      i := i + 1;
    }
    hw.privDefEna, hw.enabled := true, true;
  }

  lemma RasrMasks(v: Word)
    ensures Shr(And(v, 0x3E), 1) == SizeField(v)
    ensures Shr(And(v, 0x700_0000), 24) == ApField(v)
    ensures Shr(And(v, 0x1000_0000), 28) == XnField(v)
    ensures And(v, 1) == EnableField(v)
  {
    MaskConstants();
    MaskedField(v, 5, 1);
    MaskedField(v, 3, 24);
    MaskedField(v, 1, 28);
    MaskedField(v, 1, 0);
  }

  lemma SizeMask(v: Word)
    ensures Shr(And(v, 0x3E), 1) == SizeField(v) < 32
  {
    RasrMasks(v);
  }

  lemma MaskConstants()
    ensures Shl(Pow2(5) - 1, 1) == 0x3E && Shl(Pow2(3) - 1, 24) == 0x700_0000
    ensures Shl(Pow2(1) - 1, 28) == 0x1000_0000 && Shl(Pow2(1) - 1, 0) == 1
    ensures Pow2(0) == 1 && Pow2(1) == 2 && Pow2(3) == 8 && Pow2(5) == 32
    ensures Pow2(24) == 0x100_0000 && Pow2(28) == 0x1000_0000
  {
    Pow2Values();
    ShlIsMul(31, 1);
    ShlIsMul(7, 24);
    ShlIsMul(1, 28);
  }

  lemma RbarMask(v: Word)
    ensures And(v, 0xFFFF_FFE0) == AddressField(v)
  {
    AddressMaskConstants();
    MaskedField(v, 27, 5);
    HighBits(v);
    Shl5(v / 32);
  }

  lemma HighBits(v: Word)
    ensures v / 32 % 0x800_0000 == v / 32 && 32 * (v / 32) == v - v % 32
  {
  }

  lemma AddressMaskConstants()
    ensures Shl(Pow2(27) - 1, 5) == 0xFFFF_FFE0 && Pow2(27) == 0x800_0000 && Pow2(5) == 32
  {
    Pow2Values();
    assert Pow2(27) == 0x800_0000;
    ShlIsMul(Pow2(27) - 1, 5);
  }

  /** What lies below an aligned address is no part of the address field. */
  lemma AddressOf(base: Word, low: nat)
    requires base % 32 == 0 && low < 32 && base + low < 0x1_0000_0000
    ensures AddressField(base + low) == base
  {
  }

  lemma TagOf(base: Word, i: nat)
    requires base % 32 == 0 && i < REGIONS && base + 16 + i < 0x1_0000_0000
    ensures ValidField(base + 16 + i) && RegionField(base + 16 + i) == i
  {
    var q := base / 32;
    assert base + 16 + i == 16 * (2 * q + 1) + i;
  }

  /** readPhysicalMPUSizeBits */
  method ReadSizeBits(hw: MpuHardware, n: nat) returns (r: Word)
    requires hw.Valid() && n < REGIONS
    modifies hw`rnr
    ensures r == SizeField(hw.regions[n].rasr)
  {
    hw.WriteRnr(n);
    var v := hw.ReadRasr();
    SizeMask(v);
    r := Shr(And(v, 0x3E), 1);
  }

  /** readPhysicalMPUSizeBytes */
  method ReadSizeBytes(hw: MpuHardware, n: nat) returns (r: Word)
    requires hw.Valid() && n < REGIONS
    modifies hw`rnr
    ensures r == if SizeField(hw.regions[n].rasr) == 0 then 0 else Wrap(Pow2(SizeField(hw.regions[n].rasr) + 1))
  {
    hw.WriteRnr(n);
    var v := hw.ReadRasr();
    SizeMask(v);
    var size := Shr(And(v, 0x3E), 1);
    r := if size == 0 then 0 else Wrap(Pow2(size + 1));
  }

  /** The REGION bits of RBAR are masked off. */
  lemma StartMask(base: Word, n: nat)
    requires base % 32 == 0 && n < REGIONS
    ensures base + n < 0x1_0000_0000 && And(base + n, 0xFFFF_FFE0) == base
  {
    RbarMask(base + n);
    AddressOf(base, n);
  }

  /** readPhysicalMPUStartAddr */
  method ReadStartAddr(hw: MpuHardware, n: nat) returns (r: Word)
    requires hw.Valid() && Aligned(hw.regions) && n < REGIONS
    modifies hw`rnr
    ensures r == hw.regions[n].rbar
  {
    hw.WriteRnr(n);
    var v := hw.ReadRbar();
    StartMask(hw.regions[n].rbar, n);
    r := And(v, 0xFFFF_FFE0);
  }

  /** readPhysicalMPUEndAddr */
  method ReadEndAddr(hw: MpuHardware, n: nat) returns (r: Word)
    requires hw.Valid() && Aligned(hw.regions) && n < REGIONS
    modifies hw`rnr
    ensures r == LastAddress(hw.regions[n])
  {
    var saddr: int := ReadStartAddr(hw, n);
    var size: int := ReadSizeBytes(hw, n);
    var eaddr := Wrap(saddr + size);
    if eaddr > 0 {
      r := eaddr - 1;
    } else {
      r := eaddr;
    }
  }

  /** readPhysicalMPUAP, readPhysicalMPUXN, readPhysicalMPURegionEnable */
  method ReadAttributes(hw: MpuHardware, n: nat) returns (ap: Word, xn: Word, enable: Word)
    requires hw.Valid() && n < REGIONS
    modifies hw`rnr
    ensures ap == ApField(hw.regions[n].rasr)
    ensures xn == XnField(hw.regions[n].rasr)
    ensures enable == EnableField(hw.regions[n].rasr)
  {
    hw.WriteRnr(n);
    var v := hw.ReadRasr();
    RasrMasks(v);
    ap := Shr(And(v, 0x700_0000), 24);
    hw.WriteRnr(n);
    v := hw.ReadRasr();
    xn := Shr(And(v, 0x1000_0000), 28);
    hw.WriteRnr(n);
    v := hw.ReadRasr();
    enable := And(v, 1);
  }
}
