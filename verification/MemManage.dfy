/** The MemManage fault handler of exception_handlers.c. A block whose bounds are not those of a
    legal MPU region is mapped only in part; faults on the rest page other parts in, using the
    block's own slot and the two spare slots. */
module MemManage {
  import opened Bits
  import opened LookupTable
  import opened MpuRegisters
  import opened Mal
  import opened Wrappers

  /** The slots searched for blocks; the two above it are spare. */
  const LISTED: nat := 6
  const SPARE_FETCH: nat := 6
  const SPARE_DATA: nat := 7

  datatype Cause = DataAccess | Fetch16 | Fetch32 | Unknown

  datatype Fault = Fault(cause: Cause, addr: Word)

  /** The current descriptor's block list and table, the hardware regions, the alternating flag. */
  datatype FaultState = FaultState(mpu: seq<Paddr>, lut: seq<Word>, regions: seq<RegionRegs>, flag: bool)

  ghost predicate Ok(entries: map<Paddr, Block>, s: FaultState) {
    && EntriesOk(entries)
    && |s.mpu| == REGIONS && |s.regions| == REGIONS && Tagged(s.lut)
    && forall i :: 0 <= i < REGIONS ==> Listable(entries, s.mpu[i])
  }

  // ----- specification ----------------------------------------------------------------

  /** isMappedInVirtualMpu: slot `i` lists a present block that contains the address. */
  predicate InVirtual(entries: map<Paddr, Block>, mpu: seq<Paddr>, a: Word, i: nat)
    requires i < |mpu| && Listable(entries, mpu[i])
  {
    mpu[i] != NULL && entries[mpu[i]].present && entries[mpu[i]].Contains(a)
  }

  /** The first listed slot whose block contains the address, `LISTED` if there is none. */
  ghost predicate IsIndexOf(entries: map<Paddr, Block>, s: FaultState, a: Word, i: nat)
    requires Ok(entries, s)
  {
    && i <= LISTED
    && (i < LISTED ==> InVirtual(entries, s.mpu, a, i))
    && forall k :: 0 <= k < i ==> !InVirtual(entries, s.mpu, a, k)
  }

  function IndexFrom(entries: map<Paddr, Block>, s: FaultState, a: Word, i: nat): (r: nat)
    requires Ok(entries, s) && i <= LISTED
    ensures i <= r <= LISTED
    ensures r < LISTED ==> InVirtual(entries, s.mpu, a, r)
    ensures forall k :: i <= k < r ==> !InVirtual(entries, s.mpu, a, k)
    decreases LISTED - i
  {
    if i == LISTED || InVirtual(entries, s.mpu, a, i) then i else IndexFrom(entries, s, a, i + 1)
  }

  function IndexOf(entries: map<Paddr, Block>, s: FaultState, a: Word): (r: nat)
    requires Ok(entries, s)
    ensures IsIndexOf(entries, s, a, r)
  {
    IndexFrom(entries, s, a, 0)
  }

  /** reconfigureMpu: the part of block `mpu[v]` around the address goes to slot `slot`. */
  function PageIn(entries: map<Paddr, Block>, s: FaultState, a: Word, v: nat, slot: nat): (r: FaultState)
    requires Ok(entries, s) && v < LISTED && slot < REGIONS && InVirtual(entries, s.mpu, a, v)
    ensures Ok(entries, r) && r.mpu == s.mpu && r.flag == s.flag
  {
    var lut := SetEntry(s.lut, slot, Some(entries[s.mpu[v]]), a);
    SetEntryFrame(s.lut, slot, Some(entries[s.mpu[v]]), a);
    s.(lut := lut, regions := LutRegions(lut))
  }

  /** One fault: the new state, and whether the handler returned to the faulting instruction (as
      opposed to escalating to the generic fault handler). */
  function Handle(entries: map<Paddr, Block>, s: FaultState, f: Fault): (r: (FaultState, bool))
    requires Ok(entries, s)
    ensures Ok(entries, r.0)
  {
    var v := IndexOf(entries, s, f.addr);
    if f.cause == Unknown || v == LISTED then (s, false)
    else if f.cause == Fetch32 then
      var second := Wrap(f.addr + 2);
      var mapped, mapped2 := Mapped(s.regions[v], f.addr), Mapped(s.regions[SPARE_FETCH], second);
      if !InVirtual(entries, s.mpu, second, v) || (mapped && mapped2) then (s, false)
      else
        var s1 := if mapped then s else PageIn(entries, s, f.addr, v, v);
        (if mapped2 then s1 else PageIn(entries, s1, second, v, SPARE_FETCH), true)
    else if Mapped(s.regions[v], f.addr) then (s, false)
    else
      var spare := if f.cause == DataAccess then SPARE_DATA else SPARE_FETCH;
      (PageIn(entries, s, f.addr, v, if s.flag then spare else v).(flag := !s.flag), true)
  }

  /** The faults that page in one part. */
  lemma SingleCases(entries: map<Paddr, Block>, s: FaultState, f: Fault, v: nat)
    requires f.cause == DataAccess || f.cause == Fetch16
    requires Ok(entries, s) && v == IndexOf(entries, s, f.addr) < LISTED
    ensures Mapped(s.regions[v], f.addr) ==> Handle(entries, s, f) == (s, false)
    ensures !Mapped(s.regions[v], f.addr) ==>
      var spare := if f.cause == DataAccess then SPARE_DATA else SPARE_FETCH;
      Handle(entries, s, f) == (PageIn(entries, s, f.addr, v, if s.flag then spare else v).(flag := !s.flag), true)
  {
  }

  /** A 32-bit fetch. */
  lemma Fetch32Cases(entries: map<Paddr, Block>, s: FaultState, a: Word, v: nat)
    requires Ok(entries, s) && v == IndexOf(entries, s, a) < LISTED
    ensures !InVirtual(entries, s.mpu, Wrap(a + 2), v) ==> Handle(entries, s, Fault(Fetch32, a)) == (s, false)
    ensures InVirtual(entries, s.mpu, Wrap(a + 2), v) ==>
      var second := Wrap(a + 2);
      var mapped, mapped2 := Mapped(s.regions[v], a), Mapped(s.regions[SPARE_FETCH], second);
      var s1 := if mapped then s else PageIn(entries, s, a, v, v);
      Handle(entries, s, Fault(Fetch32, a))
        == if mapped && mapped2 then (s, false)
           else (if mapped2 then s1 else PageIn(entries, s1, second, v, SPARE_FETCH), true)
  {
  }

  // ----- the handler --------------------------------------------------------------------

  class Handler {
    const mal: MemoryLayer
    var flag: bool

    constructor (mal: MemoryLayer)
      ensures this.mal == mal && !flag
    {
      this.mal, flag := mal, false;
    }

    ghost predicate Valid()
      reads this, mal, mal.hw, mal.pds.Values, set p | p in mal.pds :: mal.pds[p].lut
    {
      mal.Valid() && mal.current in mal.pds && Aligned(mal.hw.regions)
    }

    ghost function State(): FaultState
      requires Valid()
      reads this, mal, mal.hw, mal.pds.Values, set p | p in mal.pds :: mal.pds[p].lut
    {
      var pd := mal.pds[mal.current];
      FaultState(pd.mpu, pd.lut[..], mal.hw.regions, flag)
    }

    lemma StateIsOk()
      requires Valid()
      ensures Ok(mal.entries, State())
    {
      assert PdOk(mal.entries, mal.State().pds[mal.current]);
    }

    /** findMpuIndex; the result is `LISTED` when the source's function fails. */
    method FindMpuIndex(a: Word) returns (i: nat)
      requires Valid()
      ensures Ok(mal.entries, State()) && i == IndexOf(mal.entries, State(), a)
    {
      StateIsOk();
      ghost var s := State();
      i := 0;
      while i < LISTED
        invariant i <= LISTED
        invariant IndexFrom(mal.entries, s, a, i) == IndexOf(mal.entries, s, a)
      {
        var block := mal.pds[mal.current].mpu[i];
        if block != NULL && mal.entries[block].present && mal.entries[block].start <= a <= mal.entries[block].last {
          return;
        }
        i := i + 1;
      }
    }

    /** isMappedInPhysicalMpu */
    method IsMappedInPhysicalMpu(a: Word, i: nat) returns (r: bool)
      requires Valid() && i < REGIONS
      modifies mal.hw`rnr
      ensures Valid() && r == Mapped(mal.hw.regions[i], a)
    {
      var saddr := ReadStartAddr(mal.hw, i);
      var eaddr := ReadEndAddr(mal.hw, i);
      r := saddr <= a && a <= eaddr;
      assert mal.State() == old(mal.State());
    }

    /** reconfigureMpu */
    method ReconfigureMpu(a: Word, v: nat, slot: nat)
      requires Valid() && v < LISTED && slot < REGIONS
      requires Ok(mal.entries, State()) && InVirtual(mal.entries, State().mpu, a, v)
      modifies mal.pds[mal.current].lut, mal.hw
      ensures Valid()
      ensures State() == PageIn(mal.entries, old(State()), a, v, slot)
    {
      ghost var next := PageIn(mal.entries, State(), a, v, slot);
      mal.ConfigureCurrent(slot, mal.pds[mal.current].mpu[v], a);
      assert mal.State().pds[mal.current].lut == next.lut;
      LutRegionsAligned(next.lut);
    }

    /** The case of a 32-bit instruction: each half-word that is not mapped is paged in. */
    method HandleFetch32(a: Word, v: nat) returns (handled: bool)
      requires Valid() && Ok(mal.entries, State()) && v == IndexOf(mal.entries, State(), a) < LISTED
      modifies mal.pds[mal.current].lut, mal.hw
      ensures Valid()
      ensures (State(), handled) == Handle(mal.entries, old(State()), Fault(Fetch32, a))
    {
      ghost var s := State();
      Fetch32Cases(mal.entries, s, a, v);
      var second := Wrap(a + 2);
      var block := mal.entries[mal.pds[mal.current].mpu[v]];
      if !(block.start <= second <= block.last) { return false; }
      var mapped := IsMappedInPhysicalMpu(a, v);
      var mapped2 := IsMappedInPhysicalMpu(second, SPARE_FETCH);
      if mapped && mapped2 { return false; }
      if !mapped { ReconfigureMpu(a, v, v); }
      if !mapped2 { ReconfigureMpu(second, v, SPARE_FETCH); }
      handled := true;
    }

    /** The cases of a data access and of a 16-bit instruction. */
    method HandleSingle(f: Fault, v: nat) returns (handled: bool)
      requires f.cause == DataAccess || f.cause == Fetch16
      requires Valid() && Ok(mal.entries, State()) && v == IndexOf(mal.entries, State(), f.addr) < LISTED
      modifies this`flag, mal.pds[mal.current].lut, mal.hw
      ensures Valid()
      ensures (State(), handled) == Handle(mal.entries, old(State()), f)
    {
      ghost var s := State();
      SingleCases(mal.entries, s, f, v);
      var mapped := IsMappedInPhysicalMpu(f.addr, v);
      assert State() == s;
      if mapped { return false; }
      var slot := v;
      if flag { slot := if f.cause == DataAccess then SPARE_DATA else SPARE_FETCH; }
      PageAndToggle(f.addr, v, slot);
      handled := true;
    }

    method PageAndToggle(a: Word, v: nat, slot: nat)
      requires Valid() && v < LISTED && slot < REGIONS
      requires Ok(mal.entries, State()) && InVirtual(mal.entries, State().mpu, a, v)
      modifies this`flag, mal.pds[mal.current].lut, mal.hw
      ensures Valid()
      ensures State() == PageIn(mal.entries, old(State()), a, v, slot).(flag := !old(State()).flag)
    {
      ReconfigureMpu(a, v, slot);
      flag := !flag;
    }

    /** MemManage_Handler_C, given the cause and the address of the fault. */
    method HandleFault(f: Fault) returns (handled: bool)
      requires Valid()
      modifies this`flag, mal.pds[mal.current].lut, mal.hw
      ensures Valid() && Ok(mal.entries, old(State()))
      ensures (State(), handled) == Handle(mal.entries, old(State()), f)
    {
      StateIsOk();
      if f.cause == Unknown { return false; }
      var v := FindMpuIndex(f.addr);
      if v == LISTED { return false; }
      if f.cause == Fetch32 {
        handled := HandleFetch32(f.addr, v);
      } else {
        handled := HandleSingle(f, v);
      }
    }
  }
}
