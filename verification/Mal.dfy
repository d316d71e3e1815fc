/** The memory abstraction layer of mal.c: partition descriptors, the current partition, and the
    operations that keep a descriptor's block list, its lookup table and the MPU together. */
module Mal {
  import opened Bits
  import opened LookupTable
  import opened MpuRegisters
  import opened Wrappers

  /** A pointer of the source: an address, with 0 for NULL. */
  type Paddr = Word

  const NULL: Paddr := 0

  /** The contents of a partition descriptor. `structure` lists the block entries of the
      partition's kernel structures in the order they are searched. */
  datatype Pd = Pd(
    parent: Paddr, vidt: Paddr, intState: Word,
    structure: seq<Paddr>, mpu: seq<Paddr>, lut: seq<Word>
  )

  ghost predicate WellSized(pd: Pd) {
    |pd.mpu| == REGIONS && |pd.lut| == 2 * REGIONS
  }

  class PdTable {
    var parent: Paddr
    var vidtAddr: Paddr
    var interruptState: Word
    var structure: seq<Paddr>
    var mpu: seq<Paddr>
    const lut: array<Word>

    ghost predicate Valid()
      reads this
    {
      |mpu| == REGIONS && lut.Length == 2 * REGIONS
    }

    ghost function Value(): (pd: Pd)
      reads this, lut
    {
      Pd(parent, vidtAddr, interruptState, structure, mpu, lut[..])
    }

    /** initPDTable */
    constructor ()
      ensures Valid() && fresh(lut) && Value() == InitialPd()
    {
      parent, vidtAddr, interruptState, structure := NULL, NULL, 0, [];
      mpu := seq(REGIONS, i => NULL);
      lut := new Word[2 * REGIONS];
      new;
      ClearLut(lut);
    }

    /** `mpu[i] = block`, then configure_LUT_entry on that slot. */
    method SetBlock(entries: map<Paddr, Block>, i: nat, block: Paddr, a: Word)
      requires Valid() && i < REGIONS && EntriesOk(entries) && Listable(entries, block)
      requires block != NULL ==> entries[block].Contains(a)
      modifies this`mpu, lut
      ensures Valid() && Value() == WithBlock(entries, old(Value()), i, block, a)
    {
      mpu := mpu[i := block];
      ConfigureLutEntry(lut, i, Lookup(entries, block), a);
    }

    /** configure_LUT_entry on one slot, the block list being kept. */
    method ConfigureSlot(entries: map<Paddr, Block>, i: nat, block: Paddr, a: Word)
      requires Valid() && i < REGIONS && block in entries && entries[block].Valid() && entries[block].Contains(a)
      modifies lut
      ensures Valid() && Value() == old(Value()).(lut := SetEntry(old(Value()).lut, i, Some(entries[block]), a))
    {
      ConfigureLutEntry(lut, i, Some(entries[block]), a);
    }

    /** removeBlockFromPhysicalMPU: every slot that lists the block is cleared and unlisted. */
    method RemoveBlock(block: Paddr)
      requires Valid()
      modifies this`mpu, lut
      ensures Valid() && Value() == WithoutBlock(old(Value()), block)
    {
      ghost var was := Value();
      var i := 0;
      while i < REGIONS
        invariant 0 <= i <= REGIONS && Valid()
        invariant Value() == was.(mpu := mpu, lut := lut[..])
        invariant forall k :: 0 <= k < REGIONS ==>
          mpu[k] == if k < i then WithoutBlock(was, block).mpu[k] else was.mpu[k]
        invariant forall k :: 0 <= k < 2 * REGIONS ==>
          lut[k] == if k < 2 * i then WithoutBlock(was, block).lut[k] else was.lut[k]
      {
        if mpu[i] == block {
          ghost var before := lut[..];
          ConfigureLutEntry(lut, i, None, NULL);
          assert forall k :: 0 <= k < 2 * REGIONS && k != 2 * i && k != 2 * i + 1 ==> lut[..][k] == before[k];
          assert lut[..][2 * i] == i + 16 && lut[..][2 * i + 1] == 0;
          mpu := mpu[i := NULL];
        }
        i := i + 1;
      }
      assert lut[..] == WithoutBlock(was, block).lut;
      assert mpu == WithoutBlock(was, block).mpu;
    }
  }

  function InitialPd(): Pd {
    Pd(NULL, NULL, 0, [], seq(REGIONS, i => NULL), ClearedLut())
  }

  function WithoutBlock(pd: Pd, block: Paddr): (r: Pd)
    requires |pd.mpu| == REGIONS && |pd.lut| == 2 * REGIONS
    ensures |r.mpu| == REGIONS && |r.lut| == 2 * REGIONS
  {
    pd.(
      mpu := seq(REGIONS, k requires 0 <= k < REGIONS => if pd.mpu[k] == block then NULL else pd.mpu[k]),
      lut := seq(2 * REGIONS, k requires 0 <= k < 2 * REGIONS =>
        if pd.mpu[k / 2] == block then ClearedLut()[k] else pd.lut[k])
    )
  }

  /** The block entries in memory, by address. They are fixed here. */
  ghost predicate EntriesOk(entries: map<Paddr, Block>) {
    NULL !in entries && forall p :: p in entries ==> entries[p].Valid()
  }

  predicate Listable(entries: map<Paddr, Block>, p: Paddr) {
    p == NULL || p in entries
  }

  function Lookup(entries: map<Paddr, Block>, p: Paddr): Option<Block>
    requires Listable(entries, p)
  {
    if p == NULL then None else Some(entries[p])
  }

  /** Slot `i` lists block `p`, covering its part around `a`; for NULL the slot is cleared. */
  function WithBlock(entries: map<Paddr, Block>, pd: Pd, i: nat, p: Paddr, a: Word): (r: Pd)
    requires WellSized(pd) && i < REGIONS && EntriesOk(entries) && Listable(entries, p)
    requires p != NULL ==> entries[p].Contains(a)
    ensures WellSized(r)
  {
    pd.(mpu := pd.mpu[i := p], lut := SetEntry(pd.lut, i, Lookup(entries, p), a))
  }

  /** The address replaceBlockInPhysicalMPU passes on: the block's start. (For NULL the source reads
      through the null pointer; the value read is not used.) */
  function StartOf(entries: map<Paddr, Block>, p: Paddr): Word
    requires Listable(entries, p)
  {
    if p == NULL then 0 else entries[p].start
  }

  /** The state of the layer: descriptors, current and root partition, hardware regions. */
  datatype MalState = MalState(pds: map<Paddr, Pd>, current: Paddr, root: Paddr, regions: seq<RegionRegs>)

  ghost predicate StateOk(entries: map<Paddr, Block>, s: MalState) {
    && |s.regions| == REGIONS
    && NULL !in s.pds
    && forall p :: p in s.pds ==> PdOk(entries, s.pds[p])
  }

  ghost predicate PdOk(entries: map<Paddr, Block>, pd: Pd) {
    && WellSized(pd)
    && Tagged(pd.lut)
    && forall i :: 0 <= i < REGIONS ==> Listable(entries, pd.mpu[i])
  }

  function Replace(entries: map<Paddr, Block>, s: MalState, p: Paddr, block: Paddr, i: nat): MalState
    requires EntriesOk(entries) && p in s.pds && WellSized(s.pds[p])
    requires i < REGIONS && Listable(entries, block)
  {
    var pd := WithBlock(entries, s.pds[p], i, block, StartOf(entries, block));
    s.(
      pds := s.pds[p := pd],
      regions := if p == s.current then LutRegions(pd.lut) else s.regions
    )
  }

  /** Slot `slot` of the current table is set for the part of a block around `a`, and loaded. */
  function Configure(entries: map<Paddr, Block>, s: MalState, slot: nat, block: Paddr, a: Word): MalState
    requires EntriesOk(entries) && s.current in s.pds && WellSized(s.pds[s.current]) && slot < REGIONS
    requires block in entries && entries[block].Contains(a)
  {
    var pd := s.pds[s.current];
    var lut := SetEntry(pd.lut, slot, Some(entries[block]), a);
    s.(pds := s.pds[s.current := pd.(lut := lut)], regions := LutRegions(lut))
  }

  /** The interrupt state of the current partition is set. */
  function WithIntState(s: MalState, v: Word): MalState {
    if s.current in s.pds then s.(pds := s.pds[s.current := s.pds[s.current].(intState := v)]) else s
  }

  function Remove(s: MalState, p: Paddr, block: Paddr): MalState
    requires p in s.pds && WellSized(s.pds[p])
  {
    s.(pds := s.pds[p := WithoutBlock(s.pds[p], block)])
  }

  function Create(s: MalState, p: Paddr): MalState {
    s.(pds := s.pds[p := InitialPd()])
  }

  function Activate(s: MalState, p: Paddr): MalState
    requires p in s.pds && WellSized(s.pds[p])
  {
    s.(current := p, regions := LutRegions(s.pds[p].lut))
  }

  /** The globals of mal.c, with the descriptors at their addresses. */
  class MemoryLayer {
    const hw: MpuHardware
    const entries: map<Paddr, Block>
    var pds: map<Paddr, PdTable>
    var current: Paddr
    var root: Paddr

    /** Before any descriptor exists; the MPU has been reset. */
    constructor (hw: MpuHardware, entries: map<Paddr, Block>)
      requires hw.Valid() && EntriesOk(entries)
      modifies hw
      ensures Valid() && this.hw == hw && this.entries == entries
      ensures State() == MalState(map[], NULL, NULL, seq(REGIONS, i => CLEARED))
    {
      this.hw, this.entries := hw, entries;
      pds, current, root := map[], NULL, NULL;
      new;
      Init(hw);
      assert hw.regions == seq(REGIONS, i => CLEARED);
      assert State().pds == map[];
    }

    ghost function State(): MalState
      reads this, hw, pds.Values, set p | p in pds :: pds[p].lut
    {
      MalState(map p | p in pds :: pds[p].Value(), current, root, hw.regions)
    }

    /** Descriptors at distinct addresses share nothing. */
    ghost predicate Separate()
      reads this
    {
      forall p, q :: p in pds && q in pds && p != q ==> pds[p] != pds[q] && pds[p].lut != pds[q].lut
    }

    ghost predicate Valid()
      reads this, hw, pds.Values, set p | p in pds :: pds[p].lut
    {
      && EntriesOk(entries)
      && hw.Valid()
      && Separate()
      && (forall p :: p in pds ==> pds[p].Valid())
      && StateOk(entries, State())
    }

    /** The state after one descriptor was updated. */
    lemma Updated(p: Paddr, before: MalState, next: Pd)
      requires StateOk(entries, before) && PdOk(entries, next) && hw.Valid()
      requires p in pds && pds[p].Value() == next && before.pds.Keys == pds.Keys
      requires forall q :: q in pds && q != p ==> pds[q].Value() == before.pds[q]
      ensures State().pds == before.pds[p := next] && StateOk(entries, State())
    {
      assert State().pds == before.pds[p := next];
    }

    /** initPDTable on a descriptor that is not current. */
    method CreatePd(p: Paddr)
      requires Valid() && p != NULL
      modifies this`pds
      ensures Valid() && p in pds && fresh(pds[p]) && fresh(pds[p].lut)
      ensures pds == old(pds)[p := pds[p]]
      ensures State() == Create(old(State()), p)
    {
      var pd := new PdTable();
      InitialPdOk(entries);
      Register(p, pd);
    }

    method Register(p: Paddr, pd: PdTable)
      requires Valid() && p != NULL && pd.Valid() && PdOk(entries, pd.Value())
      requires forall q :: q in pds ==> pds[q] != pd && pds[q].lut != pd.lut
      modifies this`pds
      ensures Valid() && pds == old(pds)[p := pd]
      ensures State() == old(State()).(pds := old(State()).pds[p := pd.Value()])
    {
      ghost var was := State();
      pds := pds[p := pd];
      assert State().pds == was.pds[p := pd.Value()];
      StateOkUpdated(entries, was, p, pd.Value());
    }

    /** removeBlockFromPhysicalMPU */
    method RemoveBlock(p: Paddr, block: Paddr)
      requires Valid() && p in pds
      modifies pds[p], pds[p].lut
      ensures Valid()
      ensures State() == Remove(old(State()), p, block)
    {
      ghost var before, was := State(), pds[p].Value();
      assert was == before.pds[p];
      pds[p].RemoveBlock(block);
      WithoutBlockOk(entries, was, block);
      assert State().pds == before.pds[p := WithoutBlock(was, block)];
    }

    /** replaceBlockInPhysicalMPU */
    method ReplaceBlock(p: Paddr, block: Paddr, i: nat)
      requires Valid() && p in pds && i < REGIONS && Listable(entries, block)
      modifies pds[p], pds[p].lut, hw
      ensures Valid()
      ensures State() == Replace(entries, old(State()), p, block, i)
    {
      SetSlot(p, block, i);
      if p == current {
        LoadCurrent();
      }
    }

    method SetSlot(p: Paddr, block: Paddr, i: nat)
      requires Valid() && p in pds && i < REGIONS && Listable(entries, block)
      modifies pds[p], pds[p].lut
      ensures Valid()
      ensures var m := old(State());
              State() == m.(pds := m.pds[p := WithBlock(entries, m.pds[p], i, block, StartOf(entries, block))])
    {
      ghost var before, was := State(), pds[p].Value();
      assert was == before.pds[p];
      WithBlockOk(entries, was, i, block, StartOf(entries, block));
      pds[p].SetBlock(entries, i, block, StartOf(entries, block));
      Updated(p, before, WithBlock(entries, was, i, block, StartOf(entries, block)));
    }

    /** configure_LUT_entry on a slot of the current descriptor for a listed block, then
        mpu_configure_from_LUT. */
    method ConfigureCurrent(slot: nat, block: Paddr, a: Word)
      requires Valid() && current in pds && slot < REGIONS
      requires block in entries && entries[block].Contains(a)
      modifies pds[current].lut, hw
      ensures Valid()
      ensures State() == Configure(entries, old(State()), slot, block, a)
    {
      SetCurrentSlot(slot, block, a);
      LoadCurrent();
    }

    method SetCurrentSlot(slot: nat, block: Paddr, a: Word)
      requires Valid() && current in pds && slot < REGIONS
      requires block in entries && entries[block].Contains(a)
      modifies pds[current].lut
      ensures Valid()
      ensures var m := old(State());
              var lut := SetEntry(m.pds[current].lut, slot, Some(entries[block]), a);
              State() == m.(pds := m.pds[current := m.pds[current].(lut := lut)])
    {
      ghost var before, was := State(), pds[current].Value();
      assert was == before.pds[current];
      SlotOk(entries, was, slot, block, a);
      pds[current].ConfigureSlot(entries, slot, block, a);
      Updated(current, before, was.(lut := SetEntry(was.lut, slot, Some(entries[block]), a)));
    }

    /** mpu_configure_from_LUT on the current descriptor's table. */
    method LoadCurrent()
      requires Valid() && current in pds
      modifies hw
      ensures Valid()
      ensures State() == old(State()).(regions := LutRegions(old(State()).pds[current].lut))
    {
      ghost var before, pd := State(), pds[current].Value();
      assert pd == before.pds[current] && Tagged(pds[current].lut[..]);
      ConfigureFromLut(hw, pds[current].lut);
      assert State().pds == before.pds;
    }

    /** kernel_set_int_state; before the first partition runs there is no descriptor to write. */
    method SetIntState(v: Word)
      requires Valid()
      modifies if current in pds then {pds[current]} else {}
      ensures Valid() && pds == old(pds) && current == old(current) && root == old(root)
      ensures State() == WithIntState(old(State()), v)
    {
      if current in pds {
        ghost var before, was := State(), pds[current].Value();
        pds[current].interruptState := v;
        ghost var next := was.(intState := v);
        assert pds[current].Value() == next && PdOk(entries, before.pds[current]);
        assert State().pds == before.pds[current := next];
      }
    }

    /** updateCurPartAndActivate */
    method UpdateCurPartAndActivate(p: Paddr)
      requires Valid() && p in pds
      modifies this`current, hw
      ensures Valid() && pds == old(pds) && root == old(root)
      ensures State() == Activate(old(State()), p)
    {
      ghost var before, pd := State(), pds[p].Value();
      assert pd == before.pds[p] && Tagged(pds[p].lut[..]);
      ConfigureFromLut(hw, pds[p].lut);
      current := p;
      assert State().pds == before.pds;
    }
  }

  lemma StateOkUpdated(entries: map<Paddr, Block>, s: MalState, p: Paddr, pd: Pd)
    requires StateOk(entries, s) && PdOk(entries, pd) && p != NULL
    ensures StateOk(entries, s.(pds := s.pds[p := pd]))
  {
  }

  lemma InitialPdOk(entries: map<Paddr, Block>)
    ensures PdOk(entries, InitialPd())
  {
    ClearedLutIsTagged();
  }

  lemma WithoutBlockOk(entries: map<Paddr, Block>, pd: Pd, block: Paddr)
    requires PdOk(entries, pd)
    ensures PdOk(entries, WithoutBlock(pd, block))
    ensures forall k :: 0 <= k < REGIONS ==>
      SlotRegion(WithoutBlock(pd, block).lut, k) == if pd.mpu[k] == block then CLEARED else SlotRegion(pd.lut, k)
  {
    ClearedLutIsTagged();
    var r := WithoutBlock(pd, block);
    forall k | 0 <= k < REGIONS
      ensures ValidField(r.lut[2 * k]) && RegionField(r.lut[2 * k]) == k
      ensures SlotRegion(r.lut, k) == if pd.mpu[k] == block then CLEARED else SlotRegion(pd.lut, k)
    {
      assert (2 * k) / 2 == k && (2 * k + 1) / 2 == k;
      assert SlotRegion(ClearedLut(), k) == CLEARED;
    }
  }

  lemma SlotOk(entries: map<Paddr, Block>, pd: Pd, i: nat, block: Paddr, a: Word)
    requires PdOk(entries, pd) && i < REGIONS && EntriesOk(entries) && block in entries && entries[block].Contains(a)
    ensures PdOk(entries, pd.(lut := SetEntry(pd.lut, i, Some(entries[block]), a)))
  {
    SetEntryFrame(pd.lut, i, Some(entries[block]), a);
  }

  lemma WithBlockOk(entries: map<Paddr, Block>, pd: Pd, i: nat, p: Paddr, a: Word)
    requires PdOk(entries, pd) && i < REGIONS && EntriesOk(entries) && Listable(entries, p)
    requires p != NULL ==> entries[p].Contains(a)
    ensures PdOk(entries, WithBlock(entries, pd, i, p, a))
  {
    SetEntryFrame(pd.lut, i, Lookup(entries, p), a);
  }
}
