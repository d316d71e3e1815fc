/** Properties of runs of MemManage faults: progress, a bound on retries, confinement. */
module FaultRuns {
  import opened Bits
  import opened LookupTable
  import opened MpuRegisters
  import opened Mal
  import opened MemManage
  import opened Wrappers

  /** The hardware holds what the current table says. */
  ghost predicate Synced(s: FaultState) {
    |s.lut| == 2 * REGIONS && s.regions == LutRegions(s.lut)
  }

  predicate Single(c: Cause) { c == DataAccess || c == Fetch16 }

  /** The slot invariant: a slot that can be searched is disabled exactly when it lists no block, and
      otherwise maps a legal part of its block with the block's rights; the spare slots hold a legal
      region or none. */
  ghost predicate SlotsOk(entries: map<Paddr, Block>, mpu: seq<Paddr>, lut: seq<Word>) {
    && |mpu| == REGIONS && |lut| == 2 * REGIONS
    && (forall i :: 0 <= i < REGIONS ==> Listable(entries, mpu[i]))
    && (forall i :: 0 <= i < LISTED ==> SlotHolds(entries, mpu[i], SlotRegion(lut, i)))
    && (forall i :: LISTED <= i < REGIONS ==> SlotRegion(lut, i) == CLEARED || Legal(SlotRegion(lut, i)))
  }

  ghost predicate SlotHolds(entries: map<Paddr, Block>, p: Paddr, r: RegionRegs)
    requires Listable(entries, p)
  {
    if p == NULL then r == CLEARED else MapsPartOf(r, entries[p])
  }

  /** What paging in achieves: the address lies in an enabled region inside the block, with the block's
      rights, and the other slots are as they were. */
  lemma PageInEffect(entries: map<Paddr, Block>, s: FaultState, a: Word, v: nat, slot: nat)
    requires Ok(entries, s) && v < LISTED && slot < REGIONS && InVirtual(entries, s.mpu, a, v)
    ensures var r := PageIn(entries, s, a, v, slot);
      && Synced(r)
      && MapsPartOf(r.regions[slot], entries[s.mpu[v]])
      && InRegion(r.regions[slot], a) && Mapped(r.regions[slot], a)
      && (Synced(s) ==> forall k :: 0 <= k < REGIONS && k != slot ==> r.regions[k] == s.regions[k])
  {
    SlotDecodes(s.lut, slot, entries[s.mpu[v]], a);
    SetEntryFrame(s.lut, slot, Some(entries[s.mpu[v]]), a);
  }

  /** The software test of a mapping can be trusted for slot `k` and address `a`: the region is a legal one, or
      a cleared one and the address is not 0. */
  ghost predicate Trusted(s: FaultState, k: nat, a: Word)
    requires k < |s.regions|
  {
    Legal(s.regions[k]) || (s.regions[k] == CLEARED && a != 0)
  }

  /** It can wherever the slot invariant holds. */
  lemma SlotsTrusted(entries: map<Paddr, Block>, s: FaultState, a: Word)
    requires Ok(entries, s) && Synced(s) && SlotsOk(entries, s.mpu, s.lut)
    ensures var v := IndexOf(entries, s, a); v < LISTED ==> Trusted(s, v, a)
    ensures a != 0 ==> Trusted(s, SPARE_FETCH, a)
  {
    var v := IndexOf(entries, s, a);
    if v < LISTED { assert SlotHolds(entries, s.mpu[v], SlotRegion(s.lut, v)); }
  }

  // ----- one fault ------------------------------------------------------------------------

  /** The slot that is found is the first of the six whose block is present and around the address, both ends of the
      block included; 6 if there is none. */
  lemma IndexIsFirst(entries: map<Paddr, Block>, s: FaultState, a: Word, v: nat)
    requires Ok(entries, s) && v == IndexOf(entries, s, a)
    ensures v <= 6 && (v < 6 ==> Around(entries, s.mpu[v], a))
    ensures forall k :: 0 <= k < v ==> !Around(entries, s.mpu[k], a)
  {
  }

  predicate Around(entries: map<Paddr, Block>, p: Paddr, a: Word)
    requires Listable(entries, p)
  {
    p != 0 && entries[p].present && entries[p].start <= a <= entries[p].last
  }

  /** A data or 16-bit fetch fault is handled exactly when the address belongs to a listed present
      block whose own slot does not map it yet; a handled one leaves it mapped, in that slot or, at every
      other fault, in spare slot 7 for data and 6 for a fetch, inside the block and with the block's rights. */
  lemma SingleFault(entries: map<Paddr, Block>, s: FaultState, f: Fault)
    requires Ok(entries, s) && Single(f.cause) && Synced(s)
    requires var v := IndexOf(entries, s, f.addr); v < LISTED ==> Trusted(s, v, f.addr)
    ensures var v := IndexOf(entries, s, f.addr);
            var slot := if !s.flag then v else if f.cause == DataAccess then 7 else 6;
            var (r, handled) := Handle(entries, s, f);
            && (handled <==> v < 6 && !InRegion(s.regions[v], f.addr))
            && (!handled ==> r == s)
            && (handled ==>
              && r.flag == !s.flag && Synced(r) && r.mpu == s.mpu
              && InRegion(r.regions[slot], f.addr) && MapsPartOf(r.regions[slot], entries[s.mpu[v]])
              && forall k :: 0 <= k < REGIONS && k != slot ==> r.regions[k] == s.regions[k])
  {
    var v := IndexOf(entries, s, f.addr);
    if v < LISTED {
      MappedIffInRegion(s.regions[v], f.addr);
      SingleCases(entries, s, f, v);
      if Handle(entries, s, f).1 { SingleHandled(entries, s, f); }
    }
  }

  /** A 32-bit fetch fault is handled exactly when both half-words belong to the block found for the first, and are not
      both mapped yet, the first in the block's own slot and the second in spare slot 6. Then each of these two slots
      that does not map its half-word gets it, and nothing else changes. */
  lemma Fetch32Fault(entries: map<Paddr, Block>, s: FaultState, a: Word, v: nat, second: Word)
    requires Ok(entries, s) && Synced(s) && v == IndexOf(entries, s, a) && second == Wrap(a + 2)
    requires v < LISTED ==> Trusted(s, v, a) && Trusted(s, SPARE_FETCH, second)
    ensures var (r, handled) := Handle(entries, s, Fault(Fetch32, a));
            && (handled <==>
                && v < 6 && Around(entries, s.mpu[v], second)
                && !(InRegion(s.regions[v], a) && InRegion(s.regions[6], second)))
            && (!handled ==> r == s)
            && (handled ==>
              && Synced(r) && r.mpu == s.mpu && r.flag == s.flag
              && Filled(s.regions[v], r.regions[v], a, entries[s.mpu[v]])
              && Filled(s.regions[6], r.regions[6], second, entries[s.mpu[v]])
              && forall k :: 0 <= k < REGIONS && k != v && k != 6 ==> r.regions[k] == s.regions[k])
  {
    if v < LISTED {
      Fetch32Cases(entries, s, a, v);
      MappedIffInRegion(s.regions[v], a);
      MappedIffInRegion(s.regions[SPARE_FETCH], second);
      if InVirtual(entries, s.mpu, second, v) { Fetch32Pages(entries, s, a, v, second); }
    }
  }

  /** The region maps the address: it did so before and is the same, or it is part of the block now. */
  ghost predicate Filled(before: RegionRegs, after: RegionRegs, a: Word, b: Block) {
    InRegion(after, a) && if InRegion(before, a) then after == before else MapsPartOf(after, b)
  }

  lemma Fetch32Pages(entries: map<Paddr, Block>, s: FaultState, a: Word, v: nat, second: Word)
    requires Ok(entries, s) && Synced(s) && v < LISTED
    requires InVirtual(entries, s.mpu, a, v) && InVirtual(entries, s.mpu, second, v)
    requires Mapped(s.regions[v], a) <==> InRegion(s.regions[v], a)
    requires Mapped(s.regions[SPARE_FETCH], second) <==> InRegion(s.regions[SPARE_FETCH], second)
    ensures var s1 := if Mapped(s.regions[v], a) then s else PageIn(entries, s, a, v, v);
            var r := if Mapped(s.regions[SPARE_FETCH], second) then s1 else PageIn(entries, s1, second, v, SPARE_FETCH);
            && Synced(r)
            && Filled(s.regions[v], r.regions[v], a, entries[s.mpu[v]])
            && Filled(s.regions[SPARE_FETCH], r.regions[SPARE_FETCH], second, entries[s.mpu[v]])
            && forall k :: 0 <= k < REGIONS && k != v && k != SPARE_FETCH ==> r.regions[k] == s.regions[k]
  {
    var s1 := s;
    if !Mapped(s.regions[v], a) {
      PageInEffect(entries, s, a, v, v);
      s1 := PageIn(entries, s, a, v, v);
    }
    if !Mapped(s.regions[SPARE_FETCH], second) { PageInEffect(entries, s1, second, v, SPARE_FETCH); }
  }

  /** The slot invariant survives paging in, into the block's own slot or a spare one. */
  lemma PageInKeepsSlots(entries: map<Paddr, Block>, s: FaultState, a: Word, v: nat, slot: nat)
    requires Ok(entries, s) && SlotsOk(entries, s.mpu, s.lut)
    requires v < LISTED && InVirtual(entries, s.mpu, a, v) && (slot == v || LISTED <= slot < REGIONS)
    ensures SlotsOk(entries, s.mpu, PageIn(entries, s, a, v, slot).lut)
  {
    SlotDecodes(s.lut, slot, entries[s.mpu[v]], a);
    SetEntryFrame(s.lut, slot, Some(entries[s.mpu[v]]), a);
    var r := PageIn(entries, s, a, v, slot);
    assert forall k :: 0 <= k < REGIONS && k != slot ==> SlotRegion(r.lut, k) == SlotRegion(s.lut, k);
  }

  lemma HandleKeepsSlots(entries: map<Paddr, Block>, s: FaultState, f: Fault)
    requires Ok(entries, s) && SlotsOk(entries, s.mpu, s.lut)
    ensures var r := Handle(entries, s, f).0;
            r.mpu == s.mpu && SlotsOk(entries, r.mpu, r.lut) && (Synced(s) ==> Synced(r))
  {
    var v := IndexOf(entries, s, f.addr);
    if Handle(entries, s, f).1 {
      if f.cause == Fetch32 {
        var s1 := s;
        if !Mapped(s.regions[v], f.addr) {
          PageInKeepsSlots(entries, s, f.addr, v, v);
          s1 := PageIn(entries, s, f.addr, v, v);
        }
        if !Mapped(s.regions[SPARE_FETCH], Wrap(f.addr + 2)) {
          PageInKeepsSlots(entries, s1, Wrap(f.addr + 2), v, SPARE_FETCH);
        }
      } else {
        PageInKeepsSlots(entries, s, f.addr, v, v);
        PageInKeepsSlots(entries, s, f.addr, v, SPARE_DATA);
        PageInKeepsSlots(entries, s, f.addr, v, SPARE_FETCH);
      }
    }
  }

  // ----- progress ---------------------------------------------------------------------------

  /** Two consecutive handled faults, of one instruction and of the data it accesses, say: afterwards
      both addresses are mapped, in different slots, whatever the flag, the table and the hardware held. */
  lemma TwoFaultProgress(entries: map<Paddr, Block>, s: FaultState, f: Fault, g: Fault) returns (i: nat, j: nat)
    requires Ok(entries, s) && Single(f.cause) && Single(g.cause)
    requires Handle(entries, s, f).1 && Handle(entries, Handle(entries, s, f).0, g).1
    ensures i < REGIONS && j < REGIONS && i != j
    ensures var r := Handle(entries, Handle(entries, s, f).0, g).0;
            && InRegion(r.regions[i], f.addr) && MapsPartOf(r.regions[i], entries[s.mpu[IndexOf(entries, s, f.addr)]])
            && InRegion(r.regions[j], g.addr) && MapsPartOf(r.regions[j], entries[s.mpu[IndexOf(entries, s, g.addr)]])
  {
    var s1 := Handle(entries, s, f).0;
    i := UsedSlot(entries, s, f);
    j := UsedSlot(entries, s1, g);
    SingleHandled(entries, s, f);
    SingleHandled(entries, s1, g);
    SameIndex(entries, s, s1, g.addr, 0);
  }

  /** The slot a handled fault is paged into. */
  function UsedSlot(entries: map<Paddr, Block>, s: FaultState, f: Fault): (slot: nat)
    requires Ok(entries, s)
  {
    if !s.flag then IndexOf(entries, s, f.addr) else if f.cause == DataAccess then SPARE_DATA else SPARE_FETCH
  }

  lemma SingleHandled(entries: map<Paddr, Block>, s: FaultState, f: Fault)
    requires Ok(entries, s) && Single(f.cause) && Handle(entries, s, f).1
    ensures var v, slot, r := IndexOf(entries, s, f.addr), UsedSlot(entries, s, f), Handle(entries, s, f).0;
            && v < LISTED && r.flag == !s.flag && Synced(r) && r.mpu == s.mpu
            && InRegion(r.regions[slot], f.addr) && MapsPartOf(r.regions[slot], entries[s.mpu[v]])
            && (Synced(s) ==> forall k :: 0 <= k < REGIONS && k != slot ==> r.regions[k] == s.regions[k])
  {
    var v, slot := IndexOf(entries, s, f.addr), UsedSlot(entries, s, f);
    SingleCases(entries, s, f, v);
    PageInEffect(entries, s, f.addr, v, slot);
  }

  /** The search depends on the block list only. */
  lemma {:induction false} SameIndex(entries: map<Paddr, Block>, s: FaultState, t: FaultState, a: Word, i: nat)
    requires Ok(entries, s) && Ok(entries, t) && s.mpu == t.mpu && i <= LISTED
    ensures IndexFrom(entries, s, a, i) == IndexFrom(entries, t, a, i)
    decreases LISTED - i
  {
    if i < LISTED { SameIndex(entries, s, t, a, i + 1); }
  }

  // ----- no livelock --------------------------------------------------------------------------

  /** A run of faults: the final state and how many of them were handled. */
  function Run(entries: map<Paddr, Block>, s: FaultState, fs: seq<Fault>): (r: (FaultState, nat))
    requires Ok(entries, s)
    ensures Ok(entries, r.0) && r.1 <= |fs|
    decreases |fs|
  {
    if fs == [] then (s, 0)
    else
      var (s1, handled) := Handle(entries, s, fs[0]);
      var (s2, n) := Run(entries, s1, fs[1..]);
      (s2, n + if handled then 1 else 0)
  }

  /** How many faults at the same address can still be handled: none once both half-words are mapped
      where the handler looks for them, three at worst. */
  function Budget(entries: map<Paddr, Block>, s: FaultState, a: Word): (n: nat)
    requires Ok(entries, s)
    ensures n <= 3
  {
    var v := IndexOf(entries, s, a);
    if v == LISTED then 0
    else if Mapped(s.regions[v], a) then
      if Mapped(s.regions[SPARE_FETCH], Wrap(a + 2)) then 0 else 1
    else if s.flag then 3 else 2
  }

  lemma BudgetStep(entries: map<Paddr, Block>, s: FaultState, f: Fault)
    requires Ok(entries, s) && Synced(s)
    ensures var (r, handled) := Handle(entries, s, f);
            && Synced(r) && r.mpu == s.mpu
            && (!handled ==> r == s)
            && (handled ==> Budget(entries, r, f.addr) < Budget(entries, s, f.addr))
            && (handled && f.cause == Fetch32 ==> Budget(entries, r, f.addr) == 0)
            && (handled && Single(f.cause) ==>
              && !Mapped(s.regions[IndexOf(entries, s, f.addr)], f.addr)
              && r.flag == !s.flag
              && (!s.flag ==> Mapped(r.regions[IndexOf(entries, r, f.addr)], f.addr)))
  {
    var v := IndexOf(entries, s, f.addr);
    var (r, handled) := Handle(entries, s, f);
    if handled {
      var second := Wrap(f.addr + 2);
      if f.cause == Fetch32 {
        var s1 := s;
        if !Mapped(s.regions[v], f.addr) {
          PageInEffect(entries, s, f.addr, v, v);
          s1 := PageIn(entries, s, f.addr, v, v);
        }
        if !Mapped(s.regions[SPARE_FETCH], second) {
          PageInEffect(entries, s1, second, v, SPARE_FETCH);
        }
      } else {
        PageInEffect(entries, s, f.addr, v, UsedSlot(entries, s, f));
      }
      SameIndex(entries, s, r, f.addr, 0);
    }
  }

  /** No livelock: of any run of faults at one address, of whatever causes, at most three are handled;
      the next one escalates. */
  lemma {:induction false} RepeatedFaultEscalates(entries: map<Paddr, Block>, s: FaultState, a: Word, fs: seq<Fault>)
    requires Ok(entries, s) && Synced(s)
    requires forall i :: 0 <= i < |fs| ==> fs[i].addr == a
    ensures Run(entries, s, fs).1 <= Budget(entries, s, a) <= 3
    decreases |fs|
  {
    if fs != [] {
      BudgetStep(entries, s, fs[0]);
      RepeatedFaultEscalates(entries, Handle(entries, s, fs[0]).0, a, fs[1..]);
    }
  }

  /** With data and 16-bit fetch faults only, at most two are handled. */
  lemma {:induction false} RepeatedSingleEscalates(entries: map<Paddr, Block>, s: FaultState, a: Word, fs: seq<Fault>)
    requires Ok(entries, s) && Synced(s)
    requires forall i :: 0 <= i < |fs| ==> fs[i].addr == a && Single(fs[i].cause)
    ensures Run(entries, s, fs).1 <= 2
    ensures !s.flag ==> Run(entries, s, fs).1 <= 1
    ensures IndexOf(entries, s, a) < LISTED && Mapped(s.regions[IndexOf(entries, s, a)], a)
        ==> Run(entries, s, fs).1 == 0
    decreases |fs|
  {
    if fs != [] {
      BudgetStep(entries, s, fs[0]);
      RepeatedSingleEscalates(entries, Handle(entries, s, fs[0]).0, a, fs[1..]);
      SameIndex(entries, s, Handle(entries, s, fs[0]).0, a, 0);
    }
  }

  /** With 32-bit fetch faults only, at most one is handled. */
  lemma {:induction false} RepeatedFetch32Escalates(entries: map<Paddr, Block>, s: FaultState, a: Word, fs: seq<Fault>)
    requires Ok(entries, s) && Synced(s)
    requires forall i :: 0 <= i < |fs| ==> fs[i] == Fault(Fetch32, a)
    ensures Run(entries, s, fs).1 <= 1
    decreases |fs|
  {
    if fs != [] {
      var (s1, handled) := Handle(entries, s, fs[0]);
      BudgetStep(entries, s, fs[0]);
      if handled {
        RepeatedFaultEscalates(entries, s1, a, fs[1..]);
      } else {
        RepeatedFetch32Escalates(entries, s1, a, fs[1..]);
      }
    }
  }

  // ----- confinement ----------------------------------------------------------------------------

  /** Every enabled hardware region lies inside a listed block and carries that block's rights. */
  ghost predicate Confined(entries: map<Paddr, Block>, s: FaultState)
    requires Ok(entries, s)
  {
    forall k :: 0 <= k < REGIONS && EnableField(s.regions[k].rasr) == 1 ==> WithinListed(entries, s.mpu, s.regions[k])
  }

  ghost predicate WithinListed(entries: map<Paddr, Block>, mpu: seq<Paddr>, r: RegionRegs) {
    exists i :: 0 <= i < |mpu| && mpu[i] in entries && MapsPartOf(r, entries[mpu[i]])
  }

  /** The same of a table: every enabled slot describes part of a listed block. */
  ghost predicate ConfinedTable(entries: map<Paddr, Block>, mpu: seq<Paddr>, lut: seq<Word>)
    requires |lut| == 2 * REGIONS
  {
    forall k :: 0 <= k < REGIONS ==> Listed(entries, mpu, lut, k)
  }

  /** The slot's region, if it is enabled, is part of a block listed in `mpu`. */
  ghost predicate Listed(entries: map<Paddr, Block>, mpu: seq<Paddr>, lut: seq<Word>, k: nat)
    requires |lut| == 2 * REGIONS && k < REGIONS
  {
    EnableField(SlotRegion(lut, k).rasr) == 1 ==> WithinListed(entries, mpu, SlotRegion(lut, k))
  }

  lemma PageInConfined(entries: map<Paddr, Block>, s: FaultState, a: Word, v: nat, slot: nat)
    requires Ok(entries, s) && ConfinedTable(entries, s.mpu, s.lut)
    requires v < LISTED && slot < REGIONS && InVirtual(entries, s.mpu, a, v)
    ensures ConfinedTable(entries, s.mpu, PageIn(entries, s, a, v, slot).lut)
  {
    var lut := PageIn(entries, s, a, v, slot).lut;
    SlotDecodes(s.lut, slot, entries[s.mpu[v]], a);
    SetEntryFrame(s.lut, slot, Some(entries[s.mpu[v]]), a);
    assert WithinListed(entries, s.mpu, SlotRegion(lut, slot));
    forall k | 0 <= k < REGIONS ensures Listed(entries, s.mpu, lut, k) {
      assert Listed(entries, s.mpu, s.lut, k);
    }
  }

  /** A fault keeps the table confined, whatever the hardware holds. */
  lemma HandleConfined(entries: map<Paddr, Block>, s: FaultState, f: Fault)
    requires Ok(entries, s) && ConfinedTable(entries, s.mpu, s.lut)
    ensures var r := Handle(entries, s, f).0; r.mpu == s.mpu && ConfinedTable(entries, r.mpu, r.lut)
  {
    var v := IndexOf(entries, s, f.addr);
    if Handle(entries, s, f).1 {
      if f.cause == Fetch32 {
        var s1 := s;
        if !Mapped(s.regions[v], f.addr) {
          PageInConfined(entries, s, f.addr, v, v);
          s1 := PageIn(entries, s, f.addr, v, v);
        }
        if !Mapped(s.regions[SPARE_FETCH], Wrap(f.addr + 2)) {
          PageInConfined(entries, s1, Wrap(f.addr + 2), v, SPARE_FETCH);
        }
      } else {
        SingleCases(entries, s, f, v);
        PageInConfined(entries, s, f.addr, v, UsedSlot(entries, s, f));
      }
    }
  }

  lemma TableOfRegions(entries: map<Paddr, Block>, s: FaultState)
    requires Ok(entries, s) && Synced(s)
    ensures Confined(entries, s) <==> ConfinedTable(entries, s.mpu, s.lut)
  {
    if Confined(entries, s) {
      forall k | 0 <= k < REGIONS ensures Listed(entries, s.mpu, s.lut, k) {
        assert s.regions[k] == SlotRegion(s.lut, k);
      }
    } else {
      var k :| 0 <= k < REGIONS && EnableField(s.regions[k].rasr) == 1 && !WithinListed(entries, s.mpu, s.regions[k]);
      assert !Listed(entries, s.mpu, s.lut, k);
    }
  }

  lemma HandleConfinedRegions(entries: map<Paddr, Block>, s: FaultState, f: Fault)
    requires Ok(entries, s) && Synced(s) && Confined(entries, s)
    ensures var r := Handle(entries, s, f).0; Synced(r) && r.mpu == s.mpu && Confined(entries, r)
  {
    TableOfRegions(entries, s);
    HandleConfined(entries, s, f);
    HandleSynced(entries, s, f);
    TableOfRegions(entries, Handle(entries, s, f).0);
  }

  lemma HandleSynced(entries: map<Paddr, Block>, s: FaultState, f: Fault)
    requires Ok(entries, s) && Synced(s)
    ensures Synced(Handle(entries, s, f).0)
  {
  }

  /** Confinement over every run of faults. */
  lemma {:induction false} ConfinedRun(entries: map<Paddr, Block>, s: FaultState, fs: seq<Fault>)
    requires Ok(entries, s) && Synced(s) && Confined(entries, s)
    ensures var r := Run(entries, s, fs).0; Synced(r) && r.mpu == s.mpu && Confined(entries, r)
    decreases |fs|
  {
    if fs != [] {
      HandleConfinedRegions(entries, s, fs[0]);
      ConfinedRun(entries, Handle(entries, s, fs[0]).0, fs[1..]);
    }
  }

  /** What confinement means for an access: an address is reachable through an enabled region only if a
      listed block contains it. */
  lemma ConfinedAccess(entries: map<Paddr, Block>, s: FaultState, k: nat, a: Word)
    requires Ok(entries, s) && Confined(entries, s) && k < REGIONS && InRegion(s.regions[k], a)
    ensures exists i :: 0 <= i < REGIONS && s.mpu[i] in entries && entries[s.mpu[i]].Contains(a)
  {
    assert WithinListed(entries, s.mpu, s.regions[k]);
  }
}
