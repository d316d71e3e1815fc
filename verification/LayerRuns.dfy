/** Runs of the memory layer: any mix of creating, filling, clearing and switching partitions and of
    MemManage faults. */
module LayerRuns {
  import opened Bits
  import opened LookupTable
  import opened MpuRegisters
  import opened Mal
  import opened MemManage
  import opened FaultRuns

  datatype Step =
    | CreateStep(p: Paddr)
    | ReplaceStep(p: Paddr, block: Paddr, i: nat)
    | RemoveStep(p: Paddr, block: Paddr)
    | SwitchStep(p: Paddr)
    | FaultStep(f: Fault)

  datatype Layer = Layer(mal: MalState, flag: bool)

  ghost predicate LayerOk(entries: map<Paddr, Block>, m: Layer) {
    EntriesOk(entries) && StateOk(entries, m.mal)
  }

  /** What the callers of the layer respect: existing descriptors, slots and block entries; faults
      happen while a partition runs. */
  ghost predicate Enabled(entries: map<Paddr, Block>, m: Layer, e: Step) {
    match e
    case CreateStep(p) => p != NULL
    case ReplaceStep(p, block, i) => p in m.mal.pds && i < REGIONS && Listable(entries, block)
    case RemoveStep(p, block) => p in m.mal.pds
    case SwitchStep(p) => p in m.mal.pds
    case FaultStep(f) => m.mal.current in m.mal.pds
  }

  ghost function CurrentFaultState(m: Layer): FaultState
    requires m.mal.current in m.mal.pds
  {
    var pd := m.mal.pds[m.mal.current];
    FaultState(pd.mpu, pd.lut, m.mal.regions, m.flag)
  }

  ghost function Next(entries: map<Paddr, Block>, m: Layer, e: Step): (r: Layer)
    requires LayerOk(entries, m) && Enabled(entries, m, e)
    ensures LayerOk(entries, r)
  {
    match e
    case CreateStep(p) =>
      InitialPdOk(entries);
      m.(mal := Create(m.mal, p))
    case ReplaceStep(p, block, i) =>
      WithBlockOk(entries, m.mal.pds[p], i, block, StartOf(entries, block));
      m.(mal := Replace(entries, m.mal, p, block, i))
    case RemoveStep(p, block) =>
      WithoutBlockOk(entries, m.mal.pds[p], block);
      m.(mal := Remove(m.mal, p, block))
    case SwitchStep(p) =>
      m.(mal := Activate(m.mal, p))
    case FaultStep(f) =>
      assert PdOk(entries, m.mal.pds[m.mal.current]);
      var s := Handle(entries, CurrentFaultState(m), f).0;
      HandleKeepsMpu(entries, CurrentFaultState(m), f);
      var pd := m.mal.pds[m.mal.current].(lut := s.lut);
      StateOkUpdated(entries, m.mal, m.mal.current, pd);
      Layer(m.mal.(pds := m.mal.pds[m.mal.current := pd], regions := s.regions), s.flag)
  }

  lemma HandleKeepsMpu(entries: map<Paddr, Block>, s: FaultState, f: Fault)
    requires Ok(entries, s)
    ensures Handle(entries, s, f).0.mpu == s.mpu
  {
  }

  ghost predicate RunEnabled(entries: map<Paddr, Block>, m: Layer, es: seq<Step>)
    requires LayerOk(entries, m)
    decreases |es|
  {
    es == [] || (Enabled(entries, m, es[0]) && RunEnabled(entries, Next(entries, m, es[0]), es[1..]))
  }

  ghost function RunLayer(entries: map<Paddr, Block>, m: Layer, es: seq<Step>): (r: Layer)
    requires LayerOk(entries, m) && RunEnabled(entries, m, es)
    ensures LayerOk(entries, r)
    decreases |es|
  {
    if es == [] then m else RunLayer(entries, Next(entries, m, es[0]), es[1..])
  }

  // ----- the slot invariant -----------------------------------------------------------------

  /** In every descriptor each of the first six slots is disabled exactly when it lists no block, and
      otherwise maps a legal part of its block with its rights. */
  ghost predicate AllSlotsOk(entries: map<Paddr, Block>, m: Layer) {
    forall p :: p in m.mal.pds ==> SlotsOk(entries, m.mal.pds[p].mpu, m.mal.pds[p].lut)
  }

  lemma ReplaceKeepsSlots(entries: map<Paddr, Block>, pd: Pd, i: nat, block: Paddr)
    requires EntriesOk(entries) && PdOk(entries, pd) && SlotsOk(entries, pd.mpu, pd.lut)
    requires i < REGIONS && Listable(entries, block)
    ensures var r := WithBlock(entries, pd, i, block, StartOf(entries, block)); SlotsOk(entries, r.mpu, r.lut)
  {
    var a := StartOf(entries, block);
    var r := WithBlock(entries, pd, i, block, a);
    SetEntryFrame(pd.lut, i, Lookup(entries, block), a);
    if block == NULL {
      ClearedSlotDecodes(pd.lut, i, a);
    } else {
      SlotDecodes(pd.lut, i, entries[block], a);
    }
    assert forall k :: 0 <= k < REGIONS && k != i ==>
      r.mpu[k] == pd.mpu[k] && SlotRegion(r.lut, k) == SlotRegion(pd.lut, k);
    assert SlotHolds(entries, block, SlotRegion(r.lut, i));
  }

  lemma RemoveKeepsSlots(entries: map<Paddr, Block>, pd: Pd, block: Paddr)
    requires PdOk(entries, pd) && SlotsOk(entries, pd.mpu, pd.lut)
    ensures var r := WithoutBlock(pd, block); SlotsOk(entries, r.mpu, r.lut)
  {
    WithoutBlockOk(entries, pd, block);
    var r := WithoutBlock(pd, block);
    forall k | 0 <= k < LISTED ensures SlotHolds(entries, r.mpu[k], SlotRegion(r.lut, k)) {
      assert SlotHolds(entries, pd.mpu[k], SlotRegion(pd.lut, k));
    }
  }

  /** Updating one descriptor, whose slots are in order, keeps all slots in order. */
  lemma UpdateKeepsSlots(entries: map<Paddr, Block>, m: Layer, p: Paddr, pd: Pd, r: Layer)
    requires AllSlotsOk(entries, m) && SlotsOk(entries, pd.mpu, pd.lut)
    requires r.mal.pds == m.mal.pds[p := pd]
    ensures AllSlotsOk(entries, r)
  {
  }

  lemma InitialSlots(entries: map<Paddr, Block>)
    ensures SlotsOk(entries, InitialPd().mpu, InitialPd().lut)
  {
    ClearedLutIsTagged();
  }

  lemma StepKeepsSlots(entries: map<Paddr, Block>, m: Layer, e: Step)
    requires LayerOk(entries, m) && Enabled(entries, m, e) && AllSlotsOk(entries, m)
    ensures AllSlotsOk(entries, Next(entries, m, e))
  {
    var r := Next(entries, m, e);
    match e {
      case CreateStep(p) =>
        InitialSlots(entries);
        UpdateKeepsSlots(entries, m, p, InitialPd(), r);
      case ReplaceStep(p, block, i) =>
        ReplaceKeepsSlots(entries, m.mal.pds[p], i, block);
        UpdateKeepsSlots(entries, m, p, WithBlock(entries, m.mal.pds[p], i, block, StartOf(entries, block)), r);
      case RemoveStep(p, block) =>
        RemoveKeepsSlots(entries, m.mal.pds[p], block);
        UpdateKeepsSlots(entries, m, p, WithoutBlock(m.mal.pds[p], block), r);
      case SwitchStep(p) =>
      case FaultStep(f) =>
        HandleKeepsSlots(entries, CurrentFaultState(m), f);
        UpdateKeepsSlots(entries, m, m.mal.current, r.mal.pds[m.mal.current], r);
    }
  }

  /** The slot invariant over every run. */
  lemma {:induction false} SlotInvariant(entries: map<Paddr, Block>, m: Layer, es: seq<Step>)
    requires LayerOk(entries, m) && RunEnabled(entries, m, es) && AllSlotsOk(entries, m)
    ensures AllSlotsOk(entries, RunLayer(entries, m, es))
    decreases |es|
  {
    if es != [] {
      StepKeepsSlots(entries, m, es[0]);
      SlotInvariant(entries, Next(entries, m, es[0]), es[1..]);
    }
  }

  // ----- register synchronisation --------------------------------------------------------------

  /** While a partition is current, the hardware regions are those of its table. */
  ghost predicate InSync(entries: map<Paddr, Block>, m: Layer)
    requires LayerOk(entries, m)
  {
    m.mal.current in m.mal.pds ==> m.mal.regions == LutRegions(m.mal.pds[m.mal.current].lut)
  }

  /** Creating or clearing the current descriptor changes its table only. */
  predicate TableOnly(m: Layer, e: Step) {
    (e.CreateStep? || e.RemoveStep?) && e.p == m.mal.current
  }

  lemma StepKeepsSync(entries: map<Paddr, Block>, m: Layer, e: Step)
    requires LayerOk(entries, m) && Enabled(entries, m, e) && InSync(entries, m)
    requires !TableOnly(m, e)
    ensures InSync(entries, Next(entries, m, e))
  {
    if e.FaultStep? {
      var s := CurrentFaultState(m);
      assert PdOk(entries, m.mal.pds[m.mal.current]);
      BudgetStep(entries, s, e.f);
    }
  }

  ghost predicate NeverTableOnly(entries: map<Paddr, Block>, m: Layer, es: seq<Step>)
    requires LayerOk(entries, m) && RunEnabled(entries, m, es)
    decreases |es|
  {
    es == [] || (!TableOnly(m, es[0]) && NeverTableOnly(entries, Next(entries, m, es[0]), es[1..]))
  }

  /** Hardware and current table agree over every run that leaves the current descriptor to
      replaceBlockInPhysicalMPU, to faults and to partition switches. */
  lemma {:induction false} SyncInvariant(entries: map<Paddr, Block>, m: Layer, es: seq<Step>)
    requires LayerOk(entries, m) && RunEnabled(entries, m, es) && NeverTableOnly(entries, m, es)
    requires InSync(entries, m)
    ensures InSync(entries, RunLayer(entries, m, es))
    decreases |es|
  {
    if es != [] {
      StepKeepsSync(entries, m, es[0]);
      SyncInvariant(entries, Next(entries, m, es[0]), es[1..]);
    }
  }

  /** Removing a block from the current descriptor keeps the agreement exactly when no slot that lists
      the block is configured: the function edits the table and does not load it. */
  lemma RemoveFromCurrentSync(entries: map<Paddr, Block>, m: Layer, block: Paddr)
    requires LayerOk(entries, m) && InSync(entries, m) && m.mal.current in m.mal.pds
    ensures var pd := m.mal.pds[m.mal.current];
            InSync(entries, Next(entries, m, RemoveStep(m.mal.current, block))) <==>
            forall k :: 0 <= k < REGIONS && pd.mpu[k] == block ==> SlotRegion(pd.lut, k) == CLEARED
  {
    WithoutBlockRegions(entries, m.mal.pds[m.mal.current], block);
  }

  lemma WithoutBlockRegions(entries: map<Paddr, Block>, pd: Pd, block: Paddr)
    requires PdOk(entries, pd)
    ensures LutRegions(WithoutBlock(pd, block).lut) == LutRegions(pd.lut) <==>
            forall k :: 0 <= k < REGIONS && pd.mpu[k] == block ==> SlotRegion(pd.lut, k) == CLEARED
  {
    WithoutBlockOk(entries, pd, block);
    MaskedEqual(LutRegions(WithoutBlock(pd, block).lut), LutRegions(pd.lut), pd.mpu, block);
  }

  lemma MaskedEqual(x: seq<RegionRegs>, y: seq<RegionRegs>, mpu: seq<Paddr>, block: Paddr)
    requires |x| == |y| == |mpu| == REGIONS
    requires forall k :: 0 <= k < REGIONS ==> x[k] == if mpu[k] == block then CLEARED else y[k]
    ensures x == y <==> forall k :: 0 <= k < REGIONS && mpu[k] == block ==> y[k] == CLEARED
  {
  }

  // ----- confinement ----------------------------------------------------------------------------

  /** In every descriptor, each enabled slot describes part of a block the descriptor lists. */
  ghost predicate AllConfined(entries: map<Paddr, Block>, m: Layer)
    requires LayerOk(entries, m)
  {
    forall p :: p in m.mal.pds ==> ConfinedPd(entries, m.mal.pds[p])
  }

  ghost predicate ConfinedPd(entries: map<Paddr, Block>, pd: Pd) {
    |pd.lut| == 2 * REGIONS && ConfinedTable(entries, pd.mpu, pd.lut)
  }

  /** What a Remove or Replace step needs to keep the confinement: that the regions in the spare slots, which it
      leaves alone, still belong to a listed block. */
  ghost predicate SparesStay(entries: map<Paddr, Block>, m: Layer, e: Step)
    requires LayerOk(entries, m) && Enabled(entries, m, e)
  {
    match e
    case RemoveStep(p, block) =>
      SparesWithout(entries, m.mal.pds[p], block)
    case ReplaceStep(p, block, i) =>
      SparesWith(entries, m.mal.pds[p], i, block)
    case _ => true
  }

  /** Every spare slot that does not list the block maps part of another listed block, if anything. */
  ghost predicate SparesWithout(entries: map<Paddr, Block>, pd: Pd, block: Paddr)
    requires WellSized(pd)
  {
    var mpu := WithoutBlock(pd, block).mpu;
    forall k :: LISTED <= k < REGIONS ==> pd.mpu[k] == block || Listed(entries, mpu, pd.lut, k)
  }

  /** Every spare slot but `i` maps part of a block listed once slot `i` lists `block`, if anything. */
  ghost predicate SparesWith(entries: map<Paddr, Block>, pd: Pd, i: nat, block: Paddr)
    requires WellSized(pd) && i < REGIONS
  {
    var mpu := pd.mpu[i := block];
    forall k :: LISTED <= k < REGIONS ==> k == i || Listed(entries, mpu, pd.lut, k)
  }

  /** The searchable slots are confined by the slot invariant. */
  lemma ConfinedBySpares(entries: map<Paddr, Block>, mpu: seq<Paddr>, lut: seq<Word>)
    requires EntriesOk(entries) && SlotsOk(entries, mpu, lut)
    ensures ConfinedTable(entries, mpu, lut) <==> forall k :: LISTED <= k < REGIONS ==> Listed(entries, mpu, lut, k)
  {
    forall k | 0 <= k < LISTED ensures Listed(entries, mpu, lut, k) {
      assert SlotHolds(entries, mpu[k], SlotRegion(lut, k));
    }
  }

  lemma RemoveConfined(entries: map<Paddr, Block>, pd: Pd, block: Paddr)
    requires EntriesOk(entries) && PdOk(entries, pd) && SlotsOk(entries, pd.mpu, pd.lut)
    ensures ConfinedPd(entries, WithoutBlock(pd, block)) <==> SparesWithout(entries, pd, block)
  {
    var r := WithoutBlock(pd, block);
    WithoutBlockOk(entries, pd, block);
    RemoveKeepsSlots(entries, pd, block);
    ConfinedBySpares(entries, r.mpu, r.lut);
    forall k | LISTED <= k < REGIONS
      ensures Listed(entries, r.mpu, r.lut, k) <==> pd.mpu[k] == block || Listed(entries, r.mpu, pd.lut, k)
    {
    }
  }

  lemma ReplaceConfined(entries: map<Paddr, Block>, pd: Pd, i: nat, block: Paddr)
    requires EntriesOk(entries) && PdOk(entries, pd) && SlotsOk(entries, pd.mpu, pd.lut)
    requires i < REGIONS && Listable(entries, block)
    ensures ConfinedPd(entries, WithBlock(entries, pd, i, block, StartOf(entries, block)))
        <==> SparesWith(entries, pd, i, block)
  {
    var a := StartOf(entries, block);
    var r := WithBlock(entries, pd, i, block, a);
    ReplaceKeepsSlots(entries, pd, i, block);
    ConfinedBySpares(entries, r.mpu, r.lut);
    SetEntryFrame(pd.lut, i, Lookup(entries, block), a);
    if block == NULL {
      ClearedSlotDecodes(pd.lut, i, a);
    } else {
      SlotDecodes(pd.lut, i, entries[block], a);
      assert r.mpu[i] == block;
    }
    forall k | LISTED <= k < REGIONS
      ensures Listed(entries, r.mpu, r.lut, k) <==> k == i || Listed(entries, r.mpu, pd.lut, k)
    {
    }
  }

  /** Confinement step by step: creating, switching and faults keep it, and a Remove or Replace step keeps it if
      and only if the spare slots stay within listed blocks. */
  lemma StepConfinedExact(entries: map<Paddr, Block>, m: Layer, e: Step)
    requires LayerOk(entries, m) && Enabled(entries, m, e) && AllSlotsOk(entries, m) && AllConfined(entries, m)
    ensures AllConfined(entries, Next(entries, m, e)) <==> SparesStay(entries, m, e)
  {
    match e {
      case CreateStep(p) => CreateStepConfined(entries, m, p);
      case ReplaceStep(p, block, i) => ReplaceStepConfined(entries, m, p, block, i);
      case RemoveStep(p, block) => RemoveStepConfined(entries, m, p, block);
      case SwitchStep(p) =>
      case FaultStep(f) => FaultStepConfined(entries, m, f);
    }
  }

  lemma CreateStepConfined(entries: map<Paddr, Block>, m: Layer, p: Paddr)
    requires LayerOk(entries, m) && p != NULL && AllConfined(entries, m)
    ensures AllConfined(entries, Next(entries, m, CreateStep(p)))
  {
    InitialConfined(entries);
    UpdateConfined(entries, m, p, InitialPd(), Next(entries, m, CreateStep(p)));
  }

  lemma InitialConfined(entries: map<Paddr, Block>)
    ensures ConfinedPd(entries, InitialPd())
  {
    ClearedLutIsTagged();
    forall k | 0 <= k < REGIONS ensures Listed(entries, InitialPd().mpu, ClearedLut(), k) {
      assert SlotRegion(ClearedLut(), k) == CLEARED;
    }
  }

  lemma ReplaceStepConfined(entries: map<Paddr, Block>, m: Layer, p: Paddr, block: Paddr, i: nat)
    requires LayerOk(entries, m) && p in m.mal.pds && i < REGIONS && Listable(entries, block)
    requires AllSlotsOk(entries, m) && AllConfined(entries, m)
    ensures AllConfined(entries, Next(entries, m, ReplaceStep(p, block, i)))
        <==> SparesWith(entries, m.mal.pds[p], i, block)
  {
    var pd := m.mal.pds[p];
    ReplaceConfined(entries, pd, i, block);
    UpdateConfined(entries, m, p, WithBlock(entries, pd, i, block, StartOf(entries, block)),
      Next(entries, m, ReplaceStep(p, block, i)));
  }

  lemma RemoveStepConfined(entries: map<Paddr, Block>, m: Layer, p: Paddr, block: Paddr)
    requires LayerOk(entries, m) && p in m.mal.pds && AllSlotsOk(entries, m) && AllConfined(entries, m)
    ensures AllConfined(entries, Next(entries, m, RemoveStep(p, block)))
        <==> SparesWithout(entries, m.mal.pds[p], block)
  {
    var pd := m.mal.pds[p];
    RemoveConfined(entries, pd, block);
    UpdateConfined(entries, m, p, WithoutBlock(pd, block), Next(entries, m, RemoveStep(p, block)));
  }

  lemma FaultStepConfined(entries: map<Paddr, Block>, m: Layer, f: Fault)
    requires LayerOk(entries, m) && m.mal.current in m.mal.pds && AllConfined(entries, m)
    ensures AllConfined(entries, Next(entries, m, FaultStep(f)))
  {
    var p, r := m.mal.current, Next(entries, m, FaultStep(f));
    assert PdOk(entries, m.mal.pds[p]) && ConfinedPd(entries, m.mal.pds[p]);
    HandleConfined(entries, CurrentFaultState(m), f);
    UpdateConfined(entries, m, p, r.mal.pds[p], r);
  }

  lemma UpdateConfined(entries: map<Paddr, Block>, m: Layer, p: Paddr, pd: Pd, r: Layer)
    requires LayerOk(entries, m) && LayerOk(entries, r) && AllConfined(entries, m)
    requires r.mal.pds == m.mal.pds[p := pd]
    ensures AllConfined(entries, r) <==> ConfinedPd(entries, pd)
  {
    assert r.mal.pds[p] == pd;
  }

  ghost predicate SparesAlwaysStay(entries: map<Paddr, Block>, m: Layer, es: seq<Step>)
    requires LayerOk(entries, m) && RunEnabled(entries, m, es)
    decreases |es|
  {
    es == [] || (SparesStay(entries, m, es[0]) && SparesAlwaysStay(entries, Next(entries, m, es[0]), es[1..]))
  }

  /** Confinement over every run whose Remove and Replace steps meet that condition. */
  lemma {:induction false} ConfinementInvariant(entries: map<Paddr, Block>, m: Layer, es: seq<Step>)
    requires LayerOk(entries, m) && RunEnabled(entries, m, es) && SparesAlwaysStay(entries, m, es)
    requires AllSlotsOk(entries, m) && AllConfined(entries, m)
    ensures AllConfined(entries, RunLayer(entries, m, es))
    decreases |es|
  {
    if es != [] {
      StepKeepsSlots(entries, m, es[0]);
      StepConfinedExact(entries, m, es[0]);
      ConfinementInvariant(entries, Next(entries, m, es[0]), es[1..]);
    }
  }

  /** What that means for the running partition: after such a run, if it also kept hardware and table together,
      an address is reachable through an enabled region only if a block the partition lists contains it. */
  lemma RunConfined(entries: map<Paddr, Block>, m: Layer, es: seq<Step>, k: nat, a: Word)
    requires LayerOk(entries, m) && RunEnabled(entries, m, es)
    requires SparesAlwaysStay(entries, m, es) && NeverTableOnly(entries, m, es)
    requires AllSlotsOk(entries, m) && AllConfined(entries, m) && InSync(entries, m)
    requires var r := RunLayer(entries, m, es).mal;
             r.current in r.pds && k < REGIONS && InRegion(r.regions[k], a)
    ensures var r := RunLayer(entries, m, es).mal;
            exists i :: 0 <= i < REGIONS && r.pds[r.current].mpu[i] in entries
                && entries[r.pds[r.current].mpu[i]].Contains(a)
  {
    ConfinementInvariant(entries, m, es);
    SyncInvariant(entries, m, es);
    var pd := RunLayer(entries, m, es).mal.pds[RunLayer(entries, m, es).mal.current];
    assert ConfinedPd(entries, pd) && Listed(entries, pd.mpu, pd.lut, k);
    assert WithinListed(entries, pd.mpu, SlotRegion(pd.lut, k));
  }

  /** The state after reset satisfies the invariants. */
  lemma InitiallyOk(entries: map<Paddr, Block>)
    requires EntriesOk(entries)
    ensures var m := ResetLayer();
            LayerOk(entries, m) && AllSlotsOk(entries, m) && InSync(entries, m) && AllConfined(entries, m)
  {
  }

  function ResetLayer(): Layer {
    Layer(MalState(map[], NULL, NULL, seq(REGIONS, i => CLEARED)), false)
  }
}
