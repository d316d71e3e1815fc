/** Instructions over runs of the memory layer: in which states that a run reaches they complete, and a run after which
    a piece of a block, left over in a spare slot, makes an instruction of three parts fault for ever. */
module InstructionRuns {
  import opened Bits
  import opened CoveringRegion
  import opened LookupTable
  import opened MpuRegisters
  import opened Mal
  import opened MemManage
  import opened FaultRuns
  import opened LayerRuns
  import opened Instructions
  import opened Wrappers
  import RemovalRun
  import JointRuns
  import Yield

  // ----- what the invariants of the layer give ------------------------------------------------------

  /** The blocks that a partition lists do not overlap, and none is listed twice. */
  ghost predicate ListedApart(entries: map<Paddr, Block>, mpu: seq<Paddr>) {
    forall j, k :: 0 <= j < |mpu| && 0 <= k < |mpu| && j != k && mpu[j] in entries && mpu[k] in entries ==>
      Disjoint(entries[mpu[j]], entries[mpu[k]])
  }

  lemma SlotsReliable(entries: map<Paddr, Block>, s: FaultState, v: nat, w: nat)
    requires Ok(entries, s) && Synced(s) && SlotsOk(entries, s.mpu, s.lut)
    requires v < LISTED && w < LISTED && s.mpu[v] != NULL && s.mpu[w] != NULL
    ensures Reliable(s, v, w)
  {
    assert SlotHolds(entries, s.mpu[v], SlotRegion(s.lut, v)) && SlotHolds(entries, s.mpu[w], SlotRegion(s.lut, w));
  }

  /** A region that is confined to listed blocks lies inside this one, or has none of it. */
  lemma ConfinedInside(entries: map<Paddr, Block>, s: FaultState, v: nat, k: nat)
    requires Ok(entries, s) && Synced(s) && SlotsOk(entries, s.mpu, s.lut) && ConfinedTable(entries, s.mpu, s.lut)
    requires ListedApart(entries, s.mpu) && v < LISTED && s.mpu[v] in entries && k < REGIONS
    ensures InsideOrNone(s.regions[k], entries[s.mpu[v]])
  {
    var r, b := s.regions[k], entries[s.mpu[v]];
    assert Listed(entries, s.mpu, s.lut, k);
    if EnableField(r.rasr) == 1 {
      var j :| 0 <= j < |s.mpu| && s.mpu[j] in entries && MapsPartOf(r, entries[s.mpu[j]]);
      forall x: Word | b.Contains(x) && j != v ensures !InRegion(r, x) {
        assert Disjoint(entries[s.mpu[j]], b);
      }
    }
  }

  /** The other slots that are searched map none of it. */
  lemma NotElsewhere(entries: map<Paddr, Block>, s: FaultState, v: nat, a: Word)
    requires Ok(entries, s) && Synced(s) && SlotsOk(entries, s.mpu, s.lut) && ListedApart(entries, s.mpu)
    requires v < LISTED && s.mpu[v] in entries && entries[s.mpu[v]].Contains(a)
    ensures !Elsewhere(s, v, v, a)
  {
    forall k | 0 <= k < LISTED && k != v ensures !InRegion(s.regions[k], a) {
      assert SlotHolds(entries, s.mpu[k], SlotRegion(s.lut, k));
      if s.mpu[k] != NULL { assert Disjoint(entries[s.mpu[k]], entries[s.mpu[v]]); }
    }
  }

  lemma SlotsTidy(entries: map<Paddr, Block>, s: FaultState, i: Instruction, v: nat)
    requires Touches(entries, s, i, v, v) && i.wide && Synced(s) && SlotsOk(entries, s.mpu, s.lut)
    requires ConfinedTable(entries, s.mpu, s.lut) && ListedApart(entries, s.mpu)
    ensures s.mpu[v] in entries && Tidy(s, i, entries[s.mpu[v]], v)
  {
    TouchesIn(entries, s, i, v, v);
    ConfinedInside(entries, s, v, v);
    ConfinedInside(entries, s, v, SPARE_FETCH);
    ConfinedInside(entries, s, v, SPARE_DATA);
    NotElsewhere(entries, s, v, i.fetch);
    NotElsewhere(entries, s, v, i.Half2());
    NotElsewhere(entries, s, v, i.first);
    NotElsewhere(entries, s, v, i.second);
  }

  // ----- instructions after a run ---------------------------------------------------------------------

  /** A run from a state in order, which keeps spare slots within listed blocks and leaves the current table to steps
      that load it. */
  ghost predicate GoodRun(entries: map<Paddr, Block>, m: Layer, es: seq<Step>, r: Layer) {
    && LayerOk(entries, m) && AllSlotsOk(entries, m) && AllConfined(entries, m) && InSync(entries, m)
    && RunEnabled(entries, m, es) && SparesAlwaysStay(entries, m, es) && NeverTableOnly(entries, m, es)
    && r == RunLayer(entries, m, es)
  }

  /** What it leaves to the running partition. */
  lemma GoodRunEnds(entries: map<Paddr, Block>, m: Layer, es: seq<Step>, r: Layer)
    requires GoodRun(entries, m, es, r) && r.mal.current in r.mal.pds
    ensures LayerOk(entries, r)
    ensures var s := CurrentFaultState(r);
            && Ok(entries, s) && Synced(s) && SlotsOk(entries, s.mpu, s.lut) && ConfinedTable(entries, s.mpu, s.lut)
  {
    SlotInvariant(entries, m, es);
    ConfinementInvariant(entries, m, es);
    SyncInvariant(entries, m, es);
    assert PdOk(entries, r.mal.pds[r.mal.current]) && ConfinedPd(entries, r.mal.pds[r.mal.current]);
  }

  /** In every state that such a run reaches, with the listed blocks apart, an instruction completes after six faults at
      most if it does not need too many parts, and otherwise faults for ever; and every fault is handled. */
  lemma RunInstruction(entries: map<Paddr, Block>, m: Layer, es: seq<Step>, r: Layer, i: Instruction, v: nat, w: nat)
    requires GoodRun(entries, m, es, r) && r.mal.current in r.mal.pds
    requires ListedApart(entries, CurrentFaultState(r).mpu) && Touches(entries, CurrentFaultState(r), i, v, w)
    ensures var s := CurrentFaultState(r);
            && s.mpu[v] in entries && |s.regions| == REGIONS
            && (!TooMany(entries, s, i, v, w) ==> forall q :: Retried(entries, s, i, 6, q) ==> Raised(q, i).None?)
            && (TooMany(entries, s, i, v, w) ==>
                forall k: nat, q :: Retried(entries, s, i, k, q) ==> Raised(q, i).Some?)
            && forall k: nat, q :: Retried(entries, s, i, k, q) && Raised(q, i).Some? ==>
                Ok(entries, q) && Handle(entries, q, Raised(q, i).value).1
  {
    GoodRunEnds(entries, m, es, r);
    StateInstruction(entries, CurrentFaultState(r), i, v, w);
  }

  lemma StateInstruction(entries: map<Paddr, Block>, s: FaultState, i: Instruction, v: nat, w: nat)
    requires Touches(entries, s, i, v, w) && Synced(s) && SlotsOk(entries, s.mpu, s.lut)
    requires ConfinedTable(entries, s.mpu, s.lut) && ListedApart(entries, s.mpu)
    ensures s.mpu[v] in entries && Reliable(s, v, w)
    ensures !TooMany(entries, s, i, v, w) ==> forall q :: Retried(entries, s, i, 6, q) ==> Raised(q, i).None?
    ensures TooMany(entries, s, i, v, w) ==>
              forall k: nat, q :: Retried(entries, s, i, k, q) ==> Raised(q, i).Some?
    ensures forall k: nat, q :: Retried(entries, s, i, k, q) && Raised(q, i).Some? ==>
              Ok(entries, q) && Handle(entries, q, Raised(q, i).value).1
  {
    TouchesIn(entries, s, i, v, w);
    SlotsReliable(entries, s, v, w);
    forall k: nat, q | Retried(entries, s, i, k, q) && Raised(q, i).Some?
      ensures Ok(entries, q) && Handle(entries, q, Raised(q, i).value).1
    {
      RetriedHandled(entries, s, q, i, v, w, k);
    }
    if TooMany(entries, s, i, v, w) {
      SlotsTidy(entries, s, i, v);
      forall k: nat, q | Retried(entries, s, i, k, q) ensures Raised(q, i).Some? {
        TooManyFaults(entries, s, q, i, v, k);
      }
    } else {
      forall q | Retried(entries, s, i, 6, q) ensures Raised(q, i).None? {
        InstructionCompletes(entries, s, q, i, v, w);
      }
    }
  }

  /** The same of the running partition in every state that a joint run of the kernel reaches. */
  lemma JointInstruction(env: Yield.Env, kernel: set<Word>, m: JointRuns.Machine, es: seq<JointRuns.Move>,
      t: JointRuns.Machine, i: Instruction, v: nat, w: nat)
    requires JointRuns.JointOk(env, kernel, m) && JointRuns.Reaches(env, kernel, m, es, t)
    requires t.k.mal.current in t.k.mal.pds
    requires var s := CurrentFaultState(JointRuns.LayerOf(t));
             ListedApart(env.entries, s.mpu) && Touches(env.entries, s, i, v, w)
    ensures var s := CurrentFaultState(JointRuns.LayerOf(t));
            && s.mpu[v] in env.entries && |s.regions| == REGIONS
            && (!TooMany(env.entries, s, i, v, w) ==>
                forall q :: Retried(env.entries, s, i, 6, q) ==> Raised(q, i).None?)
            && (TooMany(env.entries, s, i, v, w) ==>
                forall k: nat, q :: Retried(env.entries, s, i, k, q) ==> Raised(q, i).Some?)
            && forall k: nat, q :: Retried(env.entries, s, i, k, q) && Raised(q, i).Some? ==>
                Ok(env.entries, q) && Handle(env.entries, q, Raised(q, i).value).1
  {
    JointRuns.JointInvariant(env, kernel, m, es, t);
    var s := CurrentFaultState(JointRuns.LayerOf(t));
    assert ConfinedPd(env.entries, t.k.mal.pds[t.k.mal.current]);
    StateInstruction(env.entries, s, i, v, w);
  }

  // ----- whole parts ------------------------------------------------------------------------------------

  /** The region is a whole part of some block, or none. */
  ghost predicate WholePart(entries: map<Paddr, Block>, r: RegionRegs) {
    r == CLEARED || exists e: Paddr, z: Word :: e in entries && entries[e].Contains(z) && IsPartAt(r, entries[e], z)
  }

  ghost predicate WholeTable(entries: map<Paddr, Block>, lut: seq<Word>) {
    |lut| == 2 * REGIONS && forall k :: 0 <= k < REGIONS ==> WholePart(entries, SlotRegion(lut, k))
  }

  ghost predicate AllWhole(entries: map<Paddr, Block>, m: Layer) {
    forall p :: p in m.mal.pds ==> WholeTable(entries, m.mal.pds[p].lut)
  }

  /** Setting a slot for a block keeps the table whole. */
  lemma SetWhole(entries: map<Paddr, Block>, lut: seq<Word>, i: nat, block: Paddr, a: Word)
    requires EntriesOk(entries) && Tagged(lut) && WholeTable(entries, lut) && i < REGIONS
    requires block in entries && entries[block].Contains(a)
    ensures WholeTable(entries, SetEntry(lut, i, Some(entries[block]), a))
  {
    SetEntryFrame(lut, i, Some(entries[block]), a);
    SlotDecodes(lut, i, entries[block], a);
    assert IsPartAt(SlotRegion(SetEntry(lut, i, Some(entries[block]), a), i), entries[block], a);
  }

  lemma PageInWhole(entries: map<Paddr, Block>, s: FaultState, a: Word, v: nat, slot: nat)
    requires Ok(entries, s) && v < LISTED && slot < REGIONS && InVirtual(entries, s.mpu, a, v)
    requires WholeTable(entries, s.lut)
    ensures WholeTable(entries, PageIn(entries, s, a, v, slot).lut)
  {
    SetWhole(entries, s.lut, slot, s.mpu[v], a);
  }

  lemma HandleWhole(entries: map<Paddr, Block>, s: FaultState, f: Fault)
    requires Ok(entries, s) && WholeTable(entries, s.lut)
    ensures WholeTable(entries, Handle(entries, s, f).0.lut)
  {
    var v := IndexOf(entries, s, f.addr);
    if Handle(entries, s, f).1 {
      if f.cause == Fetch32 {
        Fetch32Cases(entries, s, f.addr, v);
        var s1 := s;
        if !Mapped(s.regions[v], f.addr) {
          PageInWhole(entries, s, f.addr, v, v);
          s1 := PageIn(entries, s, f.addr, v, v);
        }
        if !Mapped(s.regions[SPARE_FETCH], Wrap(f.addr + 2)) {
          PageInWhole(entries, s1, Wrap(f.addr + 2), v, SPARE_FETCH);
        }
      } else {
        SingleCases(entries, s, f, v);
        PageInWhole(entries, s, f.addr, v, UsedSlot(entries, s, f));
      }
    }
  }

  lemma ReplaceWhole(entries: map<Paddr, Block>, pd: Pd, i: nat, block: Paddr)
    requires EntriesOk(entries) && PdOk(entries, pd) && i < REGIONS && Listable(entries, block)
    requires WholeTable(entries, pd.lut)
    ensures WholeTable(entries, WithBlock(entries, pd, i, block, StartOf(entries, block)).lut)
  {
    var a := StartOf(entries, block);
    if block == NULL {
      SetEntryFrame(pd.lut, i, None, a);
      ClearedSlotDecodes(pd.lut, i, a);
    } else {
      SetWhole(entries, pd.lut, i, block, a);
    }
  }

  lemma RemoveWhole(entries: map<Paddr, Block>, pd: Pd, block: Paddr)
    requires PdOk(entries, pd) && WholeTable(entries, pd.lut)
    ensures WholeTable(entries, WithoutBlock(pd, block).lut)
  {
    WithoutBlockOk(entries, pd, block);
  }

  lemma InitialWhole(entries: map<Paddr, Block>)
    ensures WholeTable(entries, InitialPd().lut)
  {
    ClearedLutIsTagged();
  }

  lemma UpdateWhole(entries: map<Paddr, Block>, m: Layer, p: Paddr, pd: Pd, r: Layer)
    requires AllWhole(entries, m) && WholeTable(entries, pd.lut) && r.mal.pds == m.mal.pds[p := pd]
    ensures AllWhole(entries, r)
  {
  }

  /** Every step keeps all slots of all descriptors whole. */
  lemma StepWhole(entries: map<Paddr, Block>, m: Layer, e: Step)
    requires LayerOk(entries, m) && Enabled(entries, m, e) && AllWhole(entries, m)
    ensures AllWhole(entries, Next(entries, m, e))
  {
    var r := Next(entries, m, e);
    match e {
      case CreateStep(p) =>
        InitialWhole(entries);
        UpdateWhole(entries, m, p, InitialPd(), r);
      case ReplaceStep(p, block, i) =>
        ReplaceWhole(entries, m.mal.pds[p], i, block);
        UpdateWhole(entries, m, p, WithBlock(entries, m.mal.pds[p], i, block, StartOf(entries, block)), r);
      case RemoveStep(p, block) =>
        RemoveWhole(entries, m.mal.pds[p], block);
        UpdateWhole(entries, m, p, WithoutBlock(m.mal.pds[p], block), r);
      case SwitchStep(p) =>
      case FaultStep(f) =>
        assert PdOk(entries, m.mal.pds[m.mal.current]);
        HandleWhole(entries, CurrentFaultState(m), f);
        UpdateWhole(entries, m, m.mal.current, r.mal.pds[m.mal.current], r);
    }
  }

  /** So does every run. */
  lemma {:induction false} RunWhole(entries: map<Paddr, Block>, m: Layer, es: seq<Step>)
    requires LayerOk(entries, m) && RunEnabled(entries, m, es) && AllWhole(entries, m)
    ensures AllWhole(entries, RunLayer(entries, m, es))
    decreases |es|
  {
    if es != [] {
      StepWhole(entries, m, es[0]);
      RunWhole(entries, Next(entries, m, es[0]), es[1..]);
    }
  }

  /** No two blocks of the run overlap: none is cut or merged along the way. */
  ghost predicate EntriesApart(entries: map<Paddr, Block>) {
    forall e, f :: e in entries && f in entries && e != f ==> Disjoint(entries[e], entries[f])
  }

  /** Then a region that maps an address of a block is the block's part around it. */
  lemma WholeIsPart(entries: map<Paddr, Block>, r: RegionRegs, p: Paddr, a: Word)
    requires EntriesOk(entries) && EntriesApart(entries) && WholePart(entries, r) && p in entries
    requires entries[p].Contains(a) && InRegion(r, a)
    ensures IsPartAt(r, entries[p], a)
  {
    var e: Paddr, z: Word :| e in entries && entries[e].Contains(z) && IsPartAt(r, entries[e], z);
    PartAtMoves(r, entries[e], z, a);
    assert e == p;
  }

  /** A part is the part around each of its addresses. */
  lemma PartAtMoves(r: RegionRegs, b: Block, z: Word, a: Word)
    requires b.Valid() && b.Contains(z) && IsPartAt(r, b, z) && InRegion(r, a)
    ensures b.Contains(a) && IsPartAt(r, b, a)
  {
    CoverRange(b, z);
    assert InCover(b.start, b.last + 1, z, a);
    CoverStable(b.start, b.last + 1, z, a);
  }

  /** After a run over blocks that do not overlap, an instruction completes unless it touches four parts of one. */
  lemma RunFourParts(entries: map<Paddr, Block>, m: Layer, es: seq<Step>, r: Layer, i: Instruction, v: nat, w: nat)
    requires GoodRun(entries, m, es, r) && AllWhole(entries, m) && EntriesApart(entries)
    requires r.mal.current in r.mal.pds && Touches(entries, CurrentFaultState(r), i, v, w)
    ensures var s := CurrentFaultState(r);
            && s.mpu[v] in entries && |s.regions| == REGIONS
            && (TooMany(entries, s, i, v, w) <==> v == w && FourParts(i, entries[s.mpu[v]]))
  {
    var s := CurrentFaultState(r);
    GoodRunEnds(entries, m, es, r);
    RunWhole(entries, m, es);
    TouchesIn(entries, s, i, v, w);
    if v == w && i.wide {
      assert WholePart(entries, SlotRegion(s.lut, SPARE_FETCH));
      if InRegion(s.regions[SPARE_FETCH], i.Half2()) {
        WholeIsPart(entries, s.regions[SPARE_FETCH], s.mpu[v], i.Half2());
      }
      TooManyIsFour(entries, s, i, v);
    }
  }

  // ----- a piece left over ------------------------------------------------------------------------------

  /** A partition gets block `x` and runs; a 32-bit fetch at `a` runs over the end of its first part; and slot 0 is
      given to block `y`, as when `x` is merged into a larger one. */
  function Steps(x: Paddr, y: Paddr, a: Word): seq<Step> {
    [CreateStep(16)] + ([ReplaceStep(16, x, 0)] + ([SwitchStep(16)] +
      ([FaultStep(Fault(Fetch32, a))] + ([ReplaceStep(16, y, 0)] + []))))
  }

  /** `y` is a larger block with the same start and the rights of `x`, and `a` the last half-word of their first parts,
      before another part of `x`. */
  ghost predicate Extends(entries: map<Paddr, Block>, x: Paddr, y: Paddr, a: Word) {
    && EntriesOk(entries) && x in entries && y in entries
    && var b, d := entries[x], entries[y];
       && b.present && d.present && b.start == d.start && b.last <= d.last && b.write == d.write && b.exec == d.exec
       && b.Contains(a) && b.Contains(Wrap(a + 2)) && RemovalRun.InPart(b, b.start, a)
       && !RemovalRun.InPart(b, b.start, Wrap(a + 2))
  }

  /** The table before the fault, after it, and at the end. */
  function FirstTable(b: Block): seq<Word>
    requires b.Valid()
  {
    SetEntry(ClearedLut(), 0, Some(b), b.start)
  }

  function SecondTable(b: Block, a: Word): seq<Word>
    requires b.Valid() && b.Contains(Wrap(a + 2))
  {
    SetEntry(FirstTable(b), SPARE_FETCH, Some(b), Wrap(a + 2))
  }

  function LastTable(b: Block, d: Block, a: Word): seq<Word>
    requires b.Valid() && d.Valid() && b.Contains(Wrap(a + 2))
  {
    SetEntry(SecondTable(b, a), 0, Some(d), d.start)
  }

  lemma TablesTagged(b: Block, d: Block, a: Word)
    requires b.Valid() && d.Valid() && b.Contains(Wrap(a + 2))
    ensures Tagged(FirstTable(b)) && Tagged(SecondTable(b, a)) && Tagged(LastTable(b, d, a))
  {
    ClearedLutIsTagged();
    SetEntryFrame(ClearedLut(), 0, Some(b), b.start);
    SetEntryFrame(FirstTable(b), SPARE_FETCH, Some(b), Wrap(a + 2));
    SetEntryFrame(SecondTable(b, a), 0, Some(d), d.start);
  }

  /** What the tables hold: the first ... */
  lemma FirstHolds(b: Block)
    requires b.Valid()
    ensures var r := SlotRegion(FirstTable(b), 0); IsPartAt(r, b, b.start) && MapsPartOf(r, b)
    ensures forall k :: 1 <= k < REGIONS ==> SlotRegion(FirstTable(b), k) == CLEARED
  {
    ClearedLutIsTagged();
    SetEntryFrame(ClearedLut(), 0, Some(b), b.start);
    SlotDecodes(ClearedLut(), 0, b, b.start);
  }

  /** ... the second ... */
  lemma SecondHolds(b: Block, a: Word)
    requires b.Valid() && b.Contains(Wrap(a + 2))
    ensures var r := SlotRegion(SecondTable(b, a), SPARE_FETCH); IsPartAt(r, b, Wrap(a + 2)) && MapsPartOf(r, b)
    ensures forall k :: 1 <= k < REGIONS && k != SPARE_FETCH ==> SlotRegion(SecondTable(b, a), k) == CLEARED
  {
    TablesTagged(b, b, a);
    FirstHolds(b);
    SetEntryFrame(FirstTable(b), SPARE_FETCH, Some(b), Wrap(a + 2));
    SlotDecodes(FirstTable(b), SPARE_FETCH, b, Wrap(a + 2));
  }

  /** ... and the last. */
  lemma TablesHold(b: Block, d: Block, a: Word)
    requires b.Valid() && d.Valid() && b.Contains(Wrap(a + 2))
    ensures forall k :: 1 <= k < REGIONS ==> SlotRegion(FirstTable(b), k) == CLEARED
    ensures var t := LastTable(b, d, a);
            && IsPartAt(SlotRegion(t, 0), d, d.start) && MapsPartOf(SlotRegion(t, 0), d)
            && SlotRegion(t, SPARE_FETCH) == SlotRegion(SecondTable(b, a), SPARE_FETCH)
            && IsPartAt(SlotRegion(t, SPARE_FETCH), b, Wrap(a + 2)) && MapsPartOf(SlotRegion(t, SPARE_FETCH), b)
            && forall k :: 1 <= k < REGIONS && k != SPARE_FETCH ==> SlotRegion(t, k) == CLEARED
  {
    TablesTagged(b, d, a);
    FirstHolds(b);
    SecondHolds(b, a);
    SetEntryFrame(SecondTable(b, a), 0, Some(d), d.start);
    SlotDecodes(SecondTable(b, a), 0, d, d.start);
  }

  /** The fault fills slot 6 with the second part of `x`. */
  lemma FetchHandled(entries: map<Paddr, Block>, x: Paddr, y: Paddr, a: Word, s: FaultState, q: FaultState)
    requires Extends(entries, x, y, a)
    requires s == CurrentFaultState(RemovalRun.Running(x, FirstTable(entries[x]), false))
    requires q == CurrentFaultState(RemovalRun.Running(x, SecondTable(entries[x], a), false))
    ensures Ok(entries, s) && Handle(entries, s, Fault(Fetch32, a)) == (q, true)
  {
    var b := entries[x];
    TablesTagged(b, b, a);
    TablesHold(b, b, a);
    RemovalRun.SearchFinds(entries, x, FirstTable(b), false, a);
    Fetch32Cases(entries, s, a, 0);
    RemovalRun.SlotMapsPart(ClearedLut(), 0, b, b.start, a);
    SecondUnmapped(entries, x, y, a);
  }

  /** A cleared slot does not seem to map the second half-word, which is not at address 0. */
  lemma SecondUnmapped(entries: map<Paddr, Block>, x: Paddr, y: Paddr, a: Word)
    requires Extends(entries, x, y, a)
    ensures !Mapped(CLEARED, Wrap(a + 2))
  {
    MappedIffInRegion(CLEARED, Wrap(a + 2));
    CoverRange(entries[x], entries[x].start);
  }

  lemma FetchNext(entries: map<Paddr, Block>, x: Paddr, y: Paddr, a: Word, m: Layer, r: Layer)
    requires Extends(entries, x, y, a) && m == RemovalRun.Running(x, FirstTable(entries[x]), false)
    requires r == RemovalRun.Running(x, SecondTable(entries[x], a), false)
    ensures LayerOk(entries, m) && LayerOk(entries, r) && Next(entries, m, FaultStep(Fault(Fetch32, a))) == r
  {
    TablesTagged(entries[x], entries[x], a);
    RemovalRun.RunningOk(entries, x, FirstTable(entries[x]), false);
    RemovalRun.RunningOk(entries, x, SecondTable(entries[x], a), false);
    FetchHandled(entries, x, y, a, CurrentFaultState(m), CurrentFaultState(r));
    HandledNext(entries, m, Fault(Fetch32, a), r);
  }

  /** A fault changes the current table, the hardware and the flag. */
  lemma HandledNext(entries: map<Paddr, Block>, m: Layer, f: Fault, r: Layer)
    requires LayerOk(entries, m) && m.mal.current in m.mal.pds && r.mal.current in r.mal.pds
    requires Ok(entries, CurrentFaultState(m)) && Handle(entries, CurrentFaultState(m), f).0 == CurrentFaultState(r)
    requires r.mal == m.mal.(pds := r.mal.pds, regions := r.mal.regions)
    requires r.mal.pds
          == m.mal.pds[m.mal.current := m.mal.pds[m.mal.current].(lut := r.mal.pds[r.mal.current].lut)]
    ensures Next(entries, m, FaultStep(f)) == r
  {
  }

  lemma ReplaceNext(entries: map<Paddr, Block>, x: Paddr, y: Paddr, a: Word, m: Layer, r: Layer)
    requires Extends(entries, x, y, a) && m == RemovalRun.Running(x, SecondTable(entries[x], a), false)
    requires r == RemovalRun.Running(y, LastTable(entries[x], entries[y], a), false)
    ensures LayerOk(entries, m) && LayerOk(entries, r) && Next(entries, m, ReplaceStep(16, y, 0)) == r
  {
    TablesTagged(entries[x], entries[y], a);
    RemovalRun.RunningOk(entries, x, SecondTable(entries[x], a), false);
    RemovalRun.RunningOk(entries, y, LastTable(entries[x], entries[y], a), false);
    var pd := RemovalRun.ThePd(x, SecondTable(entries[x], a));
    assert WithBlock(entries, pd, 0, y, entries[y].start)
        == RemovalRun.ThePd(y, LastTable(entries[x], entries[y], a));
  }

  /** The piece that slot 6 holds lies within `y`, too. */
  lemma SparesInExtension(entries: map<Paddr, Block>, x: Paddr, y: Paddr, a: Word)
    requires Extends(entries, x, y, a)
    ensures SparesWith(entries, RemovalRun.ThePd(x, SecondTable(entries[x], a)), 0, y)
  {
    TablesHold(entries[x], entries[y], a);
    SecondHolds(entries[x], a);
    SparesMeet(entries, RemovalRun.ThePd(x, SecondTable(entries[x], a)), y);
  }

  /** Two spare slots, one with part of the block and one with nothing. */
  lemma SparesMeet(entries: map<Paddr, Block>, pd: Pd, y: Paddr)
    requires WellSized(pd) && y in entries && SlotRegion(pd.lut, SPARE_DATA) == CLEARED
    requires SlotRegion(pd.lut, SPARE_FETCH) == CLEARED || MapsPartOf(SlotRegion(pd.lut, SPARE_FETCH), entries[y])
    ensures SparesWith(entries, pd, 0, y)
  {
    var mpu := pd.mpu[0 := y];
    assert mpu[0] == y;
    assert Listed(entries, mpu, pd.lut, SPARE_FETCH) && Listed(entries, mpu, pd.lut, SPARE_DATA);
  }

  lemma SparesAtFirst(entries: map<Paddr, Block>, x: Paddr)
    requires EntriesOk(entries) && x in entries
    ensures SparesWith(entries, InitialPd(), 0, x)
  {
    ClearedLutIsTagged();
    SparesMeet(entries, InitialPd(), x);
  }

  /** A good step before a good run. */
  lemma GoodCons(entries: map<Paddr, Block>, m: Layer, e: Step, r: Layer, es: seq<Step>)
    requires LayerOk(entries, m) && Enabled(entries, m, e) && r == Next(entries, m, e)
    requires SparesStay(entries, m, e) && !TableOnly(m, e)
    requires RunEnabled(entries, r, es) && SparesAlwaysStay(entries, r, es) && NeverTableOnly(entries, r, es)
    ensures RunEnabled(entries, m, [e] + es) && SparesAlwaysStay(entries, m, [e] + es)
    ensures NeverTableOnly(entries, m, [e] + es) && RunLayer(entries, m, [e] + es) == RunLayer(entries, r, es)
  {
    assert ([e] + es)[0] == e && ([e] + es)[1..] == es;
  }

  /** The run is a good one. */
  lemma StaleRun(entries: map<Paddr, Block>, x: Paddr, y: Paddr, a: Word, r: Layer)
    requires Extends(entries, x, y, a) && r == RemovalRun.Running(y, LastTable(entries[x], entries[y], a), false)
    ensures GoodRun(entries, ResetLayer(), Steps(x, y, a), r)
  {
    InitiallyOk(entries);
    var lut := RemovalRun.Start(entries, x);
    var m0, m1 := RemovalRun.OnePd(InitialPd()), RemovalRun.OnePd(RemovalRun.ThePd(x, lut));
    var m2 := RemovalRun.Running(x, lut, false);
    var m3 := RemovalRun.Running(x, SecondTable(entries[x], a), false);
    FetchNext(entries, x, y, a, m2, m3);
    ReplaceNext(entries, x, y, a, m3, r);
    SparesInExtension(entries, x, y, a);
    SparesAtFirst(entries, x);
    var s1: seq<Step> := [ReplaceStep(16, y, 0)] + [];
    var s2 := [FaultStep(Fault(Fetch32, a))] + s1;
    var s3 := [SwitchStep(16)] + s2;
    var s4 := [ReplaceStep(16, x, 0)] + s3;
    GoodCons(entries, m3, ReplaceStep(16, y, 0), r, []);
    GoodCons(entries, m2, FaultStep(Fault(Fetch32, a)), m3, s1);
    GoodCons(entries, m1, SwitchStep(16), m2, s2);
    GoodCons(entries, m0, ReplaceStep(16, x, 0), m1, s3);
    GoodCons(entries, ResetLayer(), CreateStep(16), m0, s4);
  }

  // ----- the instruction that it stops -------------------------------------------------------------------

  /** A 32-bit instruction at `a` with data in two further parts of `y`, neither of them in the piece of `x` that slot 6
      holds. */
  predicate Stopped(b: Block, d: Block, i: Instruction) {
    && i.wide && d.Contains(i.first) && d.Contains(i.second)
    && PartOf(d, i.fetch) != PartOf(d, i.first) && PartOf(d, i.fetch) != PartOf(d, i.second)
    && PartOf(d, i.first) != PartOf(d, i.second)
    && !RemovalRun.InPart(b, i.Half2(), i.first) && !RemovalRun.InPart(b, i.Half2(), i.second)
  }

  lemma StaleTouches(entries: map<Paddr, Block>, x: Paddr, y: Paddr, i: Instruction, s: FaultState)
    requires Extends(entries, x, y, i.fetch) && Stopped(entries[x], entries[y], i)
    requires s == CurrentFaultState(RemovalRun.Running(y, LastTable(entries[x], entries[y], i.fetch), false))
    ensures Touches(entries, s, i, 0, 0)
  {
    var lut := LastTable(entries[x], entries[y], i.fetch);
    TablesTagged(entries[x], entries[y], i.fetch);
    RemovalRun.SearchFinds(entries, y, lut, false, i.fetch);
    RemovalRun.SearchFinds(entries, y, lut, false, i.first);
    RemovalRun.SearchFinds(entries, y, lut, false, i.second);
    TouchesOne(entries, s, i, y);
  }

  lemma TouchesOne(entries: map<Paddr, Block>, s: FaultState, i: Instruction, y: Paddr)
    requires Ok(entries, s) && s.mpu[0] == y && y in entries && entries[y].present
    requires IndexOf(entries, s, i.fetch) == 0 && IndexOf(entries, s, i.first) == 0
    requires IndexOf(entries, s, i.second) == 0
    requires i.wide ==> entries[y].Contains(i.Half2())
    ensures Touches(entries, s, i, 0, 0)
  {
  }

  /** Only one block is listed. */
  lemma OneListed(entries: map<Paddr, Block>, y: Paddr, lut: seq<Word>)
    requires EntriesOk(entries)
    ensures ListedApart(entries, RemovalRun.ThePd(y, lut).mpu)
  {
  }

  lemma StaleIsTooMany(entries: map<Paddr, Block>, x: Paddr, y: Paddr, i: Instruction, s: FaultState)
    requires Extends(entries, x, y, i.fetch) && Stopped(entries[x], entries[y], i)
    requires s == CurrentFaultState(RemovalRun.Running(y, LastTable(entries[x], entries[y], i.fetch), false))
    ensures |s.regions| == REGIONS && 0 < |s.mpu| && s.mpu[0] in entries && TooMany(entries, s, i, 0, 0)
  {
    TablesHold(entries[x], entries[y], i.fetch);
    assert s.regions[SPARE_FETCH] == SlotRegion(LastTable(entries[x], entries[y], i.fetch), SPARE_FETCH);
    NotInSecond(entries[x], i.fetch);
    PieceIsTooMany(entries, s, entries[x], y, i);
  }

  lemma PieceIsTooMany(entries: map<Paddr, Block>, s: FaultState, b: Block, y: Paddr, i: Instruction)
    requires |s.regions| == REGIONS && 0 < |s.mpu| && s.mpu[0] == y && y in entries && Stopped(b, entries[y], i)
    requires b.Valid() && b.Contains(i.Half2()) && IsPartAt(s.regions[SPARE_FETCH], b, i.Half2())
    requires !RemovalRun.InPart(b, i.Half2(), i.fetch)
    ensures TooMany(entries, s, i, 0, 0)
  {
    var r := s.regions[SPARE_FETCH];
    PieceMaps(r, b, i.Half2(), i.Half2());
    PieceMaps(r, b, i.Half2(), i.fetch);
    PieceMaps(r, b, i.Half2(), i.first);
    PieceMaps(r, b, i.Half2(), i.second);
  }

  lemma PieceMaps(r: RegionRegs, b: Block, z: Word, a: Word)
    requires b.Valid() && b.Contains(z) && IsPartAt(r, b, z)
    ensures InRegion(r, a) <==> RemovalRun.InPart(b, z, a)
    ensures RemovalRun.InPart(b, z, z)
  {
    CoverRange(b, z);
  }

  /** The first half-word is not in the part of the second. */
  lemma NotInSecond(b: Block, a: Word)
    requires b.Valid() && b.Contains(a) && b.Contains(Wrap(a + 2))
    requires RemovalRun.InPart(b, b.start, a) && !RemovalRun.InPart(b, b.start, Wrap(a + 2))
    ensures !RemovalRun.InPart(b, Wrap(a + 2), a)
  {
    var end, c := b.last + 1, Wrap(a + 2);
    CoverByStart(b.start, end, b.start, a);
    CoverByStart(b.start, end, b.start, c);
    CoverByStart(b.start, end, c, a);
  }

  /** After that run such an instruction faults for ever, and every fault is handled. */
  lemma StalePieceStops(entries: map<Paddr, Block>, x: Paddr, y: Paddr, i: Instruction, r: Layer, k: nat, q: FaultState)
    requires Extends(entries, x, y, i.fetch) && Stopped(entries[x], entries[y], i)
    requires r == RemovalRun.Running(y, LastTable(entries[x], entries[y], i.fetch), false)
    requires Retried(entries, CurrentFaultState(r), i, k, q)
    ensures GoodRun(entries, ResetLayer(), Steps(x, y, i.fetch), r)
    ensures Ok(entries, q) && Raised(q, i).Some? && Handle(entries, q, Raised(q, i).value).1
  {
    StaleRun(entries, x, y, i.fetch, r);
    StaleTouches(entries, x, y, i, CurrentFaultState(r));
    StaleIsTooMany(entries, x, y, i, CurrentFaultState(r));
    OneListed(entries, y, LastTable(entries[x], entries[y], i.fetch));
    RunInstruction(entries, ResetLayer(), Steps(x, y, i.fetch), r, i, 0, 0);
  }

  /** Two blocks and an instruction of three parts. */
  predicate ThreePartCase(b: Block, d: Block, i: Instruction) {
    && b.start == d.start == 0x2000_0020 && b.last == 0x2000_005F && d.last == 0x2000_00BF
    && i == Instruction(0x2000_003E, true, 0x2000_007E, 0x2000_0080)
  }

  /** The parts of the smaller block ... */
  lemma SmallParts(b: Block, a: Word)
    requires b.start == 0x2000_0020 && b.last == 0x2000_005F && (a == 0x2000_0020 || a == 0x2000_0040)
    ensures PartOf(b, a) == a && b.Exp(a) == 5
  {
    Pow2Values();
    if a == 0x2000_0020 {
      CoverAt(b.start, b.last + 1, a, 5, 32, 0x100_0001, 0x80_0000);
    } else {
      CoverAt(b.start, b.last + 1, a, 5, 32, 0x100_0002, 0x80_0001);
    }
  }

  /** ... and of the larger one. */
  lemma LargeParts(d: Block, u: nat, a: Word)
    requires d.start == 0x2000_0020 && d.last == 0x2000_00BF
    requires (u == 0x2000_0020 && u <= a < u + 32) || ((u == 0x2000_0040 || u == 0x2000_0080) && u <= a < u + 64)
    ensures PartOf(d, a) == u
  {
    Pow2Values();
    assert Pow2(6) == 64;
    if u == 0x2000_0020 {
      CoverAt(d.start, d.last + 1, a, 5, 32, 0x100_0001, 0x80_0000);
    } else if u == 0x2000_0040 {
      CoverAt(d.start, d.last + 1, a, 6, 64, 0x80_0001, 0x40_0000);
    } else {
      CoverAt(d.start, d.last + 1, a, 6, 64, 0x80_0002, 0x40_0001);
    }
  }

  /** They meet the conditions, although the instruction does not touch four parts. */
  lemma ThreePartsStopped(b: Block, d: Block, i: Instruction)
    requires ThreePartCase(b, d, i)
    ensures i.Half2() == 0x2000_0040 && Stopped(b, d, i) && !FourParts(i, d)
    ensures RemovalRun.InPart(b, b.start, i.fetch) && !RemovalRun.InPart(b, b.start, i.Half2())
  {
    assert i.Half2() == 0x2000_0040;
    LargeParts(d, 0x2000_0020, i.fetch);
    LargeParts(d, 0x2000_0040, i.Half2());
    LargeParts(d, 0x2000_0040, i.first);
    LargeParts(d, 0x2000_0080, i.second);
    SmallRange(b, b.start);
    SmallRange(b, i.Half2());
  }

  lemma SmallRange(b: Block, u: Word)
    requires b.start == 0x2000_0020 && b.last == 0x2000_005F && (u == 0x2000_0020 || u == 0x2000_0040)
    ensures forall a: Word :: RemovalRun.InPart(b, u, a) <==> u <= a < u + 32
  {
    Pow2Values();
    SmallParts(b, u);
  }

  /** A kernel with two such blocks. */
  lemma StaleInstance(entries: map<Paddr, Block>, i: Instruction)
    requires entries.Keys == {1, 2} && ThreePartCase(entries[1], entries[2], i)
    requires entries[1].present && entries[2].present
    requires entries[1].write == entries[2].write && entries[1].exec == entries[2].exec
    ensures Extends(entries, 1, 2, i.fetch) && Stopped(entries[1], entries[2], i) && !FourParts(i, entries[2])
  {
    ThreePartsStopped(entries[1], entries[2], i);
    UnitsValid(entries[1], 0x100_0001, 0x100_0003);
    UnitsValid(entries[2], 0x100_0001, 0x100_0006);
  }

  /** Blocks of whole units of 32 bytes. */
  lemma UnitsValid(b: Block, m: nat, n: nat)
    requires b.start == 32 * m && b.last + 1 == 32 * n && m < n < 0x400_0000
    ensures b.Valid()
  {
    Pow2Values();
    ShrIsDiv(b.start, 5);
    ShrIsDiv(b.last + 1, 5);
    DivModUnique(m, 0, 32);
    DivModUnique(n, 0, 32);
  }
}
