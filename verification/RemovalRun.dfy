/** A run after which a partition that lists no block still has an enabled region in a spare slot of its table,
    and the hardware still maps the block it gave up: removal clears neither the spare slots nor the hardware.
    It works with every block that is not a single region. */
module RemovalRun {
  import opened Bits
  import opened CoveringRegion
  import opened LookupTable
  import opened MpuRegisters
  import opened Mal
  import opened MemManage
  import opened FaultRuns
  import opened LayerRuns
  import opened Wrappers

  /** A present block, and an address in it that the region around its start does not cover. */
  ghost predicate TwoParts(entries: map<Paddr, Block>, block: Paddr, a: Word) {
    && EntriesOk(entries) && block in entries && entries[block].present && entries[block].Contains(a)
    && !InPart(entries[block], entries[block].start, a)
  }

  /** `a` lies in the covering region of `x`. */
  predicate InPart(b: Block, x: Word, a: Word) {
    Base(x, b.Exp(x)) <= a < Top(x, b.Exp(x))
  }

  /** The partition at address 16 gets the block and runs; it touches the other part, then the first; and the
      block is taken away. */
  function Steps(entries: map<Paddr, Block>, block: Paddr, a: Word): seq<Step>
    requires block in entries
  {
    [CreateStep(16)] + ([ReplaceStep(16, block, 0)] + ([SwitchStep(16)] +
      ([FaultStep(Fault(DataAccess, a))] + ([FaultStep(Fault(DataAccess, entries[block].start))] +
      ([RemoveStep(16, block)] + [])))))
  }

  // ----- the descriptor along the run ---------------------------------------------------------------

  /** The partition's descriptor while it lists the block in slot 0. */
  function ThePd(block: Paddr, lut: seq<Word>): Pd {
    Pd(NULL, NULL, 0, [], seq(REGIONS, i => if i == 0 then block else NULL), lut)
  }

  function Running(block: Paddr, lut: seq<Word>, flag: bool): Layer
    requires |lut| == 2 * REGIONS
  {
    Layer(MalState(map[16 := ThePd(block, lut)], 16, NULL, LutRegions(lut)), flag)
  }

  /** Before the first switch. */
  function OnePd(pd: Pd): Layer {
    Layer(MalState(map[16 := pd], NULL, NULL, seq(REGIONS, i => CLEARED)), false)
  }

  lemma SearchFinds(entries: map<Paddr, Block>, block: Paddr, lut: seq<Word>, flag: bool, a: Word)
    requires EntriesOk(entries) && block in entries && entries[block].present && entries[block].Contains(a)
    requires Tagged(lut)
    ensures Ok(entries, CurrentFaultState(Running(block, lut, flag)))
    ensures IndexOf(entries, CurrentFaultState(Running(block, lut, flag)), a) == 0
  {
  }

  lemma RunningOk(entries: map<Paddr, Block>, block: Paddr, lut: seq<Word>, flag: bool)
    requires EntriesOk(entries) && block in entries && Tagged(lut)
    ensures LayerOk(entries, Running(block, lut, flag))
  {
  }

  /** A fault at an address the block's own slot does not map. */
  lemma FaultPagesIn(entries: map<Paddr, Block>, block: Paddr, lut: seq<Word>, flag: bool, a: Word, next: seq<Word>)
    requires EntriesOk(entries) && block in entries && entries[block].present && entries[block].Contains(a)
    requires Tagged(lut) && !Mapped(SlotRegion(lut, 0), a)
    requires next == SetEntry(lut, if flag then SPARE_DATA else 0, Some(entries[block]), a)
    ensures Tagged(next)
    ensures LayerOk(entries, Running(block, lut, flag)) && LayerOk(entries, Running(block, next, !flag))
    ensures Next(entries, Running(block, lut, flag), FaultStep(Fault(DataAccess, a))) == Running(block, next, !flag)
  {
    SetEntryFrame(lut, if flag then SPARE_DATA else 0, Some(entries[block]), a);
    RunningOk(entries, block, lut, flag);
    RunningOk(entries, block, next, !flag);
    SearchFinds(entries, block, lut, flag, a);
    HandledAs(entries, block, lut, flag, a, next);
    FaultNext(entries, block, lut, flag, a, next);
  }

  lemma FaultNext(entries: map<Paddr, Block>, block: Paddr, lut: seq<Word>, flag: bool, a: Word, next: seq<Word>)
    requires |lut| == 2 * REGIONS == |next| && LayerOk(entries, Running(block, lut, flag))
    requires Ok(entries, CurrentFaultState(Running(block, lut, flag)))
    requires Handle(entries, CurrentFaultState(Running(block, lut, flag)), Fault(DataAccess, a)).0
          == CurrentFaultState(Running(block, next, !flag))
    ensures Next(entries, Running(block, lut, flag), FaultStep(Fault(DataAccess, a))) == Running(block, next, !flag)
  {
  }

  lemma HandledAs(entries: map<Paddr, Block>, block: Paddr, lut: seq<Word>, flag: bool, a: Word, next: seq<Word>)
    requires EntriesOk(entries) && block in entries && entries[block].present && entries[block].Contains(a)
    requires Tagged(lut) && !Mapped(SlotRegion(lut, 0), a)
    requires next == SetEntry(lut, if flag then SPARE_DATA else 0, Some(entries[block]), a)
    requires Ok(entries, CurrentFaultState(Running(block, lut, flag)))
    ensures Handle(entries, CurrentFaultState(Running(block, lut, flag)), Fault(DataAccess, a)).0
         == CurrentFaultState(Running(block, next, !flag))
  {
    SearchFinds(entries, block, lut, flag, a);
    SingleCases(entries, CurrentFaultState(Running(block, lut, flag)), Fault(DataAccess, a), 0);
  }

  /** The first three steps. */
  lemma Start(entries: map<Paddr, Block>, block: Paddr) returns (lut: seq<Word>)
    requires EntriesOk(entries) && block in entries
    ensures lut == SetEntry(ClearedLut(), 0, Some(entries[block]), entries[block].start) && Tagged(lut)
    ensures LayerOk(entries, ResetLayer())
    ensures LayerOk(entries, OnePd(InitialPd())) && LayerOk(entries, OnePd(ThePd(block, lut)))
    ensures LayerOk(entries, Running(block, lut, false))
    ensures Next(entries, ResetLayer(), CreateStep(16)) == OnePd(InitialPd())
    ensures Next(entries, OnePd(InitialPd()), ReplaceStep(16, block, 0)) == OnePd(ThePd(block, lut))
    ensures Next(entries, OnePd(ThePd(block, lut)), SwitchStep(16)) == Running(block, lut, false)
  {
    var a := entries[block].start;
    InitiallyOk(entries);
    InitialPdOk(entries);
    lut := SetEntry(ClearedLut(), 0, Some(entries[block]), a);
    SetEntryFrame(ClearedLut(), 0, Some(entries[block]), a);
    assert WithBlock(entries, InitialPd(), 0, block, a) == ThePd(block, lut);
  }

  /** A slot set for `x` maps exactly the part of `x`. */
  lemma SlotMapsPart(lut: seq<Word>, i: nat, b: Block, x: Word, a: Word)
    requires |lut| == 2 * REGIONS && i < REGIONS && b.Valid() && b.Contains(x)
    ensures Mapped(SlotRegion(SetEntry(lut, i, Some(b), x), i), a) <==> InPart(b, x, a)
  {
    SlotDecodes(lut, i, b, x);
  }

  /** The two faults: the other part takes slot 0, and the first part slot 7. */
  lemma TwoFaults(entries: map<Paddr, Block>, block: Paddr, a: Word, lut: seq<Word>)
    returns (lut1: seq<Word>, lut2: seq<Word>)
    requires TwoParts(entries, block, a) && Tagged(lut)
    requires lut == SetEntry(ClearedLut(), 0, Some(entries[block]), entries[block].start)
    ensures Tagged(lut1) && Tagged(lut2)
    ensures LayerOk(entries, Running(block, lut, false)) && LayerOk(entries, Running(block, lut1, true))
    ensures LayerOk(entries, Running(block, lut2, false))
    ensures Next(entries, Running(block, lut, false), FaultStep(Fault(DataAccess, a))) == Running(block, lut1, true)
    ensures Next(entries, Running(block, lut1, true), FaultStep(Fault(DataAccess, entries[block].start)))
         == Running(block, lut2, false)
    ensures SlotsUsed(entries[block], lut2)
  {
    var b := entries[block];
    lut1 := SetEntry(lut, 0, Some(b), a);
    SlotMapsPart(ClearedLut(), 0, b, b.start, a);
    FaultPagesIn(entries, block, lut, false, a, lut1);
    lut2 := SetEntry(lut1, SPARE_DATA, Some(b), b.start);
    SlotMapsPart(lut, 0, b, a, b.start);
    OtherPart(b, a);
    FaultPagesIn(entries, block, lut1, true, b.start, lut2);
    BothSlots(lut, lut1, lut2, b, a);
  }

  /** The own slot holds part of the block and the spare slot maps its start. */
  ghost predicate SlotsUsed(b: Block, lut: seq<Word>) {
    |lut| == 2 * REGIONS && MapsPartOf(SlotRegion(lut, 0), b) && InRegion(SlotRegion(lut, SPARE_DATA), b.start)
  }

  lemma BothSlots(lut: seq<Word>, lut1: seq<Word>, lut2: seq<Word>, b: Block, a: Word)
    requires Tagged(lut) && Tagged(lut1) && b.Valid() && b.Contains(a)
    requires lut1 == SetEntry(lut, 0, Some(b), a) && lut2 == SetEntry(lut1, SPARE_DATA, Some(b), b.start)
    ensures SlotsUsed(b, lut2)
  {
    SlotDecodes(lut, 0, b, a);
    SlotDecodes(lut1, SPARE_DATA, b, b.start);
    SetEntryFrame(lut1, SPARE_DATA, Some(b), b.start);
  }

  lemma OtherPart(b: Block, a: Word)
    requires b.Valid() && b.Contains(a) && !InPart(b, b.start, a)
    ensures !InPart(b, a, b.start)
  {
    CoverSymmetric(b.start, b.last + 1, b.start, a);
  }

  // ----- the run ------------------------------------------------------------------------------------

  lemma RunCons(entries: map<Paddr, Block>, m: Layer, e: Step, r: Layer, es: seq<Step>)
    requires LayerOk(entries, m) && Enabled(entries, m, e) && r == Next(entries, m, e) && RunEnabled(entries, r, es)
    ensures RunEnabled(entries, m, [e] + es) && RunLayer(entries, m, [e] + es) == RunLayer(entries, r, es)
  {
    assert ([e] + es)[0] == e && ([e] + es)[1..] == es;
  }

  /** The whole run, from the state after reset. */
  lemma Run(entries: map<Paddr, Block>, block: Paddr, a: Word) returns (lut: seq<Word>)
    requires TwoParts(entries, block, a)
    ensures LayerOk(entries, ResetLayer()) && RunEnabled(entries, ResetLayer(), Steps(entries, block, a))
    ensures Tagged(lut) && LayerOk(entries, Running(block, lut, false)) && SlotsUsed(entries[block], lut)
    ensures RunLayer(entries, ResetLayer(), Steps(entries, block, a))
         == Next(entries, Running(block, lut, false), RemoveStep(16, block))
  {
    var lut0 := Start(entries, block);
    var lut1;
    lut1, lut := TwoFaults(entries, block, a, lut0);
    var last := Next(entries, Running(block, lut, false), RemoveStep(16, block));
    var f1, f2 := FaultStep(Fault(DataAccess, a)), FaultStep(Fault(DataAccess, entries[block].start));
    var s1: seq<Step> := [RemoveStep(16, block)] + [];
    var s2 := [f2] + s1;
    var s3 := [f1] + s2;
    var s4 := [SwitchStep(16)] + s3;
    var s5 := [ReplaceStep(16, block, 0)] + s4;
    RunCons(entries, Running(block, lut, false), RemoveStep(16, block), last, []);
    RunCons(entries, Running(block, lut1, true), f2, Running(block, lut, false), s1);
    RunCons(entries, Running(block, lut0, false), f1, Running(block, lut1, true), s2);
    RunCons(entries, OnePd(ThePd(block, lut0)), SwitchStep(16), Running(block, lut0, false), s3);
    RunCons(entries, OnePd(InitialPd()), ReplaceStep(16, block, 0), OnePd(ThePd(block, lut0)), s4);
    RunCons(entries, ResetLayer(), CreateStep(16), OnePd(InitialPd()), s5);
  }

  /** The descriptor after the removal. */
  lemma Emptied(entries: map<Paddr, Block>, block: Paddr, lut: seq<Word>)
    requires EntriesOk(entries) && block in entries && Tagged(lut) && SlotsUsed(entries[block], lut)
    ensures var r := WithoutBlock(ThePd(block, lut), block);
            && (forall i :: 0 <= i < REGIONS ==> r.mpu[i] == NULL)
            && InRegion(SlotRegion(r.lut, SPARE_DATA), entries[block].start) && !ConfinedPd(entries, r)
  {
    assert PdOk(entries, ThePd(block, lut));
    WithoutBlockOk(entries, ThePd(block, lut), block);
    NothingListed(entries, WithoutBlock(ThePd(block, lut), block), SPARE_DATA);
  }

  lemma NothingListed(entries: map<Paddr, Block>, pd: Pd, k: nat)
    requires EntriesOk(entries) && WellSized(pd) && k < REGIONS && EnableField(SlotRegion(pd.lut, k).rasr) == 1
    requires forall i :: 0 <= i < REGIONS ==> pd.mpu[i] == NULL
    ensures !ConfinedPd(entries, pd)
  {
    assert !Listed(entries, pd.mpu, pd.lut, k);
  }

  /** After it the partition lists nothing; slot 7 of its table still maps the start of the block, so that the table
      is not confined; and the hardware is no longer that of the table. */
  lemma RemovalLeavesRegions(entries: map<Paddr, Block>, block: Paddr, a: Word)
    requires TwoParts(entries, block, a)
    ensures LayerOk(entries, ResetLayer()) && RunEnabled(entries, ResetLayer(), Steps(entries, block, a))
    ensures var m := RunLayer(entries, ResetLayer(), Steps(entries, block, a));
            && m.mal.current == 16 && 16 in m.mal.pds && WellSized(m.mal.pds[16])
            && (forall i :: 0 <= i < REGIONS ==> m.mal.pds[16].mpu[i] == NULL)
            && InRegion(SlotRegion(m.mal.pds[16].lut, SPARE_DATA), entries[block].start)
            && !AllConfined(entries, m) && !InSync(entries, m)
  {
    var lut := Run(entries, block, a);
    Emptied(entries, block, lut);
    RemoveFromCurrentSync(entries, Running(block, lut, false), block);
    assert ThePd(block, lut).mpu[0] == block;
  }

  /** A block of 96 bytes is an instance. */
  lemma Instance()
    ensures TwoParts(map[1 := Block(0x2000_0020, 0x2000_007F, true, true, false, true, true)], 1, 0x2000_0040)
  {
    assert Low(0x2000_0020, 5) == 0 && Low(0x2000_0080, 5) == 0;
    InstancePart();
  }

  lemma InstancePart()
    ensures CoverExp(0x2000_0020, 0x2000_0080, 0x2000_0020) == 5 && Top(0x2000_0020, 5) == 0x2000_0040
  {
    Pow2Values();
    CoverAt(0x2000_0020, 0x2000_0080, 0x2000_0020, 5, 32, 0x100_0001, 0x80_0000);
  }
}
