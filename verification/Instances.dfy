/** A kernel in which the theorems about runs and about a yield and the way back apply: root, at address 16, and
    one child, at address 32, which share a block. */
module Instances {
  import opened Bits
  import opened LookupTable
  import opened MpuRegisters
  import opened Mal
  import opened Memory
  import opened ExceptionFrames
  import opened RoundTrip
  import opened Wrappers
  import opened Yield
  import opened YieldProperties
  import opened Faults
  import opened KernelMemory
  import opened KernelRuns
  import JointRuns
  import LayerRuns

  const DEPTH: map<Paddr, nat> := map[16 := 0, 32 := 1]

  /** Root's context for interrupt 0, and the child's save address 0. */
  function Vidts(): Words {
    map[0x2000_0004 := 0x2000_0200, 0x2000_0200 := 1, 0x2000_0104 := 0x2000_0300]
  }

  function Layer(current: Paddr): MalState {
    MisalignedState().mal.(current := current)
  }

  lemma LayerIsOk(current: Paddr)
    ensures KernelOk(MisalignedEnv(), Layer(current)) && IsTree(Layer(current), DEPTH)
  {
    MisalignedStateOk();
  }

  /** Both VIDTs lie inside the one block, which misses any bytes outside it. */
  lemma LayerApart(kernel: set<Word>, current: Paddr)
    requires forall b :: b in kernel ==> !(0x2000_0000 <= b < 0x2000_0400)
    ensures KernelApart(MisalignedEnv(), kernel, Layer(current))
  {
  }

  // ----- a boot ---------------------------------------------------------------------------------

  /** Root's first context, whose frame is inside the block. */
  function BootState(): KState {
    KState(Layer(NULL), map[0x2000_0200 := 1, 0x2000_0208 := 0x2000_0360], false, false)
  }

  lemma BootFrame(kernel: set<Word>)
    requires forall b :: b in kernel ==> !(0x2000_0000 <= b < 0x2000_0400)
    ensures var m := BootState().mem;
            FrameMisses(kernel, LoadState(m, LoadMemory(m, 0x2000_0200, true), 0x2000_0200, true))
  {
    BootFrameIs();
    forall k: nat | k < 8 ensures !Meets(kernel, At(0x2000_0340, k)) {
      InsideMisses(kernel, MisalignedEnv().entries[1], At(0x2000_0340, k));
    }
  }

  lemma BootFrameIs()
    ensures var m := BootState().mem;
            var l := LoadState(m, LoadMemory(m, 0x2000_0200, true), 0x2000_0200, true);
            l.kind == Basic && l.frame == 0x2000_0340
  {
    BootSp();
    LoadedFrame(BootState().mem, 0x2000_0200, Basic, 0x2000_0360);
    FrameAt(0x2000_0340);
  }

  lemma LoadedFrame(m: Words, ctx: Word, kind: Kind, sp: Word)
    requires KindAt(m, ctx) == kind && SpOf(m, ctx) == sp
    ensures var l := LoadState(m, LoadMemory(m, ctx, true), ctx, true);
            l.kind == kind && l.frame == PushedFrame(sp, kind, true)
  {
    LoadFrame(sp, kind, true);
  }

  /** A basic frame goes right below a stack pointer that is a multiple of 8. */
  lemma FrameAt(x: Word)
    requires x % 8 == 0 && x + 0x20 < 0x1_0000_0000
    ensures PushedFrame(x + 0x20, Basic, true) == x
  {
    Bit2(x);
  }

  lemma BootSp()
    ensures KindAt(BootState().mem, 0x2000_0200) == Basic && SpOf(BootState().mem, 0x2000_0200) == 0x2000_0360
  {
  }

  /** `MaskingInvariant` applies to a boot after which root, which starts masked, unmasks interrupts. */
  lemma BootInstance(kernel: set<Word>) returns (t: KState)
    requires forall b :: b in kernel ==> !(0x2000_0000 <= b < 0x2000_0400)
    ensures var env, s, m := MisalignedEnv(), BootState(), BootState().mem;
            && KernelOk(env, s.mal) && s.mal.current == NULL && IsTree(s.mal, DEPTH)
            && KernelApart(env, kernel, s.mal)
            && FrameMisses(kernel, LoadState(m, LoadMemory(m, 0x2000_0200, true), 0x2000_0200, true))
            && var b := Booted(env, s, DEPTH, 0x2000_0200);
               && NeverStrays(env, kernel, b, DEPTH, [SetState(1)]) && Reaches(env, kernel, b, DEPTH, [SetState(1)], t)
               && b.masked && !t.masked
  {
    LayerIsOk(NULL);
    LayerApart(kernel, NULL);
    BootFrame(kernel);
    t := SetIntState(Booted(MisalignedEnv(), BootState(), DEPTH, 0x2000_0200), 1);
    BootEstablishes(MisalignedEnv(), BootState(), DEPTH, 0x2000_0200);
    OneEvent(kernel, Booted(MisalignedEnv(), BootState(), DEPTH, 0x2000_0200), t);
  }

  lemma OneEvent(kernel: set<Word>, b: KState, t: KState)
    requires Inv(MisalignedEnv(), b, DEPTH) && t == SetIntState(b, 1)
    ensures NeverStrays(MisalignedEnv(), kernel, b, DEPTH, [SetState(1)])
    ensures Reaches(MisalignedEnv(), kernel, b, DEPTH, [SetState(1)], t)
  {
    var env, es := MisalignedEnv(), [SetState(1)];
    StepKeeps(env, b, DEPTH, es[0]);
    assert es[1..] == [];
    assert Reaches(env, kernel, t, DEPTH, [], t) && NeverStrays(env, kernel, t, DEPTH, []);
  }

  // ----- a run of everything ----------------------------------------------------------------------

  /** Root maps the block and stores to it. */
  function Moves(): seq<JointRuns.Move> {
    [JointRuns.Map(16, 1, 0), JointRuns.Store(0x2000_0000, 7)]
  }

  lemma TablesAreOk(m: JointRuns.Machine)
    requires m.k == BootState() && KernelOk(MisalignedEnv(), m.k.mal)
    ensures JointRuns.TablesOk(MisalignedEnv(), m)
  {
    var entries := MisalignedEnv().entries;
    LayerRuns.InitialSlots(entries);
    LayerRuns.InitialConfined(entries);
    forall p | p in m.k.mal.pds
      ensures m.k.mal.pds[p].mpu == InitialPd().mpu && m.k.mal.pds[p].lut == InitialPd().lut
      ensures LayerRuns.ConfinedPd(entries, m.k.mal.pds[p])
    {
    }
    ListsNothing();
  }

  lemma ListsNothing()
    ensures JointRuns.ListsAccessible(MisalignedEnv(), InitialPd().mpu)
  {
  }

  /** After the boot the slots of root are cleared. */
  lemma BootedRoot()
    requires KernelOk(MisalignedEnv(), BootState().mal) && IsTree(BootState().mal, DEPTH)
    ensures var m := Booted(MisalignedEnv(), BootState(), DEPTH, 0x2000_0200).mal;
            && m.current == 16 && 16 in m.pds && m.pds[16].lut == ClearedLut()
            && m.pds[16].mpu == InitialPd().mpu
  {
    SwitchSound(MisalignedEnv(), BootState(), 16, 0, 0x2000_0200);
    assert SameButIntStates(BootState().mal, Booted(MisalignedEnv(), BootState(), DEPTH, 0x2000_0200).mal);
  }

  /** Mapping is good: the spare slots are clear. */
  lemma MapGood(kernel: set<Word>, b: JointRuns.Machine)
    requires JointRuns.JointOk(MisalignedEnv(), kernel, b) && 16 in b.k.mal.pds
    requires b.k.mal.pds[16].lut == ClearedLut()
    ensures JointRuns.Enabled(MisalignedEnv(), b, Moves()[0])
    ensures JointRuns.Good(MisalignedEnv(), kernel, b, Moves()[0])
  {
    ClearedSpares(b.k.mal.pds[16]);
  }

  lemma ClearedSpares(pd: Pd)
    requires WellSized(pd) && pd.lut == ClearedLut()
    ensures LayerRuns.SparesWith(MisalignedEnv().entries, pd, 0, 1)
  {
    ClearedLutIsTagged();
    forall k | 0 <= k < REGIONS ensures SlotRegion(ClearedLut(), k) == CLEARED {
    }
  }

  /** Then the store is let through. */
  lemma StoreEnabled(kernel: set<Word>, b: JointRuns.Machine, t: JointRuns.Machine)
    requires JointRuns.JointOk(MisalignedEnv(), kernel, b) && b.k.mal.current == 16 && 16 in b.k.mal.pds
    requires JointRuns.Enabled(MisalignedEnv(), b, Moves()[0])
    requires JointRuns.Next(MisalignedEnv(), kernel, b, Moves()[0]) == Some(t) && |t.k.mal.regions| == REGIONS
    ensures JointRuns.Enabled(MisalignedEnv(), t, Moves()[1])
  {
    JointRuns.MapLoads(MisalignedEnv(), kernel, b, 1, 0);
    assert InRegion(t.k.mal.regions[0], 0x2000_0000) && UserWrite(ApField(t.k.mal.regions[0].rasr));
  }

  /** `Isolation` applies to the boot followed by these two moves. */
  lemma JointInstance(kernel: set<Word>) returns (b: JointRuns.Machine, t: JointRuns.Machine)
    requires forall x :: x in kernel ==> !(0x2000_0000 <= x < 0x2000_0400)
    ensures JointRuns.JointOk(MisalignedEnv(), kernel, b)
    ensures JointRuns.Reaches(MisalignedEnv(), kernel, b, Moves(), t) && Read32(t.k.mem, 0x2000_0000) == 7
  {
    var env := MisalignedEnv();
    LayerIsOk(NULL);
    LayerApart(kernel, NULL);
    BootFrame(kernel);
    TablesAreOk(JointRuns.Machine(BootState(), false, DEPTH));
    JointRuns.BootJoint(env, kernel, BootState(), DEPTH, 0x2000_0200);
    BootedRoot();
    b := JointRuns.Machine(Booted(env, BootState(), DEPTH, 0x2000_0200), false, DEPTH);
    t := TwoMoves(kernel, b);
  }

  lemma TwoMoves(kernel: set<Word>, b: JointRuns.Machine) returns (t: JointRuns.Machine)
    requires JointRuns.JointOk(MisalignedEnv(), kernel, b) && b.k.mal.current == 16 && 16 in b.k.mal.pds
    requires b.k.mal.pds[16].lut == ClearedLut()
    ensures JointRuns.Reaches(MisalignedEnv(), kernel, b, Moves(), t) && Read32(t.k.mem, 0x2000_0000) == 7
  {
    var env, e, f := MisalignedEnv(), Moves()[0], Moves()[1];
    MapGood(kernel, b);
    var m := JointRuns.Next(env, kernel, b, e).value;
    JointRuns.MoveKeeps(env, kernel, b, e, m);
    StoreEnabled(kernel, b, m);
    t := JointRuns.Next(env, kernel, m, f).value;
    JointRuns.TwoReach(env, kernel, b, e, f, m, t);
  }

  // ----- a yield --------------------------------------------------------------------------------

  /** The child's registers: all 0 but the stack pointer, which is away from the block. */
  function Registers(): (r: seq<Word>)
    ensures |r| == Basic.Length() && r[Basic.SpIndex()] == 0x2000_2000
  {
    seq(17, i => if i == 0 then 0x2000_2000 else 0)
  }

  /** It yields to its parent. */
  function TheRequest(): Request {
    Request(0x2000_1FB4, NULL, 0, 0, 0, 1)
  }

  function Interrupted0(): KState {
    KState(Layer(32), Stacked(Vidts(), Registers(), Basic, true), false, false)
  }

  lemma ContextPlace()
    ensures ContextAddress(0x2000_2000, Basic, true) == 0x2000_1FB4
  {
    assert Bit(0x2000_1FE0, 2) == 0;
  }

  /** Below the context the memory is as it was. */
  lemma BelowContext(m: Words, regs: seq<Word>, x: Word)
    requires |regs| == Basic.Length() && regs[Basic.SpIndex()] == 0x2000_2000 && x < 0x2000_1000
    ensures Read32(AfterReset(Stacked(m, regs, Basic, true), 0x2000_1FB4, true), x) == Read32(m, x)
  {
    ContextPlace();
    StackedThenReset(m, regs, Basic, true, 0x2000_1FB4);
    WrittenAbove(m, 0x2000_1FB4, ContextWords(regs, Basic, true), x);
  }

  lemma {:induction false} WrittenAbove(m: Words, a: Word, ws: seq<Word>, x: Word)
    requires x < a && a + 4 * |ws| < 0x1_0000_0000
    ensures Read32(WriteWords(m, a, ws), x) == Read32(m, x)
    decreases |ws|
  {
    if ws != [] { WrittenAbove(m, a, ws[..|ws| - 1], x); }
  }

  lemma TheKind()
    ensures Read32(AfterReset(Interrupted0().mem, 0x2000_1FB4, true), 0x2000_1FB4) == 1
  {
    ContextPlace();
    var ws := ContextWords(Registers(), Basic, true);
    StackedThenReset(Vidts(), Registers(), Basic, true, 0x2000_1FB4);
    ReadBackWords(Vidts(), 0x2000_1FB4, ws);
    ContextWordsAre(Registers(), Basic, true);
    assert ReadWords(Interrupted0().mem, 0x2000_1FB4, |ws|)[0] == 1;
    AtDistinct(0x2000_1FB4, 0, 2);
  }

  /** What the checks of the yield read. */
  lemma WhatIsRead(s1: KState)
    requires s1 == Entered(MisalignedEnv(), Interrupted0(), 0x2000_1FB4)
    ensures VidtEntry(s1, 32, 0) == 0x2000_0300 && Read32(Announce(s1, 16, 0).mem, 0x2000_1FB4) == 1
    ensures VidtEntry(Announce(s1, 16, 0), 16, 0) == 0x2000_0200 && Read32(Announce(s1, 16, 0).mem, 0x2000_0200) == 1
  {
    BelowContext(Vidts(), Registers(), 0x2000_0004);
    BelowContext(Vidts(), Registers(), 0x2000_0104);
    BelowContext(Vidts(), Registers(), 0x2000_0200);
    TheKind();
  }

  lemma CheckPasses(a: Word, write: bool, p: Paddr)
    requires KernelOk(MisalignedEnv(), Layer(32)) && (p == 16 || p == 32)
    requires a == 0x2000_0000 || a == 0x2000_0100 || a == 0x2000_0200 || a == 0x2000_0300
    ensures Find(MisalignedEnv(), Layer(32), p, a) == Some(MisalignedEnv().entries[1])
    ensures BlockCheck(MisalignedEnv(), Layer(32), p, a, write).None?
  {
    assert FindBelongingBlock(MisalignedEnv().entries, [1], a) == Some(MisalignedEnv().entries[1]);
  }

  lemma ItSwitches(s1: KState)
    requires KernelOk(MisalignedEnv(), Layer(32)) && s1 == Entered(MisalignedEnv(), Interrupted0(), 0x2000_1FB4)
    ensures TargetVidt(MisalignedEnv(), s1, 16, 32, 0x2000_0300, 0, 0, 1, Some(0x2000_1FB4), 0).1.Switched?
    ensures VidtCheck(MisalignedEnv(), s1.mal, 32).None?
  {
    WhatIsRead(s1);
    CheckPasses(0x2000_0000, false, 16);
    CheckPasses(0x2000_0100, false, 32);
    CheckPasses(0x2000_0200, false, 16);
    CheckPasses(0x2000_0300, true, 32);
    AllPass(s1);
  }

  lemma AllPass(s1: KState)
    requires s1.mal == Layer(32) && KernelOk(MisalignedEnv(), s1.mal)
    requires Find(MisalignedEnv(), s1.mal, 16, 0x2000_0000) == Some(MisalignedEnv().entries[1])
    requires Find(MisalignedEnv(), s1.mal, 32, 0x2000_0100) == Some(MisalignedEnv().entries[1])
    requires Find(MisalignedEnv(), s1.mal, 16, 0x2000_0200) == Some(MisalignedEnv().entries[1])
    requires Find(MisalignedEnv(), s1.mal, 32, 0x2000_0300) == Some(MisalignedEnv().entries[1])
    requires VidtEntry(Announce(s1, 16, 0), 16, 0) == 0x2000_0200 && Read32(Announce(s1, 16, 0).mem, 0x2000_0200) == 1
    requires Read32(Announce(s1, 16, 0).mem, 0x2000_1FB4) == 1
    ensures TargetVidt(MisalignedEnv(), s1, 16, 32, 0x2000_0300, 0, 0, 1, Some(0x2000_1FB4), 0).1.Switched?
    ensures VidtCheck(MisalignedEnv(), s1.mal, 32).None?
  {
  }

  lemma TheSwitch() returns (r: (KState, Outcome))
    ensures Switches(MisalignedEnv(), Interrupted0(), TheRequest(), 16, 0x2000_0300, r)
  {
    LayerIsOk(32);
    var s1 := Entered(MisalignedEnv(), Interrupted0(), 0x2000_1FB4);
    WhatIsRead(s1);
    ItSwitches(s1);
    r := YieldCall(MisalignedEnv(), Interrupted0(), TheRequest());
  }

  lemma Places()
    ensures SafeSlot(0x2000_1FB4, 0x2000_0300, Basic) && NotInContext(0x2000_0000, 0x2000_1FB4, Basic)
  {
  }

  /** The memory right after the save. */
  function AfterTheSave(): Words {
    BeforeLoad(MisalignedEnv(), Entered(MisalignedEnv(), Interrupted0(), 0x2000_1FB4), 16, 0x2000_0300, 0, 1,
      0x2000_1FB4)
  }

  /** `YieldRoundTrip` applies to this yield. */
  lemma YieldInstance() returns (r: (KState, Outcome))
    ensures Switches(MisalignedEnv(), Interrupted0(), TheRequest(), 16, 0x2000_0300, r)
    ensures LoadAndReturn(AfterTheSave(), 0x2000_0300, true) == Returned(Registers(), Basic, true)
  {
    ContextPlace();
    Places();
    r := TheSwitch();
    YieldRoundTrip(MisalignedEnv(), Interrupted0(), Vidts(), AfterTheSave(), Registers(), Basic, TheRequest(), 16,
      0x2000_0300, r);
  }
}
