/** A partition that yields to itself, in the kernel of `Instances`: the context it resumes names any stack
    pointer at all, and the kernel stores the hardware frame there. */
module StrayFrames {
  import opened Bits
  import opened Mal
  import opened Memory
  import opened ExceptionFrames
  import opened Wrappers
  import opened Yield
  import opened YieldProperties
  import opened Faults
  import opened KernelMemory
  import opened KernelRuns
  import opened Instances

  /** The child runs. Its VIDT names a basic context for interrupt 0, with `v` for R0 and a stack pointer a frame
      above `x`, and no save address 1. */
  function Self(x: Word, v: Word): KState
    requires x + 0x20 < 0x1_0000_0000
  {
    KState(Layer(32), SelfMemory(x, v), false, false)
  }

  function SelfMemory(x: Word, v: Word): Words
    requires x + 0x20 < 0x1_0000_0000
  {
    map[0x2000_0104 := 0x2000_0200, 0x2000_0200 := 1, 0x2000_0208 := x + 0x20, 0x2000_022C := v, 0x2000_0380 := 1]
  }

  function SelfRequest(): Request {
    Request(0x2000_0380, 32, 0, 1, 0, 0)
  }

  lemma SelfInv(x: Word, v: Word)
    requires x + 0x20 < 0x1_0000_0000
    ensures Inv(MisalignedEnv(), Self(x, v), DEPTH)
  {
    LayerIsOk(32);
  }

  /** What the checks of the yield read. */
  lemma SelfReads(x: Word, v: Word)
    requires x + 0x20 < 0x1_0000_0000
    ensures var s1 := Entered(MisalignedEnv(), Self(x, v), 0x2000_0380);
            var m := Announce(s1, 32, 0).mem;
            && VidtEntry(s1, 32, 1) == NULL && VidtEntry(Announce(s1, 32, 0), 32, 0) == 0x2000_0200
            && Read32(m, 0x2000_0200) == 1 && Read32(m, 0x2000_0208) == x + 0x20 && Read32(m, 0x2000_022C) == v
  {
    var s1 := Entered(MisalignedEnv(), Self(x, v), 0x2000_0380);
    assert s1.mem == Write32(SelfMemory(x, v), 0x2000_0388, Read32(s1.mem, 0x2000_0388));
  }

  lemma SelfSwitches(x: Word, v: Word) returns (r: (KState, Outcome))
    requires x + 0x20 < 0x1_0000_0000
    ensures Switches(MisalignedEnv(), Self(x, v), SelfRequest(), 32, NULL, r)
  {
    var s1 := Entered(MisalignedEnv(), Self(x, v), 0x2000_0380);
    LayerIsOk(32);
    SelfReads(x, v);
    CheckPasses(0x2000_0100, false, 32);
    CheckPasses(0x2000_0200, false, 32);
    SelfPasses(s1);
    r := YieldCall(MisalignedEnv(), Self(x, v), SelfRequest());
  }

  lemma SelfPasses(s1: KState)
    requires s1.mal == Layer(32) && KernelOk(MisalignedEnv(), s1.mal)
    requires Find(MisalignedEnv(), s1.mal, 32, 0x2000_0100) == Some(MisalignedEnv().entries[1])
    requires Find(MisalignedEnv(), s1.mal, 32, 0x2000_0200) == Some(MisalignedEnv().entries[1])
    requires VidtEntry(Announce(s1, 32, 0), 32, 0) == 0x2000_0200 && Read32(Announce(s1, 32, 0).mem, 0x2000_0200) == 1
    ensures VidtCheck(MisalignedEnv(), s1.mal, 32).None?
    ensures TargetVidt(MisalignedEnv(), s1, 32, 32, NULL, 0, 0, 0, Some(0x2000_0380), 0).1.Switched?
  {
  }

  /** The first word of a frame is stored first, and stays. */
  lemma {:induction false} FirstStored(m: Words, src: int, dst: int, n: nat, align: Option<Flag>)
    requires 1 <= n <= MAX_AREA
    ensures Read32(Transfer(m, src, dst, n, align), At(dst, 0)) == Read32(m, At(src, 0))
    decreases n
  {
    if n > 1 {
      FirstStored(m, src, dst, n - 1, align);
      AtDistinct(dst, 0, n - 1);
    }
  }

  /** Loading a context puts its R0 where its frame begins. */
  lemma LoadStoresFirst(m: Words, ctx: Word, kind: Kind, frame: Word, stkalign: bool)
    requires KindAt(m, ctx) == kind && PushedFrame(SpOf(m, ctx), kind, stkalign) == frame
    ensures Read32(LoadMemory(m, ctx, stkalign), frame) == Read32(m, At(ctx + FRAME, kind.HwIndex()))
  {
    var align := SpAlign(SpOf(m, ctx), kind, stkalign);
    LoadIs(m, ctx, kind, frame, align, stkalign);
    FirstStored(m, ctx + FRAME + 4 * kind.HwIndex(), frame, kind.HwLength(), Some(align));
  }

  lemma LoadIs(m: Words, ctx: Word, kind: Kind, frame: Word, align: Flag, stkalign: bool)
    requires KindAt(m, ctx) == kind && PushedFrame(SpOf(m, ctx), kind, stkalign) == frame
    requires align == SpAlign(SpOf(m, ctx), kind, stkalign)
    ensures LoadMemory(m, ctx, stkalign)
         == Transfer(m, ctx + FRAME + 4 * kind.HwIndex(), frame, kind.HwLength(), Some(align))
  {
    LoadFrame(SpOf(m, ctx), kind, stkalign);
  }

  lemma SelfStored(m: Words, x: Word, v: Word)
    requires x % 8 == 0 && x + 0x20 < 0x1_0000_0000
    requires Read32(m, 0x2000_0200) == 1 && Read32(m, 0x2000_0208) == x + 0x20 && Read32(m, 0x2000_022C) == v
    ensures KindAt(m, 0x2000_0200) == Basic && PushedFrame(SpOf(m, 0x2000_0200), Basic, true) == x
    ensures Read32(LoadMemory(m, 0x2000_0200, true), x) == v
  {
    SelfSp(m, x);
    FrameAt(x);
    LoadStoresFirst(m, 0x2000_0200, Basic, x, true);
  }

  lemma SelfSp(m: Words, x: Word)
    requires x + 0x20 < 0x1_0000_0000 && Read32(m, 0x2000_0200) == 1 && Read32(m, 0x2000_0208) == x + 0x20
    ensures KindAt(m, 0x2000_0200) == Basic && SpOf(m, 0x2000_0200) == x + 0x20
    ensures At(0x2000_0200 + FRAME, Basic.HwIndex()) == 0x2000_022C
  {
  }

  /** Every word of memory at a multiple of 8 gets any value at all. */
  lemma SelfYield(x: Word, v: Word) returns (r: (KState, Outcome))
    requires x % 8 == 0 && x + 0x20 < 0x1_0000_0000
    ensures Inv(MisalignedEnv(), Self(x, v), DEPTH)
    ensures Switches(MisalignedEnv(), Self(x, v), SelfRequest(), 32, NULL, r)
    ensures ResumedFrame(MisalignedEnv(), Self(x, v), SelfRequest(), 32, NULL) == x
    ensures ResumedKind(MisalignedEnv(), Self(x, v), SelfRequest(), 32, NULL) == Basic
    ensures Read32(r.0.mem, x) == v
  {
    SelfInv(x, v);
    SelfReads(x, v);
    r := SelfSwitches(x, v);
    SelfStored(MemoryAtLoad(MisalignedEnv(), Self(x, v), SelfRequest(), 32, NULL), x, v);
    YieldFrame(MisalignedEnv(), Self(x, v), SelfRequest(), 32, NULL, r);
  }

  /** So the frame goes outside all blocks of caller and callee, if `x` is outside them. */
  lemma FrameOutsideBlocks(x: Word, v: Word) returns (r: (KState, Outcome))
    requires x % 8 == 0 && x + 0x20 < 0x1_0000_0000 && !(0x2000_0000 <= x < 0x2000_0400)
    ensures Switches(MisalignedEnv(), Self(x, v), SelfRequest(), 32, NULL, r)
    ensures Written(MisalignedEnv(), Self(x, v), SelfRequest(), 32, NULL, x) && Read32(r.0.mem, x) == v
    ensures !InTheirBlocks(MisalignedEnv(), Self(x, v).mal, 32, x)
  {
    r := SelfYield(x, v);
    assert At(x, 0) == x;
    OutsideBlocks(x, 32);
  }

  lemma OutsideBlocks(x: Word, p: Paddr)
    requires !(0x2000_0000 <= x < 0x2000_0400) && p == 32
    ensures !InBlockOf(MisalignedEnv(), Layer(32), p, x)
  {
  }

  /** What the kernel would take for the running partition, if it kept that at `x`. */
  function CurrentAt(s: KState, x: Word): KState {
    s.(mal := s.mal.(current := Read32(s.mem, x)))
  }

  /** If `current_partition` is at `x`, the yield makes the kernel take root for the running partition, with interrupts
      enabled although root's interrupt state is 0. */
  lemma MaskBroken(x: Word) returns (r: (KState, Outcome))
    requires x % 8 == 0 && x + 0x20 < 0x1_0000_0000
    ensures Switches(MisalignedEnv(), Self(x, 16), SelfRequest(), 32, NULL, r)
    ensures MaskOk(r.0) && r.0.mal.current == 32
    ensures CurrentAt(r.0, x).mal.current == 16 && !MaskOk(CurrentAt(r.0, x))
  {
    r := SelfYield(x, 16);
    YieldSwitch(MisalignedEnv(), Self(x, 16), SelfRequest(), 32, NULL, r);
    YieldAttempt(MisalignedEnv(), Self(x, 16), SelfRequest(), 32, NULL, r);
    var flags := SelfLayer(Entered(MisalignedEnv(), Self(x, 16), 0x2000_0380), r);
    RootKept(flags);
  }

  lemma SelfLayer(s1: KState, r: (KState, Outcome)) returns (flags: Word)
    requires s1.mal == Layer(32) && KernelOk(MisalignedEnv(), s1.mal)
    requires r == TargetVidt(MisalignedEnv(), s1, 32, 32, NULL, 0, 0, 0, Some(0x2000_0380), 0) && r.1.Switched?
    ensures WellSized(Layer(32).pds[32]) && r.0.mal == SwitchLayer(Layer(32), 32, 0, flags) && !r.0.masked
  {
    assert PdOk(MisalignedEnv().entries, s1.mal.pds[32]);
    flags := Read32(Announce(s1, 32, 0).mem, VidtEntry(Announce(s1, 32, 0), 32, 0) + FLAGS);
  }

  /** Root's interrupt state is no matter of a switch between others. */
  lemma RootKept(flags: Word)
    requires WellSized(Layer(32).pds[32])
    ensures var m := SwitchLayer(Layer(32), 32, 0, flags); m.root == 16 && 16 in m.pds && m.pds[16].intState == 0
  {
  }

  /** And over the kernel's own bytes, if they are there: the run of this one yield may end in any state. */
  lemma SelfYieldStrays(kernel: set<Word>, x: Word, v: Word, t: KState)
    requires x % 8 == 0 && x + 0x20 < 0x1_0000_0000 && x in kernel
    requires forall b :: b in kernel ==> !(0x2000_0000 <= b < 0x2000_0400)
    ensures Inv(MisalignedEnv(), Self(x, v), DEPTH) && KernelApart(MisalignedEnv(), kernel, Self(x, v).mal)
    ensures Strays(MisalignedEnv(), kernel, Self(x, v), DEPTH, YieldEvent(SelfRequest()))
    ensures Reaches(MisalignedEnv(), kernel, Self(x, v), DEPTH, [YieldEvent(SelfRequest())], t)
  {
    var r := SelfYield(x, v);
    YieldStrays(MisalignedEnv(), kernel, Self(x, v), DEPTH, SelfRequest(), 32, NULL);
    assert At(x, 0) == x && Byte(x, 0) == x;
    LayerApart(kernel, 32);
  }
}
