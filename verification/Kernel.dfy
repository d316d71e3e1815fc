/** The kernel state that yields, interrupts and faults work on, and the functions of yield_c.c and
    pip_interrupt_calls.c that update it, each proved to take the step specified in `Yield`. */
module Kernel {
  import opened Bits
  import opened LookupTable
  import opened MpuRegisters
  import opened Mal
  import opened Memory
  import opened ExceptionFrames
  import opened Wrappers
  import opened Yield
  import opened YieldProperties

  /** The steps of switchContextCont on the memory layer's own objects: both writes of an interrupt state, and
      between them the switch, which loads the callee's table into the MPU. */
  method SwitchPartition(layer: MemoryLayer, callee: Paddr, flagsOnYield: Word, pipflags: Word)
    requires layer.Valid() && callee in layer.pds
    modifies layer`current, layer.hw, layer.pds[callee]
    modifies if layer.current in layer.pds then {layer.pds[layer.current]} else {}
    ensures layer.Valid() && layer.pds == old(layer.pds)
    ensures callee in old(layer.State()).pds && WellSized(old(layer.State()).pds[callee])
    ensures layer.State() == SwitchLayer(old(layer.State()), callee, flagsOnYield, pipflags)
    ensures layer.hw.regions == LutRegions(layer.pds[callee].lut[..])
  {
    ghost var s := layer.State();
    assert PdOk(layer.entries, s.pds[callee]);
    layer.SetIntState(flagsOnYield);
    layer.UpdateCurPartAndActivate(callee);
    layer.SetIntState(pipflags);
    assert layer.State().regions == layer.hw.regions;
  }

  /** `mal` is the content of the memory layer. The layer's operations are used here by their
      specifications, which `MemoryLayer` implements on descriptor objects
      (for the switch, see `SwitchPartition`). */
  class Core {
    const ram: Ram
    const entries: map<Paddr, Block>
    const children: map<(Paddr, Paddr), Paddr>
    var mal: MalState
    var usedFpu: bool
    var masked: bool

    constructor (mal: MalState, ram: Ram, entries: map<Paddr, Block>, children: map<(Paddr, Paddr), Paddr>)
      ensures this.mal == mal && this.ram == ram && !usedFpu && !masked
      ensures this.entries == entries && this.children == children
    {
      this.mal, this.ram, this.entries, this.children := mal, ram, entries, children;
      usedFpu, masked := false, false;
    }

    function Fixed(): Env {
      Env(entries, children, ram.stkalign)
    }

    function State(): KState
      reads this, ram
    {
      KState(mal, ram.mem, usedFpu, masked)
    }

    ghost predicate Valid()
      reads this`mal
    {
      KernelOk(Fixed(), mal)
    }

    /** switchContextCont; it does not return to its caller. */
    method SwitchContextCont(callee: Paddr, flagsOnYield: Word, ctx: Paddr) returns (o: Outcome)
      requires Valid() && callee in mal.pds
      modifies this, ram
      ensures Valid()
      ensures (State(), o) == Switch(Fixed(), old(State()), callee, flagsOnYield, ctx)
    {
      ghost var s := State();
      var pipflags := Read32(ram.mem, ctx + FLAGS);
      SwitchLayerOk(Fixed(), s.mal, callee, flagsOnYield, pipflags);
      UpdateLayer(callee, flagsOnYield, pipflags);
      ghost var m := mal;
      var enforceInterrupts := true;
      if callee == mal.root && pipflags == 0 {
        enforceInterrupts := false;
      }
      o := LoadContext(ctx, enforceInterrupts);
      assert State() == KState(m, ram.mem, s.usedFpu, callee == s.mal.root && pipflags == 0);
      SwitchIs(Fixed(), s, callee, flagsOnYield, ctx, m, ram.mem, o.l);
    }

    /** Its three updates of the layer. */
    method UpdateLayer(callee: Paddr, flagsOnYield: Word, pipflags: Word)
      requires callee in mal.pds && WellSized(mal.pds[callee])
      modifies this`mal
      ensures mal == SwitchLayer(old(mal), callee, flagsOnYield, pipflags)
    {
      mal := WithIntState(mal, flagsOnYield);
      mal := Activate(mal, callee);
      mal := WithIntState(mal, pipflags);
    }

    /** loadContext: BASEPRI, then the registers. */
    method LoadContext(ctx: Paddr, enforceInterrupts: bool) returns (o: Outcome)
      modifies this`masked, ram
      ensures masked == !enforceInterrupts
      ensures ram.mem == LoadMemory(old(ram.mem), ctx, ram.stkalign)
      ensures var l := LoadState(old(ram.mem), ram.mem, ctx, ram.stkalign); o == Switched(l, l.kind.Basic? && usedFpu)
    {
      masked := !enforceInterrupts;
      var l := ram.LoadContext(ctx);
      o := Switched(l, l.kind.Basic? && usedFpu);
    }

    /** The checks of a block that is to hold a context, shared by the two functions below. */
    method CheckBlock(p: Paddr, a: Word, write: bool) returns (e: Option<ContextError>, last: Word)
      requires Valid() && p in mal.pds
      ensures e == BlockCheck(Fixed(), mal, p, a, write)
      ensures e.None? ==> Find(Fixed(), mal, p, a).Some? && last == Find(Fixed(), mal, p, a).value.last
    {
      last := 0;
      var found := FindBelongingBlock(entries, mal.pds[p].structure, a);
      if found.None? { return Some(BlockNotFound), last; }
      var block := found.value;
      last := block.last;
      if !block.present { return Some(BlockNotPresent), last; }
      if !block.accessible { return Some(BlockNotAccessible), last; }
      if !(if write then block.write else block.read) { return Some(BlockLacksRight), last; }
      if a % 4 != 0 { return Some(Misaligned), last; }
      e := None;
    }

    /** Whether a context of the kind given by its isBasicFrame word fits. */
    method Fits(a: Word, last: Word, isBasicFrame: Word) returns (fits: bool)
      ensures fits <==>
        (isBasicFrame == 1 && !NotEnoughSpace(a, last, 76)) || (isBasicFrame == 0 && !NotEnoughSpace(a, last, 208))
    {
      if isBasicFrame == 1 {
        fits := !NotEnoughSpace(a, last, 76);
      } else if isBasicFrame == 0 {
        fits := !NotEnoughSpace(a, last, 208);
      } else {
        fits := false;
      }
    }

    /** The checks of saveSourcePartCtxCont. */
    method CheckCaller(caller: Paddr, save: Word, ctx: Paddr) returns (e: Option<ContextError>)
      requires Valid() && caller in mal.pds
      ensures e == CallerCheck(Fixed(), State(), caller, save, ctx)
    {
      var last;
      e, last := CheckBlock(caller, save, true);
      if e.Some? { return; }
      var fits := Fits(save, last, Read32(ram.mem, ctx));
      if !fits { return Some(ExceedsBlockEnd); }
    }

    /** The checks of getTargetPartCtxCont. */
    method CheckCallee(callee: Paddr, target: Word) returns (e: Option<ContextError>)
      requires Valid() && callee in mal.pds
      ensures e == CalleeCheck(Fixed(), State(), callee, target)
    {
      var last;
      e, last := CheckBlock(callee, target, false);
      if e.Some? { return; }
      if NotEnoughSpace(target, last, 4) { return Some(ExceedsBlockEnd); }
      var fits := Fits(target, last, Read32(ram.mem, target));
      if !fits { return Some(ExceedsBlockEnd); }
    }

    /** saveSourcePartCtxCont */
    method SaveSourcePartCtxCont(callee: Paddr, caller: Paddr, save: Word, flagsOnYield: Word, flagsOnWake: Word,
        ctx: Paddr, target: Paddr) returns (o: Outcome)
      requires Valid() && callee in mal.pds && caller in mal.pds
      modifies this, ram
      ensures Valid()
      ensures (State(), o) == SaveSource(Fixed(), old(State()), callee, caller, save, flagsOnYield, flagsOnWake, ctx,
          target)
    {
      ghost var s := State();
      var e := CheckCaller(caller, save, ctx);
      assert State() == s;
      if e == Some(Misaligned) { return Failed(CalleeContext(Misaligned)); }
      if e.Some? { return Failed(CallerContext(e.value)); }
      ram.WriteContext(ctx, save, flagsOnWake);
      assert State() == s.(mem := AfterSave(s.mem, ctx, save, flagsOnWake));
      o := SwitchContextCont(callee, flagsOnYield, target);
    }

    /** getTargetPartCtxCont; `ctx` is None for the null context of the fallback calls. */
    method GetTargetPartCtxCont(callee: Paddr, caller: Paddr, save: Word, irq: nat,
        flagsOnYield: Word, flagsOnWake: Word, ctx: Option<Paddr>, stray: Word) returns (o: Outcome)
      requires Valid() && callee in mal.pds && caller in mal.pds && (save != NULL ==> ctx.Some?)
      modifies this, ram
      ensures Valid()
      ensures (State(), o) == TargetContext(Fixed(), old(State()), callee, caller, save, irq, flagsOnYield,
          flagsOnWake, ctx, stray)
    {
      ghost var s := State();
      var target := ReadVidtEntry(callee, irq);
      var e := CheckCallee(callee, target);
      assert State() == s;
      if e.Some? { return Failed(CalleeContext(e.value)); }
      var interrupted := match ctx case None => stray case Some(c) => Read32(ram.mem, c);
      usedFpu := interrupted == 0;
      assert State() == s.(usedFpu := InterruptedKind(s, ctx, stray) == 0);
      if save != NULL {
        o := SaveSourcePartCtxCont(callee, caller, save, flagsOnYield, flagsOnWake, ctx.value, target);
      } else {
        o := SwitchContextCont(callee, flagsOnYield, target);
      }
    }

    method ReadVidtEntry(p: Paddr, i: nat) returns (a: Word)
      requires Valid() && p in mal.pds
      ensures a == VidtEntry(State(), p, i)
    {
      a := Read32(ram.mem, mal.pds[p].vidt + 4 + 4 * i);
    }

    /** The checks of a partition's VIDT, shared by the two functions below. */
    method CheckVidt(p: Paddr) returns (e: Option<VidtError>)
      requires Valid() && p in mal.pds
      ensures e == VidtCheck(Fixed(), mal, p)
    {
      var found := FindBelongingBlock(entries, mal.pds[p].structure, mal.pds[p].vidt);
      if found.None? { return Some(IsNull); }
      var block := found.value;
      if !block.present { return Some(NotPresent); }
      if !block.accessible { return Some(NotAccessible); }
      if block.last - block.start + 1 < VIDT_SIZE { return Some(TooSmall); }
      e := None;
    }

    method AnnounceInterrupt(callee: Paddr, irq: Word)
      requires Valid() && callee in mal.pds
      modifies ram
      ensures Valid() && State() == Announce(old(State()), callee, irq)
    {
      ram.mem := Write32(ram.mem, mal.pds[callee].vidt, irq);
    }

    /** getTargetPartVidtCont */
    method GetTargetPartVidtCont(callee: Paddr, caller: Paddr, save: Word, irq: Word,
        flagsOnYield: Word, flagsOnWake: Word, ctx: Option<Paddr>, stray: Word) returns (o: Outcome)
      requires Valid() && callee in mal.pds && caller in mal.pds && (save != NULL ==> ctx.Some?)
      modifies this, ram
      ensures Valid()
      ensures (State(), o) == TargetVidt(Fixed(), old(State()), callee, caller, save, irq, flagsOnYield, flagsOnWake,
          ctx, stray)
    {
      var e := CheckVidt(callee);
      if e.Some? { return Failed(CalleeVidt(e.value)); }
      AnnounceInterrupt(callee, irq);
      o := GetTargetPartCtxCont(callee, caller, save, irq, flagsOnYield, flagsOnWake, ctx, stray);
    }

    /** getSourcePartVidtCont */
    method GetSourcePartVidtCont(callee: Paddr, caller: Paddr, irq: Word, saveIndex: nat,
        flagsOnYield: Word, flagsOnWake: Word, ctx: Paddr) returns (o: Outcome)
      requires Valid() && callee in mal.pds && caller in mal.pds
      modifies this, ram
      ensures Valid()
      ensures (State(), o) == SourceVidt(Fixed(), old(State()), callee, caller, irq, saveIndex, flagsOnYield,
          flagsOnWake, ctx)
    {
      ghost var s := State();
      var e := CheckVidt(caller);
      assert State() == s;
      if e.Some? { return Failed(CallerVidt(e.value)); }
      var save := ReadVidtEntry(caller, saveIndex);
      assert State() == s;
      o := GetTargetPartVidtCont(callee, caller, save, irq, flagsOnYield, flagsOnWake, Some(ctx), 0);
    }

    /** getParentPartDescCont */
    method GetParentPartDescCont(caller: Paddr, irq: Word, saveIndex: nat,
        flagsOnYield: Word, flagsOnWake: Word, ctx: Paddr) returns (o: Outcome)
      requires Valid() && caller in mal.pds
      modifies this, ram
      ensures Valid()
      ensures (State(), o) == ParentPart(Fixed(), old(State()), caller, irq, saveIndex, flagsOnYield, flagsOnWake, ctx)
    {
      if caller == mal.root { return Failed(CalleeIsParentOfRoot); }
      o := GetSourcePartVidtCont(mal.pds[caller].parent, caller, irq, saveIndex, flagsOnYield, flagsOnWake, ctx);
    }

    /** yieldGlue, with checkIntLevelCont, checkCtxSaveIdxCont and getChildPartDescCont. */
    method YieldGlue(ctx: Paddr, localId: Paddr, irq: Word, saveIndex: Word,
        flagsOnYield: Word, flagsOnWake: Word) returns (o: Outcome)
      requires Valid() && mal.current in mal.pds
      modifies this, ram
      ensures Valid()
      ensures (State(), o) == YieldCall(Fixed(), old(State()),
          Request(ctx, localId, irq, saveIndex, flagsOnYield, flagsOnWake))
    {
      ram.ResetInitialSp(ctx);
      if !(irq < VIDT_INTERRUPT_NUMBER) { return Failed(CalleeInvalidIndex); }
      if !(saveIndex < VIDT_INTERRUPT_NUMBER) { return Failed(CallerInvalidIndex); }
      var caller := mal.current;
      if localId == NULL {
        o := GetParentPartDescCont(caller, irq, saveIndex, flagsOnYield, flagsOnWake, ctx);
      } else if localId == caller {
        o := GetSourcePartVidtCont(localId, caller, irq, saveIndex, flagsOnYield, flagsOnWake, ctx);
      } else if (caller, localId) !in children {
        o := Failed(CalleeNotChild);
      } else {
        o := GetSourcePartVidtCont(children[(caller, localId)], caller, irq, saveIndex, flagsOnYield, flagsOnWake, ctx);
      }
    }
  }
}
