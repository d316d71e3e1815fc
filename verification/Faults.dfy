/** Interrupts and faults (exception_handlers.c, pip_interrupt_calls.c): the propagation of an interrupt
    to the root partition and of a fault up the partition tree, and the interrupt-masking invariant over
    runs of the kernel. */
module Faults {
  import opened Bits
  import opened LookupTable
  import opened MpuRegisters
  import opened Mal
  import opened ExceptionFrames
  import opened Wrappers
  import opened Yield
  import opened YieldProperties
  import opened Kernel

  const CLI_SAVE_INDEX: nat := 8
  const STI_SAVE_INDEX: nat := 9
  const DOUBLE_FAULT_LEVEL: nat := 10

  /** How a handler ends: a context is resumed, or the kernel stops. */
  datatype Final = Running(l: Loaded, clearFpu: bool) | Panic

  /** The codes for which the handlers retry without saving the interrupted context. */
  predicate CallerSide(c: Code) { c.CallerVidt? || c.CallerContext? }

  function Finish(r: (KState, Outcome)): (KState, Final) {
    match r.1 case Failed(_) => (r.0, Panic) case Switched(l, c) => (r.0, Running(l, c))
  }

  function SaveIndex(state: Word): nat {
    if state == 0 then CLI_SAVE_INDEX else STI_SAVE_INDEX
  }

  /** Interrupt_Handler_C */
  function Interrupt(env: Env, s: KState, irq: Word, ctx: Paddr, stray: Word): (KState, Final)
    requires KernelOk(env, s.mal) && s.mal.current in s.mal.pds
  {
    var caller := s.mal.current;
    var state := s.mal.pds[caller].intState;
    var s1 := s.(mem := AfterReset(s.mem, ctx, env.stkalign));
    var r := SourceVidt(env, s1, s.mal.root, caller, irq, SaveIndex(state), state, state, ctx);
    SourceVidtSound(env, s1, s.mal.root, caller, irq, SaveIndex(state), state, state, ctx);
    if r.1.Failed? && CallerSide(r.1.code) then
      Finish(TargetVidt(env, r.0, s.mal.root, caller, NULL, irq, 0, 0, None, stray))
    else Finish(r)
  }

  /** Parents are closer to the root. */
  ghost predicate IsTree(m: MalState, depth: map<Paddr, nat>) {
    forall p :: p in m.pds ==>
      p in depth && (p != m.root ==> m.pds[p].parent in depth && depth[m.pds[p].parent] < depth[p])
  }

  lemma ParentPartSound(env: Env, s: KState, caller: Paddr, irq: Word, saveIndex: nat,
      flagsOnYield: Word, flagsOnWake: Word, ctx: Paddr)
    requires KernelOk(env, s.mal) && caller in s.mal.pds
    ensures var r := ParentPart(env, s, caller, irq, saveIndex, flagsOnYield, flagsOnWake, ctx);
            && (r.1.Failed? ==> r.0.mal == s.mal && r.0.masked == s.masked)
            && (r.1.Switched? ==> caller != s.mal.root && Sound(env, s.mal, s.masked, s.mal.pds[caller].parent, r))
            && (caller == s.mal.root <==> r.1 == Failed(CalleeIsParentOfRoot))
            && (caller == s.mal.root ==> r.0 == s)
  {
    if caller != s.mal.root {
      SourceCodes(env, s, caller, irq, saveIndex, flagsOnYield, flagsOnWake, ctx);
      SourceVidtSound(env, s, s.mal.pds[caller].parent, caller, irq, saveIndex, flagsOnYield, flagsOnWake, ctx);
    }
  }

  lemma SourceCodes(env: Env, s: KState, caller: Paddr, irq: Word, saveIndex: nat,
      flagsOnYield: Word, flagsOnWake: Word, ctx: Paddr)
    requires KernelOk(env, s.mal) && caller in s.mal.pds && caller != s.mal.root
    ensures SourceVidt(env, s, s.mal.pds[caller].parent, caller, irq, saveIndex, flagsOnYield, flagsOnWake, ctx).1
         != Failed(CalleeIsParentOfRoot)
  {
  }

  /** propagateFault: the recursion climbs the tree, with the depth as measure. */
  function Propagate(env: Env, s: KState, p: Paddr, irq: Word, saveIndex: nat, flagsOnYield: Word, flagsOnWake: Word,
      ctx: Paddr, stray: Word, depth: map<Paddr, nat>): (KState, Final)
    requires KernelOk(env, s.mal) && p in s.mal.pds && IsTree(s.mal, depth)
    decreases depth[p]
  {
    var r := ParentPart(env, s, p, irq, saveIndex, flagsOnYield, flagsOnWake, ctx);
    ParentPartSound(env, s, p, irq, saveIndex, flagsOnYield, flagsOnWake, ctx);
    if r.1.Switched? || p == s.mal.root then Finish(r)
    else if CallerSide(r.1.code) then
      Finish(TargetVidt(env, r.0, s.mal.pds[p].parent, p, NULL, irq, flagsOnYield, flagsOnWake, None, stray))
    else
      Propagate(env, r.0, s.mal.pds[p].parent, irq, DOUBLE_FAULT_LEVEL, flagsOnYield, flagsOnWake, ctx, stray, depth)
  }

  /** One level of the climb. */
  lemma PropagateIs(env: Env, s: KState, p: Paddr, irq: Word, saveIndex: nat, flagsOnYield: Word, flagsOnWake: Word,
      ctx: Paddr, stray: Word, depth: map<Paddr, nat>, r: (KState, Outcome))
    requires KernelOk(env, s.mal) && p in s.mal.pds && IsTree(s.mal, depth)
    requires r == ParentPart(env, s, p, irq, saveIndex, flagsOnYield, flagsOnWake, ctx)
    ensures r.1.Failed? ==> r.0.mal == s.mal
    ensures Propagate(env, s, p, irq, saveIndex, flagsOnYield, flagsOnWake, ctx, stray, depth)
         == if r.1.Switched? || p == s.mal.root then Finish(r)
            else if CallerSide(r.1.code) then
              Finish(TargetVidt(env, r.0, s.mal.pds[p].parent, p, NULL, irq, flagsOnYield, flagsOnWake, None, stray))
            else Propagate(env, r.0, s.mal.pds[p].parent, irq, DOUBLE_FAULT_LEVEL, flagsOnYield, flagsOnWake, ctx,
                stray, depth)
  {
    ParentPartSound(env, s, p, irq, saveIndex, flagsOnYield, flagsOnWake, ctx);
  }

  /** Fault_Handler_C_Irq */
  function FaultEntry(env: Env, s: KState, irq: Word, ctx: Paddr, stray: Word, depth: map<Paddr, nat>): (KState, Final)
    requires KernelOk(env, s.mal) && s.mal.current in s.mal.pds && IsTree(s.mal, depth)
  {
    var state := s.mal.pds[s.mal.current].intState;
    var s1 := s.(mem := AfterReset(s.mem, ctx, env.stkalign));
    Propagate(env, s1, s.mal.current, irq, SaveIndex(state), state, state, ctx, stray, depth)
  }

  /** setIntState */
  function SetIntState(s: KState, v: Word): KState {
    s.(
      mal := WithIntState(s.mal, v),
      masked := if s.mal.current == s.mal.root then v == 0 else s.masked
    )
  }

  // ----- the code ------------------------------------------------------------------------------

  method SetInterruptState(k: Core, v: Word)
    modifies k
    ensures k.State() == SetIntState(old(k.State()), v)
  {
    k.mal := WithIntState(k.mal, v);
    if k.mal.current == k.mal.root {
      if v == 0 {
        k.masked := true;
      } else {
        k.masked := false;
      }
    }
  }

  method InterruptHandler(k: Core, irq: Word, ctx: Paddr, stray: Word) returns (r: Final)
    requires k.Valid() && k.mal.current in k.mal.pds
    modifies k, k.ram
    ensures k.Valid()
    ensures (k.State(), r) == Interrupt(k.Fixed(), old(k.State()), irq, ctx, stray)
  {
    var root, interrupted := k.mal.root, k.mal.current;
    var state := k.mal.pds[interrupted].intState;
    var saveIndex := if state == 0 then CLI_SAVE_INDEX else STI_SAVE_INDEX;
    k.ram.ResetInitialSp(ctx);
    ghost var s := k.State();
    SourceVidtSound(k.Fixed(), s, root, interrupted, irq, saveIndex, state, state, ctx);
    var o := k.GetSourcePartVidtCont(root, interrupted, irq, saveIndex, state, state, ctx);
    if o.Switched? { return Running(o.l, o.clearFpu); }
    if CallerSide(o.code) {
      o := k.GetTargetPartVidtCont(root, interrupted, NULL, irq, 0, 0, None, stray);
      if o.Switched? { return Running(o.l, o.clearFpu); }
    }
    r := Panic;
  }

  method PropagateFault(k: Core, p: Paddr, irq: Word, saveIndex: nat, flagsOnYield: Word, flagsOnWake: Word,
      ctx: Paddr, stray: Word, ghost depth: map<Paddr, nat>) returns (r: Final)
    requires k.Valid() && p in k.mal.pds && IsTree(k.mal, depth)
    modifies k, k.ram
    ensures k.Valid()
    ensures (k.State(), r) == Propagate(k.Fixed(), old(k.State()), p, irq, saveIndex, flagsOnYield, flagsOnWake, ctx,
        stray, depth)
    decreases depth[p]
  {
    ghost var s := k.State();
    ParentPartSound(k.Fixed(), s, p, irq, saveIndex, flagsOnYield, flagsOnWake, ctx);
    var o := k.GetParentPartDescCont(p, irq, saveIndex, flagsOnYield, flagsOnWake, ctx);
    if o.Switched? { return Running(o.l, o.clearFpu); }
    if CallerSide(o.code) {
      o := k.GetTargetPartVidtCont(k.mal.pds[p].parent, p, NULL, irq, flagsOnYield, flagsOnWake, None, stray);
      if o.Switched? { return Running(o.l, o.clearFpu); }
    } else if o.code != CalleeIsParentOfRoot {
      r := PropagateFault(k, k.mal.pds[p].parent, irq, DOUBLE_FAULT_LEVEL, flagsOnYield, flagsOnWake, ctx, stray,
          depth);
      return;
    }
    r := Panic;
  }

  method FaultHandler(k: Core, irq: Word, ctx: Paddr, stray: Word, ghost depth: map<Paddr, nat>) returns (r: Final)
    requires k.Valid() && k.mal.current in k.mal.pds && IsTree(k.mal, depth)
    modifies k, k.ram
    ensures k.Valid()
    ensures (k.State(), r) == FaultEntry(k.Fixed(), old(k.State()), irq, ctx, stray, depth)
  {
    var state := k.mal.pds[k.mal.current].intState;
    var saveIndex := if state == 0 then CLI_SAVE_INDEX else STI_SAVE_INDEX;
    k.ram.ResetInitialSp(ctx);
    r := PropagateFault(k, k.mal.current, irq, saveIndex, state, state, ctx, stray, depth);
  }

  // ----- where an interrupt or a fault ends ------------------------------------------------------

  /** An interrupt ends in root, with root's table loaded and the masking as it should be, or in a panic that
      changes no partition's state. A failure while saving the interrupted context never panics. */
  lemma InterruptEnds(env: Env, s: KState, irq: Word, ctx: Paddr, stray: Word)
    requires KernelOk(env, s.mal) && s.mal.current in s.mal.pds
    ensures var (r, f) := Interrupt(env, s, irq, ctx, stray);
            var first := Attempt(env, s, irq, ctx);
            && (f.Running? ==> KernelOk(env, r.mal) && r.mal.current == s.mal.root)
            && (f.Running? ==> RunsInSync(r) && MaskOk(r) && SameButIntStates(s.mal, r.mal))
            && (f.Panic? ==> r.mal == s.mal && r.masked == s.masked)
            && (first.1.Failed? && first.1.code.CallerContext? ==> f.Running?)
            && (f.Panic? ==> first.1.Failed? && !first.1.code.CallerContext?)
  {
    var first := Attempt(env, s, irq, ctx);
    var root, caller, state := s.mal.root, s.mal.current, s.mal.pds[s.mal.current].intState;
    var s1 := s.(mem := AfterReset(s.mem, ctx, env.stkalign));
    SourceVidtSound(env, s1, root, caller, irq, SaveIndex(state), state, state, ctx);
    if first.1.Failed? && CallerSide(first.1.code) {
      TargetVidtSound(env, first.0, root, caller, NULL, irq, 0, 0, None, stray);
      if first.1.code.CallerContext? {
        FallbackTotal(env, s1, root, caller, irq, SaveIndex(state), state, state, ctx, 0, 0, stray);
      }
    }
  }

  /** When the interrupt reaches root: exactly when root's VIDT and the context in it are good and the
      interrupted partition's save address is not misaligned. Nothing else that is wrong with the interrupted
      partition, its VIDT included, can keep an interrupt from root; a misaligned save address can, because its
      code is one of the callee's, for which there is no retry. */
  lemma InterruptReachesRoot(env: Env, s: KState, irq: Word, ctx: Paddr, stray: Word)
    requires KernelOk(env, s.mal) && s.mal.current in s.mal.pds
    ensures Interrupt(env, s, irq, ctx, stray).1.Running? <==>
            && Ready(env, Entered(env, s, ctx), s.mal.root, irq)
            && !MisalignedSave(env, Entered(env, s, ctx), s.mal.current, SaveIndex(s.mal.pds[s.mal.current].intState))
  {
    var first, s1 := Attempt(env, s, irq, ctx), Entered(env, s, ctx);
    var root, caller, state := s.mal.root, s.mal.current, s.mal.pds[s.mal.current].intState;
    InterruptSteps(env, s, irq, ctx, stray, first);
    AttemptCases(env, s1, root, caller, irq, SaveIndex(state), state, state, ctx);
    if first.1.Failed? && first.1.code.CallerVidt? {
      NoSaveExact(env, s1, root, caller, irq, 0, 0, stray);
    } else if first.1.Failed? && first.1.code.CallerContext? {
      FallbackTotal(env, s1, root, caller, irq, SaveIndex(state), state, state, ctx, 0, 0, stray);
    }
  }

  /** The two steps of an interrupt. */
  lemma InterruptIs(env: Env, s: KState, irq: Word, ctx: Paddr, stray: Word, first: (KState, Outcome))
    requires KernelOk(env, s.mal) && s.mal.current in s.mal.pds && first == Attempt(env, s, irq, ctx)
    ensures first.1.Failed? ==> first.0.mal == s.mal
    ensures Interrupt(env, s, irq, ctx, stray)
         == if first.1.Failed? && CallerSide(first.1.code) then
              Finish(TargetVidt(env, first.0, s.mal.root, s.mal.current, NULL, irq, 0, 0, None, stray))
            else Finish(first)
  {
    var state := s.mal.pds[s.mal.current].intState;
    SourceVidtSound(env, Entered(env, s, ctx), s.mal.root, s.mal.current, irq, SaveIndex(state), state, state, ctx);
  }

  /** An interrupt succeeds at the first attempt, or in the retry after a failure on the caller's side. */
  lemma InterruptSteps(env: Env, s: KState, irq: Word, ctx: Paddr, stray: Word, first: (KState, Outcome))
    requires KernelOk(env, s.mal) && s.mal.current in s.mal.pds && first == Attempt(env, s, irq, ctx)
    ensures first.0.mal == s.mal || first.1.Switched?
    ensures Interrupt(env, s, irq, ctx, stray).1.Running? <==>
            first.1.Switched? || (CallerSide(first.1.code)
              && TargetVidt(env, first.0, s.mal.root, s.mal.current, NULL, irq, 0, 0, None, stray).1.Switched?)
  {
    var state := s.mal.pds[s.mal.current].intState;
    SourceVidtSound(env, Entered(env, s, ctx), s.mal.root, s.mal.current, irq, SaveIndex(state), state, state, ctx);
  }

  // A kernel with root, at address 16, and one child, whose VIDT names a misaligned save address.

  function MisalignedEnv(): Env {
    Env(map[1 := Block(0x2000_0000, 0x2000_03FF, true, true, false, true, true)], map[], true)
  }

  function MisalignedState(): KState {
    var root := InitialPd().(vidt := 0x2000_0000, structure := [1]);
    var child := InitialPd().(parent := 16, vidt := 0x2000_0100, structure := [1]);
    // root's context for interrupt 16, a basic one, and the child's save address
    var mem := map[0x2000_0044 := 0x2000_0200, 0x2000_0200 := 1, 0x2000_0124 := 0x2000_0302];
    KState(MalState(map[16 := root, 32 := child], 32, 16, LutRegions(ClearedLut())), mem, false, false)
  }

  lemma MisalignedStateOk()
    ensures KernelOk(MisalignedEnv(), MisalignedState().mal)
  {
    var env, m := MisalignedEnv(), MisalignedState().mal;
    assert Low(0x2000_0000, 5) == 0 && Low(0x2000_0400, 5) == 0;
    assert env.entries[1].Valid();
    InitialPdOk(env.entries);
    assert PdOk(env.entries, m.pds[16]) && PdOk(env.entries, m.pds[32]);
  }

  /** Here root could take interrupt 16, the first of the external ones, and the kernel panics. */
  lemma MisalignedSavePanics()
    ensures KernelOk(MisalignedEnv(), MisalignedState().mal)
    ensures Ready(MisalignedEnv(), MisalignedState(), MisalignedState().mal.root, 16)
    ensures Interrupt(MisalignedEnv(), MisalignedState(), 16, 0x2000_0380, 0).1 == Panic
  {
    MisalignedStateOk();
    MisalignedStateReady();
    MisalignedStateSave(0x2000_0380);
    InterruptReachesRoot(MisalignedEnv(), MisalignedState(), 16, 0x2000_0380, 0);
  }

  lemma MisalignedStateReady()
    requires KernelOk(MisalignedEnv(), MisalignedState().mal)
    ensures Ready(MisalignedEnv(), MisalignedState(), 16, 16)
  {
    var env, s := MisalignedEnv(), MisalignedState();
    assert FindBelongingBlock(env.entries, [1], 0x2000_0000) == Some(env.entries[1]);
    assert FindBelongingBlock(env.entries, [1], 0x2000_0200) == Some(env.entries[1]);
    assert VidtEntry(Announce(s, 16, 16), 16, 16) == 0x2000_0200;
  }

  lemma MisalignedStateSave(ctx: Word)
    requires KernelOk(MisalignedEnv(), MisalignedState().mal) && ctx == 0x2000_0380
    ensures var s := MisalignedState();
            MisalignedSave(MisalignedEnv(), s.(mem := AfterReset(s.mem, ctx, true)), 32, CLI_SAVE_INDEX)
  {
    var env, s := MisalignedEnv(), MisalignedState();
    assert FindBelongingBlock(env.entries, [1], 0x2000_0302) == Some(env.entries[1]);
    assert FindBelongingBlock(env.entries, [1], 0x2000_0100) == Some(env.entries[1]);
    assert VidtEntry(s.(mem := AfterReset(s.mem, ctx, true)), 32, CLI_SAVE_INDEX) == 0x2000_0302;
  }

  /** The first attempt of Interrupt_Handler_C. */
  function Attempt(env: Env, s: KState, irq: Word, ctx: Paddr): (KState, Outcome)
    requires KernelOk(env, s.mal) && s.mal.current in s.mal.pds
  {
    var state := s.mal.pds[s.mal.current].intState;
    SourceVidt(env, s.(mem := AfterReset(s.mem, ctx, env.stkalign)), s.mal.root, s.mal.current, irq, SaveIndex(state),
        state, state, ctx)
  }

  /** One level of the climb was refused on the callee's side, so that the next level is tried. */
  ghost predicate Refused(env: Env, s: KState, p: Paddr, irq: Word, saveIndex: nat, flagsOnYield: Word,
      flagsOnWake: Word, ctx: Paddr)
    requires KernelOk(env, s.mal) && p in s.mal.pds
  {
    var o := ParentPart(env, s, p, irq, saveIndex, flagsOnYield, flagsOnWake, ctx).1;
    p != s.mal.root && o.Failed? && !CallerSide(o.code)
  }

  /** How the last level of a climb ends: root has no parent to go to; or the attempt switched to the
      parent; or it failed on the caller's side and was retried without saving, which panics only if the
      faulting partition's VIDT was refused and the parent's VIDT or context is. */
  ghost predicate LastLevel(env: Env, s: KState, p: Paddr, irq: Word, saveIndex: nat, flagsOnYield: Word,
      flagsOnWake: Word, ctx: Paddr, stray: Word, r: (KState, Final))
    requires KernelOk(env, s.mal) && p in s.mal.pds
  {
    if p == s.mal.root then r == (s, Panic)
    else
      var a := ParentPart(env, s, p, irq, saveIndex, flagsOnYield, flagsOnWake, ctx);
      && (a.1.Failed? ==> CallerSide(a.1.code) && a.0.mal == s.mal)
      && (a.1.Switched? ==> r == Finish(a))
      && (a.1.Failed? ==> r == Finish(TargetVidt(env, a.0, s.mal.pds[p].parent, p, NULL, irq, flagsOnYield,
          flagsOnWake, None, stray)))
      && (r.1.Panic? ==> a.1.Failed? && a.1.code.CallerVidt?)
      && (r.1.Running? ==>
        && KernelOk(env, r.0.mal) && r.0.mal.current == s.mal.pds[p].parent
        && RunsInSync(r.0) && MaskOk(r.0) && SameButIntStates(s.mal, r.0.mal))
      && (r.1.Panic? ==> r.0.mal == s.mal && r.0.masked == s.masked)
  }

  lemma LastLevelHolds(env: Env, s: KState, p: Paddr, irq: Word, saveIndex: nat, flagsOnYield: Word, flagsOnWake: Word,
      ctx: Paddr, stray: Word, depth: map<Paddr, nat>)
    requires KernelOk(env, s.mal) && p in s.mal.pds && IsTree(s.mal, depth)
    requires var a := ParentPart(env, s, p, irq, saveIndex, flagsOnYield, flagsOnWake, ctx).1;
             p == s.mal.root || a.Switched? || CallerSide(a.code)
    ensures LastLevel(env, s, p, irq, saveIndex, flagsOnYield, flagsOnWake, ctx, stray,
              Propagate(env, s, p, irq, saveIndex, flagsOnYield, flagsOnWake, ctx, stray, depth))
  {
    ParentPartSound(env, s, p, irq, saveIndex, flagsOnYield, flagsOnWake, ctx);
    if p != s.mal.root {
      var a := ParentPart(env, s, p, irq, saveIndex, flagsOnYield, flagsOnWake, ctx);
      if a.1.Failed? {
        TargetVidtSound(env, a.0, s.mal.pds[p].parent, p, NULL, irq, flagsOnYield, flagsOnWake, None, stray);
        if a.1.code.CallerContext? {
          FallbackTotal(env, s, s.mal.pds[p].parent, p, irq, saveIndex, flagsOnYield, flagsOnWake, ctx, flagsOnYield,
              flagsOnWake, stray);
        }
      }
    }
  }

  /** One level of a climb, by conditions on the state before it. The fault stops at the parent exactly when
      the parent is ready and the partition's save address is not misaligned. Otherwise a partition whose own
      VIDT is refused stops the kernel, and any other one makes the climb go on. */
  lemma PropagationLevel(env: Env, s: KState, p: Paddr, irq: Word, saveIndex: nat, flagsOnYield: Word,
      flagsOnWake: Word, ctx: Paddr, stray: Word, depth: map<Paddr, nat>)
    requires KernelOk(env, s.mal) && p in s.mal.pds && p != s.mal.root && IsTree(s.mal, depth)
    ensures var parent := s.mal.pds[p].parent;
            var r := Propagate(env, s, p, irq, saveIndex, flagsOnYield, flagsOnWake, ctx, stray, depth);
            var next := ParentPart(env, s, p, irq, saveIndex, flagsOnYield, flagsOnWake, ctx).0;
            if Ready(env, s, parent, irq) && !MisalignedSave(env, s, p, saveIndex) then
              r.1.Running? && r.0.mal.current == parent
            else if VidtCheck(env, s.mal, p).Some? then r.1.Panic?
            else (next.mal == s.mal
              && r == Propagate(env, next, parent, irq, DOUBLE_FAULT_LEVEL, flagsOnYield, flagsOnWake, ctx, stray,
                  depth))
  {
    var parent := s.mal.pds[p].parent;
    var a := ParentPart(env, s, p, irq, saveIndex, flagsOnYield, flagsOnWake, ctx);
    AttemptCases(env, s, parent, p, irq, saveIndex, flagsOnYield, flagsOnWake, ctx);
    if a.1.Switched? || CallerSide(a.1.code) {
      LastLevelHolds(env, s, p, irq, saveIndex, flagsOnYield, flagsOnWake, ctx, stray, depth);
      NoSaveExact(env, s, parent, p, irq, flagsOnYield, flagsOnWake, stray);
    } else {
      PropagateStep(env, s, p, irq, saveIndex, flagsOnYield, flagsOnWake, ctx, stray, depth);
    }
  }

  /** `r` is what comes of a propagation that is refused at `n` levels and ends at the next. */
  ghost predicate EndsAfter(env: Env, s: KState, p: Paddr, irq: Word, saveIndex: nat, flagsOnYield: Word,
      flagsOnWake: Word, ctx: Paddr, stray: Word, n: nat, r: (KState, Final))
    decreases n
  {
    && KernelOk(env, s.mal) && p in s.mal.pds
    && if n == 0 then LastLevel(env, s, p, irq, saveIndex, flagsOnYield, flagsOnWake, ctx, stray, r)
       else
         && Refused(env, s, p, irq, saveIndex, flagsOnYield, flagsOnWake, ctx)
         && var next := ParentPart(env, s, p, irq, saveIndex, flagsOnYield, flagsOnWake, ctx).0;
            next.mal == s.mal
            && EndsAfter(env, next, s.mal.pds[p].parent, irq, DOUBLE_FAULT_LEVEL, flagsOnYield, flagsOnWake, ctx,
                stray, n - 1, r)
  }

  /** The ancestor `n` levels up. */
  function Up(m: MalState, p: Paddr, n: nat): Paddr
    decreases n
  {
    if n == 0 || p !in m.pds then p else Up(m, m.pds[p].parent, n - 1)
  }

  /** The partition `target` runs, with its table loaded and interrupts masked as they should be; or the kernel
      panics and no partition's state has changed. */
  ghost predicate EndsAt(env: Env, m: MalState, target: Paddr, r: (KState, Final)) {
    match r.1
    case Running(_, _) =>
      && KernelOk(env, r.0.mal) && r.0.mal.current == target
      && RunsInSync(r.0) && MaskOk(r.0) && SameButIntStates(m, r.0.mal)
    case Panic => r.0.mal == m
  }

  lemma UpStep(m: MalState, p: Paddr, n: nat)
    requires p in m.pds
    ensures Up(m, p, n + 1) == Up(m, m.pds[p].parent, n)
  {
  }

  lemma LastLevelTarget(env: Env, s: KState, p: Paddr, irq: Word, saveIndex: nat,
      flagsOnYield: Word, flagsOnWake: Word, ctx: Paddr, stray: Word, r: (KState, Final))
    requires KernelOk(env, s.mal) && p in s.mal.pds
    requires LastLevel(env, s, p, irq, saveIndex, flagsOnYield, flagsOnWake, ctx, stray, r)
    ensures EndsAt(env, s.mal, s.mal.pds[p].parent, r)
  {
  }

  lemma PropagateStep(env: Env, s: KState, p: Paddr, irq: Word, saveIndex: nat, flagsOnYield: Word, flagsOnWake: Word,
      ctx: Paddr, stray: Word, depth: map<Paddr, nat>)
    requires KernelOk(env, s.mal) && p in s.mal.pds && p != s.mal.root && IsTree(s.mal, depth)
    requires Refused(env, s, p, irq, saveIndex, flagsOnYield, flagsOnWake, ctx)
    ensures var r := ParentPart(env, s, p, irq, saveIndex, flagsOnYield, flagsOnWake, ctx).0;
            && r.mal == s.mal
            && Propagate(env, s, p, irq, saveIndex, flagsOnYield, flagsOnWake, ctx, stray, depth)
               == Propagate(env, r, s.mal.pds[p].parent, irq, DOUBLE_FAULT_LEVEL, flagsOnYield, flagsOnWake, ctx,
                   stray, depth)
  {
    ParentPartSound(env, s, p, irq, saveIndex, flagsOnYield, flagsOnWake, ctx);
  }

  /** How many levels are refused on the callee's side. */
  ghost function Levels(env: Env, s: KState, p: Paddr, irq: Word, saveIndex: nat, flagsOnYield: Word, flagsOnWake: Word,
      ctx: Paddr, depth: map<Paddr, nat>): (n: nat)
    requires KernelOk(env, s.mal) && p in s.mal.pds && IsTree(s.mal, depth)
    ensures n <= depth[p]
    decreases depth[p]
  {
    ParentPartSound(env, s, p, irq, saveIndex, flagsOnYield, flagsOnWake, ctx);
    if !Refused(env, s, p, irq, saveIndex, flagsOnYield, flagsOnWake, ctx) then 0
    else
      var next := ParentPart(env, s, p, irq, saveIndex, flagsOnYield, flagsOnWake, ctx).0;
      1 + Levels(env, next, s.mal.pds[p].parent, irq, DOUBLE_FAULT_LEVEL, flagsOnYield, flagsOnWake, ctx, depth)
  }

  /** Fault propagation: on any finite tree the climb ends, after at most as many levels as the partition is
      deep, at the first level that is not refused on the callee's side, and ends there as `LastLevel` says. */
  lemma {:induction false} PropagationEnds(env: Env, s: KState, p: Paddr, irq: Word, saveIndex: nat,
      flagsOnYield: Word, flagsOnWake: Word, ctx: Paddr, stray: Word, depth: map<Paddr, nat>)
    requires KernelOk(env, s.mal) && p in s.mal.pds && IsTree(s.mal, depth)
    ensures var n := Levels(env, s, p, irq, saveIndex, flagsOnYield, flagsOnWake, ctx, depth);
            n <= depth[p] && EndsAfter(env, s, p, irq, saveIndex, flagsOnYield, flagsOnWake, ctx, stray, n,
              Propagate(env, s, p, irq, saveIndex, flagsOnYield, flagsOnWake, ctx, stray, depth))
    decreases depth[p]
  {
    if Refused(env, s, p, irq, saveIndex, flagsOnYield, flagsOnWake, ctx) {
      var next := ParentPart(env, s, p, irq, saveIndex, flagsOnYield, flagsOnWake, ctx).0;
      PropagateStep(env, s, p, irq, saveIndex, flagsOnYield, flagsOnWake, ctx, stray, depth);
      PropagationEnds(env, next, s.mal.pds[p].parent, irq, DOUBLE_FAULT_LEVEL, flagsOnYield, flagsOnWake, ctx, stray,
          depth);
    } else {
      LastLevelHolds(env, s, p, irq, saveIndex, flagsOnYield, flagsOnWake, ctx, stray, depth);
    }
  }

  /** Where it ends: the partition one level above the refused ones runs, or the kernel panics with all
      partitions as they were. */
  lemma {:induction false} PropagationTarget(env: Env, s: KState, p: Paddr, irq: Word, saveIndex: nat,
      flagsOnYield: Word, flagsOnWake: Word, ctx: Paddr, stray: Word, depth: map<Paddr, nat>, n: nat)
    requires KernelOk(env, s.mal) && p in s.mal.pds && IsTree(s.mal, depth)
    requires n == Levels(env, s, p, irq, saveIndex, flagsOnYield, flagsOnWake, ctx, depth)
    ensures EndsAt(env, s.mal, Up(s.mal, p, n + 1),
              Propagate(env, s, p, irq, saveIndex, flagsOnYield, flagsOnWake, ctx, stray, depth))
    decreases depth[p]
  {
    UpStep(s.mal, p, n);
    if Refused(env, s, p, irq, saveIndex, flagsOnYield, flagsOnWake, ctx) {
      var next := ParentPart(env, s, p, irq, saveIndex, flagsOnYield, flagsOnWake, ctx).0;
      PropagateStep(env, s, p, irq, saveIndex, flagsOnYield, flagsOnWake, ctx, stray, depth);
      PropagationTarget(env, next, s.mal.pds[p].parent, irq, DOUBLE_FAULT_LEVEL, flagsOnYield, flagsOnWake, ctx, stray,
        depth, n - 1);
    } else {
      LastLevelHolds(env, s, p, irq, saveIndex, flagsOnYield, flagsOnWake, ctx, stray, depth);
      LastLevelTarget(env, s, p, irq, saveIndex, flagsOnYield, flagsOnWake, ctx, stray,
        Propagate(env, s, p, irq, saveIndex, flagsOnYield, flagsOnWake, ctx, stray, depth));
    }
  }
}
