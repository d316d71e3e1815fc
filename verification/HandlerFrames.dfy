/** Where interrupts and faults store the frame of the context they resume, by the state before them. */
module HandlerFrames {
  import opened Bits
  import opened Mal
  import opened Memory
  import opened ExceptionFrames
  import opened Wrappers
  import opened Yield
  import opened YieldProperties
  import opened Faults
  import opened KernelMemory
  import opened KernelRuns

  /** The first attempt saves the caller's context: there is a save address, and it passes the checks. */
  predicate Saves(env: Env, s: KState, callee: Paddr, caller: Paddr, irq: Word, saveIndex: nat, ctx: Paddr)
    requires KernelOk(env, s.mal) && callee in s.mal.pds && caller in s.mal.pds
  {
    && VidtCheck(env, s.mal, caller).None? && VidtEntry(s, caller, saveIndex) != NULL
    && CallerCheck(env, Announce(s, callee, irq), caller, VidtEntry(s, caller, saveIndex), ctx).None?
  }

  /** The memory in which the callee's context is found. */
  function MemoryOf(env: Env, s: KState, callee: Paddr, caller: Paddr, irq: Word, saveIndex: nat, flagsOnWake: Word,
      ctx: Paddr): Words
    requires KernelOk(env, s.mal) && callee in s.mal.pds && caller in s.mal.pds
  {
    var m := Announce(s, callee, irq).mem;
    if Saves(env, s, callee, caller, irq, saveIndex, ctx) then
      AfterSave(m, ctx, VidtEntry(s, caller, saveIndex), flagsOnWake)
    else m
  }

  function TargetOf(s: KState, callee: Paddr, irq: Word): Word
    requires callee in s.mal.pds
  {
    VidtEntry(Announce(s, callee, irq), callee, irq)
  }

  /** The frame is where the stack pointer in that context says. */
  function FrameOf(m: Words, target: Word, stkalign: bool): Word {
    PushedFrame(SpOf(m, target), KindAt(m, target), stkalign)
  }

  /** What is resumed comes from memory `m`. */
  ghost predicate LoadedFrom(l: Loaded, m: Words, target: Word, stkalign: bool) {
    l.kind == KindAt(m, target) && l.frame == FrameOf(m, target, stkalign)
  }

  lemma LoadedIs(m: Words, target: Word, stkalign: bool)
    ensures LoadedFrom(LoadState(m, LoadMemory(m, target, stkalign), target, stkalign), m, target, stkalign)
  {
    LoadFrame(SpOf(m, target), KindAt(m, target), stkalign);
  }

  /** A first attempt that switches. */
  lemma AttemptLoads(env: Env, s: KState, callee: Paddr, caller: Paddr, irq: Word, saveIndex: nat,
      flagsOnYield: Word, flagsOnWake: Word, ctx: Paddr, r: (KState, Outcome))
    requires KernelOk(env, s.mal) && callee in s.mal.pds && caller in s.mal.pds
    requires r == SourceVidt(env, s, callee, caller, irq, saveIndex, flagsOnYield, flagsOnWake, ctx) && r.1.Switched?
    ensures LoadedFrom(r.1.l, MemoryOf(env, s, callee, caller, irq, saveIndex, flagsOnWake, ctx),
              TargetOf(s, callee, irq), env.stkalign)
  {
    var save := VidtEntry(s, caller, saveIndex);
    var a := Announce(s, callee, irq);
    assert VidtCheck(env, s.mal, caller).None?;
    SwitchPath(env, s, callee, caller, save, irq, flagsOnYield, flagsOnWake, ctx);
    MemoryIs(env, s, callee, caller, irq, saveIndex, flagsOnWake, ctx, Read32(a.mem, ctx) == 0);
    LoadedIs(BeforeLoad(env, s, callee, save, irq, flagsOnWake, ctx), TargetOf(s, callee, irq), env.stkalign);
  }

  lemma MemoryIs(env: Env, s: KState, callee: Paddr, caller: Paddr, irq: Word, saveIndex: nat, flagsOnWake: Word,
      ctx: Paddr, usedFpu: bool)
    requires KernelOk(env, s.mal) && callee in s.mal.pds && caller in s.mal.pds && VidtCheck(env, s.mal, caller).None?
    requires var save := VidtEntry(s, caller, saveIndex);
             save != NULL ==>
               CallerCheck(env, Announce(s, callee, irq).(usedFpu := usedFpu), caller, save, ctx).None?
    ensures MemoryOf(env, s, callee, caller, irq, saveIndex, flagsOnWake, ctx)
         == BeforeLoad(env, s, callee, VidtEntry(s, caller, saveIndex), irq, flagsOnWake, ctx)
  {
    SameCallerCheck(env, Announce(s, callee, irq), caller, VidtEntry(s, caller, saveIndex), ctx, usedFpu);
  }

  /** The floating-point flag has no part in the check. */
  lemma SameCallerCheck(env: Env, s: KState, caller: Paddr, save: Word, ctx: Paddr, usedFpu: bool)
    requires KernelOk(env, s.mal) && caller in s.mal.pds
    ensures CallerCheck(env, s.(usedFpu := usedFpu), caller, save, ctx) == CallerCheck(env, s, caller, save, ctx)
  {
  }

  /** One that fails on the caller's side does not save, and leaves the memory as it was, or announced. */
  lemma FailedAttempt(env: Env, s: KState, callee: Paddr, caller: Paddr, irq: Word, saveIndex: nat,
      flagsOnYield: Word, flagsOnWake: Word, ctx: Paddr, r: (KState, Outcome))
    requires KernelOk(env, s.mal) && callee in s.mal.pds && caller in s.mal.pds
    requires r == SourceVidt(env, s, callee, caller, irq, saveIndex, flagsOnYield, flagsOnWake, ctx)
    requires r.1.Failed? && CallerSide(r.1.code)
    ensures !Saves(env, s, callee, caller, irq, saveIndex, ctx)
    ensures r.0.mal == s.mal && Announce(r.0, callee, irq).mem == Announce(s, callee, irq).mem
  {
    SourceVidtSound(env, s, callee, caller, irq, saveIndex, flagsOnYield, flagsOnWake, ctx);
    FailedSave(env, s, callee, caller, irq, saveIndex, flagsOnYield, flagsOnWake, ctx, r);
    FailedMemory(env, s, callee, caller, irq, saveIndex, flagsOnYield, flagsOnWake, ctx, r);
  }

  lemma FailedSave(env: Env, s: KState, callee: Paddr, caller: Paddr, irq: Word, saveIndex: nat,
      flagsOnYield: Word, flagsOnWake: Word, ctx: Paddr, r: (KState, Outcome))
    requires KernelOk(env, s.mal) && callee in s.mal.pds && caller in s.mal.pds
    requires r == SourceVidt(env, s, callee, caller, irq, saveIndex, flagsOnYield, flagsOnWake, ctx)
    requires r.1.Failed? && CallerSide(r.1.code)
    ensures !Saves(env, s, callee, caller, irq, saveIndex, ctx)
  {
    if VidtCheck(env, s.mal, caller).None? {
      RefusedTarget(env, s, callee, caller, VidtEntry(s, caller, saveIndex), irq, flagsOnYield, flagsOnWake, ctx);
    }
  }

  lemma FailedMemory(env: Env, s: KState, callee: Paddr, caller: Paddr, irq: Word, saveIndex: nat,
      flagsOnYield: Word, flagsOnWake: Word, ctx: Paddr, r: (KState, Outcome))
    requires KernelOk(env, s.mal) && callee in s.mal.pds && caller in s.mal.pds
    requires r == SourceVidt(env, s, callee, caller, irq, saveIndex, flagsOnYield, flagsOnWake, ctx)
    requires r.1.Failed? && CallerSide(r.1.code) && r.0.mal == s.mal
    ensures Announce(r.0, callee, irq).mem == Announce(s, callee, irq).mem
  {
    SourceVidtSound(env, s, callee, caller, irq, saveIndex, flagsOnYield, flagsOnWake, ctx);
    if r.0 != s { AnnounceTwice(env, s, r.0, callee, irq); }
  }

  lemma RefusedTarget(env: Env, s: KState, callee: Paddr, caller: Paddr, save: Word, irq: Word,
      flagsOnYield: Word, flagsOnWake: Word, ctx: Paddr)
    requires KernelOk(env, s.mal) && callee in s.mal.pds && caller in s.mal.pds
    requires var o := TargetVidt(env, s, callee, caller, save, irq, flagsOnYield, flagsOnWake, Some(ctx), 0).1;
             o.Failed? && CallerSide(o.code)
    ensures CallerCheck(env, Announce(s, callee, irq), caller, save, ctx).Some?
  {
    RefusedContext(env, Announce(s, callee, irq), callee, caller, save, irq, flagsOnYield, flagsOnWake, ctx);
  }

  lemma RefusedContext(env: Env, s: KState, callee: Paddr, caller: Paddr, save: Word, irq: Word,
      flagsOnYield: Word, flagsOnWake: Word, ctx: Paddr)
    requires KernelOk(env, s.mal) && callee in s.mal.pds && caller in s.mal.pds
    requires var o := TargetContext(env, s, callee, caller, save, irq, flagsOnYield, flagsOnWake, Some(ctx), 0).1;
             o.Failed? && CallerSide(o.code)
    ensures CallerCheck(env, s, caller, save, ctx).Some?
  {
    SameCallerCheck(env, s, caller, save, ctx, Read32(s.mem, ctx) == 0);
  }

  /** A retry that switches. */
  lemma RetryLoads(env: Env, s: KState, callee: Paddr, caller: Paddr, irq: Word, flagsOnYield: Word,
      flagsOnWake: Word, stray: Word)
    requires KernelOk(env, s.mal) && callee in s.mal.pds && caller in s.mal.pds
    requires TargetVidt(env, s, callee, caller, NULL, irq, flagsOnYield, flagsOnWake, None, stray).1.Switched?
    ensures LoadedFrom(TargetVidt(env, s, callee, caller, NULL, irq, flagsOnYield, flagsOnWake, None, stray).1.l,
              Announce(s, callee, irq).mem, TargetOf(s, callee, irq), env.stkalign)
  {
    LoadedIs(Announce(s, callee, irq).mem, TargetOf(s, callee, irq), env.stkalign);
  }

  /** An attempt and its retry, which may pass other flags. */
  lemma EitherLoads(env: Env, s: KState, callee: Paddr, caller: Paddr, irq: Word, saveIndex: nat, flagsOnYield: Word,
      flagsOnWake: Word, ctx: Paddr, stray: Word, retryOnYield: Word, retryOnWake: Word, r: (KState, Outcome),
      end: (KState, Final))
    requires KernelOk(env, s.mal) && callee in s.mal.pds && caller in s.mal.pds
    requires r == SourceVidt(env, s, callee, caller, irq, saveIndex, flagsOnYield, flagsOnWake, ctx)
    requires r.1.Failed? ==> r.0.mal == s.mal
    requires end
          == if r.1.Failed? && CallerSide(r.1.code) then
               Finish(TargetVidt(env, r.0, callee, caller, NULL, irq, retryOnYield, retryOnWake, None, stray))
             else Finish(r)
    requires end.1.Running?
    ensures LoadedFrom(end.1.l, MemoryOf(env, s, callee, caller, irq, saveIndex, flagsOnWake, ctx),
              TargetOf(s, callee, irq), env.stkalign)
  {
    if r.1.Switched? {
      AttemptLoads(env, s, callee, caller, irq, saveIndex, flagsOnYield, flagsOnWake, ctx, r);
    } else {
      FailedAttempt(env, s, callee, caller, irq, saveIndex, flagsOnYield, flagsOnWake, ctx, r);
      RetryLoads(env, r.0, callee, caller, irq, retryOnYield, retryOnWake, stray);
    }
  }

  /** An interrupt that does not panic. */
  lemma InterruptFrame(env: Env, s: KState, irq: Word, ctx: Paddr, stray: Word)
    requires KernelOk(env, s.mal) && s.mal.current in s.mal.pds && Interrupt(env, s, irq, ctx, stray).1.Running?
    ensures var s1, state := Entered(env, s, ctx), s.mal.pds[s.mal.current].intState;
            LoadedFrom(Interrupt(env, s, irq, ctx, stray).1.l,
              MemoryOf(env, s1, s.mal.root, s.mal.current, irq, SaveIndex(state), state, ctx),
              TargetOf(s1, s.mal.root, irq), env.stkalign)
  {
    var s1, state := Entered(env, s, ctx), s.mal.pds[s.mal.current].intState;
    var r := Attempt(env, s, irq, ctx);
    InterruptIs(env, s, irq, ctx, stray, r);
    EitherLoads(env, s1, s.mal.root, s.mal.current, irq, SaveIndex(state), state, state, ctx, stray, 0, 0, r,
      Interrupt(env, s, irq, ctx, stray));
  }

  /** An interrupt strays by a condition on the state before it: the stack pointer word of the interrupted context meets
      the kernel, or root takes the interrupt and the frame of its context does. */
  lemma InterruptStrays(env: Env, kernel: set<Word>, s: KState, depth: map<Paddr, nat>, irq: Word, ctx: Paddr,
      stray: Word)
    requires Inv(env, s, depth)
    ensures var s1, state := Entered(env, s, ctx), s.mal.pds[s.mal.current].intState;
            var m := MemoryOf(env, s1, s.mal.root, s.mal.current, irq, SaveIndex(state), state, ctx);
            var target := TargetOf(s1, s.mal.root, irq);
            Strays(env, kernel, s, depth, InterruptEvent(irq, ctx, stray)) <==>
            || Meets(kernel, SpWord(s, ctx))
            || (Ready(env, s1, s.mal.root, irq) && !MisalignedSave(env, s1, s.mal.current, SaveIndex(state))
                && !AreaMisses(kernel, FrameOf(m, target, env.stkalign), KindAt(m, target).HwLength()))
  {
    InterruptReachesRoot(env, s, irq, ctx, stray);
    if Interrupt(env, s, irq, ctx, stray).1.Running? { InterruptFrame(env, s, irq, ctx, stray); }
  }

  /** One level of a climb that ends there, with the frame by the state before that level. */
  lemma LevelFrame(env: Env, s: KState, p: Paddr, irq: Word, saveIndex: nat, flagsOnYield: Word,
      flagsOnWake: Word, ctx: Paddr, stray: Word, depth: map<Paddr, nat>)
    requires KernelOk(env, s.mal) && p in s.mal.pds && p != s.mal.root && IsTree(s.mal, depth)
    requires Ready(env, s, s.mal.pds[p].parent, irq) && !MisalignedSave(env, s, p, saveIndex)
    ensures var r := Propagate(env, s, p, irq, saveIndex, flagsOnYield, flagsOnWake, ctx, stray, depth);
            && r.1.Running?
            && LoadedFrom(r.1.l, MemoryOf(env, s, s.mal.pds[p].parent, p, irq, saveIndex, flagsOnWake, ctx),
                TargetOf(s, s.mal.pds[p].parent, irq), env.stkalign)
  {
    var parent, a := s.mal.pds[p].parent, ParentPart(env, s, p, irq, saveIndex, flagsOnYield, flagsOnWake, ctx);
    PropagationLevel(env, s, p, irq, saveIndex, flagsOnYield, flagsOnWake, ctx, stray, depth);
    LevelAttempt(env, s, p, irq, saveIndex, flagsOnYield, flagsOnWake, ctx);
    PropagateIs(env, s, p, irq, saveIndex, flagsOnYield, flagsOnWake, ctx, stray, depth, a);
    EitherLoads(env, s, parent, p, irq, saveIndex, flagsOnYield, flagsOnWake, ctx, stray, flagsOnYield, flagsOnWake, a,
      Propagate(env, s, p, irq, saveIndex, flagsOnYield, flagsOnWake, ctx, stray, depth));
  }

  lemma LevelAttempt(env: Env, s: KState, p: Paddr, irq: Word, saveIndex: nat, flagsOnYield: Word,
      flagsOnWake: Word, ctx: Paddr)
    requires KernelOk(env, s.mal) && p in s.mal.pds && p != s.mal.root
    requires Ready(env, s, s.mal.pds[p].parent, irq) && !MisalignedSave(env, s, p, saveIndex)
    ensures var a := ParentPart(env, s, p, irq, saveIndex, flagsOnYield, flagsOnWake, ctx);
            && a == SourceVidt(env, s, s.mal.pds[p].parent, p, irq, saveIndex, flagsOnYield, flagsOnWake, ctx)
            && (a.1.Failed? ==> CallerSide(a.1.code))
  {
    AttemptCases(env, s, s.mal.pds[p].parent, p, irq, saveIndex, flagsOnYield, flagsOnWake, ctx);
  }

  /** So the frame misses the kernel by the same condition; and a level at which the climb goes on stores none. */
  lemma LevelMisses(env: Env, kernel: set<Word>, s: KState, p: Paddr, irq: Word, saveIndex: nat, flagsOnYield: Word,
      flagsOnWake: Word, ctx: Paddr, stray: Word, depth: map<Paddr, nat>)
    requires KernelOk(env, s.mal) && p in s.mal.pds && p != s.mal.root && IsTree(s.mal, depth)
    ensures var parent := s.mal.pds[p].parent;
            var r := Propagate(env, s, p, irq, saveIndex, flagsOnYield, flagsOnWake, ctx, stray, depth);
            var next := ParentPart(env, s, p, irq, saveIndex, flagsOnYield, flagsOnWake, ctx).0;
            var m, target := MemoryOf(env, s, parent, p, irq, saveIndex, flagsOnWake, ctx), TargetOf(s, parent, irq);
            if Ready(env, s, parent, irq) && !MisalignedSave(env, s, p, saveIndex) then
              r.1.Running? && (FrameMisses(kernel, r.1.l) <==>
                AreaMisses(kernel, FrameOf(m, target, env.stkalign), KindAt(m, target).HwLength()))
            else if VidtCheck(env, s.mal, p).Some? then r.1.Panic?
            else (next.mal == s.mal
              && r == Propagate(env, next, parent, irq, DOUBLE_FAULT_LEVEL, flagsOnYield, flagsOnWake, ctx, stray,
                  depth))
  {
    PropagationLevel(env, s, p, irq, saveIndex, flagsOnYield, flagsOnWake, ctx, stray, depth);
    if Ready(env, s, s.mal.pds[p].parent, irq) && !MisalignedSave(env, s, p, saveIndex) {
      LevelFrame(env, s, p, irq, saveIndex, flagsOnYield, flagsOnWake, ctx, stray, depth);
    }
  }
}
