/** What a switch does to the interrupt states of the partitions, through yields, interrupts and faults: the one that
    ran gets the state it is left with, the one that is resumed the state in its context, and no other changes. */
module SwitchStates {
  import opened Bits
  import opened MpuRegisters
  import opened Mal
  import opened Memory
  import opened ExceptionFrames
  import opened Wrappers
  import opened Yield
  import opened YieldProperties
  import opened Faults
  import opened HandlerFrames

  /** The whole layer after a switch from `m` to `callee`, by the states left and resumed. */
  ghost predicate SwitchedTo(m: MalState, t: MalState, callee: Paddr, yielded: Word, woken: Word) {
    && callee in m.pds && |m.pds[callee].lut| == 2 * REGIONS
    && t.root == m.root && t.current == callee && t.regions == LutRegions(m.pds[callee].lut)
    && t.pds.Keys == m.pds.Keys
    && forall p :: p in m.pds ==> t.pds[p] == m.pds[p].(intState := StateAfter(m, callee, yielded, woken, p))
  }

  function StateAfter(m: MalState, callee: Paddr, yielded: Word, woken: Word, p: Paddr): Word
    requires p in m.pds
  {
    if p == callee then woken else if p == m.current then yielded else m.pds[p].intState
  }

  lemma LayerStates(m: MalState, callee: Paddr, flagsOnYield: Word, pipflags: Word)
    requires callee in m.pds && WellSized(m.pds[callee])
    ensures SwitchedTo(m, SwitchLayer(m, callee, flagsOnYield, pipflags), callee, flagsOnYield, pipflags)
  {
  }

  lemma SwitchStores(env: Env, s: KState, callee: Paddr, flagsOnYield: Word, ctx: Paddr, r: (KState, Outcome))
    returns (woken: Word)
    requires KernelOk(env, s.mal) && callee in s.mal.pds && r == Switch(env, s, callee, flagsOnYield, ctx)
    ensures SwitchedTo(s.mal, r.0.mal, callee, flagsOnYield, woken) && woken == Read32(s.mem, ctx + 4)
  {
    woken := Read32(s.mem, ctx + 4);
    assert PdOk(env.entries, s.mal.pds[callee]);
    LayerStates(s.mal, callee, flagsOnYield, woken);
  }

  /** The set-interrupt-state service: the running partition's state, nobody else's, and for root the mask. */
  lemma SetStates(s: KState, v: Word, t: KState)
    requires s.mal.current in s.mal.pds && t == SetIntState(s, v)
    ensures t.mem == s.mem && t.usedFpu == s.usedFpu && t.mal.regions == s.mal.regions
    ensures t.mal.current == s.mal.current && t.mal.root == s.mal.root && t.mal.pds.Keys == s.mal.pds.Keys
    ensures forall p :: p in s.mal.pds ==>
              t.mal.pds[p]
              == s.mal.pds[p].(intState := if p == s.mal.current then v else s.mal.pds[p].intState)
    ensures t.masked == if s.mal.current == s.mal.root then v == 0 else s.masked
  {
  }

  /** The memory that an attempt resumes its callee from, by the one in which the interrupt is announced. */
  function ResumedFrom(m: Words, save: Word, flagsOnWake: Word, ctx: Option<Paddr>): Words
    requires save != NULL ==> ctx.Some?
  {
    if save == NULL then m else AfterSave(m, ctx.value, save, flagsOnWake)
  }

  lemma AttemptStores(env: Env, s: KState, callee: Paddr, caller: Paddr, save: Word, irq: Word,
      flagsOnYield: Word, flagsOnWake: Word, ctx: Option<Paddr>, stray: Word, r: (KState, Outcome))
    returns (woken: Word)
    requires KernelOk(env, s.mal) && callee in s.mal.pds && caller in s.mal.pds && (save != NULL ==> ctx.Some?)
    requires r == TargetVidt(env, s, callee, caller, save, irq, flagsOnYield, flagsOnWake, ctx, stray)
    requires r.1.Switched?
    ensures SwitchedTo(s.mal, r.0.mal, callee, flagsOnYield, woken)
    ensures woken
         == Read32(ResumedFrom(Announce(s, callee, irq).mem, save, flagsOnWake, ctx), TargetOf(s, callee, irq) + 4)
  {
    woken := PassedStores(env, s, Announce(s, callee, irq), callee, caller, save, irq, flagsOnYield, flagsOnWake, ctx,
      stray, r, TargetOf(s, callee, irq));
  }

  lemma PassedStores(env: Env, s: KState, a: KState, callee: Paddr, caller: Paddr, save: Word, irq: Word,
      flagsOnYield: Word, flagsOnWake: Word, ctx: Option<Paddr>, stray: Word, r: (KState, Outcome), target: Word)
    returns (woken: Word)
    requires KernelOk(env, s.mal) && callee in s.mal.pds && caller in s.mal.pds && (save != NULL ==> ctx.Some?)
    requires r == TargetVidt(env, s, callee, caller, save, irq, flagsOnYield, flagsOnWake, ctx, stray)
    requires r.1.Switched? && a == Announce(s, callee, irq) && target == VidtEntry(a, callee, irq)
    ensures SwitchedTo(s.mal, r.0.mal, callee, flagsOnYield, woken)
    ensures woken == Read32(ResumedFrom(a.mem, save, flagsOnWake, ctx), target + 4)
  {
    VidtPasses(env, s, callee, caller, save, irq, flagsOnYield, flagsOnWake, ctx, stray, r, a);
    woken := AnnouncedStores(env, a, callee, caller, save, irq, flagsOnYield, flagsOnWake, ctx, stray, r, s.mal,
      target);
  }

  lemma AnnouncedStores(env: Env, a: KState, callee: Paddr, caller: Paddr, save: Word, irq: Word,
      flagsOnYield: Word, flagsOnWake: Word, ctx: Option<Paddr>, stray: Word, r: (KState, Outcome), before: MalState,
      target: Word) returns (woken: Word)
    requires KernelOk(env, before) && callee in before.pds && caller in before.pds && (save != NULL ==> ctx.Some?)
    requires a.mal == before && target == VidtEntry(a, callee, irq)
    requires r == TargetContext(env, a, callee, caller, save, irq, flagsOnYield, flagsOnWake, ctx, stray)
    requires r.1.Switched?
    ensures SwitchedTo(before, r.0.mal, callee, flagsOnYield, woken)
    ensures woken == Read32(ResumedFrom(a.mem, save, flagsOnWake, ctx), target + 4)
  {
    var s1 := KState(before, ResumedFrom(a.mem, save, flagsOnWake, ctx), InterruptedKind(a, ctx, stray) == 0, a.masked);
    ContextSwitches(env, a, callee, caller, save, irq, flagsOnYield, flagsOnWake, ctx, stray, r, s1);
    woken := SwitchStores(env, s1, callee, flagsOnYield, target, r);
  }

  lemma ContextSwitches(env: Env, s: KState, callee: Paddr, caller: Paddr, save: Word, irq: nat,
      flagsOnYield: Word, flagsOnWake: Word, ctx: Option<Paddr>, stray: Word, r: (KState, Outcome), s1: KState)
    requires KernelOk(env, s.mal) && callee in s.mal.pds && caller in s.mal.pds && (save != NULL ==> ctx.Some?)
    requires r == TargetContext(env, s, callee, caller, save, irq, flagsOnYield, flagsOnWake, ctx, stray)
    requires r.1.Switched?
    requires s1 == KState(s.mal, if save == NULL then s.mem else AfterSave(s.mem, ctx.value, save, flagsOnWake),
               InterruptedKind(s, ctx, stray) == 0, s.masked)
    ensures r == Switch(env, s1, callee, flagsOnYield, VidtEntry(s, callee, irq))
  {
  }

  lemma VidtPasses(env: Env, s: KState, callee: Paddr, caller: Paddr, save: Word, irq: Word,
      flagsOnYield: Word, flagsOnWake: Word, ctx: Option<Paddr>, stray: Word, r: (KState, Outcome), a: KState)
    requires KernelOk(env, s.mal) && callee in s.mal.pds && caller in s.mal.pds && (save != NULL ==> ctx.Some?)
    requires r == TargetVidt(env, s, callee, caller, save, irq, flagsOnYield, flagsOnWake, ctx, stray)
    requires r.1.Switched? && a == Announce(s, callee, irq)
    ensures a.mal == s.mal
    ensures r == TargetContext(env, a, callee, caller, save, irq, flagsOnYield, flagsOnWake, ctx, stray)
  {
  }

  /** A yield that switches leaves its caller with `flagsOnYield`, unless it resumes itself, and its callee with the
      flags word of the context that is resumed, in the second word of that context. */
  lemma YieldStates(env: Env, s: KState, q: Request, callee: Paddr, save: Word, r: (KState, Outcome))
    returns (woken: Word)
    requires Switches(env, s, q, callee, save, r) && callee in s.mal.pds
    ensures SwitchedTo(s.mal, r.0.mal, callee, q.flagsOnYield, woken)
    ensures woken == Read32(MemoryAtLoad(env, s, q, callee, save), Target(env, s, q, callee) + 4)
  {
    YieldAttempt(env, s, q, callee, save, r);
    woken := AttemptStores(env, Entered(env, s, q.ctx), callee, s.mal.current, save, q.irq, q.flagsOnYield,
      q.flagsOnWake, Some(q.ctx), 0, r);
  }

  // ----- interrupts and faults ----------------------------------------------------------------------

  /** The caller's side of an attempt passes. */
  predicate CallerPasses(env: Env, s: KState, callee: Paddr, caller: Paddr, irq: Word, saveIndex: nat, ctx: Paddr)
    requires KernelOk(env, s.mal) && callee in s.mal.pds && caller in s.mal.pds
  {
    && VidtCheck(env, s.mal, caller).None?
    && var save := VidtEntry(s, caller, saveIndex);
       save == NULL || CallerCheck(env, Announce(s, callee, irq), caller, save, ctx).None?
  }

  /** An attempt of a handler, and its retry, which passes `retryOnYield`. */
  lemma EitherStores(env: Env, s: KState, callee: Paddr, caller: Paddr, irq: Word, saveIndex: nat, flagsOnYield: Word,
      flagsOnWake: Word, ctx: Paddr, stray: Word, retryOnYield: Word, retryOnWake: Word, r: (KState, Outcome),
      end: (KState, Final)) returns (yielded: Word, woken: Word)
    requires KernelOk(env, s.mal) && callee in s.mal.pds && caller in s.mal.pds
    requires r == SourceVidt(env, s, callee, caller, irq, saveIndex, flagsOnYield, flagsOnWake, ctx)
    requires r.1.Failed? ==> r.0.mal == s.mal
    requires end
          == if r.1.Failed? && CallerSide(r.1.code) then
               Finish(TargetVidt(env, r.0, callee, caller, NULL, irq, retryOnYield, retryOnWake, None, stray))
             else Finish(r)
    requires end.1.Running?
    ensures SwitchedTo(s.mal, end.0.mal, callee, yielded, woken)
    ensures yielded == if CallerPasses(env, s, callee, caller, irq, saveIndex, ctx) then flagsOnYield else retryOnYield
    ensures woken
         == Read32(MemoryOf(env, s, callee, caller, irq, saveIndex, flagsOnWake, ctx), TargetOf(s, callee, irq) + 4)
  {
    if r.1.Switched? {
      yielded := flagsOnYield;
      woken := FirstStores(env, s, callee, caller, irq, saveIndex, flagsOnYield, flagsOnWake, ctx, r);
    } else {
      yielded := retryOnYield;
      FailedAttempt(env, s, callee, caller, irq, saveIndex, flagsOnYield, flagsOnWake, ctx, r);
      NotPassed(env, s, callee, caller, irq, saveIndex, flagsOnYield, flagsOnWake, ctx, r);
      SameTarget(s, r.0, callee, irq);
      woken := RetryStores(env, r.0, callee, caller, NULL, irq, retryOnYield, retryOnWake, None, stray,
        TargetVidt(env, r.0, callee, caller, NULL, irq, retryOnYield, retryOnWake, None, stray));
    }
  }

  lemma RetryStores(env: Env, s: KState, callee: Paddr, caller: Paddr, save: Word, irq: Word, retryOnYield: Word,
      retryOnWake: Word, ctx: Option<Paddr>, stray: Word, r: (KState, Outcome)) returns (woken: Word)
    requires KernelOk(env, s.mal) && callee in s.mal.pds && caller in s.mal.pds && save == NULL
    requires r == TargetVidt(env, s, callee, caller, save, irq, retryOnYield, retryOnWake, ctx, stray)
    requires r.1.Switched?
    ensures SwitchedTo(s.mal, r.0.mal, callee, retryOnYield, woken)
    ensures woken == Read32(Announce(s, callee, irq).mem, TargetOf(s, callee, irq) + 4)
  {
    woken := AttemptStores(env, s, callee, caller, save, irq, retryOnYield, retryOnWake, ctx, stray, r);
  }

  lemma SameTarget(s: KState, s1: KState, callee: Paddr, irq: Word)
    requires callee in s.mal.pds && s1.mal == s.mal
    requires Announce(s1, callee, irq).mem == Announce(s, callee, irq).mem
    ensures TargetOf(s1, callee, irq) == TargetOf(s, callee, irq)
  {
  }

  lemma FirstStores(env: Env, s: KState, callee: Paddr, caller: Paddr, irq: Word, saveIndex: nat,
      flagsOnYield: Word, flagsOnWake: Word, ctx: Paddr, r: (KState, Outcome)) returns (woken: Word)
    requires KernelOk(env, s.mal) && callee in s.mal.pds && caller in s.mal.pds && r.1.Switched?
    requires r == SourceVidt(env, s, callee, caller, irq, saveIndex, flagsOnYield, flagsOnWake, ctx)
    ensures CallerPasses(env, s, callee, caller, irq, saveIndex, ctx)
    ensures SwitchedTo(s.mal, r.0.mal, callee, flagsOnYield, woken)
    ensures woken
         == Read32(MemoryOf(env, s, callee, caller, irq, saveIndex, flagsOnWake, ctx), TargetOf(s, callee, irq) + 4)
  {
    var save, a := VidtEntry(s, caller, saveIndex), Announce(s, callee, irq);
    SwitchPath(env, s, callee, caller, save, irq, flagsOnYield, flagsOnWake, ctx);
    SameCallerCheck(env, a, caller, save, ctx, Read32(a.mem, ctx) == 0);
    MemoryIs(env, s, callee, caller, irq, saveIndex, flagsOnWake, ctx, Read32(a.mem, ctx) == 0);
    woken := AttemptStores(env, s, callee, caller, save, irq, flagsOnYield, flagsOnWake, Some(ctx), 0, r);
  }

  lemma NotPassed(env: Env, s: KState, callee: Paddr, caller: Paddr, irq: Word, saveIndex: nat,
      flagsOnYield: Word, flagsOnWake: Word, ctx: Paddr, r: (KState, Outcome))
    requires KernelOk(env, s.mal) && callee in s.mal.pds && caller in s.mal.pds
    requires r == SourceVidt(env, s, callee, caller, irq, saveIndex, flagsOnYield, flagsOnWake, ctx)
    requires r.1.Failed? && CallerSide(r.1.code)
    ensures !CallerPasses(env, s, callee, caller, irq, saveIndex, ctx)
  {
    if VidtCheck(env, s.mal, caller).None? {
      RefusedTarget(env, s, callee, caller, VidtEntry(s, caller, saveIndex), irq, flagsOnYield, flagsOnWake, ctx);
      SaveAsked(env, s, callee, caller, VidtEntry(s, caller, saveIndex), irq, flagsOnYield, flagsOnWake, ctx);
    }
  }

  /** Without a save address nothing fails on the caller's side. */
  lemma SaveAsked(env: Env, s: KState, callee: Paddr, caller: Paddr, save: Word, irq: Word,
      flagsOnYield: Word, flagsOnWake: Word, ctx: Paddr)
    requires KernelOk(env, s.mal) && callee in s.mal.pds && caller in s.mal.pds
    requires var o := TargetVidt(env, s, callee, caller, save, irq, flagsOnYield, flagsOnWake, Some(ctx), 0).1;
             o.Failed? && CallerSide(o.code)
    ensures save != NULL
  {
  }

  /** An interrupt leaves the interrupted partition in its interrupt state, or in state 0 where its context could not be
      saved. */
  lemma InterruptStates(env: Env, s: KState, irq: Word, ctx: Paddr, stray: Word, index: nat, end: (KState, Final))
    returns (yielded: Word, woken: Word)
    requires KernelOk(env, s.mal) && s.mal.current in s.mal.pds
    requires index == if s.mal.pds[s.mal.current].intState == 0 then 8 else 9
    requires end == Interrupt(env, s, irq, ctx, stray) && end.1.Running?
    ensures SwitchedTo(s.mal, end.0.mal, s.mal.root, yielded, woken)
    ensures var s1, state := Entered(env, s, ctx), s.mal.pds[s.mal.current].intState;
            && yielded == (if CallerPasses(env, s1, s.mal.root, s.mal.current, irq, index, ctx) then state else 0)
            && woken == Read32(MemoryOf(env, s1, s.mal.root, s.mal.current, irq, index, state, ctx),
                TargetOf(s1, s.mal.root, irq) + 4)
  {
    var s1, state, r := Entered(env, s, ctx), s.mal.pds[s.mal.current].intState, Attempt(env, s, irq, ctx);
    InterruptIs(env, s, irq, ctx, stray, r);
    yielded, woken := InterruptStores(env, s1, irq, index, state, ctx, stray, r, end);
  }

  lemma InterruptStores(env: Env, s: KState, irq: Word, saveIndex: nat, state: Word, ctx: Paddr, stray: Word,
      r: (KState, Outcome), end: (KState, Final)) returns (yielded: Word, woken: Word)
    requires KernelOk(env, s.mal) && s.mal.current in s.mal.pds && end.1.Running?
    requires r == SourceVidt(env, s, s.mal.root, s.mal.current, irq, saveIndex, state, state, ctx)
    requires r.1.Failed? ==> r.0.mal == s.mal
    requires end
          == if r.1.Failed? && CallerSide(r.1.code) then
               Finish(TargetVidt(env, r.0, s.mal.root, s.mal.current, NULL, irq, 0, 0, None, stray))
             else Finish(r)
    ensures SwitchedTo(s.mal, end.0.mal, s.mal.root, yielded, woken)
    ensures yielded
         == if CallerPasses(env, s, s.mal.root, s.mal.current, irq, saveIndex, ctx) then state else 0
    ensures woken == Read32(MemoryOf(env, s, s.mal.root, s.mal.current, irq, saveIndex, state, ctx),
              TargetOf(s, s.mal.root, irq) + 4)
  {
    yielded, woken := EitherStores(env, s, s.mal.root, s.mal.current, irq, saveIndex, state, state, ctx, stray, 0, 0, r,
      end);
  }

  /** One level of a climb that ends there. */
  lemma LevelStates(env: Env, s: KState, p: Paddr, irq: Word, saveIndex: nat, flagsOnYield: Word,
      flagsOnWake: Word, ctx: Paddr, stray: Word, depth: map<Paddr, nat>, parent: Paddr, end: (KState, Final))
    returns (woken: Word)
    requires KernelOk(env, s.mal) && p in s.mal.pds && p != s.mal.root && IsTree(s.mal, depth)
    requires parent == s.mal.pds[p].parent
    requires Ready(env, s, parent, irq) && !MisalignedSave(env, s, p, saveIndex)
    requires end == Propagate(env, s, p, irq, saveIndex, flagsOnYield, flagsOnWake, ctx, stray, depth)
    ensures end.1.Running? && SwitchedTo(s.mal, end.0.mal, parent, flagsOnYield, woken)
    ensures woken == Read32(MemoryOf(env, s, parent, p, irq, saveIndex, flagsOnWake, ctx),
              TargetOf(s, parent, irq) + 4)
  {
    var a := ParentPart(env, s, p, irq, saveIndex, flagsOnYield, flagsOnWake, ctx);
    LevelEnds(env, s, p, irq, saveIndex, flagsOnYield, flagsOnWake, ctx, stray, depth, parent, a, end);
    var yielded;
    yielded, woken := EitherStores(env, s, parent, p, irq, saveIndex, flagsOnYield, flagsOnWake, ctx,
      stray, flagsOnYield, flagsOnWake, a, end);
  }

  lemma LevelEnds(env: Env, s: KState, p: Paddr, irq: Word, saveIndex: nat, flagsOnYield: Word,
      flagsOnWake: Word, ctx: Paddr, stray: Word, depth: map<Paddr, nat>, parent: Paddr, a: (KState, Outcome),
      end: (KState, Final))
    requires KernelOk(env, s.mal) && p in s.mal.pds && p != s.mal.root && IsTree(s.mal, depth)
    requires parent == s.mal.pds[p].parent
    requires Ready(env, s, parent, irq) && !MisalignedSave(env, s, p, saveIndex)
    requires a == ParentPart(env, s, p, irq, saveIndex, flagsOnYield, flagsOnWake, ctx)
    requires end == Propagate(env, s, p, irq, saveIndex, flagsOnYield, flagsOnWake, ctx, stray, depth)
    ensures end.1.Running? && (a.1.Failed? ==> a.0.mal == s.mal)
    ensures a == SourceVidt(env, s, parent, p, irq, saveIndex, flagsOnYield, flagsOnWake, ctx)
    ensures end
         == if a.1.Failed? && CallerSide(a.1.code) then
              Finish(TargetVidt(env, a.0, parent, p, NULL, irq, flagsOnYield, flagsOnWake, None, stray))
            else Finish(a)
  {
    PropagationLevel(env, s, p, irq, saveIndex, flagsOnYield, flagsOnWake, ctx, stray, depth);
    LevelAttempt(env, s, p, irq, saveIndex, flagsOnYield, flagsOnWake, ctx);
    PropagateIs(env, s, p, irq, saveIndex, flagsOnYield, flagsOnWake, ctx, stray, depth, a);
  }

  /** A climb, wherever it ends. */
  lemma {:induction false} PropagateStates(env: Env, s: KState, p: Paddr, irq: Word, saveIndex: nat,
      flagsOnYield: Word, flagsOnWake: Word, ctx: Paddr, stray: Word, depth: map<Paddr, nat>) returns (woken: Word)
    requires KernelOk(env, s.mal) && p in s.mal.pds && IsTree(s.mal, depth)
    requires Propagate(env, s, p, irq, saveIndex, flagsOnYield, flagsOnWake, ctx, stray, depth).1.Running?
    ensures var t := Propagate(env, s, p, irq, saveIndex, flagsOnYield, flagsOnWake, ctx, stray, depth).0.mal;
            SwitchedTo(s.mal, t, t.current, flagsOnYield, woken)
    decreases depth[p]
  {
    var a := ParentPart(env, s, p, irq, saveIndex, flagsOnYield, flagsOnWake, ctx);
    PropagateIs(env, s, p, irq, saveIndex, flagsOnYield, flagsOnWake, ctx, stray, depth, a);
    ParentPartSound(env, s, p, irq, saveIndex, flagsOnYield, flagsOnWake, ctx);
    var parent := s.mal.pds[p].parent;
    if a.1.Failed? && !CallerSide(a.1.code) {
      woken := PropagateStates(env, a.0, parent, irq, DOUBLE_FAULT_LEVEL, flagsOnYield, flagsOnWake, ctx, stray,
        depth);
    } else {
      var yielded;
      yielded, woken := EitherStores(env, s, parent, p, irq, saveIndex, flagsOnYield, flagsOnWake, ctx, stray,
        flagsOnYield, flagsOnWake, a,
        Propagate(env, s, p, irq, saveIndex, flagsOnYield, flagsOnWake, ctx, stray, depth));
    }
  }

  /** A fault leaves every partition but the one that is resumed in its interrupt state. */
  lemma FaultStates(env: Env, s: KState, irq: Word, ctx: Paddr, stray: Word, depth: map<Paddr, nat>)
    returns (woken: Word)
    requires KernelOk(env, s.mal) && s.mal.current in s.mal.pds && IsTree(s.mal, depth)
    requires FaultEntry(env, s, irq, ctx, stray, depth).1.Running?
    ensures var t := FaultEntry(env, s, irq, ctx, stray, depth).0.mal;
            SwitchedTo(s.mal, t, t.current, s.mal.pds[s.mal.current].intState, woken)
  {
    var state := s.mal.pds[s.mal.current].intState;
    woken := PropagateStates(env, Entered(env, s, ctx), s.mal.current, irq, SaveIndex(state), state, state, ctx, stray,
      depth);
  }
}
