/** From an interruption to the way back: what a yield, an interrupt or a fault saves, in the memory it ends with, is
    the thread that was interrupted. */
module HandlerRoundTrip {
  import opened Bits
  import opened Mal
  import opened Memory
  import opened ExceptionFrames
  import opened Wrappers
  import opened Yield
  import opened YieldProperties
  import opened Faults
  import opened HandlerFrames
  import RoundTrip

  /** The hardware and the entry stub have stacked a thread with registers `regs`, above memory `m`. */
  ghost predicate StackedAt(w: Words, m: Words, regs: seq<Word>, kind: Kind, ctx: Paddr, stkalign: bool) {
    && |regs| == kind.Length() && regs[kind.SpIndex()] % 4 == 0
    && ctx == ContextAddress(regs[kind.SpIndex()], kind, stkalign)
    && w == Stacked(m, regs, kind, stkalign)
  }

  /** The context of that thread, once its stack pointer is reset. */
  ghost predicate ResetAt(w: Words, regs: seq<Word>, kind: Kind, ctx: Paddr, stkalign: bool) {
    && |regs| == kind.Length() && regs[kind.SpIndex()] % 4 == 0
    && ctx == ContextAddress(regs[kind.SpIndex()], kind, stkalign)
    && RoundTrip.ContextAt(w, ctx, kind, RoundTrip.Interrupted(regs, kind, stkalign))
  }

  lemma StackedIsReset(env: Env, s: KState, m: Words, regs: seq<Word>, kind: Kind, ctx: Paddr)
    requires StackedAt(s.mem, m, regs, kind, ctx, env.stkalign)
    ensures ResetAt(Entered(env, s, ctx).mem, regs, kind, ctx, env.stkalign)
  {
    RoundTrip.StackedThenReset(m, regs, kind, env.stkalign, ctx);
  }

  /** The frame of what is resumed meets no word of the slot. */
  ghost predicate Misses(l: Loaded, slot: Word, kind: Kind) {
    forall k: nat :: k < l.kind.HwLength() ==> !Within(At(l.frame, k), slot, kind.Words())
  }

  /** `later` has the words of the slot that `t` has. */
  predicate KeepsSlot(t: Words, later: Words, slot: Word, kind: Kind) {
    ReadWords(later, slot, kind.Words()) == ReadWords(t, slot, kind.Words())
  }

  /** The slot gives the thread its registers back, and asks for the interrupt state `flags`. */
  ghost predicate GivesBack(later: Words, slot: Word, regs: seq<Word>, kind: Kind, stkalign: bool, flags: Word)
    requires |regs| == kind.Length()
  {
    LoadAndReturn(later, slot, stkalign) == RoundTrip.Returned(regs, kind, stkalign) && Read32(later, slot + 4) == flags
  }

  lemma BeforeTheLoad(m: Words, w: Words, later: Words, target: Word, stkalign: bool, l: Loaded, slot: Word,
      kind: Kind)
    requires w == LoadMemory(m, target, stkalign) && l == LoadState(m, w, target, stkalign)
    requires Misses(l, slot, kind) && KeepsSlot(w, later, slot, kind)
    ensures KeepsSlot(m, later, slot, kind)
  {
    LoadWrites(m, target, stkalign);
    forall i | 0 <= i < kind.Words() ensures Read32(w, At(slot, i)) == Read32(m, At(slot, i)) {
      SlotMissed(l, slot, kind, i);
    }
  }

  lemma SlotMissed(l: Loaded, slot: Word, kind: Kind, i: nat)
    requires Misses(l, slot, kind) && i < kind.Words()
    ensures !Within(At(slot, i), l.frame, l.kind.HwLength())
  {
  }

  /** An attempt that saves the thread and switches. */
  lemma AttemptReturns(env: Env, s: KState, regs: seq<Word>, kind: Kind, callee: Paddr, caller: Paddr, slot: Word,
      irq: Word, flagsOnYield: Word, flagsOnWake: Word, ctx: Paddr, r: (KState, Outcome), later: Words)
    requires KernelOk(env, s.mal) && callee in s.mal.pds && caller in s.mal.pds && slot != NULL
    requires r == TargetVidt(env, s, callee, caller, slot, irq, flagsOnYield, flagsOnWake, Some(ctx), 0)
    requires r.1.Switched?
    requires ResetAt(s.mem, regs, kind, ctx, env.stkalign)
    requires RoundTrip.SafeSlot(ctx, slot, kind) && NotInContext(s.mal.pds[callee].vidt, ctx, kind)
    requires Misses(r.1.l, slot, kind) && KeepsSlot(r.0.mem, later, slot, kind)
    ensures GivesBack(later, slot, regs, kind, env.stkalign, flagsOnWake)
  {
    var m := BeforeLoad(env, s, callee, slot, irq, flagsOnWake, ctx);
    SwitchPath(env, s, callee, caller, slot, irq, flagsOnYield, flagsOnWake, ctx);
    BeforeTheLoad(m, r.0.mem, later, TargetOf(s, callee, irq), env.stkalign, r.1.l, slot, kind);
    AnnounceApart(s, callee, irq, ctx, kind, RoundTrip.Interrupted(regs, kind, env.stkalign));
    RoundTrip.SavedResumes(Announce(s, callee, irq).mem, later, regs, kind, env.stkalign, slot, flagsOnWake);
  }

  /** A yield that saves its caller at a safe slot, over which the frame of what it resumes does not go. Whatever comes
      of the rest of memory, the thread that yielded gets all its registers back from there. */
  lemma YieldReturns(env: Env, s: KState, m: Words, later: Words, regs: seq<Word>, kind: Kind, q: Request,
      callee: Paddr, slot: Word, r: (KState, Outcome))
    requires Switches(env, s, q, callee, slot, r) && callee in s.mal.pds && slot != NULL
    requires StackedAt(s.mem, m, regs, kind, q.ctx, env.stkalign)
    requires RoundTrip.SafeSlot(q.ctx, slot, kind) && NotInContext(s.mal.pds[callee].vidt, q.ctx, kind)
    requires Misses(r.1.l, slot, kind) && KeepsSlot(r.0.mem, later, slot, kind)
    ensures GivesBack(later, slot, regs, kind, env.stkalign, q.flagsOnWake)
  {
    StackedIsReset(env, s, m, regs, kind, q.ctx);
    YieldAttempt(env, s, q, callee, slot, r);
    AttemptReturns(env, Entered(env, s, q.ctx), regs, kind, callee, s.mal.current, slot, q.irq, q.flagsOnYield,
      q.flagsOnWake, q.ctx, r, later);
  }

  // ----- handlers -----------------------------------------------------------------------------------------

  /** A handler's attempt: the callee is ready, and the caller's context is saved at `slot`. */
  ghost predicate SavesAt(env: Env, s: KState, callee: Paddr, caller: Paddr, irq: Word, index: nat, ctx: Paddr,
      slot: Word)
  {
    && KernelOk(env, s.mal) && callee in s.mal.pds && caller in s.mal.pds
    && Ready(env, s, callee, irq) && Saves(env, s, callee, caller, irq, index, ctx)
    && slot == Read32(s.mem, s.mal.pds[caller].vidt + 4 + 4 * index)
  }

  lemma SavingSwitches(env: Env, s: KState, callee: Paddr, caller: Paddr, irq: Word, index: nat,
      flagsOnYield: Word, flagsOnWake: Word, ctx: Paddr, slot: Word, r: (KState, Outcome))
    requires SavesAt(env, s, callee, caller, irq, index, ctx, slot)
    requires r == SourceVidt(env, s, callee, caller, irq, index, flagsOnYield, flagsOnWake, ctx)
    ensures r.1.Switched? && slot != NULL && !MisalignedSave(env, s, caller, index)
    ensures r == TargetVidt(env, s, callee, caller, slot, irq, flagsOnYield, flagsOnWake, Some(ctx), 0)
  {
    NotMisaligned(env, s, callee, caller, irq, index, ctx, slot);
    AttemptCases(env, s, callee, caller, irq, index, flagsOnYield, flagsOnWake, ctx);
    if r.1.Failed? {
      FailedSave(env, s, callee, caller, irq, index, flagsOnYield, flagsOnWake, ctx, r);
    }
  }

  lemma NotMisaligned(env: Env, s: KState, callee: Paddr, caller: Paddr, irq: Word, index: nat, ctx: Paddr,
      slot: Word)
    requires SavesAt(env, s, callee, caller, irq, index, ctx, slot)
    ensures !MisalignedSave(env, s, caller, index)
  {
  }

  /** An interrupt that reaches root and saves the thread: the slot is the one of interrupt 8 or 9 in the VIDT of the
      interrupted partition, by its interrupt state, and asks for that state again. */
  lemma InterruptReturns(env: Env, s: KState, m: Words, later: Words, regs: seq<Word>, kind: Kind, irq: Word,
      ctx: Paddr, stray: Word, index: nat, slot: Word, end: (KState, Final))
    requires KernelOk(env, s.mal) && s.mal.current in s.mal.pds
    requires index == if s.mal.pds[s.mal.current].intState == 0 then 8 else 9
    requires SavesAt(env, Entered(env, s, ctx), s.mal.root, s.mal.current, irq, index, ctx, slot)
    requires StackedAt(s.mem, m, regs, kind, ctx, env.stkalign)
    requires RoundTrip.SafeSlot(ctx, slot, kind) && NotInContext(s.mal.pds[s.mal.root].vidt, ctx, kind)
    requires end == Interrupt(env, s, irq, ctx, stray)
    requires end.1.Running? ==> Misses(end.1.l, slot, kind)
    requires KeepsSlot(end.0.mem, later, slot, kind)
    ensures end.1.Running?
    ensures GivesBack(later, slot, regs, kind, env.stkalign, s.mal.pds[s.mal.current].intState)
  {
    var s1, state, r := Entered(env, s, ctx), s.mal.pds[s.mal.current].intState, Attempt(env, s, irq, ctx);
    StackedIsReset(env, s, m, regs, kind, ctx);
    InterruptIs(env, s, irq, ctx, stray, r);
    SavingSwitches(env, s1, s.mal.root, s.mal.current, irq, index, state, state, ctx, slot, r);
    AttemptReturns(env, s1, regs, kind, s.mal.root, s.mal.current, slot, irq, state, state, ctx, r, later);
  }

  /** One level of a climb that saves the context, in the VIDT of the partition at that level. */
  lemma LevelReturns(env: Env, s: KState, later: Words, regs: seq<Word>, kind: Kind, p: Paddr, irq: Word, index: nat,
      state: Word, ctx: Paddr, stray: Word, depth: map<Paddr, nat>, slot: Word, end: (KState, Final))
    requires KernelOk(env, s.mal) && p in s.mal.pds && p != s.mal.root && IsTree(s.mal, depth)
    requires SavesAt(env, s, s.mal.pds[p].parent, p, irq, index, ctx, slot)
    requires ResetAt(s.mem, regs, kind, ctx, env.stkalign)
    requires RoundTrip.SafeSlot(ctx, slot, kind) && NotInContext(s.mal.pds[s.mal.pds[p].parent].vidt, ctx, kind)
    requires end == Propagate(env, s, p, irq, index, state, state, ctx, stray, depth)
    requires end.1.Running? ==> Misses(end.1.l, slot, kind)
    requires KeepsSlot(end.0.mem, later, slot, kind)
    ensures end.1.Running?
    ensures GivesBack(later, slot, regs, kind, env.stkalign, state)
  {
    var parent, r := s.mal.pds[p].parent, ParentPart(env, s, p, irq, index, state, state, ctx);
    PropagateIs(env, s, p, irq, index, state, state, ctx, stray, depth, r);
    SavingSwitches(env, s, parent, p, irq, index, state, state, ctx, slot, r);
    AttemptReturns(env, s, regs, kind, parent, p, slot, irq, state, state, ctx, r, later);
  }

  /** A fault whose first level saves the thread: as for an interrupt, with the parent for root. */
  lemma FaultReturns(env: Env, s: KState, m: Words, later: Words, regs: seq<Word>, kind: Kind, irq: Word,
      ctx: Paddr, stray: Word, depth: map<Paddr, nat>, index: nat, slot: Word, end: (KState, Final))
    requires KernelOk(env, s.mal) && s.mal.current in s.mal.pds && s.mal.current != s.mal.root && IsTree(s.mal, depth)
    requires index == if s.mal.pds[s.mal.current].intState == 0 then 8 else 9
    requires SavesAt(env, Entered(env, s, ctx), s.mal.pds[s.mal.current].parent, s.mal.current, irq, index, ctx, slot)
    requires StackedAt(s.mem, m, regs, kind, ctx, env.stkalign)
    requires RoundTrip.SafeSlot(ctx, slot, kind)
    requires NotInContext(s.mal.pds[s.mal.pds[s.mal.current].parent].vidt, ctx, kind)
    requires end == FaultEntry(env, s, irq, ctx, stray, depth)
    requires end.1.Running? ==> Misses(end.1.l, slot, kind)
    requires KeepsSlot(end.0.mem, later, slot, kind)
    ensures end.1.Running?
    ensures GivesBack(later, slot, regs, kind, env.stkalign, s.mal.pds[s.mal.current].intState)
  {
    StackedIsReset(env, s, m, regs, kind, ctx);
    LevelReturns(env, Entered(env, s, ctx), later, regs, kind, s.mal.current, irq, index,
      s.mal.pds[s.mal.current].intState, ctx, stray, depth, slot, end);
  }

  // ----- the second level ---------------------------------------------------------------------------------

  /** The first level does not resume the parent, and the faulting partition's own VIDT passes. */
  predicate FirstRefused(env: Env, s: KState, irq: Word, index: nat)
    requires KernelOk(env, s.mal) && s.mal.current in s.mal.pds && s.mal.current != s.mal.root
  {
    && VidtCheck(env, s.mal, s.mal.current).None?
    && (!Ready(env, s, s.mal.pds[s.mal.current].parent, irq) || MisalignedSave(env, s, s.mal.current, index))
  }

  /** The state in which the second level starts: the parent's interrupt word is written where its VIDT passes, and
      previousContextUseFpu is set where its context does. */
  function RefusedState(env: Env, s: KState, parent: Paddr, irq: Word, ctx: Paddr): KState
    requires KernelOk(env, s.mal) && parent in s.mal.pds
  {
    var m := if VidtCheck(env, s.mal, parent).None? then Write32(s.mem, s.mal.pds[parent].vidt, irq) else s.mem;
    s.(mem := m, usedFpu := if Ready(env, s, parent, irq) then Read32(m, ctx) == 0 else s.usedFpu)
  }

  /** Then the climb goes on from the parent, at interrupt 10 of its VIDT. */
  lemma SecondLevel(env: Env, s: KState, irq: Word, index: nat, state: Word, ctx: Paddr, stray: Word,
      depth: map<Paddr, nat>, next: KState)
    requires KernelOk(env, s.mal) && s.mal.current in s.mal.pds && s.mal.current != s.mal.root && IsTree(s.mal, depth)
    requires FirstRefused(env, s, irq, index) && next == RefusedState(env, s, s.mal.pds[s.mal.current].parent, irq, ctx)
    ensures Propagate(env, s, s.mal.current, irq, index, state, state, ctx, stray, depth)
         == Propagate(env, next, s.mal.pds[s.mal.current].parent, irq, 10, state, state, ctx, stray, depth)
  {
    var p, parent := s.mal.current, s.mal.pds[s.mal.current].parent;
    var r := ParentPart(env, s, p, irq, index, state, state, ctx);
    AttemptCases(env, s, parent, p, irq, index, state, state, ctx);
    PropagateIs(env, s, p, irq, index, state, state, ctx, stray, depth, r);
    RefusedEffect(env, s, parent, p, irq, index, state, ctx, r);
  }

  lemma RefusedEffect(env: Env, s: KState, callee: Paddr, caller: Paddr, irq: Word, index: nat, state: Word,
      ctx: Paddr, r: (KState, Outcome))
    requires KernelOk(env, s.mal) && callee in s.mal.pds && caller in s.mal.pds && VidtCheck(env, s.mal, caller).None?
    requires r == SourceVidt(env, s, callee, caller, irq, index, state, state, ctx) && r.1.Failed?
    ensures r.0 == RefusedState(env, s, callee, irq, ctx)
  {
    if VidtCheck(env, s.mal, callee).None? {
      RefusedByContext(env, Announce(s, callee, irq), callee, caller, VidtEntry(s, caller, index), irq, state, ctx, r);
    }
  }

  lemma RefusedByContext(env: Env, s: KState, callee: Paddr, caller: Paddr, save: Word, irq: Word, state: Word,
      ctx: Paddr, r: (KState, Outcome))
    requires KernelOk(env, s.mal) && callee in s.mal.pds && caller in s.mal.pds
    requires r == TargetContext(env, s, callee, caller, save, irq, state, state, Some(ctx), 0) && r.1.Failed?
    ensures var passed := CalleeCheck(env, s, callee, VidtEntry(s, callee, irq)).None?;
            r.0 == s.(usedFpu := if passed then Read32(s.mem, ctx) == 0 else s.usedFpu)
  {
    var target := VidtEntry(s, callee, irq);
    if CalleeCheck(env, s, callee, target).None? {
      RefusedBySave(env, s.(usedFpu := Read32(s.mem, ctx) == 0), callee, caller, save, state, ctx, target, r);
    }
  }

  lemma RefusedBySave(env: Env, s: KState, callee: Paddr, caller: Paddr, save: Word, state: Word, ctx: Paddr,
      target: Paddr, r: (KState, Outcome))
    requires KernelOk(env, s.mal) && callee in s.mal.pds && caller in s.mal.pds && r.1.Failed?
    requires r == SaveSource(env, s, callee, caller, save, state, state, ctx, target)
    ensures r.0 == s
  {
  }

  /** So a fault that the second level takes saves the faulting thread there, in the parent's VIDT. */
  lemma DoubleFaultReturns(env: Env, s: KState, m: Words, later: Words, regs: seq<Word>, kind: Kind, irq: Word,
      ctx: Paddr, stray: Word, depth: map<Paddr, nat>, index: nat, parent: Paddr, slot: Word, end: (KState, Final))
    requires KernelOk(env, s.mal) && s.mal.current in s.mal.pds && s.mal.current != s.mal.root && IsTree(s.mal, depth)
    requires index == if s.mal.pds[s.mal.current].intState == 0 then 8 else 9
    requires FirstRefused(env, Entered(env, s, ctx), irq, index)
    requires parent == s.mal.pds[s.mal.current].parent && parent != s.mal.root
    requires SavesAt(env, RefusedState(env, Entered(env, s, ctx), parent, irq, ctx), s.mal.pds[parent].parent, parent,
               irq, 10, ctx, slot)
    requires StackedAt(s.mem, m, regs, kind, ctx, env.stkalign)
    requires RoundTrip.SafeSlot(ctx, slot, kind) && NotInContext(s.mal.pds[parent].vidt, ctx, kind)
    requires NotInContext(s.mal.pds[s.mal.pds[parent].parent].vidt, ctx, kind)
    requires end == FaultEntry(env, s, irq, ctx, stray, depth)
    requires end.1.Running? ==> Misses(end.1.l, slot, kind)
    requires KeepsSlot(end.0.mem, later, slot, kind)
    ensures end.1.Running?
    ensures GivesBack(later, slot, regs, kind, env.stkalign, s.mal.pds[s.mal.current].intState)
  {
    var s1, state := Entered(env, s, ctx), s.mal.pds[s.mal.current].intState;
    var next := RefusedState(env, s1, parent, irq, ctx);
    SecondLevel(env, s1, irq, index, state, ctx, stray, depth, next);
    StackedIsReset(env, s, m, regs, kind, ctx);
    ResetKept(env, s1, parent, irq, regs, kind, ctx);
    LevelReturns(env, next, later, regs, kind, parent, irq, 10, state, ctx, stray, depth, slot, end);
  }

  lemma ResetKept(env: Env, s: KState, parent: Paddr, irq: Word, regs: seq<Word>, kind: Kind, ctx: Paddr)
    requires KernelOk(env, s.mal) && parent in s.mal.pds && NotInContext(s.mal.pds[parent].vidt, ctx, kind)
    requires ResetAt(s.mem, regs, kind, ctx, env.stkalign)
    ensures ResetAt(RefusedState(env, s, parent, irq, ctx).mem, regs, kind, ctx, env.stkalign)
  {
    AnnounceApart(s, parent, irq, ctx, kind, RoundTrip.Interrupted(regs, kind, env.stkalign));
  }
}
