/** Where the kernel keeps its own structures, and which of its stores can meet them. The checks of a yield keep
    the words it announces and saves inside accessible blocks. Nothing checks where the hardware frame of the
    resumed context is stored, nor where the entry code has left the interrupted context. */
module KernelMemory {
  import opened Bits
  import opened LookupTable
  import opened Mal
  import opened Memory
  import opened ExceptionFrames
  import opened Wrappers
  import opened Yield
  import opened YieldProperties
  import opened Faults

  /** A store of the word at `a` meets the kernel's bytes. */
  ghost predicate Meets(kernel: set<Word>, a: Word) {
    exists i: nat :: i < 4 && Byte(a, i) in kernel
  }

  function Byte(a: Word, i: nat): Word { Wrap(a + i) }

  ghost predicate AreaMisses(kernel: set<Word>, a: int, n: nat) {
    forall k: nat :: k < n ==> !Meets(kernel, At(a, k))
  }

  /** The kernel's words read the same. */
  ghost predicate Intact(kernel: set<Word>, m: Words, w: Words) {
    forall x: Word :: Meets(kernel, x) ==> Read32(m, x) == Read32(w, x)
  }

  /** No block that a partition can access holds bytes of the kernel; and a VIDT is word-aligned, or lies whole inside
      its block, as setVIDT demands when it is set. */
  ghost predicate KernelApart(env: Env, kernel: set<Word>, m: MalState) {
    && (forall e :: e in env.entries && env.entries[e].present && env.entries[e].accessible ==>
        BlockMisses(kernel, env.entries[e]))
    && (forall p :: p in m.pds ==> VidtInside(env, m.pds[p]))
  }

  ghost predicate BlockMisses(kernel: set<Word>, b: Block) {
    forall x :: x in kernel ==> !b.Contains(x)
  }

  ghost predicate VidtInside(env: Env, pd: Pd) {
    pd.vidt % 4 == 0 || forall e :: e in pd.structure && e in env.entries && HasVidt(env.entries[e], pd.vidt) ==>
      pd.vidt + VIDT_SIZE <= env.entries[e].last
  }

  predicate HasVidt(b: Block, vidt: Paddr) {
    b.present && b.start <= vidt < b.last
  }

  // ----- areas ----------------------------------------------------------------------------------

  /** A word inside a block misses the kernel. */
  lemma InsideMisses(kernel: set<Word>, b: Block, a: Word)
    requires BlockMisses(kernel, b) && b.start <= a && a + 3 <= b.last
    ensures !Meets(kernel, a)
  {
    forall i: nat | i < 4 ensures Byte(a, i) !in kernel {
      assert b.Contains(Byte(a, i));
    }
  }

  /** Blocks end with a whole word. */
  lemma WholeUnits(b: Block, a: Word)
    requires b.Valid() && b.Contains(a) && a % 4 == 0
    ensures a + 3 <= b.last
  {
    var q := Shr(b.last + 1, 5);
    ShrLow(b.last + 1, 5);
    Shl5(q);
    WordBelow(a / 4, q, b.last);
  }

  lemma WordBelow(k: nat, q: nat, last: nat)
    requires last + 1 == 32 * q && 4 * k <= last
    ensures 4 * k + 3 <= last
  {
  }

  lemma SameOutsideIntact(kernel: set<Word>, m: Words, w: Words, a: int, n: nat)
    requires SameOutside(m, w, a, n) && AreaMisses(kernel, a, n)
    ensures Intact(kernel, m, w)
  {
    forall k: nat | k < n ensures !Meets(kernel, At(a, k)) {
    }
  }

  lemma IntactBoth(kernel: set<Word>, m: Words, w: Words, v: Words)
    requires Intact(kernel, m, w) && Intact(kernel, w, v)
    ensures Intact(kernel, m, v)
  {
  }

  lemma OneWordIntact(kernel: set<Word>, m: Words, a: Word, v: Word)
    requires !Meets(kernel, a)
    ensures Intact(kernel, m, Write32(m, a, v))
  {
  }

  /** A save slot that passed the caller's checks. */
  lemma SlotMisses(env: Env, kernel: set<Word>, m: MalState, p: Paddr, save: Word, kind: Kind)
    requires KernelApart(env, kernel, m) && p in m.pds && SavedInOwnBlock(env, m, p, save, kind)
    ensures AreaMisses(kernel, save, kind.Words())
  {
    var e :| e in m.pds[p].structure && e in env.entries && Saveable(env.entries[e], save, kind);
    forall k: nat | k < kind.Words() ensures !Meets(kernel, At(save, k)) {
      InsideMisses(kernel, env.entries[e], At(save, k));
    }
  }

  /** The current-interrupt word of a VIDT that passed its checks. */
  lemma VidtMisses(env: Env, kernel: set<Word>, m: MalState, p: Paddr)
    requires KernelOk(env, m) && KernelApart(env, kernel, m) && p in m.pds && VidtCheck(env, m, p).None?
    ensures !Meets(kernel, m.pds[p].vidt)
  {
    var b := Find(env, m, p, m.pds[p].vidt).value;
    var e :| e in m.pds[p].structure && env.entries[e] == b;
    assert VidtInside(env, m.pds[p]);
    if m.pds[p].vidt % 4 == 0 { WholeUnits(b, m.pds[p].vidt); }
    InsideMisses(kernel, b, m.pds[p].vidt);
  }

  // ----- the chain ------------------------------------------------------------------------------

  ghost predicate FrameMisses(kernel: set<Word>, l: Loaded) {
    AreaMisses(kernel, l.frame, l.kind.HwLength())
  }

  /** The kernel's words are as they were, unless the frame of a resumed context meets them. */
  ghost predicate Spared(kernel: set<Word>, s: KState, r: (KState, Outcome)) {
    (r.1.Switched? ==> FrameMisses(kernel, r.1.l)) ==> Intact(kernel, s.mem, r.0.mem)
  }

  lemma SwitchSpares(env: Env, kernel: set<Word>, s: KState, callee: Paddr, flagsOnYield: Word, ctx: Paddr)
    requires KernelOk(env, s.mal) && callee in s.mal.pds
    ensures Spared(kernel, s, Switch(env, s, callee, flagsOnYield, ctx))
  {
    var r := Switch(env, s, callee, flagsOnYield, ctx);
    LoadWrites(s.mem, ctx, env.stkalign);
    if FrameMisses(kernel, r.1.l) {
      SameOutsideIntact(kernel, s.mem, r.0.mem, r.1.l.frame, r.1.l.kind.HwLength());
    }
  }

  /** A step that spares the kernel, after one that leaves its words intact. */
  lemma SparedAfter(kernel: set<Word>, s: KState, s1: KState, r: (KState, Outcome))
    requires Intact(kernel, s.mem, s1.mem) && Spared(kernel, s1, r)
    ensures Spared(kernel, s, r)
  {
  }

  lemma SaveSpares(env: Env, kernel: set<Word>, s: KState, callee: Paddr, caller: Paddr, save: Word,
      flagsOnYield: Word, flagsOnWake: Word, ctx: Paddr, target: Paddr)
    requires KernelOk(env, s.mal) && KernelApart(env, kernel, s.mal) && callee in s.mal.pds && caller in s.mal.pds
    ensures Spared(kernel, s, SaveSource(env, s, callee, caller, save, flagsOnYield, flagsOnWake, ctx, target))
  {
    if CallerCheck(env, s, caller, save, ctx).None? {
      var s1, kind := s.(mem := AfterSave(s.mem, ctx, save, flagsOnWake)), KindAt(s.mem, ctx);
      SaveInBlock(env, s, caller, save, ctx);
      SlotMisses(env, kernel, s.mal, caller, save, kind);
      SaveFrame(s.mem, ctx, save, flagsOnWake);
      SameOutsideIntact(kernel, s.mem, s1.mem, save, kind.Words());
      SwitchSpares(env, kernel, s1, callee, flagsOnYield, target);
      SparedAfter(kernel, s, s1, Switch(env, s1, callee, flagsOnYield, target));
    }
  }

  lemma TargetContextSpares(env: Env, kernel: set<Word>, s: KState, callee: Paddr, caller: Paddr, save: Word, irq: nat,
      flagsOnYield: Word, flagsOnWake: Word, ctx: Option<Paddr>, stray: Word)
    requires KernelOk(env, s.mal) && KernelApart(env, kernel, s.mal) && callee in s.mal.pds && caller in s.mal.pds
    requires save != NULL ==> ctx.Some?
    ensures Spared(kernel, s,
              TargetContext(env, s, callee, caller, save, irq, flagsOnYield, flagsOnWake, ctx, stray))
  {
    var target := VidtEntry(s, callee, irq);
    var s1 := s.(usedFpu := InterruptedKind(s, ctx, stray) == 0);
    if save != NULL {
      SaveSpares(env, kernel, s1, callee, caller, save, flagsOnYield, flagsOnWake, ctx.value, target);
    } else {
      SwitchSpares(env, kernel, s1, callee, flagsOnYield, target);
    }
  }

  lemma TargetVidtSpares(env: Env, kernel: set<Word>, s: KState, callee: Paddr, caller: Paddr, save: Word, irq: Word,
      flagsOnYield: Word, flagsOnWake: Word, ctx: Option<Paddr>, stray: Word)
    requires KernelOk(env, s.mal) && KernelApart(env, kernel, s.mal) && callee in s.mal.pds && caller in s.mal.pds
    requires save != NULL ==> ctx.Some?
    ensures Spared(kernel, s, TargetVidt(env, s, callee, caller, save, irq, flagsOnYield, flagsOnWake, ctx, stray))
  {
    if VidtCheck(env, s.mal, callee).None? {
      var s1 := Announce(s, callee, irq);
      VidtMisses(env, kernel, s.mal, callee);
      OneWordIntact(kernel, s.mem, s.mal.pds[callee].vidt, irq);
      TargetContextSpares(env, kernel, s1, callee, caller, save, irq, flagsOnYield, flagsOnWake, ctx, stray);
      SparedAfter(kernel, s, s1,
        TargetContext(env, s1, callee, caller, save, irq, flagsOnYield, flagsOnWake, ctx, stray));
    }
  }

  lemma SourceVidtSpares(env: Env, kernel: set<Word>, s: KState, callee: Paddr, caller: Paddr, irq: Word,
      saveIndex: nat, flagsOnYield: Word, flagsOnWake: Word, ctx: Paddr)
    requires KernelOk(env, s.mal) && KernelApart(env, kernel, s.mal) && callee in s.mal.pds && caller in s.mal.pds
    ensures Spared(kernel, s, SourceVidt(env, s, callee, caller, irq, saveIndex, flagsOnYield, flagsOnWake, ctx))
  {
    if VidtCheck(env, s.mal, caller).None? {
      TargetVidtSpares(env, kernel, s, callee, caller, VidtEntry(s, caller, saveIndex), irq, flagsOnYield,
        flagsOnWake, Some(ctx), 0);
    }
  }

  /** The reset of the interrupted context writes its stack pointer. */
  lemma EntrySpares(env: Env, kernel: set<Word>, s: KState, ctx: Paddr)
    requires !Meets(kernel, SpWord(s, ctx))
    ensures Intact(kernel, s.mem, Entered(env, s, ctx).mem)
  {
  }

  // ----- yields, interrupts, faults ---------------------------------------------------------------

  /** Whatever a yield comes to, the kernel's words are as they were, provided that the stack pointer word of the
      interrupted context and the frame of the resumed one miss them. */
  lemma YieldSpares(env: Env, kernel: set<Word>, s: KState, q: Request)
    requires KernelOk(env, s.mal) && KernelApart(env, kernel, s.mal) && s.mal.current in s.mal.pds
    requires !Meets(kernel, SpWord(s, q.ctx))
    ensures Spared(kernel, s, YieldCall(env, s, q))
  {
    var s1, r := Entered(env, s, q.ctx), YieldCall(env, s, q);
    EntrySpares(env, kernel, s, q.ctx);
    if r.0 != s1 {
      var callee := Callee(env, s, q.localId).value;
      CalleeKnown(env, s, q.localId);
      AttemptSpares(env, kernel, s1, q, callee, r);
      SparedAfter(kernel, s, s1, r);
    }
  }

  lemma AttemptSpares(env: Env, kernel: set<Word>, s: KState, q: Request, callee: Paddr, r: (KState, Outcome))
    requires KernelOk(env, s.mal) && KernelApart(env, kernel, s.mal) && s.mal.current in s.mal.pds
    requires callee in s.mal.pds
    requires r == SourceVidt(env, s, callee, s.mal.current, q.irq, q.saveIndex, q.flagsOnYield, q.flagsOnWake, q.ctx)
    ensures Spared(kernel, s, r)
  {
    SourceVidtSpares(env, kernel, s, callee, s.mal.current, q.irq, q.saveIndex, q.flagsOnYield, q.flagsOnWake, q.ctx);
  }

  /** Given that the accessible blocks miss the kernel, no store of a yield meets it if and only if neither the stack
      pointer word of the interrupted context nor the frame of the resumed one does. */
  lemma YieldMissesExact(env: Env, kernel: set<Word>, s: KState, q: Request, callee: Paddr, save: Word,
      r: (KState, Outcome))
    requires Switches(env, s, q, callee, save, r) && callee in s.mal.pds && KernelApart(env, kernel, s.mal)
    ensures (forall x: Word :: Written(env, s, q, callee, save, x) ==> !Meets(kernel, x))
            <==>
            && !Meets(kernel, SpWord(s, q.ctx))
            && AreaMisses(kernel, ResumedFrame(env, s, q, callee, save),
                ResumedKind(env, s, q, callee, save).HwLength())
  {
    YieldChecked(env, s, q, callee, save, r);
    CheckedMiss(env, kernel, s, q, callee, save);
    MissesParts(env, kernel, s, q, callee, save);
  }

  lemma MissesParts(env: Env, kernel: set<Word>, s: KState, q: Request, callee: Paddr, save: Word)
    requires callee in s.mal.pds && !Meets(kernel, At(s.mal.pds[callee].vidt, 0))
    requires forall x: Word :: save != NULL && Within(x, save, SavedKind(env, s, q, callee).Words()) ==>
              !Meets(kernel, x)
    ensures (forall x: Word :: Written(env, s, q, callee, save, x) ==> !Meets(kernel, x))
            <==>
            && !Meets(kernel, SpWord(s, q.ctx))
            && AreaMisses(kernel, ResumedFrame(env, s, q, callee, save),
                ResumedKind(env, s, q, callee, save).HwLength())
  {
    WrittenParts(env, s, q, callee, save);
    var frame, n := ResumedFrame(env, s, q, callee, save), ResumedKind(env, s, q, callee, save).HwLength();
    if AreaMisses(kernel, frame, n) { AreaMissesAll(kernel, frame, n); }
  }

  lemma AreaMissesAll(kernel: set<Word>, a: int, n: nat)
    requires AreaMisses(kernel, a, n)
    ensures forall x: Word :: Within(x, a, n) ==> !Meets(kernel, x)
  {
    forall x: Word | Within(x, a, n) ensures !Meets(kernel, x) {
      var k: nat :| k < n && At(a, k) == x;
    }
  }

  /** What the checks of a yield cover. */
  lemma CheckedMiss(env: Env, kernel: set<Word>, s: KState, q: Request, callee: Paddr, save: Word)
    requires KernelOk(env, s.mal) && KernelApart(env, kernel, s.mal) && s.mal.current in s.mal.pds
    requires callee in s.mal.pds && VidtCheck(env, s.mal, callee).None?
    requires save != NULL ==> SavedInOwnBlock(env, s.mal, s.mal.current, save, SavedKind(env, s, q, callee))
    ensures !Meets(kernel, At(s.mal.pds[callee].vidt, 0))
    ensures forall x: Word :: save != NULL && Within(x, save, SavedKind(env, s, q, callee).Words()) ==>
              !Meets(kernel, x)
  {
    VidtMisses(env, kernel, s.mal, callee);
    if save != NULL {
      SlotMisses(env, kernel, s.mal, s.mal.current, save, SavedKind(env, s, q, callee));
    }
  }

  /** The same of a handler's end: a panic spares the kernel as well. */
  ghost predicate SparedAtEnd(kernel: set<Word>, s: KState, r: (KState, Final)) {
    (r.1.Running? ==> FrameMisses(kernel, r.1.l)) ==> Intact(kernel, s.mem, r.0.mem)
  }

  lemma InterruptSpares(env: Env, kernel: set<Word>, s: KState, irq: Word, ctx: Paddr, stray: Word)
    requires KernelOk(env, s.mal) && KernelApart(env, kernel, s.mal) && s.mal.current in s.mal.pds
    requires !Meets(kernel, SpWord(s, ctx))
    ensures SparedAtEnd(kernel, s, Interrupt(env, s, irq, ctx, stray))
  {
    var s1, first, caller := Entered(env, s, ctx), Attempt(env, s, irq, ctx), s.mal.current;
    var state := s.mal.pds[caller].intState;
    EntrySpares(env, kernel, s, ctx);
    InterruptIs(env, s, irq, ctx, stray, first);
    SourceVidtSpares(env, kernel, s1, s.mal.root, caller, irq, SaveIndex(state), state, state, ctx);
    if first.1.Failed? && CallerSide(first.1.code) {
      RetrySpares(env, kernel, s1, first.0, s.mal.root, caller, irq, stray);
    } else {
      SparedAfter(kernel, s, s1, first);
    }
  }

  lemma RetrySpares(env: Env, kernel: set<Word>, s: KState, s1: KState, callee: Paddr, caller: Paddr, irq: Word,
      stray: Word)
    requires KernelOk(env, s1.mal) && KernelApart(env, kernel, s1.mal) && callee in s1.mal.pds && caller in s1.mal.pds
    requires Intact(kernel, s.mem, s1.mem)
    ensures SparedAtEnd(kernel, s, Finish(TargetVidt(env, s1, callee, caller, NULL, irq, 0, 0, None, stray)))
  {
    TargetVidtSpares(env, kernel, s1, callee, caller, NULL, irq, 0, 0, None, stray);
    SparedAfter(kernel, s, s1, TargetVidt(env, s1, callee, caller, NULL, irq, 0, 0, None, stray));
  }

  lemma ParentSpares(env: Env, kernel: set<Word>, s: KState, p: Paddr, irq: Word, saveIndex: nat,
      flagsOnYield: Word, flagsOnWake: Word, ctx: Paddr)
    requires KernelOk(env, s.mal) && KernelApart(env, kernel, s.mal) && p in s.mal.pds
    ensures Spared(kernel, s, ParentPart(env, s, p, irq, saveIndex, flagsOnYield, flagsOnWake, ctx))
  {
    if p != s.mal.root {
      SourceVidtSpares(env, kernel, s, s.mal.pds[p].parent, p, irq, saveIndex, flagsOnYield, flagsOnWake, ctx);
    }
  }

  /** The climb announces the fault at every level it tries. */
  lemma {:induction false} PropagateSpares(env: Env, kernel: set<Word>, s: KState, p: Paddr, irq: Word,
      saveIndex: nat, flagsOnYield: Word, flagsOnWake: Word, ctx: Paddr, stray: Word, depth: map<Paddr, nat>)
    requires KernelOk(env, s.mal) && KernelApart(env, kernel, s.mal) && p in s.mal.pds && IsTree(s.mal, depth)
    ensures SparedAtEnd(kernel, s,
              Propagate(env, s, p, irq, saveIndex, flagsOnYield, flagsOnWake, ctx, stray, depth))
    decreases depth[p]
  {
    var r := ParentPart(env, s, p, irq, saveIndex, flagsOnYield, flagsOnWake, ctx);
    PropagateIs(env, s, p, irq, saveIndex, flagsOnYield, flagsOnWake, ctx, stray, depth, r);
    ParentSpares(env, kernel, s, p, irq, saveIndex, flagsOnYield, flagsOnWake, ctx);
    if r.1.Failed? && p != s.mal.root {
      var parent := s.mal.pds[p].parent;
      if CallerSide(r.1.code) {
        TargetVidtSpares(env, kernel, r.0, parent, p, NULL, irq, flagsOnYield, flagsOnWake, None, stray);
      } else {
        PropagateSpares(env, kernel, r.0, parent, irq, DOUBLE_FAULT_LEVEL, flagsOnYield, flagsOnWake, ctx, stray,
          depth);
      }
    }
  }

  lemma FaultSpares(env: Env, kernel: set<Word>, s: KState, irq: Word, ctx: Paddr, stray: Word,
      depth: map<Paddr, nat>)
    requires KernelOk(env, s.mal) && KernelApart(env, kernel, s.mal) && s.mal.current in s.mal.pds
    requires IsTree(s.mal, depth) && !Meets(kernel, SpWord(s, ctx))
    ensures SparedAtEnd(kernel, s, FaultEntry(env, s, irq, ctx, stray, depth))
  {
    var state := s.mal.pds[s.mal.current].intState;
    EntrySpares(env, kernel, s, ctx);
    PropagateSpares(env, kernel, Entered(env, s, ctx), s.mal.current, irq, SaveIndex(state), state, state, ctx,
      stray, depth);
  }
}
