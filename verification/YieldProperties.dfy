/** Properties of the yield chain: what an error leaves unchanged, where a context is saved, what the
    switch establishes, and why the fallback without saving cannot fail. */
module YieldProperties {
  import opened Bits
  import opened LookupTable
  import opened MpuRegisters
  import opened Mal
  import opened Memory
  import opened ExceptionFrames
  import opened RoundTrip
  import opened Wrappers
  import opened Yield

  /** BASEPRI masks interrupts exactly when root runs and asked for it. */
  ghost predicate MaskOk(s: KState) {
    && s.mal.root in s.mal.pds
    && (s.masked <==> s.mal.current == s.mal.root && s.mal.pds[s.mal.root].intState == 0)
  }

  /** The hardware regions are those of the running partition. */
  ghost predicate RunsInSync(s: KState) {
    && s.mal.current in s.mal.pds && |s.mal.pds[s.mal.current].lut| == 2 * REGIONS
    && s.mal.regions == LutRegions(s.mal.pds[s.mal.current].lut)
  }

  /** Descriptors differ in their interrupt states at most. */
  ghost predicate SameButIntStates(s: MalState, t: MalState) {
    && s.root == t.root && s.pds.Keys == t.pds.Keys
    && forall p :: p in s.pds ==> t.pds[p] == s.pds[p].(intState := t.pds[p].intState)
  }

  /** What every step of the chain guarantees. An error changes neither the layer (current partition,
      interrupt states, tables, hardware regions) nor BASEPRI. A switch makes `callee` current, with its
      table loaded, its interrupt state taken from the resumed context, and BASEPRI to match. */
  ghost predicate Sound(env: Env, m: MalState, masked: bool, callee: Paddr, r: (KState, Outcome)) {
    match r.1
    case Failed(code) => r.0.mal == m && r.0.masked == masked
    case Switched(l, clearFpu) =>
      && KernelOk(env, r.0.mal) && r.0.mal.current == callee && RunsInSync(r.0) && MaskOk(r.0)
      && SameButIntStates(m, r.0.mal)
  }

  lemma WithIntStateOk(env: Env, m: MalState, v: Word)
    requires KernelOk(env, m)
    ensures KernelOk(env, WithIntState(m, v))
    ensures SameButIntStates(m, WithIntState(m, v))
  {
    if m.current in m.pds {
      var pd := m.pds[m.current].(intState := v);
      assert PdOk(env.entries, m.pds[m.current]);
      assert PdOk(env.entries, pd);
      StateOkUpdated(env.entries, m, m.current, pd);
    }
  }

  lemma SwitchLayerOk(env: Env, m: MalState, callee: Paddr, flagsOnYield: Word, pipflags: Word)
    requires KernelOk(env, m) && callee in m.pds
    ensures WellSized(m.pds[callee]) && KernelOk(env, SwitchLayer(m, callee, flagsOnYield, pipflags))
    ensures SameButIntStates(m, SwitchLayer(m, callee, flagsOnYield, pipflags))
  {
    assert PdOk(env.entries, m.pds[callee]);
    WithIntStateOk(env, m, flagsOnYield);
    var m2 := Activate(WithIntState(m, flagsOnYield), callee);
    assert KernelOk(env, m2);
    WithIntStateOk(env, m2, pipflags);
  }

  /** The parts of a switch. */
  lemma SwitchIs(env: Env, s: KState, callee: Paddr, flagsOnYield: Word, ctx: Paddr, m: MalState, w: Words, l: Loaded)
    requires KernelOk(env, s.mal) && callee in s.mal.pds && WellSized(s.mal.pds[callee])
    requires m == SwitchLayer(s.mal, callee, flagsOnYield, Read32(s.mem, ctx + FLAGS))
    requires w == LoadMemory(s.mem, ctx, env.stkalign) && l == LoadState(s.mem, w, ctx, env.stkalign)
    ensures Switch(env, s, callee, flagsOnYield, ctx)
         == (KState(m, w, s.usedFpu, callee == s.mal.root && Read32(s.mem, ctx + FLAGS) == 0),
             Switched(l, l.kind.Basic? && s.usedFpu))
  {
  }

  lemma SwitchSound(env: Env, s: KState, callee: Paddr, flagsOnYield: Word, ctx: Paddr)
    requires KernelOk(env, s.mal) && callee in s.mal.pds
    ensures Sound(env, s.mal, s.masked, callee, Switch(env, s, callee, flagsOnYield, ctx))
    ensures var (r, o) := Switch(env, s, callee, flagsOnYield, ctx);
            && r.mem == LoadMemory(s.mem, ctx, env.stkalign)
            && r.mal.pds[callee].intState == Read32(s.mem, ctx + FLAGS)
  {
    SwitchLayerOk(env, s.mal, callee, flagsOnYield, Read32(s.mem, ctx + FLAGS));
  }

  lemma SaveSourceSound(env: Env, s: KState, callee: Paddr, caller: Paddr, save: Word,
      flagsOnYield: Word, flagsOnWake: Word, ctx: Paddr, target: Paddr)
    requires KernelOk(env, s.mal) && callee in s.mal.pds && caller in s.mal.pds
    ensures var r := SaveSource(env, s, callee, caller, save, flagsOnYield, flagsOnWake, ctx, target);
            && Sound(env, s.mal, s.masked, callee, r)
            && (r.1.Failed? ==> r.0 == s && (r.1.code.CallerContext? || r.1.code == CalleeContext(Misaligned)))
  {
    if CallerCheck(env, s, caller, save, ctx).None? {
      SwitchSound(env, s.(mem := AfterSave(s.mem, ctx, save, flagsOnWake)), callee, flagsOnYield, target);
    }
  }

  lemma TargetContextSound(env: Env, s: KState, callee: Paddr, caller: Paddr, save: Word, irq: nat,
      flagsOnYield: Word, flagsOnWake: Word, ctx: Option<Paddr>, stray: Word)
    requires KernelOk(env, s.mal) && callee in s.mal.pds && caller in s.mal.pds
    requires save != NULL ==> ctx.Some?
    ensures var r := TargetContext(env, s, callee, caller, save, irq, flagsOnYield, flagsOnWake, ctx, stray);
            && Sound(env, s.mal, s.masked, callee, r)
            && (r.1.Failed? ==> r.0 == s.(usedFpu := r.0.usedFpu))
            && (r.1.Failed? && r.0.usedFpu != s.usedFpu
                ==> r.1.code.CallerContext? || r.1.code == CalleeContext(Misaligned))
  {
    var target := VidtEntry(s, callee, irq);
    if CalleeCheck(env, s, callee, target).None? {
      var s1 := s.(usedFpu := InterruptedKind(s, ctx, stray) == 0);
      if save != NULL {
        SaveSourceSound(env, s1, callee, caller, save, flagsOnYield, flagsOnWake, ctx.value, target);
      } else {
        SwitchSound(env, s1, callee, flagsOnYield, target);
      }
    }
  }

  /** getTargetPartVidtCont is sound; and an error comes either before anything is written, or after the
      callee's VIDT has been validated and its first word written. */
  lemma TargetVidtSound(env: Env, s: KState, callee: Paddr, caller: Paddr, save: Word, irq: Word,
      flagsOnYield: Word, flagsOnWake: Word, ctx: Option<Paddr>, stray: Word)
    requires KernelOk(env, s.mal) && callee in s.mal.pds && caller in s.mal.pds
    requires save != NULL ==> ctx.Some?
    ensures var r := TargetVidt(env, s, callee, caller, save, irq, flagsOnYield, flagsOnWake, ctx, stray);
            && Sound(env, s.mal, s.masked, callee, r)
            && (r.1.Failed? ==> ErrorEffect(env, s, callee, irq, r))
  {
    if VidtCheck(env, s.mal, callee).None? {
      TargetContextSound(env, Announce(s, callee, irq), callee, caller, save, irq, flagsOnYield, flagsOnWake, ctx,
          stray);
    }
  }

  /** The same for getSourcePartVidtCont. */
  lemma SourceVidtSound(env: Env, s: KState, callee: Paddr, caller: Paddr, irq: Word, saveIndex: nat,
      flagsOnYield: Word, flagsOnWake: Word, ctx: Paddr)
    requires KernelOk(env, s.mal) && callee in s.mal.pds && caller in s.mal.pds
    ensures var r := SourceVidt(env, s, callee, caller, irq, saveIndex, flagsOnYield, flagsOnWake, ctx);
            && Sound(env, s.mal, s.masked, callee, r)
            && (r.1.Failed? ==> ErrorEffect(env, s, callee, irq, r))
  {
    if VidtCheck(env, s.mal, caller).None? {
      TargetVidtSound(env, s, callee, caller, VidtEntry(s, caller, saveIndex), irq, flagsOnYield, flagsOnWake,
          Some(ctx), 0);
    }
  }

  /** What a failed yield may have done: written the callee's current-interrupt word, once its VIDT was
      validated, and set previousContextUseFpu, once its context was. */
  ghost predicate ErrorEffect(env: Env, s: KState, callee: Paddr, irq: Word, r: (KState, Outcome))
    requires KernelOk(env, s.mal) && callee in s.mal.pds && r.1.Failed?
  {
    || r.0 == s
    || (VidtCheck(env, s.mal, callee).None? && r.0 == Announce(s, callee, irq).(usedFpu := r.0.usedFpu)
        && (r.0.usedFpu == s.usedFpu || r.1.code.CallerContext? || r.1.code == CalleeContext(Misaligned)))
  }

  /** The yield frame condition for errors. Beyond the interrupted context's stack pointer word, a yield
      that returns an error changes at most the current-interrupt word of the callee it addressed, whose
      VIDT was validated, and the floating-point flag. */
  lemma YieldError(env: Env, s: KState, q: Request, r: (KState, Outcome))
    requires KernelOk(env, s.mal) && s.mal.current in s.mal.pds && r == YieldCall(env, s, q) && r.1.Failed?
    ensures r.0.mal == s.mal && r.0.masked == s.masked
    ensures r.0 == Entered(env, s, q.ctx) || (Callee(env, s, q.localId).Some?
      && ErrorEffect(env, Entered(env, s, q.ctx), Callee(env, s, q.localId).value, q.irq, r))
  {
    if r.0 != Entered(env, s, q.ctx) {
      CalleeKnown(env, s, q.localId);
      AttemptFails(env, Entered(env, s, q.ctx), q, Callee(env, s, q.localId).value, r);
    }
  }

  lemma AttemptFails(env: Env, s: KState, q: Request, callee: Paddr, r: (KState, Outcome))
    requires KernelOk(env, s.mal) && s.mal.current in s.mal.pds && callee in s.mal.pds && r.1.Failed?
    requires r == SourceVidt(env, s, callee, s.mal.current, q.irq, q.saveIndex, q.flagsOnYield, q.flagsOnWake, q.ctx)
    ensures r.0.mal == s.mal && r.0.masked == s.masked && ErrorEffect(env, s, callee, q.irq, r)
  {
    SourceVidtSound(env, s, callee, s.mal.current, q.irq, q.saveIndex, q.flagsOnYield, q.flagsOnWake, q.ctx);
  }

  lemma CalleeKnown(env: Env, s: KState, localId: Paddr)
    requires KernelOk(env, s.mal) && s.mal.current in s.mal.pds && Callee(env, s, localId).Some?
    ensures Callee(env, s, localId).value in s.mal.pds
  {
  }

  /** The yield switches to `callee`, with save address `save` and result `r`. */
  ghost predicate Switches(env: Env, s: KState, q: Request, callee: Paddr, save: Word, r: (KState, Outcome)) {
    && KernelOk(env, s.mal) && s.mal.current in s.mal.pds
    && r == YieldCall(env, s, q) && r.1.Switched?
    && Callee(env, s, q.localId) == Some(callee)
    && save == VidtEntry(Entered(env, s, q.ctx), s.mal.current, q.saveIndex)
  }

  /** Every yield that switches does so for some callee and save address. */
  lemma SwitchesTo(env: Env, s: KState, q: Request) returns (callee: Paddr, save: Word)
    requires KernelOk(env, s.mal) && s.mal.current in s.mal.pds && YieldCall(env, s, q).1.Switched?
    ensures Switches(env, s, q, callee, save, YieldCall(env, s, q))
  {
    callee := Callee(env, s, q.localId).value;
    save := VidtEntry(Entered(env, s, q.ctx), s.mal.current, q.saveIndex);
  }

  /** It has then passed the checks of the caller's VIDT and makes an attempt to switch to the callee. */
  lemma YieldAttempt(env: Env, s: KState, q: Request, callee: Paddr, save: Word, r: (KState, Outcome))
    requires Switches(env, s, q, callee, save, r)
    ensures callee in s.mal.pds
    ensures r == TargetVidt(env, Entered(env, s, q.ctx), callee, s.mal.current, save, q.irq,
              q.flagsOnYield, q.flagsOnWake, Some(q.ctx), 0)
  {
    CalleeKnown(env, s, q.localId);
  }

  /** A yield that switches goes to the callee it addressed. */
  lemma YieldSwitch(env: Env, s: KState, q: Request, callee: Paddr, save: Word, r: (KState, Outcome))
    requires Switches(env, s, q, callee, save, r)
    ensures callee in s.mal.pds && Sound(env, s.mal, s.masked, callee, r)
  {
    YieldAttempt(env, s, q, callee, save, r);
    TargetVidtSound(env, Entered(env, s, q.ctx), callee, s.mal.current, save, q.irq, q.flagsOnYield, q.flagsOnWake,
      Some(q.ctx), 0);
  }

  // ----- where a context is saved ------------------------------------------------------------

  /** A block in which a context of the given kind may be saved at `a`. */
  predicate Saveable(b: Block, a: Word, kind: Kind) {
    b.present && b.accessible && b.write && a % 4 == 0 && b.start <= a && a + kind.ContextSize() <= b.last
  }

  /** The checks before a save are exactly these: the first present block that contains the address is
      accessible and writable, the address is aligned, the whole context fits, and the context's kind is
      one of the two known ones. */
  lemma CallerCheckExact(env: Env, s: KState, caller: Paddr, save: Word, ctx: Paddr)
    requires KernelOk(env, s.mal) && caller in s.mal.pds
    ensures CallerCheck(env, s, caller, save, ctx).None? <==>
            var b := Find(env, s.mal, caller, save);
            b.Some? && Read32(s.mem, ctx) <= 1 && Saveable(b.value, save, KindAt(s.mem, ctx))
  {
  }

  /** The memory in which the callee's context is found: the interrupt is announced and the caller saved. */
  function BeforeLoad(env: Env, s: KState, callee: Paddr, save: Word, irq: Word, flagsOnWake: Word, ctx: Paddr): Words
    requires callee in s.mal.pds
  {
    var m := Announce(s, callee, irq).mem;
    if save == NULL then m else AfterSave(m, ctx, save, flagsOnWake)
  }

  /** What a successful attempt does to the memory `s.mem`: every word it saves lies in one present, accessible,
      writable block of the caller, and the context resumed is the one in the callee's VIDT. The floating-point
      registers are wiped exactly when a basic context follows an extended one. */
  ghost predicate SaveEffect(env: Env, s: KState, callee: Paddr, caller: Paddr, save: Word, irq: Word,
      flagsOnWake: Word, ctx: Paddr, r: (KState, Outcome))
    requires callee in s.mal.pds && caller in s.mal.pds
  {
    var announced := Announce(s, callee, irq);
    var target := VidtEntry(announced, callee, irq);
    var m := BeforeLoad(env, s, callee, save, irq, flagsOnWake, ctx);
    && r.1.Switched?
    && r.0.mem == LoadMemory(m, target, env.stkalign)
    && r.1.l == LoadState(m, r.0.mem, target, env.stkalign)
    && (save != NULL ==> SavedInOwnBlock(env, s.mal, caller, save, KindAt(announced.mem, ctx)))
    && (r.1.clearFpu <==> r.1.l.kind.Basic? && KindAt(announced.mem, ctx).Extended?)
  }

  /** What a successful yield saves and resumes. */
  lemma YieldSaves(env: Env, s: KState, q: Request, callee: Paddr, save: Word, r: (KState, Outcome))
    requires Switches(env, s, q, callee, save, r)
    ensures callee in s.mal.pds && VidtCheck(env, s.mal, callee).None?
    ensures SaveEffect(env, Entered(env, s, q.ctx), callee, s.mal.current, save, q.irq, q.flagsOnWake, q.ctx, r)
  {
    YieldAttempt(env, s, q, callee, save, r);
    AttemptSaves(env, Entered(env, s, q.ctx), callee, s.mal.current, save, q.irq, q.flagsOnYield, q.flagsOnWake, q.ctx,
        r);
  }

  lemma AttemptSaves(env: Env, s: KState, callee: Paddr, caller: Paddr, save: Word, irq: Word,
      flagsOnYield: Word, flagsOnWake: Word, ctx: Paddr, r: (KState, Outcome))
    requires KernelOk(env, s.mal) && callee in s.mal.pds && caller in s.mal.pds && r.1.Switched?
    requires r == TargetVidt(env, s, callee, caller, save, irq, flagsOnYield, flagsOnWake, Some(ctx), 0)
    ensures VidtCheck(env, s.mal, callee).None?
    ensures SaveEffect(env, s, callee, caller, save, irq, flagsOnWake, ctx, r)
  {
    SwitchPath(env, s, callee, caller, save, irq, flagsOnYield, flagsOnWake, ctx);
    if save != NULL {
      var s2 := Announce(s, callee, irq);
      SaveInBlock(env, s2.(usedFpu := Read32(s2.mem, ctx) == 0), caller, save, ctx);
    }
  }

  /** The way of a successful attempt. */
  lemma SwitchPath(env: Env, s: KState, callee: Paddr, caller: Paddr, save: Word, irq: Word,
      flagsOnYield: Word, flagsOnWake: Word, ctx: Paddr)
    requires KernelOk(env, s.mal) && callee in s.mal.pds && caller in s.mal.pds
    requires TargetVidt(env, s, callee, caller, save, irq, flagsOnYield, flagsOnWake, Some(ctx), 0).1.Switched?
    ensures var (r, o) := TargetVidt(env, s, callee, caller, save, irq, flagsOnYield, flagsOnWake, Some(ctx), 0);
            var s2 := Announce(s, callee, irq);
            var s3 := s2.(usedFpu := Read32(s2.mem, ctx) == 0);
            var m := BeforeLoad(env, s, callee, save, irq, flagsOnWake, ctx);
            && VidtCheck(env, s.mal, callee).None?
            && (save != NULL ==> CallerCheck(env, s3, caller, save, ctx).None?)
            && r.mem == LoadMemory(m, VidtEntry(s2, callee, irq), env.stkalign)
            && o.l == LoadState(m, r.mem, VidtEntry(s2, callee, irq), env.stkalign)
            && (o.clearFpu <==> o.l.kind.Basic? && Read32(s2.mem, ctx) == 0)
  {
  }

  lemma SaveInBlock(env: Env, s: KState, caller: Paddr, save: Word, ctx: Paddr)
    requires KernelOk(env, s.mal) && caller in s.mal.pds && CallerCheck(env, s, caller, save, ctx).None?
    ensures SavedInOwnBlock(env, s.mal, caller, save, KindAt(s.mem, ctx))
  {
    CallerCheckExact(env, s, caller, save, ctx);
    var b := Find(env, s.mal, caller, save).value;
    var e :| e in s.mal.pds[caller].structure && env.entries[e] == b;
    assert Saveable(env.entries[e], save, KindAt(s.mem, ctx));
  }

  ghost predicate SavedInOwnBlock(env: Env, m: MalState, p: Paddr, save: Word, kind: Kind)
    requires p in m.pds
  {
    exists e :: e in m.pds[p].structure && e in env.entries && Saveable(env.entries[e], save, kind)
  }

  // ----- what a yield writes --------------------------------------------------------------------

  /** What a yield from `s` to `callee` finds when it resumes it, all of it known before the call: where the
      context is, the memory it is in, its kind, and where the hardware frame goes, which is wherever the stack
      pointer in that context says. */
  function Target(env: Env, s: KState, q: Request, callee: Paddr): Word
    requires callee in s.mal.pds
  {
    VidtEntry(Announce(Entered(env, s, q.ctx), callee, q.irq), callee, q.irq)
  }

  function MemoryAtLoad(env: Env, s: KState, q: Request, callee: Paddr, save: Word): Words
    requires callee in s.mal.pds
  {
    BeforeLoad(env, Entered(env, s, q.ctx), callee, save, q.irq, q.flagsOnWake, q.ctx)
  }

  function ResumedKind(env: Env, s: KState, q: Request, callee: Paddr, save: Word): Kind
    requires callee in s.mal.pds
  {
    KindAt(MemoryAtLoad(env, s, q, callee, save), Target(env, s, q, callee))
  }

  function ResumedFrame(env: Env, s: KState, q: Request, callee: Paddr, save: Word): Word
    requires callee in s.mal.pds
  {
    PushedFrame(SpOf(MemoryAtLoad(env, s, q, callee, save), Target(env, s, q, callee)),
      ResumedKind(env, s, q, callee, save), env.stkalign)
  }

  /** The kind of the context that is saved. */
  function SavedKind(env: Env, s: KState, q: Request, callee: Paddr): Kind
    requires callee in s.mal.pds
  {
    KindAt(Announce(Entered(env, s, q.ctx), callee, q.irq).mem, q.ctx)
  }

  lemma YieldFrame(env: Env, s: KState, q: Request, callee: Paddr, save: Word, r: (KState, Outcome))
    requires Switches(env, s, q, callee, save, r) && callee in s.mal.pds
    ensures r.0.mem == LoadMemory(MemoryAtLoad(env, s, q, callee, save), Target(env, s, q, callee), env.stkalign)
    ensures r.1.l.frame == ResumedFrame(env, s, q, callee, save) && r.1.l.kind == ResumedKind(env, s, q, callee, save)
  {
    YieldSaves(env, s, q, callee, save, r);
    LoadFrame(SpOf(MemoryAtLoad(env, s, q, callee, save), Target(env, s, q, callee)),
      ResumedKind(env, s, q, callee, save), env.stkalign);
  }

  /** The stack pointer word of the interrupted context. */
  function SpWord(s: KState, ctx: Paddr): Word {
    At(ctx + FRAME, KindAt(s.mem, ctx).SpIndex())
  }

  /** The words a successful yield writes: the interrupted context's stack pointer, the callee's
      current-interrupt word, the slot, and the frame of the resumed context. */
  ghost predicate Written(env: Env, s: KState, q: Request, callee: Paddr, save: Word, x: Word)
    requires callee in s.mal.pds
  {
    || x == SpWord(s, q.ctx)
    || x == At(s.mal.pds[callee].vidt, 0)
    || (save != NULL && Within(x, save, SavedKind(env, s, q, callee).Words()))
    || Within(x, ResumedFrame(env, s, q, callee, save), ResumedKind(env, s, q, callee, save).HwLength())
  }

  /** Nothing else changes. */
  lemma YieldWrites(env: Env, s: KState, q: Request, callee: Paddr, save: Word, r: (KState, Outcome), x: Word)
    requires Switches(env, s, q, callee, save, r) && callee in s.mal.pds
    requires !Written(env, s, q, callee, save, x)
    ensures Read32(r.0.mem, x) == Read32(s.mem, x)
  {
    var m := Announce(Entered(env, s, q.ctx), callee, q.irq).mem;
    YieldFrame(env, s, q, callee, save, r);
    SaveFrame(m, q.ctx, save, q.flagsOnWake);
    LoadWrites(MemoryAtLoad(env, s, q, callee, save), Target(env, s, q, callee), env.stkalign);
    LoadFrame(SpOf(MemoryAtLoad(env, s, q, callee, save), Target(env, s, q, callee)),
      ResumedKind(env, s, q, callee, save), env.stkalign);
  }

  /** `x` lies in a present block of the partition. */
  ghost predicate InBlockOf(env: Env, m: MalState, p: Paddr, x: Word)
    requires p in m.pds
  {
    exists e :: e in m.pds[p].structure && e in env.entries && env.entries[e].present && env.entries[e].Contains(x)
  }

  /** `x` lies in a block of the caller or of the callee. */
  ghost predicate InTheirBlocks(env: Env, m: MalState, callee: Paddr, x: Word)
    requires m.current in m.pds && callee in m.pds
  {
    InBlockOf(env, m, m.current, x) || InBlockOf(env, m, callee, x)
  }

  /** A yield writes only inside blocks of caller and callee if and only if the stack pointer word of the context it
      is called with and the frame of the context it resumes lie in them: a condition on the state before the
      call. (The kernel checks where contexts are, and neither where their stack pointers point, nor where the
      entry code has left the interrupted one.) */
  lemma YieldConfinedExact(env: Env, s: KState, q: Request, callee: Paddr, save: Word, r: (KState, Outcome))
    requires Switches(env, s, q, callee, save, r) && callee in s.mal.pds
    ensures (forall x: Word :: Written(env, s, q, callee, save, x) ==> InTheirBlocks(env, s.mal, callee, x))
            <==>
            && InTheirBlocks(env, s.mal, callee, SpWord(s, q.ctx))
            && forall k: nat :: k < ResumedKind(env, s, q, callee, save).HwLength() ==>
                InTheirBlocks(env, s.mal, callee, At(ResumedFrame(env, s, q, callee, save), k))
  {
    YieldChecked(env, s, q, callee, save, r);
    CheckedInBlocks(env, s, q, callee, save);
    InBlocksParts(env, s, q, callee, save);
  }

  lemma YieldChecked(env: Env, s: KState, q: Request, callee: Paddr, save: Word, r: (KState, Outcome))
    requires Switches(env, s, q, callee, save, r) && callee in s.mal.pds
    ensures VidtCheck(env, s.mal, callee).None?
    ensures save != NULL ==> SavedInOwnBlock(env, s.mal, s.mal.current, save, SavedKind(env, s, q, callee))
  {
    YieldSaves(env, s, q, callee, save, r);
  }

  lemma InBlocksParts(env: Env, s: KState, q: Request, callee: Paddr, save: Word)
    requires s.mal.current in s.mal.pds && callee in s.mal.pds
    requires InTheirBlocks(env, s.mal, callee, At(s.mal.pds[callee].vidt, 0))
    requires forall x: Word :: save != NULL && Within(x, save, SavedKind(env, s, q, callee).Words()) ==>
              InTheirBlocks(env, s.mal, callee, x)
    ensures (forall x: Word :: Written(env, s, q, callee, save, x) ==> InTheirBlocks(env, s.mal, callee, x))
            <==>
            && InTheirBlocks(env, s.mal, callee, SpWord(s, q.ctx))
            && forall k: nat :: k < ResumedKind(env, s, q, callee, save).HwLength() ==>
                InTheirBlocks(env, s.mal, callee, At(ResumedFrame(env, s, q, callee, save), k))
  {
    WrittenParts(env, s, q, callee, save);
  }

  /** What the checks of a yield cover. */
  lemma CheckedInBlocks(env: Env, s: KState, q: Request, callee: Paddr, save: Word)
    requires KernelOk(env, s.mal) && s.mal.current in s.mal.pds && callee in s.mal.pds
    requires VidtCheck(env, s.mal, callee).None?
    requires save != NULL ==> SavedInOwnBlock(env, s.mal, s.mal.current, save, SavedKind(env, s, q, callee))
    ensures InTheirBlocks(env, s.mal, callee, At(s.mal.pds[callee].vidt, 0))
    ensures forall x: Word :: save != NULL && Within(x, save, SavedKind(env, s, q, callee).Words()) ==>
              InTheirBlocks(env, s.mal, callee, x)
  {
    VidtInBlock(env, s.mal, callee);
    forall x: Word | save != NULL && Within(x, save, SavedKind(env, s, q, callee).Words())
      ensures InTheirBlocks(env, s.mal, callee, x)
    {
      SlotInBlock(env, s.mal, s.mal.current, save, SavedKind(env, s, q, callee), x);
    }
  }

  lemma WrittenParts(env: Env, s: KState, q: Request, callee: Paddr, save: Word)
    requires callee in s.mal.pds
    ensures Written(env, s, q, callee, save, SpWord(s, q.ctx))
    ensures var frame, n := ResumedFrame(env, s, q, callee, save), ResumedKind(env, s, q, callee, save).HwLength();
            forall k: nat :: k < n ==> Written(env, s, q, callee, save, At(frame, k))
  {
    var frame, n := ResumedFrame(env, s, q, callee, save), ResumedKind(env, s, q, callee, save).HwLength();
    forall k: nat | k < n ensures Written(env, s, q, callee, save, At(frame, k)) {
      assert Within(At(frame, k), frame, n);
    }
  }

  lemma VidtInBlock(env: Env, m: MalState, p: Paddr)
    requires KernelOk(env, m) && p in m.pds && VidtCheck(env, m, p).None?
    ensures InBlockOf(env, m, p, At(m.pds[p].vidt, 0))
  {
    var b := Find(env, m, p, m.pds[p].vidt).value;
    var e :| e in m.pds[p].structure && env.entries[e] == b;
    assert env.entries[e].Contains(At(m.pds[p].vidt, 0));
  }

  lemma SlotInBlock(env: Env, m: MalState, p: Paddr, save: Word, kind: Kind, x: Word)
    requires p in m.pds && SavedInOwnBlock(env, m, p, save, kind) && Within(x, save, kind.Words())
    ensures InBlockOf(env, m, p, x)
  {
    var e :| e in m.pds[p].structure && e in env.entries && Saveable(env.entries[e], save, kind);
    var k: nat :| k < kind.Words() && At(save, k) == x;
    assert env.entries[e].Contains(x);
  }

  /** From one yield to the way back. A thread interrupted with registers `regs` yields and its context is
      saved; whenever that slot, untouched, is resumed, the thread has all its registers back, the xPSR up
      to bits 9 and 24, and the slot asks for the interrupt state the thread wished to wake with. The callee's
      current-interrupt word must not be one of the registers in the stacked context, nor its first word. */
  lemma YieldRoundTrip(env: Env, s: KState, m: Words, later: Words, regs: seq<Word>, kind: Kind,
      q: Request, callee: Paddr, save: Word, r: (KState, Outcome))
    requires Switches(env, s, q, callee, save, r) && callee in s.mal.pds && save != NULL
    requires |regs| == kind.Length() && regs[kind.SpIndex()] % 4 == 0
    requires q.ctx == ContextAddress(regs[kind.SpIndex()], kind, env.stkalign)
    requires s.mem == Stacked(m, regs, kind, env.stkalign)
    requires SafeSlot(q.ctx, save, kind) && NotInContext(s.mal.pds[callee].vidt, q.ctx, kind)
    requires ReadWords(later, save, kind.Words())
          == ReadWords(BeforeLoad(env, Entered(env, s, q.ctx), callee, save, q.irq, q.flagsOnWake, q.ctx), save,
              kind.Words())
    ensures LoadAndReturn(later, save, env.stkalign) == Returned(regs, kind, env.stkalign)
    ensures Read32(later, save + FLAGS) == q.flagsOnWake
  {
    var s1 := Entered(env, s, q.ctx);
    StackedThenReset(m, regs, kind, env.stkalign, q.ctx);
    AnnounceApart(s1, callee, q.irq, q.ctx, kind, Interrupted(regs, kind, env.stkalign));
    SavedResumes(Announce(s1, callee, q.irq).mem, later, regs, kind, env.stkalign, save, q.flagsOnWake);
  }

  /** The word at `a` is no part of a context that writeContext reads. */
  ghost predicate NotInContext(a: Word, ctx: Word, kind: Kind) {
    a != At(ctx, 0) && !Within(a, ctx + FRAME, kind.Length())
  }

  lemma AnnounceApart(s: KState, callee: Paddr, irq: Word, ctx: Word, kind: Kind, regs: seq<Word>)
    requires callee in s.mal.pds && ContextAt(s.mem, ctx, kind, regs)
    requires NotInContext(s.mal.pds[callee].vidt, ctx, kind)
    ensures ContextAt(Announce(s, callee, irq).mem, ctx, kind, regs)
  {
    var w, a := Announce(s, callee, irq).mem, ctx + FRAME;
    forall i | 0 <= i < kind.Length() ensures Read32(w, At(a, i)) == regs[i] {
      assert At(a, i) != s.mal.pds[callee].vidt;
      assert regs[i] == ReadWords(s.mem, a, kind.Length())[i];
    }
  }

  // ----- the fallback without saving -----------------------------------------------------------

  /** The callee's VIDT passes its checks, and so does the context in it, once the interrupt number has been
      written. */
  predicate Ready(env: Env, s: KState, callee: Paddr, irq: Word)
    requires KernelOk(env, s.mal) && callee in s.mal.pds
  {
    && VidtCheck(env, s.mal, callee).None?
    && var s1 := Announce(s, callee, irq);
       CalleeCheck(env, s1, callee, VidtEntry(s1, callee, irq)).None?
  }

  /** The caller's VIDT passes and names a save address that is misaligned, in a writable block. */
  predicate MisalignedSave(env: Env, s: KState, caller: Paddr, saveIndex: nat)
    requires KernelOk(env, s.mal) && caller in s.mal.pds
  {
    && VidtCheck(env, s.mal, caller).None?
    && VidtEntry(s, caller, saveIndex) != NULL
    && BlockCheck(env, s.mal, caller, VidtEntry(s, caller, saveIndex), true) == Some(Misaligned)
  }

  /** On which side the first attempt fails. */
  lemma AttemptCases(env: Env, s: KState, callee: Paddr, caller: Paddr, irq: Word, saveIndex: nat,
      flagsOnYield: Word, flagsOnWake: Word, ctx: Paddr)
    requires KernelOk(env, s.mal) && callee in s.mal.pds && caller in s.mal.pds
    ensures var r := SourceVidt(env, s, callee, caller, irq, saveIndex, flagsOnYield, flagsOnWake, ctx);
            if VidtCheck(env, s.mal, caller).Some? then r.0 == s && r.1.Failed? && r.1.code.CallerVidt?
            else if !Ready(env, s, callee, irq) then r.1.Failed? && (r.1.code.CalleeVidt? || r.1.code.CalleeContext?)
            else if MisalignedSave(env, s, caller, saveIndex) then r.1 == Failed(CalleeContext(Misaligned))
            else r.1.Failed? ==> r.1.code.CallerContext? && r.1.code.c != Misaligned
  {
    if VidtCheck(env, s.mal, caller).None? {
      TargetCases(env, s, callee, caller, VidtEntry(s, caller, saveIndex), irq, flagsOnYield, flagsOnWake, ctx);
    }
  }

  lemma TargetCases(env: Env, s: KState, callee: Paddr, caller: Paddr, save: Word, irq: Word,
      flagsOnYield: Word, flagsOnWake: Word, ctx: Paddr)
    requires KernelOk(env, s.mal) && callee in s.mal.pds && caller in s.mal.pds
    ensures var o := TargetVidt(env, s, callee, caller, save, irq, flagsOnYield, flagsOnWake, Some(ctx), 0).1;
            if !Ready(env, s, callee, irq) then o.Failed? && (o.code.CalleeVidt? || o.code.CalleeContext?)
            else if save != NULL && BlockCheck(env, s.mal, caller, save, true) == Some(Misaligned) then
              o == Failed(CalleeContext(Misaligned))
            else o.Failed? ==> o.code.CallerContext? && o.code.c != Misaligned
  {
    if Ready(env, s, callee, irq) && save != NULL {
      var s2 := Announce(s, callee, irq);
      var s3 := s2.(usedFpu := InterruptedKind(s2, Some(ctx), 0) == 0);
      SaveCases(env, s3, callee, caller, save, flagsOnYield, flagsOnWake, ctx, VidtEntry(s2, callee, irq));
    }
  }

  lemma SaveCases(env: Env, s: KState, callee: Paddr, caller: Paddr, save: Word,
      flagsOnYield: Word, flagsOnWake: Word, ctx: Paddr, target: Paddr)
    requires KernelOk(env, s.mal) && callee in s.mal.pds && caller in s.mal.pds
    ensures var o := SaveSource(env, s, callee, caller, save, flagsOnYield, flagsOnWake, ctx, target).1;
            if BlockCheck(env, s.mal, caller, save, true) == Some(Misaligned) then
              o == Failed(CalleeContext(Misaligned))
            else o.Failed? ==> o.code.CallerContext? && o.code.c != Misaligned
  {
  }

  /** Without a save address the callee is resumed exactly when its VIDT and its context pass. */
  lemma NoSaveExact(env: Env, s: KState, callee: Paddr, caller: Paddr, irq: Word,
      flagsOnYield: Word, flagsOnWake: Word, stray: Word)
    requires KernelOk(env, s.mal) && callee in s.mal.pds && caller in s.mal.pds
    ensures TargetVidt(env, s, callee, caller, NULL, irq, flagsOnYield, flagsOnWake, None, stray).1.Switched? <==>
            Ready(env, s, callee, irq)
  {
  }

  /** In the retry the unspecified read decides whether the floating-point registers are wiped. They are wiped
      as they should be, after an extended context and before a basic one, exactly when an extended context is
      resumed or the value read happens to be 0 just for an extended one. */
  lemma RetryClearsFpu(env: Env, s: KState, callee: Paddr, caller: Paddr, irq: Word,
      flagsOnYield: Word, flagsOnWake: Word, stray: Word, interrupted: Kind)
    requires KernelOk(env, s.mal) && callee in s.mal.pds && caller in s.mal.pds
    requires TargetVidt(env, s, callee, caller, NULL, irq, flagsOnYield, flagsOnWake, None, stray).1.Switched?
    ensures var o := TargetVidt(env, s, callee, caller, NULL, irq, flagsOnYield, flagsOnWake, None, stray).1;
            (o.clearFpu <==> o.l.kind.Basic? && interrupted.Extended?)
            <==> (o.l.kind.Extended? || (stray == 0 <==> interrupted.Extended?))
  {
  }

  /** Fallback totality. When the first attempt failed while saving the caller's context, the retry without
      a save address always switches to the callee, whatever the unspecified read through the null context
      yields and even if the callee's context overlaps the word written by the first attempt: writing it
      again changes nothing. */
  lemma FallbackTotal(env: Env, s: KState, callee: Paddr, caller: Paddr, irq: Word, saveIndex: nat,
      flagsOnYield: Word, flagsOnWake: Word, ctx: Paddr, flagsOnYield': Word, flagsOnWake': Word, stray: Word)
    requires KernelOk(env, s.mal) && callee in s.mal.pds && caller in s.mal.pds
    requires SourceVidt(env, s, callee, caller, irq, saveIndex, flagsOnYield, flagsOnWake, ctx).1.Failed?
    requires SourceVidt(env, s, callee, caller, irq, saveIndex, flagsOnYield, flagsOnWake, ctx).1.code.CallerContext?
    ensures var s1 := SourceVidt(env, s, callee, caller, irq, saveIndex, flagsOnYield, flagsOnWake, ctx).0;
            && KernelOk(env, s1.mal) && s1.mal == s.mal
            && var r := TargetVidt(env, s1, callee, caller, NULL, irq, flagsOnYield', flagsOnWake', None, stray);
               r.1.Switched? && Sound(env, s1.mal, s1.masked, callee, r)
  {
    var s1 := SourceVidt(env, s, callee, caller, irq, saveIndex, flagsOnYield, flagsOnWake, ctx).0;
    SourceVidtSound(env, s, callee, caller, irq, saveIndex, flagsOnYield, flagsOnWake, ctx);
    FirstAttempt(env, s, callee, caller, irq, saveIndex, flagsOnYield, flagsOnWake, ctx);
    AnnounceTwice(env, s, s1, callee, irq);
    NoSaveExact(env, s1, callee, caller, irq, flagsOnYield', flagsOnWake', stray);
    TargetVidtSound(env, s1, callee, caller, NULL, irq, flagsOnYield', flagsOnWake', None, stray);
  }

  /** A failure while saving comes after the callee's checks have passed. */
  lemma FirstAttempt(env: Env, s: KState, callee: Paddr, caller: Paddr, irq: Word, saveIndex: nat,
      flagsOnYield: Word, flagsOnWake: Word, ctx: Paddr)
    requires KernelOk(env, s.mal) && callee in s.mal.pds && caller in s.mal.pds
    requires SourceVidt(env, s, callee, caller, irq, saveIndex, flagsOnYield, flagsOnWake, ctx).1.Failed?
    requires SourceVidt(env, s, callee, caller, irq, saveIndex, flagsOnYield, flagsOnWake, ctx).1.code.CallerContext?
    ensures VidtCheck(env, s.mal, callee).None?
    ensures var a := Announce(s, callee, irq);
            && CalleeCheck(env, a, callee, VidtEntry(a, callee, irq)).None?
            && SourceVidt(env, s, callee, caller, irq, saveIndex, flagsOnYield, flagsOnWake, ctx).0
               == a.(usedFpu :=
                 SourceVidt(env, s, callee, caller, irq, saveIndex, flagsOnYield, flagsOnWake, ctx).0.usedFpu)
  {
    AttemptCases(env, s, callee, caller, irq, saveIndex, flagsOnYield, flagsOnWake, ctx);
    FailsLate(env, s, callee, caller, VidtEntry(s, caller, saveIndex), irq, flagsOnYield, flagsOnWake, ctx);
  }

  lemma FailsLate(env: Env, s: KState, callee: Paddr, caller: Paddr, save: Word, irq: Word,
      flagsOnYield: Word, flagsOnWake: Word, ctx: Paddr)
    requires KernelOk(env, s.mal) && callee in s.mal.pds && caller in s.mal.pds
    ensures var (r, o) := TargetVidt(env, s, callee, caller, save, irq, flagsOnYield, flagsOnWake, Some(ctx), 0);
            o.Failed? && o.code.CallerContext? ==> r == Announce(s, callee, irq).(usedFpu := r.usedFpu)
  {
    TargetContextSound(env, Announce(s, callee, irq), callee, caller, save, irq, flagsOnYield, flagsOnWake, Some(ctx),
        0);
  }

  /** Announcing the same interrupt again changes nothing, hence not the callee's checks either. */
  lemma AnnounceTwice(env: Env, s: KState, s1: KState, callee: Paddr, irq: Word)
    requires KernelOk(env, s.mal) && callee in s.mal.pds
    requires s1 == Announce(s, callee, irq).(usedFpu := s1.usedFpu)
    ensures Announce(s1, callee, irq) == s1
    ensures var a := Announce(s, callee, irq);
            CalleeCheck(env, s1, callee, VidtEntry(s1, callee, irq))
                == CalleeCheck(env, a, callee, VidtEntry(a, callee, irq))
  {
    assert Write32(s1.mem, s.mal.pds[callee].vidt, irq) == s1.mem;
    SameChecks(env, Announce(s, callee, irq), s1, callee, irq);
  }

  /** The floating-point flag has no part in the checks. */
  lemma SameChecks(env: Env, s: KState, t: KState, callee: Paddr, irq: Word)
    requires KernelOk(env, s.mal) && callee in s.mal.pds && t == s.(usedFpu := t.usedFpu)
    ensures CalleeCheck(env, t, callee, VidtEntry(t, callee, irq))
         == CalleeCheck(env, s, callee, VidtEntry(s, callee, irq))
  {
  }
}
