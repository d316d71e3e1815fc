/** Runs of the kernel: boot, then any sequence of interrupt-state calls, yields, interrupts, faults and
    steps of the partitions themselves. */
module KernelRuns {
  import opened Bits
  import opened Mal
  import opened Memory
  import opened ExceptionFrames
  import opened Wrappers
  import opened Yield
  import opened YieldProperties
  import opened Faults
  import opened KernelMemory

  datatype Event =
    | SetState(v: Word)
    | YieldEvent(q: Request)
    | InterruptEvent(irq: Word, ctx: Paddr, stray: Word)
    | FaultEvent(irq: Word, ctx: Paddr, stray: Word)
    /** The running partition, a device, or the code that stacks an interrupted context, leaves the memory as
        given. */
    | MemoryEvent(mem: Words)

  /** The invariant: besides well-formedness, interrupts are masked exactly when root runs with interrupt
      state 0, and the hardware regions are those of the running partition. */
  ghost predicate Inv(env: Env, s: KState, depth: map<Paddr, nat>) {
    && KernelOk(env, s.mal) && s.mal.current in s.mal.pds && IsTree(s.mal, depth)
    && MaskOk(s) && RunsInSync(s)
  }

  /** The state after an event, None once the kernel has panicked. */
  ghost function Step(env: Env, s: KState, depth: map<Paddr, nat>, e: Event): Option<KState>
    requires Inv(env, s, depth)
  {
    match e
    case SetState(v) => Some(SetIntState(s, v))
    case YieldEvent(q) => Some(YieldCall(env, s, q).0)
    case InterruptEvent(irq, ctx, stray) =>
      var (r, f) := Interrupt(env, s, irq, ctx, stray);
      if f.Panic? then None else Some(r)
    case FaultEvent(irq, ctx, stray) =>
      var (r, f) := FaultEntry(env, s, irq, ctx, stray, depth);
      if f.Panic? then None else Some(r)
    case MemoryEvent(mem) => Some(s.(mem := mem))
  }

  lemma TreeKept(m: MalState, t: MalState, depth: map<Paddr, nat>)
    requires IsTree(m, depth) && SameButIntStates(m, t)
    ensures IsTree(t, depth)
  {
    forall p | p in t.pds
      ensures p in depth && (p != t.root ==> t.pds[p].parent in depth && depth[t.pds[p].parent] < depth[p])
    {
      assert p in m.pds && t.pds[p].parent == m.pds[p].parent;
    }
  }

  /** A switch establishes the invariant whatever the interrupt masking was before. */
  lemma SoundKeeps(env: Env, s: KState, depth: map<Paddr, nat>, callee: Paddr, r: (KState, Outcome))
    requires Inv(env, s, depth) && callee in s.mal.pds && Sound(env, s.mal, s.masked, callee, r)
    ensures Inv(env, r.0, depth)
  {
    if r.1.Switched? { TreeKept(s.mal, r.0.mal, depth); }
  }

  lemma SetStateKeeps(env: Env, s: KState, depth: map<Paddr, nat>, v: Word)
    requires Inv(env, s, depth)
    ensures Inv(env, SetIntState(s, v), depth)
  {
    WithIntStateOk(env, s.mal, v);
    TreeKept(s.mal, WithIntState(s.mal, v), depth);
  }

  lemma YieldKeeps(env: Env, s: KState, depth: map<Paddr, nat>, q: Request)
    requires Inv(env, s, depth)
    ensures Inv(env, YieldCall(env, s, q).0, depth)
  {
    var r := YieldCall(env, s, q);
    if r.1.Failed? {
      YieldError(env, s, q, r);
    } else {
      var callee, save := SwitchesTo(env, s, q);
      YieldSwitch(env, s, q, callee, save, r);
      SoundKeeps(env, s, depth, callee, r);
    }
  }

  lemma InterruptKeeps(env: Env, s: KState, depth: map<Paddr, nat>, irq: Word, ctx: Paddr, stray: Word)
    requires Inv(env, s, depth) && Interrupt(env, s, irq, ctx, stray).1.Running?
    ensures Inv(env, Interrupt(env, s, irq, ctx, stray).0, depth)
  {
    InterruptEnds(env, s, irq, ctx, stray);
    TreeKept(s.mal, Interrupt(env, s, irq, ctx, stray).0.mal, depth);
  }

  /** A fault that does not panic ends in some ancestor. */
  lemma FaultSame(env: Env, s: KState, depth: map<Paddr, nat>, irq: Word, ctx: Paddr, stray: Word)
    requires KernelOk(env, s.mal) && s.mal.current in s.mal.pds && IsTree(s.mal, depth)
    requires FaultEntry(env, s, irq, ctx, stray, depth).1.Running?
    ensures var r := FaultEntry(env, s, irq, ctx, stray, depth).0;
            && KernelOk(env, r.mal) && r.mal.current in r.mal.pds
            && RunsInSync(r) && MaskOk(r) && SameButIntStates(s.mal, r.mal)
  {
    var p, state := s.mal.current, s.mal.pds[s.mal.current].intState;
    var s1 := s.(mem := AfterReset(s.mem, ctx, env.stkalign));
    var n := Levels(env, s1, p, irq, SaveIndex(state), state, state, ctx, depth);
    PropagationTarget(env, s1, p, irq, SaveIndex(state), state, state, ctx, stray, depth, n);
  }

  lemma FaultKeeps(env: Env, s: KState, depth: map<Paddr, nat>, irq: Word, ctx: Paddr, stray: Word)
    requires Inv(env, s, depth) && FaultEntry(env, s, irq, ctx, stray, depth).1.Running?
    ensures Inv(env, FaultEntry(env, s, irq, ctx, stray, depth).0, depth)
  {
    FaultSame(env, s, depth, irq, ctx, stray);
    TreeKept(s.mal, FaultEntry(env, s, irq, ctx, stray, depth).0.mal, depth);
  }

  lemma StepKeeps(env: Env, s: KState, depth: map<Paddr, nat>, e: Event)
    requires Inv(env, s, depth)
    ensures Step(env, s, depth, e).Some? ==> Inv(env, Step(env, s, depth, e).value, depth)
  {
    match e {
      case SetState(v) => SetStateKeeps(env, s, depth, v);
      case YieldEvent(q) => YieldKeeps(env, s, depth, q);
      case InterruptEvent(irq, ctx, stray) =>
        if Interrupt(env, s, irq, ctx, stray).1.Running? { InterruptKeeps(env, s, depth, irq, ctx, stray); }
      case FaultEvent(irq, ctx, stray) =>
        if FaultEntry(env, s, irq, ctx, stray, depth).1.Running? { FaultKeeps(env, s, depth, irq, ctx, stray); }
      case MemoryEvent(mem) =>
    }
  }

  /** A step changes descriptors in their interrupt states at most. */
  lemma StepSame(env: Env, s: KState, depth: map<Paddr, nat>, e: Event)
    requires Inv(env, s, depth)
    ensures Step(env, s, depth, e).Some? ==> SameButIntStates(s.mal, Step(env, s, depth, e).value.mal)
  {
    if e.FaultEvent? {
      FaultEventSame(env, s, depth, e);
    } else if e.InterruptEvent? {
      InterruptSame(env, s, e.irq, e.ctx, e.stray);
    } else if e.YieldEvent? {
      YieldSame(env, s, e.q);
    } else if e.SetState? {
      WithIntStateOk(env, s.mal, e.v);
    }
  }

  lemma FaultEventSame(env: Env, s: KState, depth: map<Paddr, nat>, e: Event)
    requires Inv(env, s, depth) && e.FaultEvent?
    ensures Step(env, s, depth, e).Some? ==> SameButIntStates(s.mal, Step(env, s, depth, e).value.mal)
  {
    if FaultEntry(env, s, e.irq, e.ctx, e.stray, depth).1.Running? {
      FaultSame(env, s, depth, e.irq, e.ctx, e.stray);
    }
  }

  lemma InterruptSame(env: Env, s: KState, irq: Word, ctx: Paddr, stray: Word)
    requires KernelOk(env, s.mal) && s.mal.current in s.mal.pds
    ensures SameButIntStates(s.mal, Interrupt(env, s, irq, ctx, stray).0.mal)
  {
    InterruptEnds(env, s, irq, ctx, stray);
  }

  lemma YieldSame(env: Env, s: KState, q: Request)
    requires KernelOk(env, s.mal) && s.mal.current in s.mal.pds
    ensures SameButIntStates(s.mal, YieldCall(env, s, q).0.mal)
  {
    var r := YieldCall(env, s, q);
    if r.1.Failed? {
      YieldError(env, s, q, r);
    } else {
      var callee, save := SwitchesTo(env, s, q);
      YieldSwitch(env, s, q, callee, save, r);
    }
  }

  // ----- stores that meet the kernel's own structures ---------------------------------------------

  /** A step of the kernel stores over the kernel's own structures, in one of the two words that it does not check;
      or something else does, in between. */
  ghost predicate Strays(env: Env, kernel: set<Word>, s: KState, depth: map<Paddr, nat>, e: Event)
    requires Inv(env, s, depth)
  {
    match e
    case SetState(v) => false
    case YieldEvent(q) =>
      var o := YieldCall(env, s, q).1;
      Meets(kernel, SpWord(s, q.ctx)) || (o.Switched? && !FrameMisses(kernel, o.l))
    case InterruptEvent(irq, ctx, stray) =>
      var f := Interrupt(env, s, irq, ctx, stray).1;
      Meets(kernel, SpWord(s, ctx)) || (f.Running? && !FrameMisses(kernel, f.l))
    case FaultEvent(irq, ctx, stray) =>
      var f := FaultEntry(env, s, irq, ctx, stray, depth).1;
      Meets(kernel, SpWord(s, ctx)) || (f.Running? && !FrameMisses(kernel, f.l))
    case MemoryEvent(mem) => !Intact(kernel, s.mem, mem)
  }

  /** A yield strays by a condition on the state before it. */
  lemma YieldStrays(env: Env, kernel: set<Word>, s: KState, depth: map<Paddr, nat>, q: Request, callee: Paddr,
      save: Word)
    requires Inv(env, s, depth) && Switches(env, s, q, callee, save, YieldCall(env, s, q)) && callee in s.mal.pds
    ensures Strays(env, kernel, s, depth, YieldEvent(q)) <==>
            || Meets(kernel, SpWord(s, q.ctx))
            || !AreaMisses(kernel, ResumedFrame(env, s, q, callee, save),
                  ResumedKind(env, s, q, callee, save).HwLength())
  {
    YieldFrame(env, s, q, callee, save, YieldCall(env, s, q));
  }

  /** All other stores of the kernel leave its structures alone. */
  lemma StepSpares(env: Env, kernel: set<Word>, s: KState, depth: map<Paddr, nat>, e: Event)
    requires Inv(env, s, depth) && KernelApart(env, kernel, s.mal) && !Strays(env, kernel, s, depth, e)
    ensures Step(env, s, depth, e).Some? ==> Intact(kernel, s.mem, Step(env, s, depth, e).value.mem)
  {
    match e {
      case SetState(v) =>
      case YieldEvent(q) => YieldSpares(env, kernel, s, q);
      case InterruptEvent(irq, ctx, stray) => InterruptSpares(env, kernel, s, irq, ctx, stray);
      case FaultEvent(irq, ctx, stray) => FaultSpares(env, kernel, s, irq, ctx, stray, depth);
      case MemoryEvent(mem) =>
    }
  }

  lemma ApartKept(env: Env, kernel: set<Word>, m: MalState, t: MalState)
    requires KernelApart(env, kernel, m) && SameButIntStates(m, t)
    ensures KernelApart(env, kernel, t)
  {
    forall p | p in t.pds ensures VidtInside(env, t.pds[p]) {
      assert VidtInside(env, m.pds[p]);
    }
  }

  // ----- runs -----------------------------------------------------------------------------------

  /** `t` is reached from `s` by the events. Once a store has met the kernel's structures, nothing is known of
      what they hold, and any state may follow. */
  ghost predicate Reaches(env: Env, kernel: set<Word>, s: KState, depth: map<Paddr, nat>, es: seq<Event>, t: KState)
    requires Inv(env, s, depth)
    decreases |es|
  {
    if es == [] then s == t
    else
      StepKeeps(env, s, depth, es[0]);
      var next := Step(env, s, depth, es[0]);
      || Strays(env, kernel, s, depth, es[0])
      || (next.Some? && Reaches(env, kernel, next.value, depth, es[1..], t))
  }

  /** No step of the run strays. */
  ghost predicate NeverStrays(env: Env, kernel: set<Word>, s: KState, depth: map<Paddr, nat>, es: seq<Event>)
    requires Inv(env, s, depth)
    decreases |es|
  {
    es == []
    || (!Strays(env, kernel, s, depth, es[0]) && (
      StepKeeps(env, s, depth, es[0]);
      var next := Step(env, s, depth, es[0]);
      next.Some? ==> NeverStrays(env, kernel, next.value, depth, es[1..])))
  }

  /** The invariant over every run, and the kernel's words as they were. */
  lemma {:induction false} RunKeeps(env: Env, kernel: set<Word>, s: KState, depth: map<Paddr, nat>, es: seq<Event>,
      t: KState)
    requires Inv(env, s, depth) && KernelApart(env, kernel, s.mal)
    requires NeverStrays(env, kernel, s, depth, es) && Reaches(env, kernel, s, depth, es, t)
    ensures Inv(env, t, depth) && KernelApart(env, kernel, t.mal) && Intact(kernel, s.mem, t.mem)
    decreases |es|
  {
    if es != [] {
      var next := Step(env, s, depth, es[0]).value;
      StepKeeps(env, s, depth, es[0]);
      StepSpares(env, kernel, s, depth, es[0]);
      StepSame(env, s, depth, es[0]);
      ApartKept(env, kernel, s.mal, next.mal);
      RunKeeps(env, kernel, next, depth, es[1..], t);
      IntactBoth(kernel, s.mem, next.mem, t.mem);
    }
  }

  /** The invariant holds in every state that a run may reach exactly when no step of it strays. */
  lemma {:induction false} RunExact(env: Env, kernel: set<Word>, s: KState, depth: map<Paddr, nat>, es: seq<Event>)
    requires Inv(env, s, depth) && KernelApart(env, kernel, s.mal)
    ensures NeverStrays(env, kernel, s, depth, es) <==>
            forall t :: Reaches(env, kernel, s, depth, es, t) ==> Inv(env, t, depth)
    decreases |es|
  {
    if NeverStrays(env, kernel, s, depth, es) {
      forall t | Reaches(env, kernel, s, depth, es, t) ensures Inv(env, t, depth) {
        RunKeeps(env, kernel, s, depth, es, t);
      }
    } else {
      var t := StrayRun(env, kernel, s, depth, es);
    }
  }

  lemma {:induction false} StrayRun(env: Env, kernel: set<Word>, s: KState, depth: map<Paddr, nat>, es: seq<Event>)
    returns (t: KState)
    requires Inv(env, s, depth) && !NeverStrays(env, kernel, s, depth, es)
    ensures Reaches(env, kernel, s, depth, es, t) && !Inv(env, t, depth)
    decreases |es|
  {
    if Strays(env, kernel, s, depth, es[0]) {
      t := s.(mal := s.mal.(current := NULL));
    } else {
      StepKeeps(env, s, depth, es[0]);
      t := StrayRun(env, kernel, Step(env, s, depth, es[0]).value, depth, es[1..]);
    }
  }

  // ----- boot -----------------------------------------------------------------------------------

  /** Boot: no partition is current, and switchContextCont starts root. */
  lemma BootEstablishes(env: Env, s: KState, depth: map<Paddr, nat>, ctx: Paddr)
    requires KernelOk(env, s.mal) && s.mal.current == NULL && IsTree(s.mal, depth)
    ensures var r := Switch(env, s, s.mal.root, 0, ctx).0;
            Inv(env, r, depth) && (r.masked <==> Read32(s.mem, ctx + FLAGS) == 0)
  {
    SwitchSound(env, s, s.mal.root, 0, ctx);
    TreeKept(s.mal, Switch(env, s, s.mal.root, 0, ctx).0.mal, depth);
  }

  /** The state in which root starts. */
  ghost function Booted(env: Env, s: KState, depth: map<Paddr, nat>, ctx: Paddr): (r: KState)
    requires KernelOk(env, s.mal) && s.mal.current == NULL && IsTree(s.mal, depth)
    ensures Inv(env, r, depth)
  {
    BootEstablishes(env, s, depth, ctx);
    Switch(env, s, s.mal.root, 0, ctx).0
  }

  lemma BootSpares(env: Env, kernel: set<Word>, s: KState, depth: map<Paddr, nat>, ctx: Paddr)
    requires KernelOk(env, s.mal) && s.mal.current == NULL && IsTree(s.mal, depth) && KernelApart(env, kernel, s.mal)
    requires FrameMisses(kernel, LoadState(s.mem, LoadMemory(s.mem, ctx, env.stkalign), ctx, env.stkalign))
    ensures var t := Booted(env, s, depth, ctx); KernelApart(env, kernel, t.mal) && Intact(kernel, s.mem, t.mem)
  {
    SwitchSound(env, s, s.mal.root, 0, ctx);
    SwitchSpares(env, kernel, s, s.mal.root, 0, ctx);
    ApartKept(env, kernel, s.mal, Booted(env, s, depth, ctx).mal);
  }

  /** After boot and any run in which no store strays, interrupts are masked exactly when root runs with interrupt
      state 0; no other partition ever runs masked, whatever flags it passed; the MPU holds the regions of the
      running partition; and the kernel's words are as they were before the boot. */
  lemma MaskingInvariant(env: Env, kernel: set<Word>, s: KState, depth: map<Paddr, nat>, ctx: Paddr, es: seq<Event>,
      t: KState)
    requires KernelOk(env, s.mal) && s.mal.current == NULL && IsTree(s.mal, depth) && KernelApart(env, kernel, s.mal)
    requires FrameMisses(kernel, LoadState(s.mem, LoadMemory(s.mem, ctx, env.stkalign), ctx, env.stkalign))
    requires NeverStrays(env, kernel, Booted(env, s, depth, ctx), depth, es)
    requires Reaches(env, kernel, Booted(env, s, depth, ctx), depth, es, t)
    ensures t.mal.root in t.mal.pds
        && (t.masked <==> t.mal.current == t.mal.root && t.mal.pds[t.mal.root].intState == 0)
    ensures t.mal.current != t.mal.root ==> !t.masked
    ensures RunsInSync(t) && Intact(kernel, s.mem, t.mem)
  {
    BootSpares(env, kernel, s, depth, ctx);
    RunKeeps(env, kernel, Booted(env, s, depth, ctx), depth, es, t);
    IntactBoth(kernel, s.mem, Booted(env, s, depth, ctx).mem, t.mem);
  }
}
