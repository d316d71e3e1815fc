/** The yield service of yield_c.c: the chain of checks that ends in saving the caller's context and
    resuming a context of the callee. */
module Yield {
  import opened Bits
  import opened LookupTable
  import opened Mal
  import opened Memory
  import opened ExceptionFrames
  import opened Wrappers

  const VIDT_INTERRUPT_NUMBER: nat := 56
  const VIDT_SIZE: nat := 228

  // ----- state -----------------------------------------------------------------------------

  /** What does not change while the kernel runs its checks: the block entries, the answers of
      checkChildOfCurrPart (from a partition and a local identifier to the child's descriptor), the
      stack-alignment setting. */
  datatype Env = Env(entries: map<Paddr, Block>, children: map<(Paddr, Paddr), Paddr>, stkalign: bool)

  /** The memory layer, the memory, previousContextUseFpu, and whether BASEPRI masks interrupts. */
  datatype KState = KState(mal: MalState, mem: Words, usedFpu: bool, masked: bool)

  datatype VidtError = IsNull | NotPresent | NotAccessible | TooSmall

  datatype ContextError =
    | BlockNotFound | BlockNotPresent | BlockNotAccessible | BlockLacksRight | Misaligned | ExceedsBlockEnd

  /** The return codes. */
  datatype Code =
    | CalleeInvalidIndex
    | CallerInvalidIndex
    | CalleeNotChild
    | CalleeIsParentOfRoot
    | CallerVidt(v: VidtError)
    | CalleeVidt(v: VidtError)
    | CallerContext(c: ContextError)
    | CalleeContext(c: ContextError)

  /** A yield either fails with a code, or does not return: a context is resumed. `clearFpu` says that
      the floating-point registers are wiped first. */
  datatype Outcome = Failed(code: Code) | Switched(l: Loaded, clearFpu: bool)

  /** Every descriptor's structure lists block entries, every child and every parent is a descriptor. */
  ghost predicate KernelOk(env: Env, m: MalState) {
    && EntriesOk(env.entries) && StateOk(env.entries, m)
    && m.root in m.pds
    && (forall p, e :: p in m.pds && e in m.pds[p].structure ==> e in env.entries)
    && (forall p :: p in m.pds && p != m.root ==> m.pds[p].parent in m.pds)
    && (forall k :: k in env.children ==> env.children[k] in m.pds)
  }

  // ----- checks ------------------------------------------------------------------------------

  /** The entries the search visits: those of the first eight kernel structures, of eight entries each. */
  const SEARCH_LIMIT: nat := 64

  function Searched(structure: seq<Paddr>): (r: seq<Paddr>)
    ensures r <= structure && |r| <= SEARCH_LIMIT
  {
    if |structure| <= SEARCH_LIMIT then structure else structure[..SEARCH_LIMIT]
  }

  function FirstBelonging(entries: map<Paddr, Block>, es: seq<Paddr>, a: Word): (r: Option<Block>)
    requires forall e :: e in es ==> e in entries
    ensures r.Some? ==> r.value.present && r.value.start <= a < r.value.last
    ensures r.Some? ==> exists e :: e in es && entries[e] == r.value
    ensures r.None? ==> forall e :: e in es ==> !(entries[e].present && entries[e].start <= a < entries[e].last)
  {
    if es == [] then None
    else
      var b := entries[es[0]];
      if b.present && b.start <= a < b.last then Some(b) else FirstBelonging(entries, es[1..], a)
  }

  /** findBelongingBlock: the first present entry, among those visited, whose block contains the address. (The Coq
      function leaves out the last address of a block.) */
  function FindBelongingBlock(entries: map<Paddr, Block>, structure: seq<Paddr>, a: Word): (r: Option<Block>)
    requires forall e :: e in structure ==> e in entries
    ensures r.Some? ==> r.value.present && r.value.start <= a < r.value.last
    ensures r.Some? ==> exists e :: e in Searched(structure) && entries[e] == r.value
    ensures r.None? ==>
      forall e :: e in Searched(structure) ==> !(entries[e].present && entries[e].start <= a < entries[e].last)
  {
    FirstBelonging(entries, Searched(structure), a)
  }

  /** isNotEnoughSpace */
  predicate NotEnoughSpace(a: Word, last: Word, size: nat) {
    Wrap(last - a) < size
  }

  function Find(env: Env, m: MalState, p: Paddr, a: Word): (r: Option<Block>)
    requires KernelOk(env, m) && p in m.pds
    ensures r.Some? ==> r.value.present && r.value.start <= a < r.value.last
    ensures r.Some? ==> exists e :: e in m.pds[p].structure && env.entries[e] == r.value
  {
    FindBelongingBlock(env.entries, m.pds[p].structure, a)
  }

  /** The four checks of a partition's VIDT. */
  function VidtCheck(env: Env, m: MalState, p: Paddr): Option<VidtError>
    requires KernelOk(env, m) && p in m.pds
  {
    match Find(env, m, p, m.pds[p].vidt)
    case None => Some(IsNull)
    case Some(b) =>
      if !b.present then Some(NotPresent)
      else if !b.accessible then Some(NotAccessible)
      else if b.last - b.start + 1 < VIDT_SIZE then Some(TooSmall)
      else None
  }

  /** The checks of the block holding a context at `a`: to be read in the callee, written in the caller. */
  function BlockCheck(env: Env, m: MalState, p: Paddr, a: Word, write: bool): Option<ContextError>
    requires KernelOk(env, m) && p in m.pds
  {
    match Find(env, m, p, a)
    case None => Some(BlockNotFound)
    case Some(b) =>
      if !b.present then Some(BlockNotPresent)
      else if !b.accessible then Some(BlockNotAccessible)
      else if !(if write then b.write else b.read) then Some(BlockLacksRight)
      else if a % 4 != 0 then Some(Misaligned)
      else None
  }

  /** The check that a context fits, by the isBasicFrame word of that context. */
  function SizeCheck(env: Env, m: MalState, p: Paddr, a: Word, isBasicFrame: Word): Option<ContextError>
    requires KernelOk(env, m) && p in m.pds
  {
    match Find(env, m, p, a)
    case None => None
    case Some(b) =>
      if isBasicFrame == 1 && !NotEnoughSpace(a, b.last, 76) then None
      else if isBasicFrame == 0 && !NotEnoughSpace(a, b.last, 208) then None
      else Some(ExceedsBlockEnd)
  }

  function VidtEntry(s: KState, p: Paddr, i: nat): Word
    requires p in s.mal.pds
  {
    Read32(s.mem, s.mal.pds[p].vidt + 4 + 4 * i)
  }

  /** The checks of the callee's context, the VIDT having been written. */
  function CalleeCheck(env: Env, s: KState, callee: Paddr, a: Word): Option<ContextError>
    requires KernelOk(env, s.mal) && callee in s.mal.pds
  {
    match BlockCheck(env, s.mal, callee, a, false)
    case Some(e) => Some(e)
    case None =>
      var b := Find(env, s.mal, callee, a).value;
      if NotEnoughSpace(a, b.last, 4) then Some(ExceedsBlockEnd)
      else SizeCheck(env, s.mal, callee, a, Read32(s.mem, a))
  }

  /** The checks of the place to save the caller's context in, `ctx` being that context. */
  function CallerCheck(env: Env, s: KState, caller: Paddr, save: Word, ctx: Paddr): Option<ContextError>
    requires KernelOk(env, s.mal) && caller in s.mal.pds
  {
    match BlockCheck(env, s.mal, caller, save, true)
    case Some(e) => Some(e)
    case None => SizeCheck(env, s.mal, caller, save, Read32(s.mem, ctx))
  }

  // ----- the chain ----------------------------------------------------------------------------

  /** What a switch does to the memory layer. */
  function SwitchLayer(m: MalState, callee: Paddr, flagsOnYield: Word, pipflags: Word): MalState
    requires callee in m.pds && WellSized(m.pds[callee])
  {
    var m1 := WithIntState(m, flagsOnYield);
    WithIntState(Activate(m1, callee), pipflags)
  }

  /** switchContextCont: interrupt states, partition, BASEPRI, registers. */
  function Switch(env: Env, s: KState, callee: Paddr, flagsOnYield: Word, ctx: Paddr): (KState, Outcome)
    requires KernelOk(env, s.mal) && callee in s.mal.pds
  {
    var pipflags := Read32(s.mem, ctx + FLAGS);
    assert PdOk(env.entries, s.mal.pds[callee]);
    var w := LoadMemory(s.mem, ctx, env.stkalign);
    var l := LoadState(s.mem, w, ctx, env.stkalign);
    (KState(SwitchLayer(s.mal, callee, flagsOnYield, pipflags), w, s.usedFpu, callee == s.mal.root && pipflags == 0),
     Switched(l, l.kind.Basic? && s.usedFpu))
  }

  /** saveSourcePartCtxCont. A misaligned save address yields the callee's code, as in the source. */
  function SaveSource(env: Env, s: KState, callee: Paddr, caller: Paddr, save: Word,
      flagsOnYield: Word, flagsOnWake: Word, ctx: Paddr, target: Paddr): (KState, Outcome)
    requires KernelOk(env, s.mal) && callee in s.mal.pds && caller in s.mal.pds
  {
    match CallerCheck(env, s, caller, save, ctx)
    case Some(Misaligned) => (s, Failed(CalleeContext(Misaligned)))
    case Some(e) => (s, Failed(CallerContext(e)))
    case None =>
      Switch(env, s.(mem := AfterSave(s.mem, ctx, save, flagsOnWake)), callee, flagsOnYield, target)
  }

  /** The interrupted context's isBasicFrame word. The fallback calls pass a null context, through which
      the source reads an unspecified value, here `stray`. */
  function InterruptedKind(s: KState, ctx: Option<Paddr>, stray: Word): Word {
    match ctx case None => stray case Some(c) => Read32(s.mem, c)
  }

  /** getTargetPartCtxCont */
  function TargetContext(env: Env, s: KState, callee: Paddr, caller: Paddr, save: Word, irq: nat,
      flagsOnYield: Word, flagsOnWake: Word, ctx: Option<Paddr>, stray: Word): (KState, Outcome)
    requires KernelOk(env, s.mal) && callee in s.mal.pds && caller in s.mal.pds
    requires save != NULL ==> ctx.Some?
  {
    var target := VidtEntry(s, callee, irq);
    match CalleeCheck(env, s, callee, target)
    case Some(e) => (s, Failed(CalleeContext(e)))
    case None =>
      var s1 := s.(usedFpu := InterruptedKind(s, ctx, stray) == 0);
      if save != NULL then SaveSource(env, s1, callee, caller, save, flagsOnYield, flagsOnWake, ctx.value, target)
      else Switch(env, s1, callee, flagsOnYield, target)
  }

  /** The interrupt number is written into the first word of the callee's VIDT. */
  function Announce(s: KState, callee: Paddr, irq: Word): KState
    requires callee in s.mal.pds
  {
    s.(mem := Write32(s.mem, s.mal.pds[callee].vidt, irq))
  }

  /** getTargetPartVidtCont */
  function TargetVidt(env: Env, s: KState, callee: Paddr, caller: Paddr, save: Word, irq: Word,
      flagsOnYield: Word, flagsOnWake: Word, ctx: Option<Paddr>, stray: Word): (KState, Outcome)
    requires KernelOk(env, s.mal) && callee in s.mal.pds && caller in s.mal.pds
    requires save != NULL ==> ctx.Some?
  {
    match VidtCheck(env, s.mal, callee)
    case Some(e) => (s, Failed(CalleeVidt(e)))
    case None =>
      TargetContext(env, Announce(s, callee, irq), callee, caller, save, irq, flagsOnYield, flagsOnWake, ctx, stray)
  }

  /** getSourcePartVidtCont */
  function SourceVidt(env: Env, s: KState, callee: Paddr, caller: Paddr, irq: Word, saveIndex: nat,
      flagsOnYield: Word, flagsOnWake: Word, ctx: Paddr): (KState, Outcome)
    requires KernelOk(env, s.mal) && callee in s.mal.pds && caller in s.mal.pds
  {
    match VidtCheck(env, s.mal, caller)
    case Some(e) => (s, Failed(CallerVidt(e)))
    case None =>
      TargetVidt(env, s, callee, caller, VidtEntry(s, caller, saveIndex), irq, flagsOnYield, flagsOnWake, Some(ctx), 0)
  }

  /** getParentPartDescCont */
  function ParentPart(env: Env, s: KState, caller: Paddr, irq: Word, saveIndex: nat,
      flagsOnYield: Word, flagsOnWake: Word, ctx: Paddr): (KState, Outcome)
    requires KernelOk(env, s.mal) && caller in s.mal.pds
  {
    if caller == s.mal.root then (s, Failed(CalleeIsParentOfRoot))
    else SourceVidt(env, s, s.mal.pds[caller].parent, caller, irq, saveIndex, flagsOnYield, flagsOnWake, ctx)
  }

  /** The partition a yield addresses: the parent for NULL, the caller itself, or a child. */
  function Callee(env: Env, s: KState, localId: Paddr): Option<Paddr>
    requires KernelOk(env, s.mal) && s.mal.current in s.mal.pds
  {
    if localId == NULL then
      if s.mal.current == s.mal.root then None else Some(s.mal.pds[s.mal.current].parent)
    else if localId == s.mal.current then Some(localId)
    else if (s.mal.current, localId) in env.children then Some(env.children[(s.mal.current, localId)])
    else None
  }

  /** The parameters of a yield. */
  datatype Request = Request(
    ctx: Paddr, localId: Paddr, irq: Word, saveIndex: Word, flagsOnYield: Word, flagsOnWake: Word
  )

  /** The state once the interrupted context has been reset. */
  function Entered(env: Env, s: KState, ctx: Paddr): KState {
    s.(mem := AfterReset(s.mem, ctx, env.stkalign))
  }

  /** yieldGlue, checkIntLevelCont, checkCtxSaveIdxCont and getChildPartDescCont. */
  function YieldCall(env: Env, s: KState, q: Request): (KState, Outcome)
    requires KernelOk(env, s.mal) && s.mal.current in s.mal.pds
  {
    var s1 := Entered(env, s, q.ctx);
    if !(q.irq < VIDT_INTERRUPT_NUMBER) then (s1, Failed(CalleeInvalidIndex))
    else if !(q.saveIndex < VIDT_INTERRUPT_NUMBER) then (s1, Failed(CallerInvalidIndex))
    else
      match Callee(env, s, q.localId)
      case None => (s1, Failed(if q.localId == NULL then CalleeIsParentOfRoot else CalleeNotChild))
      case Some(callee) =>
        SourceVidt(env, s1, callee, s.mal.current, q.irq, q.saveIndex, q.flagsOnYield, q.flagsOnWake, q.ctx)
  }
}
