/** What the checks of a yield check: which block is found, which code each fault gives, the order of the whole chain,
    and from where the context that is resumed is read. */
module YieldChecks {
  import opened Bits
  import opened LookupTable
  import opened Mal
  import opened Memory
  import opened ExceptionFrames
  import opened Wrappers
  import opened Yield
  import opened YieldProperties
  import RoundTrip
  import opened Faults
  import opened Instances

  // ----- the block that is found ------------------------------------------------------------------

  /** A present block around `a`, its last address excepted. */
  predicate Around(b: Block, a: Word) {
    b.present && b.start <= a < b.last
  }

  /** Entry `k` of the structure is the first whose block is around `a`, and among the first 64. */
  ghost predicate FirstAround(env: Env, structure: seq<Paddr>, a: Word, k: nat) {
    && k < |structure| && k < 64
    && (forall j :: 0 <= j <= k ==> structure[j] in env.entries)
    && Around(env.entries[structure[k]], a)
    && forall j :: 0 <= j < k ==> !Around(env.entries[structure[j]], a)
  }

  lemma {:induction false} FirstFound(entries: map<Paddr, Block>, es: seq<Paddr>, a: Word) returns (k: nat)
    requires forall e :: e in es ==> e in entries
    ensures FirstBelonging(entries, es, a).Some? ==>
              && k < |es| && FirstBelonging(entries, es, a) == Some(entries[es[k]]) && Around(entries[es[k]], a)
              && forall j :: 0 <= j < k ==> !Around(entries[es[j]], a)
    ensures FirstBelonging(entries, es, a).None? ==> forall j :: 0 <= j < |es| ==> !Around(entries[es[j]], a)
    decreases |es|
  {
    k := 0;
    if es != [] && !Around(entries[es[0]], a) {
      var i := FirstFound(entries, es[1..], a);
      k := i + 1;
      assert forall j :: 0 < j < |es| ==> es[j] == es[1..][j - 1];
    }
  }

  /** The search finds the first of them, or there is none. */
  lemma FindIsFirst(env: Env, m: MalState, p: Paddr, a: Word) returns (k: nat)
    requires KernelOk(env, m) && p in m.pds
    ensures var es := m.pds[p].structure;
            match Find(env, m, p, a)
            case Some(b) => FirstAround(env, es, a, k) && b == env.entries[es[k]]
            case None => forall j :: 0 <= j < |es| && j < 64 ==> es[j] in env.entries && !Around(env.entries[es[j]], a)
  {
    var es := m.pds[p].structure;
    k := FirstFound(env.entries, Searched(es), a);
    assert forall j :: 0 <= j < |Searched(es)| ==> Searched(es)[j] == es[j];
  }

  // ----- which code for which fault ------------------------------------------------------------------

  /** A VIDT: a block around it, accessible, and of 228 bytes at least. */
  lemma VidtCodes(env: Env, m: MalState, p: Paddr)
    requires KernelOk(env, m) && p in m.pds
    ensures var b := Find(env, m, p, m.pds[p].vidt);
            VidtCheck(env, m, p)
            == if b.None? then Some(IsNull)
               else if !b.value.accessible then Some(NotAccessible)
               else if b.value.last - b.value.start < 227 then Some(TooSmall)
               else None
  {
  }

  /** The whole context, by its kind word, ends inside the block. */
  predicate Fits(b: Block, a: Word, kind: Word) {
    (kind == 1 && a + 76 <= b.last) || (kind == 0 && a + 208 <= b.last)
  }

  /** The context to resume: in a block around it, accessible, readable, aligned, and whole. */
  lemma CalleeCodes(env: Env, s: KState, callee: Paddr, a: Word)
    requires KernelOk(env, s.mal) && callee in s.mal.pds
    ensures var b := Find(env, s.mal, callee, a);
            CalleeCheck(env, s, callee, a)
            == if b.None? then Some(BlockNotFound)
               else if !b.value.accessible then Some(BlockNotAccessible)
               else if !b.value.read then Some(BlockLacksRight)
               else if a % 4 != 0 then Some(Misaligned)
               else if !Fits(b.value, a, Read32(s.mem, a)) then Some(ExceedsBlockEnd)
               else None
  {
  }

  /** The place to save to: likewise, but writable, and for a context of the kind of the interrupted one. */
  lemma CallerCodes(env: Env, s: KState, caller: Paddr, save: Word, ctx: Paddr)
    requires KernelOk(env, s.mal) && caller in s.mal.pds
    ensures var b := Find(env, s.mal, caller, save);
            CallerCheck(env, s, caller, save, ctx)
            == if b.None? then Some(BlockNotFound)
               else if !b.value.accessible then Some(BlockNotAccessible)
               else if !b.value.write then Some(BlockLacksRight)
               else if save % 4 != 0 then Some(Misaligned)
               else if !Fits(b.value, save, Read32(s.mem, ctx)) then Some(ExceedsBlockEnd)
               else None
  {
  }

  /** A block from which a context of the given kind may be resumed. */
  predicate Resumable(b: Block, a: Word, kind: Kind) {
    b.present && b.accessible && b.read && a % 4 == 0 && b.start <= a && a + kind.ContextSize() <= b.last
  }

  /** The checks before a context is resumed are exactly these. */
  lemma CalleeCheckExact(env: Env, s: KState, callee: Paddr, a: Word)
    requires KernelOk(env, s.mal) && callee in s.mal.pds
    ensures CalleeCheck(env, s, callee, a).None? <==>
            var b := Find(env, s.mal, callee, a);
            b.Some? && Read32(s.mem, a) <= 1 && Resumable(b.value, a, KindAt(s.mem, a))
  {
    CalleeCodes(env, s, callee, a);
  }

  // ----- the whole chain -----------------------------------------------------------------------------

  /** The outcome is the failure with that code, or a switch. */
  ghost predicate Gives(o: Outcome, c: Option<Code>) {
    match c case Some(x) => o == Failed(x) case None => o.Switched?
  }

  /** What is asked of the save address. A misaligned one gets the callee's code. */
  function SaveError(e: Option<ContextError>): Option<Code> {
    match e
    case None => None
    case Some(Misaligned) => Some(CalleeContext(Misaligned))
    case Some(x) => Some(CallerContext(x))
  }

  function SaveCode(env: Env, s: KState, caller: Paddr, save: Word, ctx: Paddr): Option<Code>
    requires KernelOk(env, s.mal) && caller in s.mal.pds
  {
    if save == 0 then None else SaveError(CallerCheck(env, s, caller, save, ctx))
  }

  /** What is asked of the callee, and then of the save address; None if the attempt switches. */
  function TargetCode(env: Env, s: KState, callee: Paddr, caller: Paddr, save: Word, irq: Word, ctx: Paddr):
    Option<Code>
    requires KernelOk(env, s.mal) && callee in s.mal.pds && caller in s.mal.pds
  {
    var a := s.(mem := Write32(s.mem, s.mal.pds[callee].vidt, irq));
    var target := Read32(a.mem, s.mal.pds[callee].vidt + 4 + 4 * irq);
    match VidtCheck(env, s.mal, callee)
    case Some(e) => Some(CalleeVidt(e))
    case None =>
      match CalleeCheck(env, a, callee, target)
      case Some(e) => Some(CalleeContext(e))
      case None => SaveCode(env, a, caller, save, ctx)
  }

  lemma SaveOutcome(env: Env, s: KState, callee: Paddr, caller: Paddr, save: Word, flagsOnYield: Word,
      flagsOnWake: Word, ctx: Paddr, target: Paddr, o: Outcome, c: Option<ContextError>)
    requires KernelOk(env, s.mal) && callee in s.mal.pds && caller in s.mal.pds
    requires o == SaveSource(env, s, callee, caller, save, flagsOnYield, flagsOnWake, ctx, target).1
    requires c == CallerCheck(env, s, caller, save, ctx)
    ensures Gives(o, SaveError(c))
  {
  }

  lemma ContextOutcome(env: Env, s: KState, callee: Paddr, caller: Paddr, save: Word, irq: Word, target: Word,
      flagsOnYield: Word, flagsOnWake: Word, ctx: Paddr, o: Outcome, e: Option<ContextError>, c: Option<Code>)
    requires KernelOk(env, s.mal) && callee in s.mal.pds && caller in s.mal.pds
    requires target == VidtEntry(s, callee, irq)
    requires o == TargetContext(env, s, callee, caller, save, irq, flagsOnYield, flagsOnWake, Some(ctx), 0).1
    requires e == CalleeCheck(env, s, callee, target) && c == SaveCode(env, s, caller, save, ctx)
    ensures Gives(o, if e.Some? then Some(CalleeContext(e.value)) else c)
  {
    if e.None? && save != NULL {
      var s1 := s.(usedFpu := InterruptedKind(s, Some(ctx), 0) == 0);
      SaveOutcome(env, s1, callee, caller, save, flagsOnYield, flagsOnWake, ctx, target, o,
        CallerCheck(env, s1, caller, save, ctx));
      SameCheck(env, s, caller, save, ctx, s1.usedFpu);
    }
  }

  lemma SameCheck(env: Env, s: KState, caller: Paddr, save: Word, ctx: Paddr, usedFpu: bool)
    requires KernelOk(env, s.mal) && caller in s.mal.pds
    ensures CallerCheck(env, s.(usedFpu := usedFpu), caller, save, ctx) == CallerCheck(env, s, caller, save, ctx)
  {
  }

  lemma VidtOutcome(env: Env, s: KState, callee: Paddr, caller: Paddr, save: Word, irq: Word,
      flagsOnYield: Word, flagsOnWake: Word, ctx: Paddr, o: Outcome, c: Option<Code>)
    requires KernelOk(env, s.mal) && callee in s.mal.pds && caller in s.mal.pds
    requires o == TargetVidt(env, s, callee, caller, save, irq, flagsOnYield, flagsOnWake, Some(ctx), 0).1
    requires c == TargetCode(env, s, callee, caller, save, irq, ctx)
    ensures Gives(o, c)
  {
    if VidtCheck(env, s.mal, callee).None? {
      var a := Announce(s, callee, irq);
      var target := VidtEntry(a, callee, irq);
      ContextOutcome(env, a, callee, caller, save, irq, target, flagsOnYield, flagsOnWake, ctx, o,
        CalleeCheck(env, a, callee, target), SaveCode(env, a, caller, save, ctx));
    }
  }

  lemma AttemptIs(env: Env, s: KState, callee: Paddr, caller: Paddr, save: Word, irq: Word, saveIndex: nat,
      flagsOnYield: Word, flagsOnWake: Word, ctx: Paddr, o: Outcome, v: Option<VidtError>)
    requires KernelOk(env, s.mal) && callee in s.mal.pds && caller in s.mal.pds
    requires save == VidtEntry(s, caller, saveIndex) && v == VidtCheck(env, s.mal, caller)
    requires o == SourceVidt(env, s, callee, caller, irq, saveIndex, flagsOnYield, flagsOnWake, ctx).1
    ensures v.Some? ==> o == Failed(CallerVidt(v.value))
    ensures v.None? ==> o == TargetVidt(env, s, callee, caller, save, irq, flagsOnYield, flagsOnWake, Some(ctx), 0).1
  {
  }

  lemma AttemptOutcome(env: Env, s: KState, callee: Paddr, caller: Paddr, save: Word, irq: Word, saveIndex: nat,
      flagsOnYield: Word, flagsOnWake: Word, ctx: Paddr, o: Outcome, v: Option<VidtError>, c: Option<Code>)
    requires KernelOk(env, s.mal) && callee in s.mal.pds && caller in s.mal.pds
    requires save == VidtEntry(s, caller, saveIndex)
    requires o == SourceVidt(env, s, callee, caller, irq, saveIndex, flagsOnYield, flagsOnWake, ctx).1
    requires v == VidtCheck(env, s.mal, caller) && c == TargetCode(env, s, callee, caller, save, irq, ctx)
    ensures Gives(o, if v.Some? then Some(CallerVidt(v.value)) else c)
  {
    AttemptIs(env, s, callee, caller, save, irq, saveIndex, flagsOnYield, flagsOnWake, ctx, o, v);
    if v.None? { VidtOutcome(env, s, callee, caller, save, irq, flagsOnYield, flagsOnWake, ctx, o, c); }
  }

  /** The partition a yield addresses. */
  function Addressed(env: Env, s: KState, localId: Paddr): Option<Paddr>
    requires s.mal.current in s.mal.pds
  {
    var caller := s.mal.current;
    if localId == caller && localId != 0 then Some(caller)
    else if localId == 0 then (if caller == s.mal.root then None else Some(s.mal.pds[caller].parent))
    else if (caller, localId) in env.children then Some(env.children[(caller, localId)]) else None
  }

  /** The whole chain of a yield: the interrupt level, the save index, the partition addressed, the caller's VIDT, and
      then the callee and the save address, which stands in the caller's VIDT. */
  lemma YieldOutcome(env: Env, s: KState, q: Request, o: Outcome, callee: Option<Paddr>, save: Word)
    requires KernelOk(env, s.mal) && s.mal.current in s.mal.pds
    requires o == YieldCall(env, s, q).1 && callee == Addressed(env, s, q.localId)
    requires save == Read32(Entered(env, s, q.ctx).mem, s.mal.pds[s.mal.current].vidt + 4 + 4 * q.saveIndex)
    ensures q.irq >= 56 ==> o == Failed(CalleeInvalidIndex)
    ensures q.irq < 56 <= q.saveIndex ==> o == Failed(CallerInvalidIndex)
    ensures q.irq < 56 && q.saveIndex < 56 && callee.None? ==>
              o == Failed(if q.localId == 0 then CalleeIsParentOfRoot else CalleeNotChild)
    ensures q.irq < 56 && q.saveIndex < 56 && callee.Some? ==>
              callee.value in s.mal.pds
              && var v := VidtCheck(env, s.mal, s.mal.current);
                 var c := TargetCode(env, Entered(env, s, q.ctx), callee.value, s.mal.current, save, q.irq, q.ctx);
                 Gives(o, if v.Some? then Some(CallerVidt(v.value)) else c)
  {
    AddressedIs(env, s, q.localId);
    if q.irq < 56 && q.saveIndex < 56 && callee.Some? {
      CalleeKnown(env, s, q.localId);
      YieldIs(env, s, q, o, callee.value);
      AttemptOutcome(env, Entered(env, s, q.ctx), callee.value, s.mal.current, save, q.irq, q.saveIndex,
        q.flagsOnYield, q.flagsOnWake, q.ctx, o, VidtCheck(env, s.mal, s.mal.current),
        TargetCode(env, Entered(env, s, q.ctx), callee.value, s.mal.current, save, q.irq, q.ctx));
    }
  }

  lemma YieldIs(env: Env, s: KState, q: Request, o: Outcome, callee: Paddr)
    requires KernelOk(env, s.mal) && s.mal.current in s.mal.pds && callee in s.mal.pds
    requires Callee(env, s, q.localId) == Some(callee) && q.irq < 56 && q.saveIndex < 56
    requires o == YieldCall(env, s, q).1
    ensures o == SourceVidt(env, Entered(env, s, q.ctx), callee, s.mal.current, q.irq, q.saveIndex, q.flagsOnYield,
                   q.flagsOnWake, q.ctx).1
  {
  }

  lemma AddressedIs(env: Env, s: KState, localId: Paddr)
    requires KernelOk(env, s.mal) && s.mal.current in s.mal.pds
    ensures Addressed(env, s, localId) == Callee(env, s, localId)
  {
  }

  // ----- what is written and read ----------------------------------------------------------------------

  /** Announcing an interrupt writes its number into the first word of the callee's VIDT, and nothing else. */
  lemma AnnounceWrites(s: KState, callee: Paddr, irq: Word)
    requires callee in s.mal.pds
    ensures var t := Announce(s, callee, irq);
            && t == s.(mem := t.mem) && Read32(t.mem, s.mal.pds[callee].vidt) == irq
            && forall x: Word :: x != s.mal.pds[callee].vidt ==> Read32(t.mem, x) == Read32(s.mem, x)
  {
  }

  /** The number is still there after a yield that switches, unless the slot or the frame was stored over it. */
  lemma NumberStays(env: Env, s: KState, q: Request, callee: Paddr, save: Word, r: (KState, Outcome))
    requires Switches(env, s, q, callee, save, r) && callee in s.mal.pds
    requires save != NULL ==> !Within(s.mal.pds[callee].vidt, save, SavedKind(env, s, q, callee).Words())
    requires !Within(s.mal.pds[callee].vidt, ResumedFrame(env, s, q, callee, save),
               ResumedKind(env, s, q, callee, save).HwLength())
    ensures Read32(r.0.mem, s.mal.pds[callee].vidt) == q.irq
  {
    var m := Announce(Entered(env, s, q.ctx), callee, q.irq).mem;
    YieldFrame(env, s, q, callee, save, r);
    SaveFrame(m, q.ctx, save, q.flagsOnWake);
    LoadWrites(MemoryAtLoad(env, s, q, callee, save), Target(env, s, q, callee), env.stkalign);
    LoadFrame(SpOf(MemoryAtLoad(env, s, q, callee, save), Target(env, s, q, callee)),
      ResumedKind(env, s, q, callee, save), env.stkalign);
  }

  /** The context that a yield resumes was checked to lie in a present, accessible, readable block of the callee, the
      first around it. It is read after the caller's context was saved: all its words lie in that block if and only if
      it still fits by the kind it has then, which is the one that was checked unless the slot is over its first
      word. */
  lemma ContextReads(env: Env, s: KState, q: Request, callee: Paddr, save: Word, r: (KState, Outcome))
    returns (b: Block)
    requires Switches(env, s, q, callee, save, r) && callee in s.mal.pds
    ensures var a := Target(env, s, q, callee);
            var checked := KindAt(Announce(Entered(env, s, q.ctx), callee, q.irq).mem, a);
            var kind := ResumedKind(env, s, q, callee, save);
            && Find(env, s.mal, callee, a) == Some(b) && Resumable(b, a, checked)
            && ((forall k: nat :: k < kind.Words() ==> b.Contains(At(a, k)) && b.Contains(At(a, k) + 3))
                <==> a + kind.ContextSize() <= b.last + 1)
            && (save == NULL || !Within(a, save, SavedKind(env, s, q, callee).Words()) ==> kind == checked)
  {
    var a := Target(env, s, q, callee);
    b := CheckedBlock(env, s, q, callee, save, r);
    WordsInBlock(b, a, ResumedKind(env, s, q, callee, save));
    SaveFrame(Announce(Entered(env, s, q.ctx), callee, q.irq).mem, q.ctx, save, q.flagsOnWake);
  }

  lemma CheckedBlock(env: Env, s: KState, q: Request, callee: Paddr, save: Word, r: (KState, Outcome))
    returns (b: Block)
    requires Switches(env, s, q, callee, save, r) && callee in s.mal.pds
    ensures var a := Target(env, s, q, callee);
            Find(env, s.mal, callee, a) == Some(b)
            && Resumable(b, a, KindAt(Announce(Entered(env, s, q.ctx), callee, q.irq).mem, a))
  {
    var a := Announce(Entered(env, s, q.ctx), callee, q.irq);
    YieldAttempt(env, s, q, callee, save, r);
    CalleeCheckExact(env, a, callee, VidtEntry(a, callee, q.irq));
    b := Find(env, s.mal, callee, Target(env, s, q, callee)).value;
  }

  lemma WordsInBlock(b: Block, a: Word, kind: Kind)
    requires b.Valid() && b.start <= a <= b.last
    ensures (forall k: nat :: k < kind.Words() ==> b.Contains(At(a, k)) && b.Contains(At(a, k) + 3))
            <==> a + kind.ContextSize() <= b.last + 1
  {
    var n := kind.Words();
    if forall k: nat :: k < n ==> b.Contains(At(a, k)) && b.Contains(At(a, k) + 3) {
      assert b.Contains(At(a, n - 1) + 3);
    } else {
      var k: nat :| k < n && !(b.Contains(At(a, k)) && b.Contains(At(a, k) + 3));
    }
  }

  // ----- a context that is read beyond its block ----------------------------------------------------------

  /** In the kernel of `Instances` the child yields to itself. The context it names, a basic one, is checked to end
      before the block does; the save address is 12 bytes below it, so its first word becomes R4, which is 0. */
  function OverlapState(): KState {
    KState(Layer(32), map[0x2000_0104 := 0x2000_03B0, 0x2000_0108 := 0x2000_03A4, 0x2000_0300 := 1, 0x2000_03B0 := 1],
      false, false)
  }

  function OverlapRequest(): Request {
    Request(0x2000_0300, 32, 0, 1, 0, 0)
  }

  /** The memory once interrupt 0 is announced. */
  function OverlapMemory(): Words {
    map[0x2000_0100 := 0, 0x2000_0104 := 0x2000_03B0, 0x2000_0108 := 0x2000_03A4, 0x2000_0300 := 1,
        0x2000_0308 := 0x20, 0x2000_03B0 := 1]
  }

  lemma OverlapEntered()
    ensures var s1 := Entered(MisalignedEnv(), OverlapState(), 0x2000_0300);
            s1.mal == Layer(32) && Read32(s1.mem, 0x2000_0108) == 0x2000_03A4
            && Announce(s1, 32, 0).mem == OverlapMemory()
  {
    OverlapReset();
  }

  lemma OverlapReset()
    ensures ResetSp(0, 0, Basic, true) == 0x20
  {
    ResetMask(0, Basic, true);
    assert Bit(0, 9) == 0;
    assert Or(0x20, 0) == 0x20;
  }

  lemma OverlapSwitches() returns (r: (KState, Outcome))
    ensures Switches(MisalignedEnv(), OverlapState(), OverlapRequest(), 32, 0x2000_03A4, r)
  {
    var env, s, q := MisalignedEnv(), OverlapState(), OverlapRequest();
    LayerIsOk(32);
    OverlapEntered();
    OverlapPasses(Entered(env, s, q.ctx));
    r := YieldCall(env, s, q);
    YieldOutcome(env, s, q, r.1, Some(32), 0x2000_03A4);
  }

  /** So a context that was checked as a basic one is resumed as an extended one, and its last word is read beyond the
      block. */
  lemma ContextReadBeyond() returns (r: (KState, Outcome))
    ensures Switches(MisalignedEnv(), OverlapState(), OverlapRequest(), 32, 0x2000_03A4, r)
    ensures Target(MisalignedEnv(), OverlapState(), OverlapRequest(), 32) == 0x2000_03B0
    ensures ResumedKind(MisalignedEnv(), OverlapState(), OverlapRequest(), 32, 0x2000_03A4) == Extended
    ensures !InBlockOf(MisalignedEnv(), Layer(32), 32, At(0x2000_03B0, Extended.Words() - 1))
  {
    r := OverlapSwitches();
    OverlapResumed();
    BeyondBlock(At(0x2000_03B0, Extended.Words() - 1));
  }

  lemma OverlapResumed()
    ensures Target(MisalignedEnv(), OverlapState(), OverlapRequest(), 32) == 0x2000_03B0
    ensures ResumedKind(MisalignedEnv(), OverlapState(), OverlapRequest(), 32, 0x2000_03A4) == Extended
  {
    OverlapEntered();
    OverlapSaved();
  }

  lemma BeyondBlock(x: Word)
    requires x >= 0x2000_0400
    ensures !InBlockOf(MisalignedEnv(), Layer(32), 32, x)
  {
  }

  lemma OverlapPasses(s: KState)
    requires s.mal == Layer(32) && KernelOk(MisalignedEnv(), s.mal) && Announce(s, 32, 0).mem == OverlapMemory()
    ensures VidtCheck(MisalignedEnv(), s.mal, 32).None?
    ensures TargetCode(MisalignedEnv(), s, 32, 32, 0x2000_03A4, 0, 0x2000_0300).None?
  {
    var env, a, b := MisalignedEnv(), Announce(s, 32, 0), MisalignedEnv().entries[1];
    OverlapFind(s.mal, 0x2000_0100);
    OverlapFind(s.mal, 0x2000_03B0);
    OverlapFind(s.mal, 0x2000_03A4);
    assert Resumable(b, 0x2000_03B0, Basic);
    CalleeCodes(env, a, 32, 0x2000_03B0);
    CallerCodes(env, a, 32, 0x2000_03A4, 0x2000_0300);
  }

  lemma OverlapFind(m: MalState, a: Word)
    requires m == Layer(32) && KernelOk(MisalignedEnv(), m) && 0x2000_0000 <= a < 0x2000_03FF
    ensures Find(MisalignedEnv(), m, 32, a) == Some(MisalignedEnv().entries[1])
  {
  }

  lemma OverlapSaved()
    ensures KindAt(AfterSave(OverlapMemory(), 0x2000_0300, 0x2000_03A4, 0), 0x2000_03B0) == Extended
  {
    var m := OverlapMemory();
    var regs := ReadWords(m, 0x2000_0308, 17);
    RoundTrip.SaveCopies(m, 0x2000_0300, 0x2000_03A4, 0, Basic, regs);
    var slot := RoundTrip.SlotWords(Basic, 0, regs);
    assert slot[3] == regs[1] == Read32(m, At(0x2000_0308, 1)) == 0;
    assert At(0x2000_03A4, 3) == 0x2000_03B0;
  }
}
