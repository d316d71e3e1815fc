/** Saving a context and loading it again: what a thread gets back, and for which save addresses. */
module RoundTrip {
  import opened Bits
  import opened Memory
  import opened ExceptionFrames
  import opened Wrappers

  /** A context of the given kind and registers is in memory at `ctx`. */
  ghost predicate ContextAt(m: Words, ctx: int, kind: Kind, regs: seq<Word>) {
    && |regs| == kind.Length()
    && KindAt(m, ctx) == kind
    && ReadWords(m, ctx + FRAME, kind.Length()) == regs
  }

  // ----- interrupting a thread ---------------------------------------------------------------

  /** The registers a context holds for an interrupted thread. */
  function Interrupted(regs: seq<Word>, kind: Kind, stkalign: bool): (r: seq<Word>)
    requires |regs| == kind.Length()
    ensures |r| == |regs|
  {
    regs[kind.PsrIndex() := StackedPsr(regs[kind.PsrIndex()], SpAlign(regs[kind.SpIndex()], kind, stkalign))]
  }

  /** The context of an interrupted thread, once resetInitialSp has run: its registers, the stacked xPSR
      aside. Nothing is assumed of where the stack pointer is. */
  lemma StackedThenReset(m: Words, regs: seq<Word>, kind: Kind, stkalign: bool, ctx: Word)
    requires |regs| == kind.Length() && regs[kind.SpIndex()] % 4 == 0
    requires ctx == ContextAddress(regs[kind.SpIndex()], kind, stkalign)
    ensures AfterReset(Stacked(m, regs, kind, stkalign), ctx, stkalign)
         == Write32(Stacked(m, regs, kind, stkalign), At(ctx + FRAME, kind.SpIndex()), regs[kind.SpIndex()])
    ensures ContextAt(AfterReset(Stacked(m, regs, kind, stkalign), ctx, stkalign), ctx, kind,
                      Interrupted(regs, kind, stkalign))
  {
    var w := Stacked(m, regs, kind, stkalign);
    var ws := ContextWords(regs, kind, stkalign);
    ReadBackWords(m, ctx, ws);
    ContextWordsAre(regs, kind, stkalign);
    StackedReset(w, ctx, ws, kind, stkalign, regs[kind.SpIndex()], regs[kind.PsrIndex()]);
    ResetContext(w, AfterReset(w, ctx, stkalign), Interrupted(regs, kind, stkalign), ws, kind, ctx);
  }

  lemma ContextWordsAre(regs: seq<Word>, kind: Kind, stkalign: bool)
    requires |regs| == kind.Length()
    ensures var ws := ContextWords(regs, kind, stkalign);
            && ws[0] == (if kind.Basic? then 1 else 0) && ws[1] == 0
            && ws[2 + kind.SpIndex()] == PushedFrame(regs[kind.SpIndex()], kind, stkalign)
            && forall i :: 2 <= i < |ws| && i - 2 != kind.SpIndex()
                ==> ws[i] == Interrupted(regs, kind, stkalign)[i - 2]
  {
  }

  lemma StackedReset(w: Words, ctx: Word, ws: seq<Word>, kind: Kind, stkalign: bool, sp: Word, psr: Word)
    requires |ws| == kind.Words() && ReadWords(w, ctx, |ws|) == ws && sp % 4 == 0
    requires ws[0] == if kind.Basic? then 1 else 0
    requires ws[2 + kind.SpIndex()] == PushedFrame(sp, kind, stkalign)
    requires ws[2 + kind.PsrIndex()] == StackedPsr(psr, SpAlign(sp, kind, stkalign))
    ensures AfterReset(w, ctx, stkalign) == Write32(w, At(ctx + FRAME, kind.SpIndex()), sp)
  {
    ContextWord(w, ctx, ws, kind, kind.SpIndex());
    ContextWord(w, ctx, ws, kind, kind.PsrIndex());
    ResetUndoesPush(sp, psr, kind, stkalign);
  }

  /** The words of a context in memory, taken one at a time. */
  lemma ContextWord(w: Words, ctx: Word, ws: seq<Word>, kind: Kind, i: nat)
    requires |ws| == kind.Words() && ReadWords(w, ctx, |ws|) == ws && i < kind.Length()
    ensures Read32(w, At(ctx + FRAME, i)) == ws[2 + i]
    ensures Read32(w, ctx) == ws[0] && Read32(w, ctx + FLAGS) == ws[1]
  {
    assert At(ctx + FRAME, i) == At(ctx, 2 + i);
    assert ctx == At(ctx, 0) && Wrap(ctx + FLAGS) == At(ctx, 1);
    assert ws[0] == ReadWords(w, ctx, |ws|)[0] && ws[1] == ReadWords(w, ctx, |ws|)[1];
  }

  lemma ResetContext(w: Words, r: Words, regs: seq<Word>, ws: seq<Word>, kind: Kind, ctx: Word)
    requires |regs| == kind.Length() && |ws| == kind.Words()
    requires ReadWords(w, ctx, |ws|) == ws && ws[0] == if kind.Basic? then 1 else 0
    requires forall i :: 0 <= i < |regs| && i != kind.SpIndex() ==> regs[i] == ws[2 + i]
    requires r == Write32(w, At(ctx + FRAME, kind.SpIndex()), regs[kind.SpIndex()])
    ensures ContextAt(r, ctx, kind, regs)
  {
    var p, a := kind.SpIndex(), ctx + FRAME;
    AtDistinct(ctx, 2 + p, 0);
    ContextWord(w, ctx, ws, kind, p);
    forall i | 0 <= i < |regs| ensures Read32(r, At(a, i)) == regs[i] {
      ContextWord(w, ctx, ws, kind, i);
      if i != p { AtDistinct(a, i, p); }
    }
  }

  // ----- saving ------------------------------------------------------------------------------

  /** The words of a saved context. */
  function SlotWords(kind: Kind, flags: Word, regs: seq<Word>): (ws: seq<Word>)
    requires |regs| == kind.Length()
    ensures |ws| == kind.Words()
  {
    [if kind.Basic? then 1 else 0, flags] + regs
  }

  /** writeContext copies the context wherever no word of it is overwritten before it is read. */
  lemma SaveCopies(m: Words, src: Word, dst: Word, flags: Word, kind: Kind, regs: seq<Word>)
    requires ContextAt(m, src, kind, regs) && Forward(src + FRAME, dst + FRAME, kind.Length())
    ensures ReadWords(AfterSave(m, src, dst, flags), dst, kind.Words()) == SlotWords(kind, flags, regs)
  {
    var w := Transfer(m, src + FRAME, dst + FRAME, kind.Length(), None);
    TransferExact(m, src + FRAME, dst + FRAME, kind.Length(), None);
    assert OutWords(regs, None) == regs;
    Header(w, dst, if kind.Basic? then 1 else 0, flags, kind.Length());
    SlotOfParts(AfterSave(m, src, dst, flags), dst, kind, flags, regs);
  }

  lemma SlotOfParts(m: Words, slot: Word, kind: Kind, flags: Word, regs: seq<Word>)
    requires |regs| == kind.Length() && ReadWords(m, slot + FRAME, kind.Length()) == regs
    requires Read32(m, At(slot, 0)) == (if kind.Basic? then 1 else 0) && Read32(m, At(slot, 1)) == flags
    ensures ReadWords(m, slot, kind.Words()) == SlotWords(kind, flags, regs)
  {
    var ws, a := SlotWords(kind, flags, regs), slot + FRAME;
    forall i | 0 <= i < kind.Words() ensures Read32(m, At(slot, i)) == ws[i] {
      if i >= 2 {
        assert At(slot, i) == At(a, i - 2);
        assert regs[i - 2] == ReadWords(m, a, kind.Length())[i - 2];
      }
    }
  }

  /** A saved context, as it is found later. */
  lemma SlotIsContext(m: Words, slot: Word, kind: Kind, flags: Word, regs: seq<Word>)
    requires |regs| == kind.Length() && ReadWords(m, slot, kind.Words()) == SlotWords(kind, flags, regs)
    ensures ContextAt(m, slot, kind, regs) && Read32(m, slot + FLAGS) == flags
  {
    var ws, a := SlotWords(kind, flags, regs), slot + FRAME;
    ContextWord(m, slot, ws, kind, 0);
    forall i | 0 <= i < kind.Length() ensures Read32(m, At(a, i)) == regs[i] {
      ContextWord(m, slot, ws, kind, i);
    }
  }

  // ----- loading -----------------------------------------------------------------------------

  /** What a thread gets from a context: the registers in it, except that the xPSR gains its alignment
      and Thumb bits and the stack pointer goes through the hardware's pop rule. */
  function Resumed(regs: seq<Word>, kind: Kind, stkalign: bool): (r: seq<Word>)
    requires |regs| == kind.Length()
    ensures |r| == |regs|
  {
    var sp := regs[kind.SpIndex()];
    ResumedFrom(regs, kind, PushedFrame(sp, kind, stkalign), SpAlign(sp, kind, stkalign), stkalign)
  }

  function ResumedFrom(regs: seq<Word>, kind: Kind, frame: Word, align: Flag, stkalign: bool): (r: seq<Word>)
    requires |regs| == kind.Length()
    ensures |r| == |regs|
  {
    var psr := Out(regs[kind.PsrIndex()], 7, Some(align));
    regs[kind.PsrIndex() := psr][kind.SpIndex() := PoppedSp(frame, psr, kind, stkalign)]
  }

  /** Filling the hardware frame spoils no register of the context that is still to be read. (The stack
      pointer has been read before.) */
  ghost predicate LoadSafe(ctx: int, kind: Kind, frame: Word) {
    && Forward(ctx + FRAME + 4 * kind.HwIndex(), frame, kind.HwLength())
    && LowClear(ctx + FRAME, kind, frame)
  }

  ghost predicate LowClear(a: int, kind: Kind, frame: Word) {
    forall i: nat, k: nat :: i < kind.HwIndex() && i != kind.SpIndex() && k < kind.HwLength() ==>
      At(a, i) != At(frame, k)
  }

  /** Loading a context and returning. */
  lemma LoadResumes(m: Words, ctx: Word, stkalign: bool, kind: Kind, regs: seq<Word>)
    requires ContextAt(m, ctx, kind, regs)
    requires LoadSafe(ctx, kind, PushedFrame(regs[kind.SpIndex()], kind, stkalign))
    ensures LoadAndReturn(m, ctx, stkalign) == Resumed(regs, kind, stkalign)
  {
    var sp := regs[kind.SpIndex()];
    assert SpOf(m, ctx) == sp;
    LoadFrame(sp, kind, stkalign);
    LoadUnfolds(m, ctx, stkalign, kind, PushedFrame(sp, kind, stkalign), SpAlign(sp, kind, stkalign));
    LoadWords(m, ctx, kind, regs, PushedFrame(sp, kind, stkalign), SpAlign(sp, kind, stkalign), stkalign);
  }

  lemma LoadUnfolds(m: Words, ctx: Word, stkalign: bool, kind: Kind, frame: Word, align: Flag)
    requires KindAt(m, ctx) == kind
    requires var sp := SpOf(m, ctx);
             LoadFramePtr(sp, kind, stkalign) == frame && And(Shr(sp, 2), kind.ForceAlign(stkalign)) == align
    ensures var w := Transfer(m, ctx + FRAME + 4 * kind.HwIndex(), frame, kind.HwLength(), Some(align));
            LoadAndReturn(m, ctx, stkalign) == Resume(w, LoadedFrom(w, ctx, kind, frame), stkalign)
  {
  }

  function LoadedFrom(w: Words, ctx: Word, kind: Kind, frame: Word): Loaded {
    Loaded(kind, frame, ReadWords(w, ctx + FRAME + 4 * (kind.SpIndex() + 1), 8),
        ReadWords(w, ctx + FRAME, kind.SpIndex()))
  }

  lemma LoadWords(m: Words, ctx: Word, kind: Kind, regs: seq<Word>, frame: Word, align: Flag, stkalign: bool)
    requires ContextAt(m, ctx, kind, regs) && LoadSafe(ctx, kind, frame)
    ensures var w := Transfer(m, ctx + FRAME + 4 * kind.HwIndex(), frame, kind.HwLength(), Some(align));
            Resume(w, LoadedFrom(w, ctx, kind, frame), stkalign) == ResumedFrom(regs, kind, frame, align, stkalign)
  {
    var src, n := ctx + FRAME + 4 * kind.HwIndex(), kind.HwLength();
    var w := Transfer(m, src, frame, n, Some(align));
    FrameFilled(m, ctx, kind, regs, frame, align);
    TransferFrame(m, src, frame, n, Some(align));
    LowKept(m, w, ctx, kind, regs, frame);
    ResumeWords(w, kind, regs, frame, LoadedFrom(w, ctx, kind, frame), align, stkalign);
  }

  lemma FrameFilled(m: Words, ctx: Word, kind: Kind, regs: seq<Word>, frame: Word, align: Flag)
    requires ContextAt(m, ctx, kind, regs) && LoadSafe(ctx, kind, frame)
    ensures var w := Transfer(m, ctx + FRAME + 4 * kind.HwIndex(), frame, kind.HwLength(), Some(align));
            ReadWords(w, frame, kind.HwLength()) == OutWords(regs[kind.HwIndex()..], Some(align))
  {
    var src, n := ctx + FRAME + 4 * kind.HwIndex(), kind.HwLength();
    TransferExact(m, src, frame, n, Some(align));
    Slice(m, ctx + FRAME, kind.Length(), regs, kind.HwIndex(), n);
    assert regs[kind.HwIndex()..kind.HwIndex() + n] == regs[kind.HwIndex()..];
  }

  lemma LowKept(m: Words, w: Words, ctx: Word, kind: Kind, regs: seq<Word>, frame: Word)
    requires ContextAt(m, ctx, kind, regs) && LoadSafe(ctx, kind, frame) && SameOutside(m, w, frame, kind.HwLength())
    ensures LoadedFrom(w, ctx, kind, frame)
         == Loaded(kind, frame, regs[kind.SpIndex() + 1..kind.HwIndex()], regs[..kind.SpIndex()])
  {
    KeptSlice(m, w, ctx + FRAME, kind, regs, frame, kind.SpIndex() + 1, 8);
    KeptSlice(m, w, ctx + FRAME, kind, regs, frame, 0, kind.SpIndex());
  }

  lemma Slice(m: Words, a: int, n: nat, regs: seq<Word>, i: nat, k: nat)
    requires ReadWords(m, a, n) == regs && i + k <= n
    ensures ReadWords(m, a + 4 * i, k) == regs[i..i + k]
  {
    var b := a + 4 * i;
    forall j | 0 <= j < k ensures Read32(m, At(b, j)) == regs[i + j] {
      assert At(b, j) == At(a, i + j);
      assert regs[i + j] == ReadWords(m, a, n)[i + j];
    }
  }

  /** Registers the filling of the frame does not touch. */
  lemma KeptSlice(m: Words, w: Words, a: int, kind: Kind, regs: seq<Word>, frame: Word, i: nat, k: nat)
    requires SameOutside(m, w, frame, kind.HwLength()) && |regs| == kind.Length()
    requires ReadWords(m, a, kind.Length()) == regs && i + k <= kind.HwIndex() && !(i <= kind.SpIndex() < i + k)
    requires LowClear(a, kind, frame)
    ensures ReadWords(w, a + 4 * i, k) == regs[i..i + k]
  {
    var b := a + 4 * i;
    forall j | 0 <= j < k ensures Read32(w, At(b, j)) == regs[i + j] {
      assert At(b, j) == At(a, i + j);
      assert !Within(At(a, i + j), frame, kind.HwLength());
      assert regs[i + j] == ReadWords(m, a, kind.Length())[i + j];
    }
  }

  lemma ResumeWords(w: Words, kind: Kind, regs: seq<Word>, frame: Word, l: Loaded, align: Flag, stkalign: bool)
    requires |regs| == kind.Length()
    requires l == Loaded(kind, frame, regs[kind.SpIndex() + 1..kind.HwIndex()], regs[..kind.SpIndex()])
    requires ReadWords(w, frame, kind.HwLength()) == OutWords(regs[kind.HwIndex()..], Some(align))
    ensures Resume(w, l, stkalign) == ResumedFrom(regs, kind, frame, align, stkalign)
  {
    var ws := ReadWords(w, frame, kind.HwLength());
    forall k | 0 <= k < kind.HwLength() && k != 7 ensures ws[k] == regs[kind.HwIndex() + k] {
    }
  }

  /** The stack pointer of a loaded context comes back exactly when its xPSR does not claim an alignment
      step that the stack pointer does not need. */
  lemma LoadRestoresSp(sp: Word, psr: Word, kind: Kind, stkalign: bool)
    requires sp % 4 == 0
    ensures var frame := PushedFrame(sp, kind, stkalign);
            var out := Out(psr, 7, Some(SpAlign(sp, kind, stkalign)));
            PoppedSp(frame, out, kind, stkalign) == sp <==>
            !(kind.ForceAlign(stkalign) == 1 && Bit(psr, 9) == 1 && Bit(sp, 2) == 0)
  {
    var align := SpAlign(sp, kind, stkalign);
    OutBits(psr, align);
    PoppedSpIs(sp, Out(psr, 7, Some(align)), kind, stkalign);
  }

  /** A context whose stack pointer is 8-byte aligned but whose xPSR has bit 9 set resumes 4 bytes off. */
  lemma StaleAlignmentBit()
    ensures var frame := PushedFrame(0x2000_1000, Basic, true);
            PoppedSp(frame, Out(0x200, 7, Some(SpAlign(0x2000_1000, Basic, true))), Basic, true) == 0x2000_1004
  {
    assert Bit(0x200, 9) == 1 && Bit(0x2000_1000, 2) == 0;
    PoppedSpIs(0x2000_1000, Out(0x200, 7, Some(0)), Basic, true);
    OutBits(0x200, 0);
  }

  /** The pop rule on a frame pushed for `sp`. */
  lemma PoppedSpIs(sp: Word, psr: Word, kind: Kind, stkalign: bool)
    requires sp % 4 == 0
    ensures var force, align := kind.ForceAlign(stkalign), SpAlign(sp, kind, stkalign);
            PoppedSp(PushedFrame(sp, kind, stkalign), psr, kind, stkalign)
              == sp - 4 * align + (if force == 1 && Bit(psr, 9) == 1 then 4 else 0)
  {
    PushPop(sp, kind, stkalign);
    Bit2(sp);
    if kind.ForceAlign(stkalign) == 1 {
      OrFour(sp - 4 * SpAlign(sp, kind, stkalign));
    }
  }

  /** The stored xPSR: bit 9 gets the alignment, or keeps a one, and bit 24 is set. */
  lemma OutBits(psr: Word, align: Flag)
    ensures Bit(Out(psr, 7, Some(align)), 9) == if align == 1 then 1 else Bit(psr, 9)
    ensures Bit(psr, 9) == align ==> Out(psr, 7, Some(align)) == WithBit(psr, 24, 1)
  {
    PsrMasks();
    var x := Or(psr, Shl(align, 9));
    assert Or(psr, 0) == psr;
    OrBitFrame(psr, 9, 9);
    OrBit(psr, 9);
    OrBitFrame(x, 24, 9);
    OrBit(x, 24);
  }

  // ----- from the interruption to the way back ---------------------------------------------------

  /** The interrupted thread's own registers, the xPSR with its alignment and Thumb bits. */
  function Returned(regs: seq<Word>, kind: Kind, stkalign: bool): (r: seq<Word>)
    requires |regs| == kind.Length()
    ensures |r| == |regs|
  {
    var align := SpAlign(regs[kind.SpIndex()], kind, stkalign);
    regs[kind.PsrIndex() := WithBit(WithBit(regs[kind.PsrIndex()], 9, align), 24, 1)]
  }

  /** For an xPSR stacked by the hardware the claim of bit 9 is right. */
  lemma StackedSpBack(sp: Word, psr: Word, kind: Kind, stkalign: bool)
    requires sp % 4 == 0
    ensures var align := SpAlign(sp, kind, stkalign);
            var out := Out(StackedPsr(psr, align), 7, Some(align));
            && out == WithBit(WithBit(psr, 9, align), 24, 1)
            && PoppedSp(PushedFrame(sp, kind, stkalign), out, kind, stkalign) == sp
  {
    var align := SpAlign(sp, kind, stkalign);
    Bit9OfStacked(psr, align);
    OutBits(StackedPsr(psr, align), align);
    LoadRestoresSp(sp, StackedPsr(psr, align), kind, stkalign);
  }


  lemma InterruptedResumes(regs: seq<Word>, kind: Kind, stkalign: bool)
    requires |regs| == kind.Length() && regs[kind.SpIndex()] % 4 == 0
    ensures Resumed(Interrupted(regs, kind, stkalign), kind, stkalign) == Returned(regs, kind, stkalign)
  {
    StackedSpBack(regs[kind.SpIndex()], regs[kind.PsrIndex()], kind, stkalign);
  }

  /** Save addresses at which nothing is lost, by their distance above the interrupted context, around the
      address space: the context itself, or far enough above its start not to be in front of the copy, and
      far enough below it not to be in front of the hardware frame. */
  predicate SafeSlot(ctx: Word, slot: Word, kind: Kind) {
    var d := Wrap(slot - ctx);
    d == 0 || 4 * kind.Length() <= d <= 0x1_0000_0000 - 4 * kind.HwLength()
  }

  /** Two areas meet where their distance is a number of words. */
  lemma Meeting(src: int, dst: int, i: int, j: int)
    ensures At(dst, i) == At(src, j) <==> Wrap(dst - src) == Wrap(4 * (j - i))
  {
    WrapEqual(dst + 4 * i, src + 4 * j);
    WrapEqual(dst - src, 4 * (j - i));
  }

  lemma SafeSlotSaves(ctx: Word, slot: Word, kind: Kind)
    requires SafeSlot(ctx, slot, kind)
    ensures Forward(ctx + FRAME, slot + FRAME, kind.Length())
  {
    var a, b := ctx + FRAME, slot + FRAME;
    forall i: nat, j: nat | i < j < kind.Length() ensures At(b, i) != At(a, j) {
      Meeting(a, b, i, j);
    }
  }

  /** The context ends with the hardware frame. */
  lemma FrameOfContext(sp: Word, kind: Kind, stkalign: bool, k: int)
    ensures At(PushedFrame(sp, kind, stkalign), k)
         == At(ContextAddress(sp, kind, stkalign) + FRAME + 4 * kind.HwIndex(), k)
  {
    var frame := PushedFrame(sp, kind, stkalign);
    WrapSum(frame - FRAME - 4 * kind.HwIndex(), FRAME + 4 * kind.HwIndex() + 4 * k);
  }

  lemma SafeSlotLoads(sp: Word, slot: Word, kind: Kind, stkalign: bool)
    requires SafeSlot(ContextAddress(sp, kind, stkalign), slot, kind)
    ensures LoadSafe(slot, kind, PushedFrame(sp, kind, stkalign))
  {
    var ctx, frame := ContextAddress(sp, kind, stkalign), PushedFrame(sp, kind, stkalign);
    var hw := kind.HwIndex();
    var from, to := slot + FRAME + 4 * hw, ctx + FRAME + 4 * hw;
    forall i: nat, j: nat | i < j < kind.HwLength() ensures At(frame, i) != At(from, j) {
      FrameOfContext(sp, kind, stkalign, i);
      Meeting(from, to, i, j);
    }
    SafeSlotLow(sp, slot, kind, stkalign);
  }

  lemma SafeSlotLow(sp: Word, slot: Word, kind: Kind, stkalign: bool)
    requires SafeSlot(ContextAddress(sp, kind, stkalign), slot, kind)
    ensures LowClear(slot + FRAME, kind, PushedFrame(sp, kind, stkalign))
  {
    var ctx, frame := ContextAddress(sp, kind, stkalign), PushedFrame(sp, kind, stkalign);
    var hw := kind.HwIndex();
    var to, low := ctx + FRAME + 4 * hw, slot + FRAME;
    forall i: nat, k: nat | i < hw && i != kind.SpIndex() && k < kind.HwLength() ensures At(low, i) != At(frame, k) {
      FrameOfContext(sp, kind, stkalign, k);
      Meeting(low, to, k, i);
      LowDistance(ctx, slot, kind, i, k);
    }
  }

  lemma LowDistance(ctx: Word, slot: Word, kind: Kind, i: nat, k: nat)
    requires SafeSlot(ctx, slot, kind) && i < kind.HwIndex() && i != kind.SpIndex() && k < kind.HwLength()
    ensures Wrap(ctx + FRAME + 4 * kind.HwIndex() - (slot + FRAME)) != Wrap(4 * (i - k))
  {
  }

  /** The memory after a thread with registers `regs` was interrupted and its context was reset and saved. */
  function Saved(m: Words, regs: seq<Word>, kind: Kind, stkalign: bool, slot: Word, flags: Word): Words
    requires |regs| == kind.Length()
  {
    var ctx := ContextAddress(regs[kind.SpIndex()], kind, stkalign);
    AfterSave(AfterReset(Stacked(m, regs, kind, stkalign), ctx, stkalign), ctx, slot, flags)
  }

  /** The save and restore round trip. A thread is interrupted; its context is completed, reset and saved;
      later, the slot being untouched, it is loaded and resumed. For every word-aligned stack pointer the
      thread gets back all its registers, the xPSR up to bits 9 and 24. */
  lemma SaveRestoreRoundTrip(m: Words, later: Words, regs: seq<Word>, kind: Kind, stkalign: bool, slot: Word,
      flags: Word)
    requires |regs| == kind.Length() && regs[kind.SpIndex()] % 4 == 0
    requires SafeSlot(ContextAddress(regs[kind.SpIndex()], kind, stkalign), slot, kind)
    requires ReadWords(later, slot, kind.Words())
        == ReadWords(Saved(m, regs, kind, stkalign, slot, flags), slot, kind.Words())
    ensures LoadAndReturn(later, slot, stkalign) == Returned(regs, kind, stkalign)
    ensures Read32(later, slot + FLAGS) == flags
  {
    var ctx := ContextAddress(regs[kind.SpIndex()], kind, stkalign);
    var reset := AfterReset(Stacked(m, regs, kind, stkalign), ctx, stkalign);
    StackedThenReset(m, regs, kind, stkalign, ctx);
    SavedResumes(reset, later, regs, kind, stkalign, slot, flags);
  }

  /** The second half, from the reset context on. */
  lemma SavedResumes(m: Words, later: Words, regs: seq<Word>, kind: Kind, stkalign: bool, slot: Word, flags: Word)
    requires |regs| == kind.Length() && regs[kind.SpIndex()] % 4 == 0
    requires ContextAt(m, ContextAddress(regs[kind.SpIndex()], kind, stkalign), kind, Interrupted(regs, kind, stkalign))
    requires SafeSlot(ContextAddress(regs[kind.SpIndex()], kind, stkalign), slot, kind)
    requires ReadWords(later, slot, kind.Words())
          == ReadWords(AfterSave(m, ContextAddress(regs[kind.SpIndex()], kind, stkalign), slot, flags), slot,
              kind.Words())
    ensures LoadAndReturn(later, slot, stkalign) == Returned(regs, kind, stkalign)
    ensures Read32(later, slot + FLAGS) == flags
  {
    var sp := regs[kind.SpIndex()];
    var ctx, kept := ContextAddress(sp, kind, stkalign), Interrupted(regs, kind, stkalign);
    SafeSlotSaves(ctx, slot, kind);
    SaveCopies(m, ctx, slot, flags, kind, kept);
    SlotIsContext(later, slot, kind, flags, kept);
    SafeSlotLoads(sp, slot, kind, stkalign);
    LoadResumes(later, slot, stkalign, kind, kept);
    InterruptedResumes(regs, kind, stkalign);
  }
}
