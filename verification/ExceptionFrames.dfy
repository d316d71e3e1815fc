/** Exception frames: what the hardware pushes and pops (sections B1.5.6 to B1.5.8 of the Armv7-M
    Architecture Reference Manual), the context the entry stub completes, and the code of stack.h and
    yield_c.c that rewrites, saves and reloads such a context. */
module ExceptionFrames {
  import opened Bits
  import opened Memory
  import opened Wrappers

  /** Basic frames hold the integer registers, extended ones the floating-point registers too. */
  datatype Kind = Basic | Extended {
    /** Registers of a frame, in the order of the source's unions: (s16-s31,) sp, r4-r11, r0-r3, r12,
        lr, pc, xpsr (, s0-s15, fpscr). */
    function Length(): nat { if Basic? then 17 else 50 }

    function SpIndex(): nat { if Basic? then 0 else 16 }

    /** The registers from r0 on are those the hardware stacks. */
    function HwIndex(): nat { if Basic? then 9 else 25 }

    function HwLength(): nat { if Basic? then 8 else 25 }

    function PsrIndex(): nat { if Basic? then 16 else 32 }

    /** Bytes the hardware reserves for its frame. */
    function FrameSize(): nat { if Basic? then 0x20 else 0x68 }

    /** Words of a context: the isBasicFrame and pipflags words, then the registers. */
    function Words(): nat { 2 + Length() }

    /** Bytes of a context. */
    function ContextSize(): nat { if Basic? then 76 else 208 }

    /** Whether the stack pointer is forced to 8-byte alignment; STKALIGN decides for basic frames. */
    function ForceAlign(stkalign: bool): nat { if Extended? || stkalign then 1 else 0 }
  }

  type Flag = b: int | 0 <= b <= 1

  /** The offset of pipflags and of the registers in a context. */
  const FLAGS: nat := 4
  const FRAME: nat := 8

  function KindAt(m: Words, ctx: int): Kind {
    if Read32(m, ctx) != 0 then Basic else Extended
  }

  // ----- hardware ------------------------------------------------------------------------

  /** `x` with bit `k` set to `b`. */
  function WithBit(x: Word, k: nat, b: nat): (r: Word)
    requires k < 32 && b <= 1
  {
    BitBounds(x, k);
    if Bit(x, k) == b then x else if b == 1 then x + Pow2(k) else x - Pow2(k)
  }

  lemma BitBounds(x: Word, k: nat)
    requires k < 32
    ensures if Bit(x, k) == 1 then Pow2(k) <= x else x + Pow2(k) < 0x1_0000_0000
  {
    Pow2Values();
    if Bit(x, k) == 1 { BitLe(x, k); } else { BitRoom(x, k, 32); }
  }

  /** The stacked xPSR: bit 9 records the alignment step. */
  function StackedPsr(psr: Word, align: nat): (r: Word)
    requires align <= 1
  {
    WithBit(psr, 9, align)
  }

  /** The frame pointer after exception entry. */
  function PushedFrame(sp: Word, kind: Kind, stkalign: bool): Word {
    var p := Wrap(sp - kind.FrameSize());
    BitBounds(p, 2);
    assert Pow2(2) == 4;
    if kind.ForceAlign(stkalign) == 1 then p - 4 * Bit(p, 2) else p
  }

  function SpAlign(sp: Word, kind: Kind, stkalign: bool): (b: nat)
    ensures b <= 1
  {
    if kind.ForceAlign(stkalign) == 1 then Bit(sp, 2) else 0
  }

  /** The words the hardware stacks. */
  function StackedWords(regs: seq<Word>, kind: Kind, stkalign: bool): (ws: seq<Word>)
    requires |regs| == kind.Length()
    ensures |ws| == kind.HwLength()
  {
    var psr := StackedPsr(regs[kind.PsrIndex()], SpAlign(regs[kind.SpIndex()], kind, stkalign));
    regs[kind.HwIndex()..][7 := psr]
  }

  /** The stack pointer after exception return. */
  function PoppedSp(frame: Word, psr: Word, kind: Kind, stkalign: bool): Word {
    var p := Wrap(frame + kind.FrameSize());
    Or32(p, 4);
    if kind.ForceAlign(stkalign) == 1 && Bit(psr, 9) == 1 then Or(p, 4) else p
  }

  /** Where the entry stub leaves the context, which ends with the hardware frame. */
  function ContextAddress(sp: Word, kind: Kind, stkalign: bool): Word {
    Wrap(PushedFrame(sp, kind, stkalign) - FRAME - 4 * kind.HwIndex())
  }

  /** Memory after exception entry and after the entry stub. */
  function Stacked(m: Words, regs: seq<Word>, kind: Kind, stkalign: bool): Words
    requires |regs| == kind.Length()
  {
    WriteWords(m, ContextAddress(regs[kind.SpIndex()], kind, stkalign), ContextWords(regs, kind, stkalign))
  }

  function ContextWords(regs: seq<Word>, kind: Kind, stkalign: bool): (ws: seq<Word>)
    requires |regs| == kind.Length()
    ensures |ws| == 2 + kind.Length()
  {
    var frame := PushedFrame(regs[kind.SpIndex()], kind, stkalign);
    [if kind.Basic? then 1 else 0, 0]
    + regs[..kind.HwIndex()][kind.SpIndex() := frame]
    + StackedWords(regs, kind, stkalign)
  }

  /** What the exception return finds: registers already loaded by software, and the frame. */
  datatype Loaded = Loaded(kind: Kind, frame: Word, low: seq<Word>, high: seq<Word>)

  /** Registers of the resumed thread. */
  function Resume(m: Words, l: Loaded, stkalign: bool): seq<Word> {
    var ws := ReadWords(m, l.frame, l.kind.HwLength());
    l.high + [PoppedSp(l.frame, ws[7], l.kind, stkalign)] + l.low + ws
  }

  // ----- stack.h ---------------------------------------------------------------------------

  function ResetSp(sp: Word, psr: Word, kind: Kind, stkalign: bool): Word {
    var spMask := Shl(And(Shr(psr, 9), kind.ForceAlign(stkalign)), 2);
    Or32(Wrap(sp + kind.FrameSize()), spMask);
    Or(Wrap(sp + kind.FrameSize()), spMask)
  }

  /** The memory after resetInitialSp on the context at `ctx`. */
  function AfterReset(m: Words, ctx: Word, stkalign: bool): Words {
    var kind := KindAt(m, ctx);
    var sp := At(ctx + FRAME, kind.SpIndex());
    Write32(m, sp, ResetSp(Read32(m, sp), Read32(m, At(ctx + FRAME, kind.PsrIndex())), kind, stkalign))
  }

  lemma Bit2(x: Word)
    ensures Bit(x, 2) == x / 4 % 2
  {
    BitOfShr(x, 2);
    ShrIsDiv(x, 2);
    assert Pow2(2) == 4;
  }

  /** The reset undoes the hardware's push for every word-aligned stack pointer, even where the
      subtraction wraps around. */
  lemma ResetUndoesPush(sp: Word, psr: Word, kind: Kind, stkalign: bool)
    requires sp % 4 == 0
    ensures ResetSp(PushedFrame(sp, kind, stkalign), StackedPsr(psr, SpAlign(sp, kind, stkalign)), kind, stkalign) == sp
  {
    var align := SpAlign(sp, kind, stkalign);
    PushPop(sp, kind, stkalign);
    Bit9OfStacked(psr, align);
    ResetMask(StackedPsr(psr, align), kind, stkalign);
  }

  lemma Bit9OfStacked(psr: Word, align: nat)
    requires align <= 1
    ensures Bit(StackedPsr(psr, align), 9) == align
  {
    BitAfterUpdate(psr, 9);
  }

  /** Adding or subtracting a power of two flips that bit. */
  lemma {:induction false} BitAfterUpdate(x: nat, k: nat)
    ensures Bit(x, k) == 0 ==> Bit(x + Pow2(k), k) == 1
    ensures Bit(x, k) == 1 ==> Pow2(k) <= x && Bit(x - Pow2(k), k) == 0
  {
    BitLe(x, k);
    if k != 0 { BitAfterUpdate(x / 2, k - 1); }
  }

  /** The reset expression is the hardware's own return rule. */
  lemma ResetMask(psr: Word, kind: Kind, stkalign: bool)
    ensures Shl(And(Shr(psr, 9), kind.ForceAlign(stkalign)), 2)
         == if kind.ForceAlign(stkalign) == 1 && Bit(psr, 9) == 1 then 4 else 0
  {
    BitOfShr(psr, 9);
    assert Pow2(1) == 2;
    AndLowMask(Shr(psr, 9), 1);
    assert And(Shr(psr, 9), 0) == 0;
    ShlZero(2);
    assert Shl(1, 2) == 4;
  }

  /** Entry and return agree on the stack pointer. */
  lemma PushPop(sp: Word, kind: Kind, stkalign: bool)
    requires sp % 4 == 0
    ensures var frame := PushedFrame(sp, kind, stkalign);
            var align := SpAlign(sp, kind, stkalign);
            && Wrap(frame + kind.FrameSize()) == sp - 4 * align
            && Or(sp - 4 * align, 4 * align) == sp
  {
    FrameBack(sp, kind, stkalign);
    RestoreBit2(sp, SpAlign(sp, kind, stkalign));
  }

  lemma FrameBack(sp: Word, kind: Kind, stkalign: bool)
    requires sp % 4 == 0
    ensures Wrap(PushedFrame(sp, kind, stkalign) + kind.FrameSize()) == sp - 4 * SpAlign(sp, kind, stkalign)
  {
    PushedFrameIs(sp, kind.FrameSize());
  }

  lemma RestoreBit2(sp: Word, align: nat)
    requires align <= 1 && (align == 1 ==> Bit(sp, 2) == 1 && sp % 4 == 0)
    ensures 4 * align <= sp && Or(sp - 4 * align, 4 * align) == sp
  {
    Bit2(sp);
    if align == 1 {
      OrFour(sp - 4);
    } else {
      assert Or(sp, 0) == sp;
    }
  }

  lemma PushedFrameIs(sp: Word, size: nat)
    requires sp % 4 == 0 && (size == 0x20 || size == 0x68)
    ensures var p := Wrap(sp - size);
            && Bit(p, 2) == Bit(sp, 2) && (Bit(p, 2) == 1 ==> p >= 4 && Wrap(p - 4 + size) == sp - 4)
            && Wrap(p + size) == sp
  {
    Bit2(sp);
    Bit2(Wrap(sp - size));
    SubtractFrame(sp, size);
  }

  lemma OrFour(x: Word)
    requires x / 4 % 2 == 0
    ensures Or(x, 4) == x + 4
  {
    Bit2(x);
    assert Pow2(2) == 4;
    OrBit(x, 2);
  }

  /** Frame sizes are multiples of 8, so bit 2 survives the subtraction. */
  lemma SubtractFrame(sp: Word, size: nat)
    requires size == 0x20 || size == 0x68
    ensures var p := Wrap(sp - size);
            p / 4 % 2 == sp / 4 % 2 && Wrap(p + size) == sp
            && (p / 4 % 2 == 1 && sp % 4 == 0 ==> Wrap(p - 4 + size) == sp - 4)
  {
    var p := Wrap(sp - size);
    assert p == if sp >= size then sp - size else sp - size + 0x1_0000_0000;
  }

  // ----- saving and loading a context ----------------------------------------------------------

  /** What is stored for word `k` of a hardware frame: the xPSR gets its alignment and Thumb bits. */
  function Out(w: Word, k: nat, align: Option<Flag>): Word {
    if k == 7 && align.Some? then
      PsrMasks();
      Or32(w, Shl(align.value, 9));
      Or32(Or(w, Shl(align.value, 9)), Shl(1, 24));
      Or(Or(w, Shl(align.value, 9)), Shl(1, 24))
    else w
  }

  lemma PsrMasks()
    ensures Shl(0, 9) == 0 && Shl(1, 9) == Pow2(9) == 0x200 && Shl(1, 24) == Pow2(24) == 0x100_0000
  {
    ShlZero(9); ShlOne(9); ShlOne(24);
    Pow2Values();
    assert Pow2(9) == 0x200;
  }

  /** Words copied one after the other, each read after the previous one was written. */
  function Transfer(m: Words, src: int, dst: int, n: nat, align: Option<Flag>): Words {
    if n == 0 then m
    else
      var w := Transfer(m, src, dst, n - 1, align);
      Write32(w, At(dst, n - 1), Out(Read32(w, At(src, n - 1)), n - 1, align))
  }

  function OutWords(ws: seq<Word>, align: Option<Flag>): (r: seq<Word>)
    ensures |r| == |ws| && forall k :: 0 <= k < |ws| ==> r[k] == Out(ws[k], k, align)
  {
    seq(|ws|, k requires 0 <= k < |ws| => Out(ws[k], k, align))
  }

  lemma {:induction false} TransferFrame(m: Words, src: int, dst: int, n: nat, align: Option<Flag>)
    ensures SameOutside(m, Transfer(m, src, dst, n, align), dst, n)
  {
    if n != 0 {
      var k := n - 1;
      var w := Transfer(m, src, dst, k, align);
      TransferFrame(m, src, dst, k, align);
      WriteFrame(w, dst, k, Out(Read32(w, At(src, k)), k, align));
      SameOutsideBoth(m, w, Transfer(m, src, dst, n, align), dst, k, n);
    }
  }

  lemma TransferStep(m: Words, src: int, dst: int, k: nat, align: Option<Flag>)
    ensures var w := Transfer(m, src, dst, k, align);
            Transfer(m, src, dst, k + 1, align) == Write32(w, At(dst, k), Out(Read32(w, At(src, k)), k, align))
  {
  }

  /** In a copy of `n` words no word is read after it was overwritten. */
  ghost predicate Forward(src: int, dst: int, n: nat) {
    forall i: nat, j: nat :: i < j < n ==> At(dst, i) != At(src, j)
  }

  /** Then the copy is exact (and nothing else changes, see `TransferFrame`). */
  lemma {:induction false} TransferExact(m: Words, src: int, dst: int, n: nat, align: Option<Flag>)
    requires n <= MAX_AREA && Forward(src, dst, n)
    ensures ReadWords(Transfer(m, src, dst, n, align), dst, n) == OutWords(ReadWords(m, src, n), align)
  {
    if n != 0 {
      var k := n - 1;
      var w := Transfer(m, src, dst, k, align);
      assert Read32(w, At(src, k)) == Read32(m, At(src, k)) by {
        TransferFrame(m, src, dst, k, align);
        assert !Within(At(src, k), dst, k);
      }
      TransferExact(m, src, dst, k, align);
      LastWordBack(w, dst, k, Out(Read32(m, At(src, k)), k, align), OutWords(ReadWords(m, src, k), align));
      OutWordsLast(m, src, k, align);
      TransferStep(m, src, dst, k, align);
    }
  }

  lemma OutWordsLast(m: Words, src: int, k: nat, align: Option<Flag>)
    ensures OutWords(ReadWords(m, src, k + 1), align)
         == OutWords(ReadWords(m, src, k), align) + [Out(Read32(m, At(src, k)), k, align)]
  {
  }

  /** writeContext: the registers, then the two leading words. */
  function AfterSave(m: Words, src: Word, dst: Word, flags: Word): Words {
    var kind := KindAt(m, src);
    var w := Transfer(m, src + FRAME, dst + FRAME, kind.Length(), None);
    Write32(Write32(w, dst, if kind.Basic? then 1 else 0), dst + FLAGS, flags)
  }

  /** writeContext changes the words of the slot only, wherever it is. */
  lemma SaveFrame(m: Words, src: Word, dst: Word, flags: Word)
    ensures SameOutside(m, AfterSave(m, src, dst, flags), dst, KindAt(m, src).Words())
  {
    var kind := KindAt(m, src);
    RegistersFrame(m, src, dst, kind.Length());
    Header(Transfer(m, src + FRAME, dst + FRAME, kind.Length(), None), dst, if kind.Basic? then 1 else 0, flags,
      kind.Length());
    SameOutsideBoth(m, Transfer(m, src + FRAME, dst + FRAME, kind.Length(), None), AfterSave(m, src, dst, flags),
      dst, kind.Words(), 2);
  }

  lemma RegistersFrame(m: Words, src: Word, dst: Word, n: nat)
    ensures SameOutside(m, Transfer(m, src + FRAME, dst + FRAME, n, None), dst, n + 2)
  {
    TransferFrame(m, src + FRAME, dst + FRAME, n, None);
    AreaPart(m, Transfer(m, src + FRAME, dst + FRAME, n, None), dst + FRAME, n, dst, 2, n + 2);
  }

  /** Writing the two leading words of a context. */
  lemma Header(w: Words, dst: Word, tag: Word, flags: Word, n: nat)
    requires n + 2 <= MAX_AREA
    ensures var r := Write32(Write32(w, dst, tag), dst + FLAGS, flags);
            && Read32(r, At(dst, 0)) == tag && Read32(r, At(dst, 1)) == flags
            && ReadWords(r, dst + FRAME, n) == ReadWords(w, dst + FRAME, n)
            && SameOutside(w, r, dst, 2)
  {
    var r := Write32(Write32(w, dst, tag), dst + FLAGS, flags);
    AtDistinct(dst, 0, 1);
    forall x: Word | !Within(x, dst, 2) ensures Read32(w, x) == Read32(r, x) {
      assert At(dst, 0) != x && At(dst, 1) != x;
    }
    var a := dst + FRAME;
    forall i | 0 <= i < n ensures Read32(r, At(a, i)) == Read32(w, At(a, i)) {
      AtDistinct(dst, 0, i + 2);
      AtDistinct(dst, 1, i + 2);
      assert At(a, i) == At(dst, i + 2);
    }
  }

  /** loadBasicContext and loadExtendedContext: the frame pointer ... */
  function LoadFramePtr(sp: Word, kind: Kind, stkalign: bool): Word {
    ShlZero(2);
    assert Shl(1, 2) == 4;
    And(Wrap(sp - kind.FrameSize()), 0xFFFF_FFFF - Shl(kind.ForceAlign(stkalign), 2))
  }

  /** The stack pointer of the context at `ctx`. */
  function SpOf(m: Words, ctx: Word): Word {
    Read32(m, At(ctx + FRAME, KindAt(m, ctx).SpIndex()))
  }

  /** ... the memory once the frame is filled ... */
  function LoadMemory(m: Words, ctx: Word, stkalign: bool): Words {
    var kind, sp := KindAt(m, ctx), SpOf(m, ctx);
    Transfer(m, ctx + FRAME + 4 * kind.HwIndex(), LoadFramePtr(sp, kind, stkalign), kind.HwLength(),
      Some(And(Shr(sp, 2), kind.ForceAlign(stkalign))))
  }

  /** ... and the state in which the exception return starts, `w` being that memory. */
  function LoadState(m: Words, w: Words, ctx: Word, stkalign: bool): Loaded {
    var kind := KindAt(m, ctx);
    Loaded(kind, LoadFramePtr(SpOf(m, ctx), kind, stkalign),
      ReadWords(w, ctx + FRAME + 4 * (kind.SpIndex() + 1), 8),
      ReadWords(w, ctx + FRAME, kind.SpIndex()))
  }

  /** Loading writes the words of the hardware frame only, wherever that is. */
  lemma LoadWrites(m: Words, ctx: Word, stkalign: bool)
    ensures var w := LoadMemory(m, ctx, stkalign);
            var l := LoadState(m, w, ctx, stkalign);
            SameOutside(m, w, l.frame, l.kind.HwLength())
  {
    var kind, sp := KindAt(m, ctx), SpOf(m, ctx);
    TransferFrame(m, ctx + FRAME + 4 * kind.HwIndex(), LoadFramePtr(sp, kind, stkalign), kind.HwLength(),
      Some(And(Shr(sp, 2), kind.ForceAlign(stkalign))));
  }

  /** The registers of the thread resumed from the context at `ctx`. */
  function LoadAndReturn(m: Words, ctx: Word, stkalign: bool): seq<Word> {
    var w := LoadMemory(m, ctx, stkalign);
    Resume(w, LoadState(m, w, ctx, stkalign), stkalign)
  }

  /** The software frame computation is the hardware's push rule. */
  lemma LoadFrame(sp: Word, kind: Kind, stkalign: bool)
    ensures And(Shr(sp, 2), kind.ForceAlign(stkalign)) == SpAlign(sp, kind, stkalign)
    ensures LoadFramePtr(sp, kind, stkalign) == PushedFrame(sp, kind, stkalign)
  {
    AlignBit(sp);
    ClearBit2(Wrap(sp - kind.FrameSize()));
  }

  lemma AlignBit(sp: Word)
    ensures And(Shr(sp, 2), 1) == Bit(sp, 2) && And(Shr(sp, 2), 0) == 0
  {
    BitOfShr(sp, 2);
    assert Pow2(1) == 2;
    AndLowMask(Shr(sp, 2), 1);
  }

  lemma ClearBit2(p: Word)
    ensures And(p, 0xFFFF_FFFF - Shl(1, 2)) == p - 4 * Bit(p, 2) && And(p, 0xFFFF_FFFF - Shl(0, 2)) == p
  {
    ShlZero(2);
    assert Shl(1, 2) == 4 && Pow2(2) == 4;
    Pow2Values();
    AndClearBit(p, 0xFFFF_FFFB, 2, 32);
    AndLowMask(p, 32);
    LowSmall(p, 32);
  }


  // ----- the code ---------------------------------------------------------------------------

  /** The memory, and the STKALIGN bit of the configuration and control register. */
  class Ram {
    var mem: Words
    const stkalign: bool

    constructor (mem: Words, stkalign: bool)
      ensures this.mem == mem && this.stkalign == stkalign
    {
      this.mem, this.stkalign := mem, stkalign;
    }

    /** resetInitialSp */
    method ResetInitialSp(ctx: Word)
      modifies this
      ensures mem == AfterReset(old(mem), ctx, stkalign)
    {
      var isBasic := Read32(mem, ctx);
      if isBasic != 0 {
        ResetFrameSp(ctx, Basic);
      } else {
        ResetFrameSp(ctx, Extended);
      }
    }

    method ResetFrameSp(ctx: Word, kind: Kind)
      modifies this
      ensures mem == Write32(old(mem), At(ctx + FRAME, kind.SpIndex()),
        ResetSp(Read32(old(mem), At(ctx + FRAME, kind.SpIndex())), Read32(old(mem), At(ctx + FRAME, kind.PsrIndex())),
            kind, stkalign))
    {
      var sp: int := Read32(mem, At(ctx + FRAME, kind.SpIndex()));
      var xpsr := Read32(mem, At(ctx + FRAME, kind.PsrIndex()));
      var forceAlign := kind.ForceAlign(stkalign);
      var spMask := Shl(And(Shr(xpsr, 9), forceAlign), 2);
      ResetMask(xpsr, kind, stkalign);
      Or32(Wrap(sp + kind.FrameSize()), spMask);
      mem := Write32(mem, At(ctx + FRAME, kind.SpIndex()), Or(Wrap(sp + kind.FrameSize()), spMask));
    }

    /** writeContext: writeBasicContext or writeExtendedContext. */
    method WriteContext(src: Word, dst: Word, flags: Word)
      modifies this
      ensures mem == AfterSave(old(mem), src, dst, flags)
    {
      var isBasic := Read32(mem, src);
      if isBasic != 0 {
        CopyRegisters(src, dst, 17);
        mem := Write32(mem, dst, 1);
      } else {
        CopyRegisters(src, dst, 50);
        mem := Write32(mem, dst, 0);
      }
      mem := Write32(mem, dst + FLAGS, flags);
    }

    /** The copy loop of the two functions. */
    method CopyRegisters(src: Word, dst: Word, n: nat)
      modifies this
      ensures mem == Transfer(old(mem), src + FRAME, dst + FRAME, n, None)
    {
      var i := 0;
      while i < n
        invariant 0 <= i <= n
        invariant mem == Transfer(old(mem), src + FRAME, dst + FRAME, i, None)
      {
        TransferStep(old(mem), src + FRAME, dst + FRAME, i, None);
        mem := Write32(mem, At(dst + FRAME, i), Read32(mem, At(src + FRAME, i)));
        i := i + 1;
      }
    }

    /** The stores `framePtr[0] = ...`, a row in the source, a loop here. */
    method FillFrame(src: int, frame: Word, n: nat, align: Flag)
      modifies this
      ensures mem == Transfer(old(mem), src, frame, n, Some(align))
    {
      var i := 0;
      while i < n
        invariant 0 <= i <= n
        invariant mem == Transfer(old(mem), src, frame, i, Some(align))
      {
        TransferStep(old(mem), src, frame, i, Some(align));
        mem := Write32(mem, At(frame, i), Out(Read32(mem, At(src, i)), i, Some(align)));
        i := i + 1;
      }
    }

    /** loadBasicContext or loadExtendedContext, up to the exception return. */
    method LoadContext(ctx: Word) returns (l: Loaded)
      modifies this
      ensures mem == LoadMemory(old(mem), ctx, stkalign)
      ensures l == LoadState(old(mem), mem, ctx, stkalign)
    {
      var isBasic := Read32(mem, ctx);
      var kind := if isBasic != 0 then Basic else Extended;
      var sp: int := Read32(mem, At(ctx + FRAME, kind.SpIndex()));
      var frame := LoadFramePtr(sp, kind, stkalign);
      FillFrame(ctx + FRAME + 4 * kind.HwIndex(), frame, kind.HwLength(), And(Shr(sp, 2), kind.ForceAlign(stkalign)));
      var low := ReadWords(mem, ctx + FRAME + 4 * (kind.SpIndex() + 1), 8);
      var high := ReadWords(mem, ctx + FRAME, kind.SpIndex());
      l := Loaded(kind, frame, low, high);
    }
  }
}
