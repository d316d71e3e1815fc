/** The limits of the round trip: a save address or a frame for which it fails loses a register, shown by two
    threads that the kernel cannot tell apart. */
module LostRegisters {
  import opened Bits
  import opened Memory
  import opened ExceptionFrames
  import opened RoundTrip
  import opened Wrappers

  /** Two memories differ at one address at most. */
  ghost predicate SameBut(m: Words, w: Words, y: Word) {
    m[y := 0] == w[y := 0]
  }

  lemma ReadSameBut(m: Words, w: Words, y: Word, x: Word)
    requires SameBut(m, w, y) && x != y
    ensures Read32(m, x) == Read32(w, x)
  {
    assert Read32(m, x) == Read32(m[y := 0], x);
    assert Read32(w, x) == Read32(w[y := 0], x);
  }

  /** The same write keeps two memories alike, and at that address makes them equal. */
  lemma WriteSameBut(m: Words, w: Words, y: Word, x: Word, v: Word)
    requires SameBut(m, w, y)
    ensures SameBut(Write32(m, x, v), Write32(w, x, v), y)
    ensures x == y ==> Write32(m, x, v) == Write32(w, x, v)
  {
    if x == y {
      assert m[y := v] == m[y := 0][y := v] && w[y := v] == w[y := 0][y := v];
    } else {
      assert m[x := v][y := 0] == m[y := 0][x := v] && w[x := v][y := 0] == w[y := 0][x := v];
    }
  }

  /** A copy that does not read `y` keeps two memories that differ there alike ... */
  lemma {:induction false} TransferAlike(m: Words, w: Words, src: int, dst: int, y: Word, n: nat, align: Option<Flag>)
    requires SameBut(m, w, y) && forall j: nat :: j < n ==> At(src, j) != y
    ensures SameBut(Transfer(m, src, dst, n, align), Transfer(w, src, dst, n, align), y)
  {
    if n != 0 {
      var k := n - 1;
      var m1, w1 := Transfer(m, src, dst, k, align), Transfer(w, src, dst, k, align);
      TransferAlike(m, w, src, dst, y, k, align);
      ReadSameBut(m1, w1, y, At(src, k));
      WriteSameBut(m1, w1, y, At(dst, k), Out(Read32(m1, At(src, k)), k, align));
    }
  }

  /** ... and one that overwrites `y` before it reads it makes them equal. */
  lemma {:induction false} TransferCovers(m: Words, w: Words, src: int, dst: int, k: nat, n: nat, align: Option<Flag>)
    requires k < n && SameBut(m, w, At(dst, k)) && forall j: nat :: j <= k ==> At(src, j) != At(dst, k)
    ensures Transfer(m, src, dst, n, align) == Transfer(w, src, dst, n, align)
  {
    var l := n - 1;
    var m1, w1 := Transfer(m, src, dst, l, align), Transfer(w, src, dst, l, align);
    if l == k {
      TransferAlike(m, w, src, dst, At(dst, k), l, align);
      ReadSameBut(m1, w1, At(dst, k), At(src, l));
      WriteSameBut(m1, w1, At(dst, k), At(dst, l), Out(Read32(m1, At(src, l)), l, align));
    } else {
      TransferCovers(m, w, src, dst, k, l, align);
    }
  }

  /** Two register files that differ in register `j` only, and there in bit 0. */
  ghost predicate Twins(r: seq<Word>, t: seq<Word>, kind: Kind, j: nat) {
    && |r| == |t| == kind.Length() && j < kind.Length() && j != kind.SpIndex()
    && r[j] == 0 && t == r[j := 1]
  }

  /** Twins are told apart by what they should get back. */
  lemma TwinsReturned(r: seq<Word>, t: seq<Word>, kind: Kind, j: nat, stkalign: bool)
    requires Twins(r, t, kind, j)
    ensures Returned(r, kind, stkalign)[j] != Returned(t, kind, stkalign)[j]
  {
    var align := SpAlign(r[kind.SpIndex()], kind, stkalign);
    if j == kind.PsrIndex() {
      ReturnedParity(r[j], align);
      ReturnedParity(t[j], align);
    }
  }

  lemma ReturnedParity(psr: Word, align: Flag)
    ensures WithBit(WithBit(psr, 9, align), 24, 1) % 2 == psr % 2
  {
    ParityKept(psr, 9, align);
    ParityKept(WithBit(psr, 9, align), 24, 1);
  }

  lemma ParityKept(x: Word, k: nat, b: nat)
    requires 1 <= k < 32 && b <= 1
    ensures WithBit(x, k, b) % 2 == x % 2
  {
    assert Pow2(k) == 2 * Pow2(k - 1);
  }

  /** Their interrupted and reset contexts differ in one word. */
  lemma TwinsReset(m: Words, r: seq<Word>, t: seq<Word>, kind: Kind, j: nat, stkalign: bool, ctx: Word)
    requires Twins(r, t, kind, j) && r[kind.SpIndex()] % 4 == 0
    requires ctx == ContextAddress(r[kind.SpIndex()], kind, stkalign)
    ensures SameBut(AfterReset(Stacked(m, r, kind, stkalign), ctx, stkalign),
                    AfterReset(Stacked(m, t, kind, stkalign), ctx, stkalign), At(ctx + FRAME, j))
  {
    var p, y := kind.SpIndex(), At(ctx + FRAME, j);
    StackedThenReset(m, r, kind, stkalign, ctx);
    StackedThenReset(m, t, kind, stkalign, ctx);
    TwinsStacked(r, t, kind, j, stkalign);
    assert At(ctx + FRAME, j) == At(ctx, 2 + j);
    WriteWordsAlike(m, ctx, ContextWords(r, kind, stkalign), ContextWords(t, kind, stkalign), 2 + j);
    WriteSameBut(Stacked(m, r, kind, stkalign), Stacked(m, t, kind, stkalign), y, At(ctx + FRAME, p), r[p]);
  }

  lemma TwinsStacked(r: seq<Word>, t: seq<Word>, kind: Kind, j: nat, stkalign: bool)
    requires Twins(r, t, kind, j)
    ensures var v, w := ContextWords(r, kind, stkalign), ContextWords(t, kind, stkalign);
            forall i :: 0 <= i < |v| && i != 2 + j ==> v[i] == w[i]
  {
    ContextWordsAre(r, kind, stkalign);
    ContextWordsAre(t, kind, stkalign);
  }

  lemma {:induction false} WriteWordsAlike(m: Words, a: int, v: seq<Word>, w: seq<Word>, j: nat)
    requires |v| == |w| && forall i :: 0 <= i < |v| && i != j ==> v[i] == w[i]
    ensures SameBut(WriteWords(m, a, v), WriteWords(m, a, w), At(a, j))
    decreases |v|
  {
    if v != [] {
      var n := |v| - 1;
      var m1, w1 := WriteWords(m, a, v[..n]), WriteWords(m, a, w[..n]);
      WriteWordsAlike(m, a, v[..n], w[..n], j);
      WriteSameBut(m1, w1, At(a, j), At(a, n), v[n]);
      if n == j {
        var y := At(a, j);
        assert Write32(m1, y, v[n])[y := 0] == m1[y := 0];
        assert Write32(w1, y, w[n])[y := 0] == w1[y := 0];
      }
    }
  }

  /** A thread interrupted with registers `regs` gets them back from `later`. */
  ghost predicate ComesBack(later: Words, regs: seq<Word>, kind: Kind, stkalign: bool, slot: Word) {
    |regs| == kind.Length() && LoadAndReturn(later, slot, stkalign) == Returned(regs, kind, stkalign)
  }

  /** `later` holds, in the slot, the context that was saved. */
  ghost predicate Kept(m: Words, later: Words, regs: seq<Word>, kind: Kind, stkalign: bool, slot: Word, flags: Word) {
    && |regs| == kind.Length()
    && ReadWords(later, slot, kind.Words())
        == ReadWords(Saved(m, regs, kind, stkalign, slot, flags), slot, kind.Words())
  }

  function Zeros(kind: Kind, sp: Word): (r: seq<Word>)
    ensures |r| == kind.Length()
  {
    seq(kind.Length(), i => if i == kind.SpIndex() then sp else 0)
  }

  lemma ZerosTwin(kind: Kind, sp: Word, j: nat)
    requires j < kind.Length() && j != kind.SpIndex()
    ensures Twins(Zeros(kind, sp), Zeros(kind, sp)[j := 1], kind, j)
  {
  }

  lemma NotBoth(m: Words, w: Words, r: seq<Word>, t: seq<Word>, kind: Kind, j: nat, stkalign: bool, slot: Word)
    requires Twins(r, t, kind, j) && LoadAndReturn(m, slot, stkalign) == LoadAndReturn(w, slot, stkalign)
    ensures !(ComesBack(m, r, kind, stkalign, slot) && ComesBack(w, t, kind, stkalign, slot))
  {
    TwinsReturned(r, t, kind, j, stkalign);
  }

  /** A slot in front of the copy: twins leave the same memory ... */
  lemma TwinsSaved(m: Words, r: seq<Word>, t: seq<Word>, kind: Kind, stkalign: bool, slot: Word, flags: Word, d: nat,
      j: nat)
    requires Twins(r, t, kind, j) && r[kind.SpIndex()] % 4 == 0 && 1 <= d <= j
    requires Wrap(slot - ContextAddress(r[kind.SpIndex()], kind, stkalign)) == 4 * d
    ensures Saved(m, r, kind, stkalign, slot, flags) == Saved(m, t, kind, stkalign, slot, flags)
  {
    var ctx := ContextAddress(r[kind.SpIndex()], kind, stkalign);
    TwinsReset(m, r, t, kind, j, stkalign, ctx);
    StackedThenReset(m, r, kind, stkalign, ctx);
    StackedThenReset(m, t, kind, stkalign, ctx);
    SavedAlike(AfterReset(Stacked(m, r, kind, stkalign), ctx, stkalign),
      AfterReset(Stacked(m, t, kind, stkalign), ctx, stkalign), ctx, slot, flags, kind, d, j);
  }

  lemma SavedAlike(m: Words, w: Words, ctx: Word, slot: Word, flags: Word, kind: Kind, d: nat, j: nat)
    requires KindAt(m, ctx) == kind == KindAt(w, ctx) && 1 <= d <= j < kind.Length()
    requires Wrap(slot - ctx) == 4 * d && SameBut(m, w, At(ctx + FRAME, j))
    ensures AfterSave(m, ctx, slot, flags) == AfterSave(w, ctx, slot, flags)
  {
    var a, b := ctx + FRAME, slot + FRAME;
    Meeting(a, b, j - d, j);
    forall i: nat | i <= j - d ensures At(a, i) != At(b, j - d) {
      AtDistinct(a, i, j);
    }
    TransferCovers(m, w, a, b, j - d, kind.Length(), None);
  }

  /** ... so that one of them does not come back. */
  lemma CopyLoses(m: Words, sp: Word, kind: Kind, stkalign: bool, slot: Word, flags: Word, d: nat)
    returns (regs: seq<Word>, later: Words)
    requires sp % 4 == 0 && 1 <= d < kind.Length()
    requires Wrap(slot - ContextAddress(sp, kind, stkalign)) == 4 * d
    ensures Lost(m, later, regs, sp, kind, stkalign, slot, flags)
  {
    var j := if d == kind.SpIndex() then d + 1 else d;
    var r := Zeros(kind, sp);
    var t := r[j := 1];
    ZerosTwin(kind, sp, j);
    TwinsSaved(m, r, t, kind, stkalign, slot, flags, d, j);
    later := Saved(m, r, kind, stkalign, slot, flags);
    NotBoth(later, later, r, t, kind, j, stkalign, slot);
    regs := if ComesBack(later, r, kind, stkalign, slot) then t else r;
  }

  /** A thread with this stack pointer that is not restored. */
  ghost predicate Lost(m: Words, later: Words, regs: seq<Word>, sp: Word, kind: Kind, stkalign: bool, slot: Word,
      flags: Word) {
    && Kept(m, later, regs, kind, stkalign, slot, flags) && regs[kind.SpIndex()] == sp
    && !ComesBack(later, regs, kind, stkalign, slot)
  }

  /** A slot in front of the hardware frame: likewise. */
  lemma FillLoses(m: Words, sp: Word, kind: Kind, stkalign: bool, slot: Word, flags: Word, d: nat)
    returns (regs: seq<Word>, later: Words)
    requires sp % 4 == 0 && 1 <= d < kind.HwLength()
    requires Wrap(slot - ContextAddress(sp, kind, stkalign)) == 0x1_0000_0000 - 4 * d
    ensures Lost(m, later, regs, sp, kind, stkalign, slot, flags)
  {
    var j := kind.HwIndex() + d;
    var r := Zeros(kind, sp);
    var t := r[j := 1];
    ZerosTwin(kind, sp, j);
    var later0, later1 := TwinSlots(m, r, t, kind, stkalign, slot, flags, d);
    NotBoth(later0, later1, r, t, kind, j, stkalign, slot);
    if ComesBack(later0, r, kind, stkalign, slot) {
      regs, later := t, later1;
    } else {
      regs, later := r, later0;
    }
  }

  /** Memories that hold the saved contexts of twins, and from which the same is loaded. */
  lemma TwinSlots(m: Words, r: seq<Word>, t: seq<Word>, kind: Kind, stkalign: bool, slot: Word, flags: Word, d: nat)
    returns (later0: Words, later1: Words)
    requires 1 <= d < kind.HwLength() && Twins(r, t, kind, kind.HwIndex() + d) && r[kind.SpIndex()] % 4 == 0
    requires Wrap(slot - ContextAddress(r[kind.SpIndex()], kind, stkalign)) == 0x1_0000_0000 - 4 * d
    ensures Kept(m, later0, r, kind, stkalign, slot, flags) && Kept(m, later1, t, kind, stkalign, slot, flags)
    ensures LoadAndReturn(later0, slot, stkalign) == LoadAndReturn(later1, slot, stkalign)
  {
    var sp, j := r[kind.SpIndex()], kind.HwIndex() + d;
    var ctx := ContextAddress(sp, kind, stkalign);
    SavedInFront(m, r, kind, stkalign, slot, flags, ctx, d);
    SavedInFront(m, t, kind, stkalign, slot, flags, ctx, d);
    FrameInFront(sp, kind, stkalign, slot, d);
    TwinsInterrupted(r, t, kind, j, stkalign);
    later0 := Saved(m, r, kind, stkalign, slot, flags);
    later1 := TwinSlot(later0, slot, kind, stkalign, flags, Interrupted(r, kind, stkalign),
        Interrupted(t, kind, stkalign), j, 0);
  }

  lemma TwinsInterrupted(r: seq<Word>, t: seq<Word>, kind: Kind, j: nat, stkalign: bool)
    requires Twins(r, t, kind, j)
    ensures var v, w := Interrupted(r, kind, stkalign), Interrupted(t, kind, stkalign);
            && v[kind.SpIndex()] == r[kind.SpIndex()]
            && forall i :: 0 <= i < |v| && i != j ==> v[i] == w[i]
  {
  }

  lemma FrameInFront(sp: Word, kind: Kind, stkalign: bool, slot: Word, d: nat)
    requires 1 <= d < kind.HwLength()
    requires Wrap(slot - ContextAddress(sp, kind, stkalign)) == 0x1_0000_0000 - 4 * d
    ensures At(PushedFrame(sp, kind, stkalign), 0) == At(slot + FRAME, kind.HwIndex() + d)
  {
    var ctx := ContextAddress(sp, kind, stkalign);
    FrameOfContext(sp, kind, stkalign, 0);
    Meeting(slot + FRAME, ctx + FRAME + 4 * kind.HwIndex(), 0, kind.HwIndex() + d);
  }

  /** The filling of the frame overwrites register `j` of the context with word `k` before it is read. */
  ghost predicate Spoils(slot: Word, kind: Kind, frame: Word, j: nat, k: nat) {
    && j < kind.Length() && j != kind.SpIndex() && k < kind.HwLength()
    && (j >= kind.HwIndex() ==> k < j - kind.HwIndex())
    && At(frame, k) == At(slot + FRAME, j)
  }

  /** Then another context gives the same thread. */
  lemma TwinSlot(m: Words, slot: Word, kind: Kind, stkalign: bool, flags: Word, r: seq<Word>, t: seq<Word>, j: nat,
      k: nat)
    returns (w: Words)
    requires |r| == |t| == kind.Length() && forall i :: 0 <= i < |r| && i != j ==> r[i] == t[i]
    requires ReadWords(m, slot, kind.Words()) == SlotWords(kind, flags, r)
    requires Spoils(slot, kind, PushedFrame(r[kind.SpIndex()], kind, stkalign), j, k)
    ensures ReadWords(w, slot, kind.Words()) == SlotWords(kind, flags, t)
    ensures LoadAndReturn(m, slot, stkalign) == LoadAndReturn(w, slot, stkalign)
  {
    var y := At(slot + FRAME, j);
    w := Write32(m, y, t[j]);
    OneWord(m, w, slot, kind, flags, r, t, j);
    assert w[y := 0] == m[y := 0];
    SlotIsContext(m, slot, kind, flags, r);
    assert SpOf(m, slot) == ReadWords(m, slot + FRAME, kind.Length())[kind.SpIndex()];
    LoadForgets(m, w, slot, kind, stkalign, r[kind.SpIndex()], j, k);
  }

  lemma SavedInFront(m: Words, regs: seq<Word>, kind: Kind, stkalign: bool, slot: Word, flags: Word, ctx: Word, d: nat)
    requires |regs| == kind.Length() && regs[kind.SpIndex()] % 4 == 0
    requires ctx == ContextAddress(regs[kind.SpIndex()], kind, stkalign)
    requires 1 <= d < kind.HwLength() && Wrap(slot - ctx) == 0x1_0000_0000 - 4 * d
    ensures var w := Saved(m, regs, kind, stkalign, slot, flags);
            && ReadWords(w, slot, kind.Words()) == SlotWords(kind, flags, Interrupted(regs, kind, stkalign))
            && ContextAt(w, slot, kind, Interrupted(regs, kind, stkalign))
  {
    var kept := Interrupted(regs, kind, stkalign);
    StackedThenReset(m, regs, kind, stkalign, ctx);
    var a, b := ctx + FRAME, slot + FRAME;
    forall i: nat, j: nat | i < j < kind.Length() ensures At(b, i) != At(a, j) {
      Meeting(a, b, i, j);
    }
    SaveCopies(AfterReset(Stacked(m, regs, kind, stkalign), ctx, stkalign), ctx, slot, flags, kind, kept);
    SlotIsContext(Saved(m, regs, kind, stkalign, slot, flags), slot, kind, flags, kept);
  }

  /** Replacing one word of a saved context. */
  lemma OneWord(m: Words, w: Words, slot: Word, kind: Kind, flags: Word, r: seq<Word>, t: seq<Word>, j: nat)
    requires |r| == |t| == kind.Length() && j < kind.Length() && forall i :: 0 <= i < |r| && i != j ==> r[i] == t[i]
    requires ReadWords(m, slot, kind.Words()) == SlotWords(kind, flags, r)
    requires w == Write32(m, At(slot + FRAME, j), t[j])
    ensures ReadWords(w, slot, kind.Words()) == SlotWords(kind, flags, t)
  {
    var v := SlotWords(kind, flags, t);
    assert At(slot + FRAME, j) == At(slot, 2 + j);
    forall i | 0 <= i < kind.Words() ensures Read32(w, At(slot, i)) == v[i] {
      if i != 2 + j {
        AtDistinct(slot, i, 2 + j);
        assert v[i] == ReadWords(m, slot, kind.Words())[i];
      }
    }
  }

  lemma OtherRegister(m: Words, w: Words, slot: Word, kind: Kind, j: nat)
    requires KindAt(m, slot) == kind && SameBut(m, w, At(slot + FRAME, j))
    requires j < kind.Length() && j != kind.SpIndex()
    ensures KindAt(w, slot) == kind && SpOf(w, slot) == SpOf(m, slot)
  {
    var y := At(slot + FRAME, j);
    assert y == At(slot, 2 + j);
    AtDistinct(slot, 0, 2 + j);
    ReadSameBut(m, w, y, At(slot, 0));
    AtDistinct(slot + FRAME, kind.SpIndex(), j);
    ReadSameBut(m, w, y, At(slot + FRAME, kind.SpIndex()));
  }

  lemma LoadForgets(m: Words, w: Words, slot: Word, kind: Kind, stkalign: bool, sp: Word, j: nat, k: nat)
    requires KindAt(m, slot) == kind && SpOf(m, slot) == sp
    requires Spoils(slot, kind, PushedFrame(sp, kind, stkalign), j, k) && SameBut(m, w, At(slot + FRAME, j))
    ensures LoadAndReturn(m, slot, stkalign) == LoadAndReturn(w, slot, stkalign)
  {
    var frame, align := PushedFrame(sp, kind, stkalign), SpAlign(sp, kind, stkalign);
    OtherRegister(m, w, slot, kind, j);
    LoadFrame(sp, kind, stkalign);
    FillForgets(m, w, slot, kind, frame, j, k, align);
    LoadUnfolds(m, slot, stkalign, kind, frame, align);
    LoadUnfolds(w, slot, stkalign, kind, frame, align);
  }

  lemma FillForgets(m: Words, w: Words, slot: Word, kind: Kind, frame: Word, j: nat, k: nat, align: Flag)
    requires Spoils(slot, kind, frame, j, k) && SameBut(m, w, At(slot + FRAME, j))
    ensures var src := slot + FRAME + 4 * kind.HwIndex();
            Transfer(m, src, frame, kind.HwLength(), Some(align))
                == Transfer(w, src, frame, kind.HwLength(), Some(align))
  {
    var hw, src := kind.HwIndex(), slot + FRAME + 4 * kind.HwIndex();
    forall l: nat | l <= k ensures At(src, l) != At(frame, k) {
      assert At(src, l) == At(slot + FRAME, hw + l);
      AtDistinct(slot + FRAME, hw + l, j);
    }
    TransferCovers(m, w, src, frame, k, kind.HwLength(), Some(align));
  }

  /** Every thread with this stack pointer comes back. */
  ghost predicate AllComeBack(m: Words, sp: Word, kind: Kind, stkalign: bool, slot: Word, flags: Word) {
    forall regs: seq<Word>, later: Words :: !Lost(m, later, regs, sp, kind, stkalign, slot, flags)
  }

  /** The exact condition. A word-aligned save address gives every thread with this stack pointer its
      registers back if and only if it is a safe one. */
  lemma RoundTripExact(m: Words, sp: Word, kind: Kind, stkalign: bool, slot: Word, flags: Word)
    requires sp % 4 == 0 && slot % 4 == 0
    ensures AllComeBack(m, sp, kind, stkalign, slot, flags)
        <==> SafeSlot(ContextAddress(sp, kind, stkalign), slot, kind)
  {
    if SafeSlot(ContextAddress(sp, kind, stkalign), slot, kind) {
      forall regs: seq<Word>, later: Words ensures !Lost(m, later, regs, sp, kind, stkalign, slot, flags) {
        if Lost(m, later, regs, sp, kind, stkalign, slot, flags) {
          SaveRestoreRoundTrip(m, later, regs, kind, stkalign, slot, flags);
        }
      }
    } else {
      var regs, later := UnsafeSlotLoses(m, sp, kind, stkalign, slot, flags);
    }
  }

  /** At any other one some thread is not restored. */
  lemma UnsafeSlotLoses(m: Words, sp: Word, kind: Kind, stkalign: bool, slot: Word, flags: Word)
    returns (regs: seq<Word>, later: Words)
    requires sp % 4 == 0 && slot % 4 == 0 && !SafeSlot(ContextAddress(sp, kind, stkalign), slot, kind)
    ensures Lost(m, later, regs, sp, kind, stkalign, slot, flags)
  {
    ContextAligned(sp, kind, stkalign);
    var d := WordDistance(ContextAddress(sp, kind, stkalign), slot);
    if d < kind.Length() {
      regs, later := CopyLoses(m, sp, kind, stkalign, slot, flags, d);
    } else {
      regs, later := FillLoses(m, sp, kind, stkalign, slot, flags, MAX_AREA - d);
    }
  }

  lemma WordDistance(a: Word, b: Word) returns (d: nat)
    requires a % 4 == 0 && b % 4 == 0
    ensures Wrap(b - a) == 4 * d && d < MAX_AREA
  {
    d := if b >= a then b / 4 - a / 4 else b / 4 - a / 4 + MAX_AREA;
  }

  lemma ContextAligned(sp: Word, kind: Kind, stkalign: bool)
    requires sp % 4 == 0
    ensures ContextAddress(sp, kind, stkalign) % 4 == 0
  {
  }

  // ----- which contexts can be loaded ---------------------------------------------------------------

  /** Every context at `ctx` with this stack pointer is loaded as it should be. */
  ghost predicate AllLoad(ctx: Word, sp: Word, kind: Kind, stkalign: bool) {
    forall m: Words, regs: seq<Word> :: !Misloaded(m, regs, ctx, sp, kind, stkalign)
  }

  ghost predicate Misloaded(m: Words, regs: seq<Word>, ctx: Word, sp: Word, kind: Kind, stkalign: bool) {
    && ContextAt(m, ctx, kind, regs) && regs[kind.SpIndex()] == sp
    && LoadAndReturn(m, ctx, stkalign) != Resumed(regs, kind, stkalign)
  }

  /** The exact condition for a load: the frame, which goes where the stack pointer in the context says, spoils
      no register that is still to be read. */
  lemma LoadExact(ctx: Word, sp: Word, kind: Kind, stkalign: bool)
    ensures AllLoad(ctx, sp, kind, stkalign) <==> LoadSafe(ctx, kind, PushedFrame(sp, kind, stkalign))
  {
    var frame := PushedFrame(sp, kind, stkalign);
    if LoadSafe(ctx, kind, frame) {
      forall m: Words, regs: seq<Word> ensures !Misloaded(m, regs, ctx, sp, kind, stkalign) {
        if Misloaded(m, regs, ctx, sp, kind, stkalign) { LoadResumes(m, ctx, stkalign, kind, regs); }
      }
    } else {
      var j, k := SpoiledRegister(ctx, kind, frame);
      var m, regs := SpoiltContext(ctx, sp, kind, stkalign, j, k);
    }
  }

  lemma SpoiledRegister(ctx: Word, kind: Kind, frame: Word) returns (j: nat, k: nat)
    requires !LoadSafe(ctx, kind, frame)
    ensures Spoils(ctx, kind, frame, j, k)
  {
    var a, hw := ctx + FRAME, kind.HwIndex();
    if !LowClear(a, kind, frame) {
      j, k :| j < hw && j != kind.SpIndex() && k < kind.HwLength() && At(a, j) == At(frame, k);
    } else {
      var b, l: nat := a + 4 * hw, 0;
      k, l :| k < l < kind.HwLength() && At(frame, k) == At(b, l);
      j := hw + l;
      assert At(b, l) == At(a, j);
    }
  }

  lemma SpoiltContext(ctx: Word, sp: Word, kind: Kind, stkalign: bool, j: nat, k: nat)
      returns (m: Words, regs: seq<Word>)
    requires Spoils(ctx, kind, PushedFrame(sp, kind, stkalign), j, k)
    ensures Misloaded(m, regs, ctx, sp, kind, stkalign)
  {
    var r := Zeros(kind, sp);
    var t := r[j := 1];
    ZerosTwin(kind, sp, j);
    var m0 := WriteWords(map[], ctx, SlotWords(kind, 0, r));
    ReadBackWords(map[], ctx, SlotWords(kind, 0, r));
    var m1 := TwinSlot(m0, ctx, kind, stkalign, 0, r, t, j, k);
    SlotIsContext(m0, ctx, kind, 0, r);
    SlotIsContext(m1, ctx, kind, 0, t);
    TwinsResumed(r, t, kind, j, stkalign);
    if Misloaded(m0, r, ctx, sp, kind, stkalign) {
      m, regs := m0, r;
    } else {
      m, regs := m1, t;
    }
  }

  lemma TwinsResumed(r: seq<Word>, t: seq<Word>, kind: Kind, j: nat, stkalign: bool)
    requires Twins(r, t, kind, j)
    ensures Resumed(r, kind, stkalign)[j] != Resumed(t, kind, stkalign)[j]
  {
    ResumedAt(r, kind, j, stkalign);
    ResumedAt(t, kind, j, stkalign);
    OutParity(r[j], SpAlign(r[kind.SpIndex()], kind, stkalign));
    OutParity(t[j], SpAlign(r[kind.SpIndex()], kind, stkalign));
  }

  lemma ResumedAt(regs: seq<Word>, kind: Kind, j: nat, stkalign: bool)
    requires |regs| == kind.Length() && j < kind.Length() && j != kind.SpIndex()
    ensures Resumed(regs, kind, stkalign)[j]
         == if j != kind.PsrIndex() then regs[j]
            else Out(regs[j], 7, Some(SpAlign(regs[kind.SpIndex()], kind, stkalign)))
  {
  }

  lemma OutParity(psr: Word, align: Flag)
    ensures Out(psr, 7, Some(align)) % 2 == psr % 2
  {
    PsrMasks();
    OrEven(psr, Shl(align, 9));
    OrEven(Or(psr, Shl(align, 9)), Shl(1, 24));
  }

  lemma OrEven(x: nat, y: nat)
    requires y % 2 == 0
    ensures Or(x, y) % 2 == x % 2
  {
    OrStep(x, y);
  }
}
