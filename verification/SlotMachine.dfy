/** The rules by which MemManage faults fill slots while an instruction is tried again and again, as a machine over
    what four slots map of it: the slot of the fetched block, the two spare slots, and the slot of the data's block
    if that is another one. Slots may hold anything at the start, pieces left over from other blocks included. */
module SlotMachine {

  /** What a slot maps of an instruction: its two half-words and the two ends of its data. */
  datatype Maps = Maps(a: bool, a2: bool, d1: bool, d2: bool)

  const NOTHING: Maps := Maps(false, false, false, false)

  /** The parts of the blocks that the instruction needs, by name. `wide`: it has a second half-word. `apart`: the
      data is in another block than the code. */
  datatype Needs = Needs(a: int, a2: int, d1: int, d2: int, wide: bool, apart: bool)

  datatype Slots = Slots(own: Maps, fetch: Maps, data: Maps, other: Maps, flag: bool)

  /** What a whole part maps. */
  function Part(i: Needs, p: int): Maps {
    Maps(p == i.a, i.wide && p == i.a2, p == i.d1, p == i.d2)
  }

  predicate HasA(t: Slots, rest: Maps) {
    t.own.a || t.fetch.a || t.data.a || t.other.a || rest.a
  }

  predicate HasA2(t: Slots, rest: Maps) {
    t.own.a2 || t.fetch.a2 || t.data.a2 || t.other.a2 || rest.a2
  }

  predicate HasD1(t: Slots, rest: Maps) {
    t.own.d1 || t.fetch.d1 || t.data.d1 || t.other.d1 || rest.d1
  }

  predicate HasD2(t: Slots, rest: Maps) {
    t.own.d2 || t.fetch.d2 || t.data.d2 || t.other.d2 || rest.d2
  }

  predicate Fetched(t: Slots, rest: Maps, i: Needs) {
    HasA(t, rest) && (i.wide ==> HasA2(t, rest))
  }

  predicate Done(t: Slots, rest: Maps, i: Needs) {
    Fetched(t, rest, i) && HasD1(t, rest) && HasD2(t, rest)
  }

  /** A slot that maps the half-word already is kept. */
  function FetchPaged(t: Slots, i: Needs): Slots {
    if i.wide then
      t.(own := if t.own.a then t.own else Part(i, i.a), fetch := if t.fetch.a2 then t.fetch else Part(i, i.a2))
    else
      (if t.flag then t.(fetch := Part(i, i.a)) else t.(own := Part(i, i.a))).(flag := !t.flag)
  }

  function DataPaged(t: Slots, p: int, i: Needs): Slots {
    if t.flag then t.(data := Part(i, p), flag := false)
    else if i.apart then t.(other := Part(i, p), flag := true)
    else t.(own := Part(i, p), flag := true)
  }

  /** The slots after the next fault. */
  function After(t: Slots, rest: Maps, i: Needs): Slots {
    if !Fetched(t, rest, i) then FetchPaged(t, i)
    else if !HasD1(t, rest) then DataPaged(t, i.d1, i)
    else if !HasD2(t, rest) then DataPaged(t, i.d2, i)
    else t
  }

  function AfterAll(t: Slots, rest: Maps, i: Needs, n: nat): Slots
    decreases n
  {
    if n == 0 then t else After(AfterAll(t, rest, i, n - 1), rest, i)
  }

  // ----- when the machine stops -----------------------------------------------------------------

  /** What the spare fetch slot holds from the first fetch fault on: what it holds now, if that maps the second
      half-word, and otherwise the part of the second half-word. */
  function Kept(t: Slots, i: Needs): Maps {
    if t.fetch.a2 then t.fetch else Part(i, i.a2)
  }

  /** The first half-word and both ends of the data compete for two slots. */
  predicate Crowded(t: Slots, i: Needs) {
    && i.wide && !i.apart && i.a != i.d1 && i.a != i.d2 && i.d1 != i.d2
    && !Kept(t, i).a && !Kept(t, i).d1 && !Kept(t, i).d2
  }

  /** It stops within `n` faults. */
  predicate DoneIn(t: Slots, rest: Maps, i: Needs, n: nat)
    decreases n
  {
    Done(t, rest, i) || (n > 0 && DoneIn(After(t, rest, i), rest, i, n - 1))
  }

  lemma DoneStays(t: Slots, rest: Maps, i: Needs)
    requires Done(t, rest, i)
    ensures After(t, rest, i) == t
  {
  }

  lemma {:induction false} DoneInMore(t: Slots, rest: Maps, i: Needs, n: nat, k: nat)
    requires DoneIn(t, rest, i, n) && n <= k
    ensures DoneIn(t, rest, i, k)
    decreases n
  {
    if !Done(t, rest, i) { DoneInMore(After(t, rest, i), rest, i, n - 1, k - 1); }
  }

  lemma Then(t: Slots, u: Slots, rest: Maps, i: Needs, k: nat, n: nat)
    requires u == After(t, rest, i) && DoneIn(u, rest, i, k) && k < n
    ensures DoneIn(t, rest, i, n)
  {
    DoneInMore(u, rest, i, k, n - 1);
  }

  /** What it is after a first fault and `n` more. */
  lemma {:induction false} AfterFirst(t: Slots, u: Slots, rest: Maps, i: Needs, n: nat)
    requires u == After(t, rest, i)
    ensures AfterAll(t, rest, i, n + 1) == AfterAll(u, rest, i, n)
    decreases n
  {
    if n > 0 { AfterFirst(t, u, rest, i, n - 1); }
  }

  lemma {:induction false} DoneInMeans(t: Slots, rest: Maps, i: Needs, n: nat)
    requires DoneIn(t, rest, i, n)
    ensures Done(AfterAll(t, rest, i, n), rest, i)
    decreases n
  {
    if n > 0 {
      var u := After(t, rest, i);
      if Done(t, rest, i) { DoneStays(t, rest, i); }
      AfterFirst(t, u, rest, i, n - 1);
      DoneInMeans(u, rest, i, n - 1);
    }
  }

  // ----- single faults ----------------------------------------------------------------------------

  /** A fetch fault. */
  lemma FetchStep(t: Slots, rest: Maps, i: Needs) returns (u: Slots)
    requires !Fetched(t, rest, i)
    ensures u == After(t, rest, i) && u == FetchPaged(t, i)
  {
    u := After(t, rest, i);
  }

  /** A data fault; `first` says for which end. */
  lemma DataStep(t: Slots, rest: Maps, i: Needs) returns (u: Slots, first: bool)
    requires Fetched(t, rest, i) && !Done(t, rest, i)
    ensures u == After(t, rest, i) && u == DataPaged(t, if first then i.d1 else i.d2, i)
    ensures if first then !HasD1(t, rest) else HasD1(t, rest) && !HasD2(t, rest)
  {
    first := !HasD1(t, rest);
    u := After(t, rest, i);
  }

  // ----- a 32-bit instruction with its data in the same block ----------------------------------------

  /** The kept slot stays what it is. */
  lemma CrowdedStays(t: Slots, rest: Maps, i: Needs)
    ensures Crowded(After(t, rest, i), i) <==> Crowded(t, i)
  {
    if i.wide { assert Kept(After(t, rest, i), i) == Kept(t, i); }
  }

  /** Both half-words are where a fetch fault puts them. */
  predicate Settled(t: Slots) { t.own.a && t.fetch.a2 }

  lemma SettledTrue(t: Slots, rest: Maps, i: Needs)
    requires i.wide && !i.apart && !Crowded(t, i) && Settled(t) && t.flag
    ensures DoneIn(t, rest, i, 2)
  {
    if !Done(t, rest, i) {
      var u, first := DataStep(t, rest, i);
      if !Done(u, rest, i) {
        var w, second := DataStep(u, rest, i);
        assert Done(w, rest, i);
        Then(u, w, rest, i, 0, 1);
      }
      Then(t, u, rest, i, 1, 2);
    }
  }

  /** The data slot holds one end of the data already. */
  lemma SettledHalf(t: Slots, rest: Maps, i: Needs)
    requires i.wide && !i.apart && !Crowded(t, i) && Settled(t) && !t.flag && (t.data.d1 || t.data.d2)
    ensures DoneIn(t, rest, i, 3)
  {
    if !Done(t, rest, i) {
      var u, first := DataStep(t, rest, i);
      if !Done(u, rest, i) {
        var w := FetchStep(u, rest, i);
        if !Done(w, rest, i) {
          var x, again := DataStep(w, rest, i);
          assert Done(x, rest, i);
          Then(w, x, rest, i, 0, 1);
        }
        Then(u, w, rest, i, 1, 2);
      }
      Then(t, u, rest, i, 2, 3);
    }
  }

  lemma SettledFalse(t: Slots, rest: Maps, i: Needs)
    requires i.wide && !i.apart && !Crowded(t, i) && Settled(t) && !t.flag
    ensures DoneIn(t, rest, i, 4)
  {
    if !Done(t, rest, i) {
      var u, first := DataStep(t, rest, i);
      CrowdedStays(t, rest, i);
      if !Fetched(u, rest, i) {
        var w := FetchStep(u, rest, i);
        CrowdedStays(u, rest, i);
        SettledTrue(w, rest, i);
        Then(u, w, rest, i, 2, 3);
      } else if !Done(u, rest, i) {
        var w, second := DataStep(u, rest, i);
        assert Done(w, rest, i);
        Then(u, w, rest, i, 0, 3);
      }
      Then(t, u, rest, i, 3, 4);
    }
  }

  lemma FetchFirst(t: Slots, rest: Maps, i: Needs)
    requires i.wide && !i.apart && !Crowded(t, i) && !Fetched(t, rest, i)
    ensures DoneIn(t, rest, i, 5)
  {
    var u := FetchStep(t, rest, i);
    CrowdedStays(t, rest, i);
    if u.flag {
      SettledTrue(u, rest, i);
      DoneInMore(u, rest, i, 2, 4);
    } else {
      SettledFalse(u, rest, i);
    }
    Then(t, u, rest, i, 4, 5);
  }

  /** After two data faults a fetch fault leaves one of the two ends in place. */
  lemma TwoDataFirst(t: Slots, u: Slots, w: Slots, rest: Maps, i: Needs, first: bool)
    requires i.wide && !i.apart && !Crowded(t, i) && w == After(u, rest, i) && !Fetched(w, rest, i)
    requires u == DataPaged(t, if first then i.d1 else i.d2, i)
    requires w == DataPaged(u, if first then i.d2 else i.d1, i)
    ensures DoneIn(w, rest, i, 4)
  {
    var x := FetchStep(w, rest, i);
    assert !Crowded(w, i) && !Crowded(x, i);
    if x.flag {
      SettledTrue(x, rest, i);
      DoneInMore(x, rest, i, 2, 3);
    } else {
      SettledHalf(x, rest, i);
    }
    Then(w, x, rest, i, 3, 4);
  }

  lemma WideTogether(t: Slots, rest: Maps, i: Needs)
    requires i.wide && !i.apart && !Crowded(t, i)
    ensures DoneIn(t, rest, i, 6)
  {
    if !Fetched(t, rest, i) {
      FetchFirst(t, rest, i);
      DoneInMore(t, rest, i, 5, 6);
    } else if !Done(t, rest, i) {
      var u, first := DataStep(t, rest, i);
      CrowdedStays(t, rest, i);
      if !Fetched(u, rest, i) {
        FetchFirst(u, rest, i);
      } else if !Done(u, rest, i) {
        var w, second := DataStep(u, rest, i);
        if !Done(w, rest, i) { TwoDataFirst(t, u, w, rest, i, first); }
        DoneInMore(w, rest, i, if Done(w, rest, i) then 0 else 4, 4);
        Then(u, w, rest, i, 4, 5);
      }
      DoneInMore(u, rest, i, if Done(u, rest, i) then 0 else 5, 5);
      Then(t, u, rest, i, 5, 6);
    }
  }

  // ----- the data in another block ------------------------------------------------------------------

  /** The code is where no data fault displaces it. */
  predicate Anchored(t: Slots, i: Needs) {
    if i.wide then Settled(t) else t.own.a || t.fetch.a
  }

  lemma AnchoredStops(t: Slots, rest: Maps, i: Needs)
    requires i.apart && Anchored(t, i)
    ensures DoneIn(t, rest, i, 2)
  {
    if !Done(t, rest, i) {
      var u, first := DataStep(t, rest, i);
      if !Done(u, rest, i) {
        var w, second := DataStep(u, rest, i);
        assert Done(w, rest, i);
        Then(u, w, rest, i, 0, 1);
      }
      Then(t, u, rest, i, 1, 2);
    }
  }

  lemma FetchAnchors(t: Slots, rest: Maps, i: Needs)
    requires i.apart && !Fetched(t, rest, i)
    ensures DoneIn(t, rest, i, 3)
  {
    var u := FetchStep(t, rest, i);
    AnchoredStops(u, rest, i);
    Then(t, u, rest, i, 2, 3);
  }

  lemma DataApart(t: Slots, rest: Maps, i: Needs)
    requires i.apart
    ensures DoneIn(t, rest, i, 5)
  {
    if !Fetched(t, rest, i) {
      FetchAnchors(t, rest, i);
      DoneInMore(t, rest, i, 3, 5);
    } else if !Done(t, rest, i) {
      var u, first := DataStep(t, rest, i);
      if !Fetched(u, rest, i) {
        FetchAnchors(u, rest, i);
        DoneInMore(u, rest, i, 3, 4);
      } else if !Done(u, rest, i) {
        var w, second := DataStep(u, rest, i);
        if !Fetched(w, rest, i) { FetchAnchors(w, rest, i); }
        DoneInMore(w, rest, i, if Done(w, rest, i) then 0 else 3, 3);
        Then(u, w, rest, i, 3, 4);
      }
      DoneInMore(u, rest, i, if Done(u, rest, i) then 0 else 4, 4);
      Then(t, u, rest, i, 4, 5);
    }
  }

  // ----- a 16-bit instruction with its data in the same block -----------------------------------------

  lemma FetchKept(t: Slots, rest: Maps, i: Needs)
    requires !i.wide && !i.apart && t.fetch.a
    ensures DoneIn(t, rest, i, 2)
  {
    if !Done(t, rest, i) {
      var u, first := DataStep(t, rest, i);
      if !Done(u, rest, i) {
        var w, second := DataStep(u, rest, i);
        assert Done(w, rest, i);
        Then(u, w, rest, i, 0, 1);
      }
      Then(t, u, rest, i, 1, 2);
    }
  }

  /** A fetch fault now fills the spare slot. */
  lemma FetchFills(t: Slots, rest: Maps, i: Needs)
    requires !i.wide && !i.apart && t.flag && !Fetched(t, rest, i)
    ensures DoneIn(t, rest, i, 3)
  {
    var u := FetchStep(t, rest, i);
    FetchKept(u, rest, i);
    Then(t, u, rest, i, 2, 3);
  }

  /** Both ends of the data are where data faults put them. */
  lemma DataKept(t: Slots, rest: Maps, i: Needs)
    requires !i.wide && !i.apart && t.flag
    requires (t.own.d1 && t.data.d2) || (t.own.d2 && t.data.d1)
    ensures DoneIn(t, rest, i, 1)
  {
    if !Done(t, rest, i) {
      var u := FetchStep(t, rest, i);
      assert Done(u, rest, i);
      Then(t, u, rest, i, 0, 1);
    }
  }

  /** The data slot holds one end, and the own slot the instruction. */
  lemma OneEndKept(t: Slots, rest: Maps, i: Needs)
    requires !i.wide && !i.apart && t.flag && t.own.a && (t.data.d1 || t.data.d2)
    ensures DoneIn(t, rest, i, 3)
  {
    if !Done(t, rest, i) {
      var u, first := DataStep(t, rest, i);
      if !Done(u, rest, i) {
        var w, second := DataStep(u, rest, i);
        DataKept(w, rest, i);
        Then(u, w, rest, i, 1, 2);
      }
      Then(t, u, rest, i, 2, 3);
    }
  }

  lemma NarrowTrue(t: Slots, rest: Maps, i: Needs)
    requires !i.wide && !i.apart && t.flag
    ensures DoneIn(t, rest, i, 5)
  {
    if !Fetched(t, rest, i) {
      FetchFills(t, rest, i);
      DoneInMore(t, rest, i, 3, 5);
    } else if !Done(t, rest, i) {
      var u, first := DataStep(t, rest, i);
      if !Fetched(u, rest, i) {
        var w := FetchStep(u, rest, i);
        OneEndKept(w, rest, i);
        Then(u, w, rest, i, 3, 4);
      } else if !Done(u, rest, i) {
        var w, second := DataStep(u, rest, i);
        DataKept(w, rest, i);
        Then(u, w, rest, i, 1, 4);
      }
      DoneInMore(u, rest, i, if Done(u, rest, i) then 0 else 4, 4);
      Then(t, u, rest, i, 4, 5);
    }
  }

  lemma NarrowTogether(t: Slots, rest: Maps, i: Needs)
    requires !i.wide && !i.apart
    ensures DoneIn(t, rest, i, 6)
  {
    if t.flag {
      NarrowTrue(t, rest, i);
      DoneInMore(t, rest, i, 5, 6);
    } else if !Done(t, rest, i) {
      var u := After(t, rest, i);
      assert u.flag;
      NarrowTrue(u, rest, i);
      Then(t, u, rest, i, 5, 6);
    }
  }

  /** The machine stops after six faults at most, from whatever the slots hold, unless it is crowded. */
  lemma StopsUnlessCrowded(t: Slots, rest: Maps, i: Needs)
    requires !Crowded(t, i)
    ensures Done(AfterAll(t, rest, i, 6), rest, i)
  {
    if i.apart {
      DataApart(t, rest, i);
      DoneInMore(t, rest, i, 5, 6);
    } else if i.wide {
      WideTogether(t, rest, i);
    } else {
      NarrowTogether(t, rest, i);
    }
    DoneInMeans(t, rest, i, 6);
  }

  // ----- when it does not ------------------------------------------------------------------------

  /** What the slot maps belongs to one part. */
  predicate Piece(m: Maps, i: Needs) {
    && (m.a && m.a2 ==> i.a == i.a2) && (m.a && m.d1 ==> i.a == i.d1) && (m.a && m.d2 ==> i.a == i.d2)
    && (m.a2 && m.d1 ==> i.a2 == i.d1) && (m.a2 && m.d2 ==> i.a2 == i.d2) && (m.d1 && m.d2 ==> i.d1 == i.d2)
  }

  predicate Pieces(t: Slots, i: Needs) {
    Piece(t.own, i) && Piece(t.fetch, i) && Piece(t.data, i) && t.other == NOTHING
  }

  lemma PiecesStay(t: Slots, rest: Maps, i: Needs)
    requires !i.apart && Pieces(t, i)
    ensures Pieces(After(t, rest, i), i)
  {
    assert Piece(Part(i, i.a), i) && Piece(Part(i, i.a2), i) && Piece(Part(i, i.d1), i) && Piece(Part(i, i.d2), i);
  }

  lemma CrowdedIsNotDone(t: Slots, i: Needs)
    requires Crowded(t, i) && Pieces(t, i)
    ensures !Done(t, NOTHING, i)
  {
  }

  /** A crowded machine whose slots hold pieces of one part each never stops, if nothing else helps. */
  lemma {:induction false} CrowdedNeverStops(t: Slots, i: Needs, n: nat)
    requires Crowded(t, i) && Pieces(t, i)
    ensures var u := AfterAll(t, NOTHING, i, n); Crowded(u, i) && Pieces(u, i) && !Done(u, NOTHING, i)
    decreases n
  {
    if n == 0 {
      CrowdedIsNotDone(t, i);
    } else {
      var u := AfterAll(t, NOTHING, i, n - 1);
      CrowdedNeverStops(t, i, n - 1);
      CrowdedStays(u, NOTHING, i);
      PiecesStay(u, NOTHING, i);
      CrowdedIsNotDone(After(u, NOTHING, i), i);
    }
  }
}
