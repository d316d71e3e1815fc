/** Instructions that fault until all that they touch is mapped: a 16- or 32-bit fetch and a data access that may
    cross from one part of a block into another. Their faults follow the rules of `SlotMachine`. */
module Instructions {
  import opened Bits
  import opened CoveringRegion
  import opened LookupTable
  import opened MpuRegisters
  import opened Mal
  import opened MemManage
  import opened FaultRuns
  import opened SlotMachine
  import opened Wrappers

  // ----- instructions ---------------------------------------------------------------------------

  /** What an instruction touches: its half-word or half-words, and two addresses of data, the same twice where the
      data crosses no border. */
  datatype Instruction = Instruction(fetch: Word, wide: bool, first: Word, second: Word) {
    function Half2(): Word { Wrap(fetch + 2) }
  }

  /** The hardware maps the address. (Rights are not in question here.) */
  ghost predicate Reachable(s: FaultState, a: Word) {
    exists k :: 0 <= k < |s.regions| && InRegion(s.regions[k], a)
  }

  /** The fault that the instruction raises, if any. */
  ghost function Raised(s: FaultState, i: Instruction): Option<Fault> {
    if !Reachable(s, i.fetch) || (i.wide && !Reachable(s, i.Half2())) then
      Some(Fault(if i.wide then Fetch32 else Fetch16, i.fetch))
    else if !Reachable(s, i.first) then Some(Fault(DataAccess, i.first))
    else if !Reachable(s, i.second) then Some(Fault(DataAccess, i.second))
    else None
  }

  /** The instruction is tried in state `s`, and tried again, if it faults, in state `r`. */
  ghost predicate Retry(entries: map<Paddr, Block>, s: FaultState, i: Instruction, r: FaultState) {
    && Ok(entries, s)
    && r == if Raised(s, i).None? then s else Handle(entries, s, Raised(s, i).value).0
  }

  /** `r` is the state after `n` tries. */
  ghost predicate Retried(entries: map<Paddr, Block>, s: FaultState, i: Instruction, n: nat, r: FaultState)
    decreases n
  {
    if n == 0 then r == s else exists q :: Retried(entries, s, i, n - 1, q) && Retry(entries, q, i, r)
  }

  /** The slots of the two blocks: the code is in block `entries[mpu[v]]`, the data in `entries[mpu[w]]`. */
  ghost predicate Touches(entries: map<Paddr, Block>, s: FaultState, i: Instruction, v: nat, w: nat) {
    && Ok(entries, s) && v < LISTED && w < LISTED
    && IndexOf(entries, s, i.fetch) == v && IndexOf(entries, s, i.first) == w && IndexOf(entries, s, i.second) == w
    && (i.wide ==> InVirtual(entries, s.mpu, i.Half2(), v))
    && (v != w ==> Disjoint(entries[s.mpu[v]], entries[s.mpu[w]]))
  }

  /** Hardware and table agree, and the software tests that the handler makes of slots `v`, `w` and 6 are reliable:
      the slots of the two blocks hold legal regions, and slot 6 a legal one or none. */
  ghost predicate Reliable(s: FaultState, v: nat, w: nat) {
    && Synced(s) && |s.regions| == REGIONS && v < LISTED && w < LISTED
    && Legal(s.regions[v]) && Legal(s.regions[w])
    && (s.regions[SPARE_FETCH] == CLEARED || Legal(s.regions[SPARE_FETCH]))
  }

  // ----- what slots map -------------------------------------------------------------------------

  /** Where the part of the block around `a` begins. */
  function PartOf(b: Block, a: Word): nat
  {
    Base(a, b.Exp(a))
  }

  predicate Disjoint(b: Block, d: Block) {
    b.last < d.start || d.last < b.start
  }

  function MapsOf(r: RegionRegs, i: Instruction): Maps {
    Maps(InRegion(r, i.fetch), i.wide && InRegion(r, i.Half2()), InRegion(r, i.first), InRegion(r, i.second))
  }

  function SlotsOf(s: FaultState, i: Instruction, v: nat, w: nat): Slots
    requires |s.regions| == REGIONS && v < LISTED && w < LISTED
  {
    Slots(MapsOf(s.regions[v], i), MapsOf(s.regions[SPARE_FETCH], i), MapsOf(s.regions[SPARE_DATA], i),
      if v == w then NOTHING else MapsOf(s.regions[w], i), s.flag)
  }

  /** One of the slots that faults do not fill maps the address. */
  predicate Elsewhere(s: FaultState, v: nat, w: nat, a: Word)
    requires |s.regions| == REGIONS
  {
    exists k :: 0 <= k < LISTED && k != v && k != w && InRegion(s.regions[k], a)
  }

  function RestOf(s: FaultState, i: Instruction, v: nat, w: nat): Maps
    requires |s.regions| == REGIONS
  {
    Maps(Elsewhere(s, v, w, i.fetch), i.wide && Elsewhere(s, v, w, i.Half2()),
      Elsewhere(s, v, w, i.first), Elsewhere(s, v, w, i.second))
  }

  function NeedsOf(i: Instruction, b: Block, d: Block, apart: bool): Needs {
    Needs(PartOf(b, i.fetch), PartOf(b, i.Half2()), PartOf(d, i.first), PartOf(d, i.second), i.wide, apart)
  }

  lemma ReachableIs(s: FaultState, v: nat, w: nat, a: Word)
    requires |s.regions| == REGIONS && v < LISTED && w < LISTED
    ensures Reachable(s, a) <==>
            || InRegion(s.regions[v], a) || InRegion(s.regions[SPARE_FETCH], a) || InRegion(s.regions[SPARE_DATA], a)
            || InRegion(s.regions[w], a) || Elsewhere(s, v, w, a)
  {
    if Reachable(s, a) {
      var k :| 0 <= k < |s.regions| && InRegion(s.regions[k], a);
      if k < LISTED && k != v && k != w { assert Elsewhere(s, v, w, a); }
    }
  }

  /** Whether there is a fault, by the slots. */
  lemma RaisedIs(s: FaultState, i: Instruction, v: nat, w: nat, n: Needs)
    requires |s.regions| == REGIONS && v < LISTED && w < LISTED && n.wide == i.wide
    ensures var t, rest := SlotsOf(s, i, v, w), RestOf(s, i, v, w);
            && (Fetched(t, rest, n) <==> Reachable(s, i.fetch) && (i.wide ==> Reachable(s, i.Half2())))
            && (HasD1(t, rest) <==> Reachable(s, i.first)) && (HasD2(t, rest) <==> Reachable(s, i.second))
            && (Done(t, rest, n) <==> Raised(s, i).None?)
  {
    ReachableIs(s, v, w, i.fetch);
    ReachableIs(s, v, w, i.Half2());
    ReachableIs(s, v, w, i.first);
    ReachableIs(s, v, w, i.second);
  }

  // ----- one fault ------------------------------------------------------------------------------

  /** A part's addresses are those around which it is the part. */
  lemma PartMaps(r: RegionRegs, b: Block, x: Word, y: Word)
    requires b.Valid() && b.Contains(x) && b.Contains(y)
    requires Legal(r) && r.rbar == PartOf(b, x) && SizeField(r.rasr) + 1 == b.Exp(x)
    ensures InRegion(r, y) <==> PartOf(b, x) == PartOf(b, y)
  {
    assert InRegion(r, y) <==> InCover(b.start, b.last + 1, x, y);
    CoverByStart(b.start, b.last + 1, x, y);
  }

  lemma PartMapsNot(r: RegionRegs, b: Block, d: Block, x: Word, y: Word)
    requires b.Valid() && d.Valid() && b.Contains(x) && d.Contains(y) && Disjoint(b, d)
    requires Legal(r) && r.rbar == PartOf(b, x) && SizeField(r.rasr) + 1 == b.Exp(x)
    ensures !InRegion(r, y) && PartOf(b, x) != PartOf(d, y)
  {
    CoverRange(b, x);
    CoverRange(d, y);
  }

  /** What a part maps of the instruction, by the parts it needs: the part of code ... */
  lemma CodePart(r: RegionRegs, i: Instruction, b: Block, d: Block, apart: bool, x: Word)
    requires b.Valid() && d.Valid() && b.Contains(x) && (if apart then Disjoint(b, d) else b == d)
    requires Legal(r) && r.rbar == PartOf(b, x) && SizeField(r.rasr) + 1 == b.Exp(x)
    requires b.Contains(i.fetch) && (i.wide ==> b.Contains(i.Half2())) && d.Contains(i.first) && d.Contains(i.second)
    ensures MapsOf(r, i) == Part(NeedsOf(i, b, d, apart), PartOf(b, x))
  {
    PartMaps(r, b, x, i.fetch);
    if i.wide { PartMaps(r, b, x, i.Half2()); }
    if apart {
      PartMapsNot(r, b, d, x, i.first);
      PartMapsNot(r, b, d, x, i.second);
    } else {
      PartMaps(r, b, x, i.first);
      PartMaps(r, b, x, i.second);
    }
  }

  /** ... and of data. */
  lemma DataPart(r: RegionRegs, i: Instruction, b: Block, d: Block, apart: bool, x: Word)
    requires b.Valid() && d.Valid() && d.Contains(x) && (if apart then Disjoint(b, d) else b == d)
    requires Legal(r) && r.rbar == PartOf(d, x) && SizeField(r.rasr) + 1 == d.Exp(x)
    requires b.Contains(i.fetch) && (i.wide ==> b.Contains(i.Half2())) && d.Contains(i.first) && d.Contains(i.second)
    ensures MapsOf(r, i) == Part(NeedsOf(i, b, d, apart), PartOf(d, x))
  {
    if apart {
      PartMapsNot(r, d, b, x, i.fetch);
      if i.wide { PartMapsNot(r, d, b, x, i.Half2()); }
      PartMaps(r, d, x, i.first);
      PartMaps(r, d, x, i.second);
    } else {
      CodePart(r, i, b, d, apart, x);
    }
  }

  function WithSlot(t: Slots, slot: nat, v: nat, m: Maps): Slots {
    if slot == SPARE_FETCH then t.(fetch := m)
    else if slot == SPARE_DATA then t.(data := m)
    else if slot == v then t.(own := m) else t.(other := m)
  }

  lemma PagedRegions(entries: map<Paddr, Block>, s: FaultState, x: Word, h: nat, slot: nat)
    requires Ok(entries, s) && h < LISTED && slot < REGIONS && InVirtual(entries, s.mpu, x, h) && Synced(s)
    ensures var r, b := PageIn(entries, s, x, h, slot), entries[s.mpu[h]];
            && Synced(r) && Legal(r.regions[slot])
            && r.regions[slot].rbar == PartOf(b, x) && SizeField(r.regions[slot].rasr) + 1 == b.Exp(x)
            && forall k :: 0 <= k < REGIONS && k != slot ==> r.regions[k] == s.regions[k]
  {
    PageInEffect(entries, s, x, h, slot);
    SlotDecodes(s.lut, slot, entries[s.mpu[h]], x);
  }

  lemma SlotFilled(s: FaultState, r: FaultState, i: Instruction, v: nat, w: nat, slot: nat)
    requires |s.regions| == REGIONS && |r.regions| == REGIONS && v < LISTED && w < LISTED && r.flag == s.flag
    requires slot == v || slot == w || slot == SPARE_FETCH || slot == SPARE_DATA
    requires forall k :: 0 <= k < REGIONS && k != slot ==> r.regions[k] == s.regions[k]
    ensures SlotsOf(r, i, v, w) == WithSlot(SlotsOf(s, i, v, w), slot, v, MapsOf(r.regions[slot], i))
    ensures RestOf(r, i, v, w) == RestOf(s, i, v, w)
  {
    assert forall k :: 0 <= k < LISTED && k != v && k != w ==> r.regions[k] == s.regions[k];
  }

  /** The blocks of an instruction contain what it touches. */
  lemma TouchesIn(entries: map<Paddr, Block>, s: FaultState, i: Instruction, v: nat, w: nat)
    requires Touches(entries, s, i, v, w)
    ensures s.mpu[v] in entries && s.mpu[w] in entries
    ensures InVirtual(entries, s.mpu, i.fetch, v) && (i.wide ==> InVirtual(entries, s.mpu, i.Half2(), v))
    ensures InVirtual(entries, s.mpu, i.first, w) && InVirtual(entries, s.mpu, i.second, w)
    ensures var b, d := entries[s.mpu[v]], entries[s.mpu[w]];
            b.Valid() && d.Valid() && (if v != w then Disjoint(b, d) else b == d)
  {
  }

  /** Paging in puts a part into a slot. */
  lemma PagePart(entries: map<Paddr, Block>, s: FaultState, i: Instruction, x: Word, h: nat, slot: nat, v: nat, w: nat)
    requires Touches(entries, s, i, v, w) && Reliable(s, v, w)
    requires (h == v || h == w) && InVirtual(entries, s.mpu, x, h)
    requires slot == h || slot == SPARE_FETCH || slot == SPARE_DATA
    ensures var r, b, d := PageIn(entries, s, x, h, slot), entries[s.mpu[v]], entries[s.mpu[w]];
            && Reliable(r, v, w) && RestOf(r, i, v, w) == RestOf(s, i, v, w)
            && SlotsOf(r, i, v, w) == WithSlot(SlotsOf(s, i, v, w), slot, v,
                Part(NeedsOf(i, b, d, v != w), PartOf(entries[s.mpu[h]], x)))
            && forall k :: 0 <= k < REGIONS && k != slot ==> r.regions[k] == s.regions[k]
  {
    var r, b, d := PageIn(entries, s, x, h, slot), entries[s.mpu[v]], entries[s.mpu[w]];
    TouchesIn(entries, s, i, v, w);
    PagedRegions(entries, s, x, h, slot);
    SlotFilled(s, r, i, v, w, slot);
    if h == v {
      CodePart(r.regions[slot], i, b, d, v != w, x);
    } else {
      DataPart(r.regions[slot], i, b, d, v != w, x);
    }
  }

  /** `r` is `s` with the slots as the rules have them after the next fault. */
  ghost predicate NextIs(entries: map<Paddr, Block>, s: FaultState, r: FaultState, i: Instruction, v: nat, w: nat)
    requires Touches(entries, s, i, v, w) && Reliable(s, v, w) && Ok(entries, r)
  {
    var n := NeedsOf(i, entries[s.mpu[v]], entries[s.mpu[w]], v != w);
    && r.mpu == s.mpu && Reliable(r, v, w)
    && SlotsOf(r, i, v, w) == After(SlotsOf(s, i, v, w), RestOf(s, i, v, w), n)
    && RestOf(r, i, v, w) == RestOf(s, i, v, w)
  }

  lemma NotMapped(s: FaultState, h: nat, x: Word)
    requires h < |s.regions| && Legal(s.regions[h]) && !Reachable(s, x)
    ensures !Mapped(s.regions[h], x)
  {
    MappedIffInRegion(s.regions[h], x);
  }

  lemma DataRefines(entries: map<Paddr, Block>, s: FaultState, i: Instruction, v: nat, w: nat, x: Word)
    requires Touches(entries, s, i, v, w) && Reliable(s, v, w) && (x == i.first || x == i.second) && !Reachable(s, x)
    ensures var n := NeedsOf(i, entries[s.mpu[v]], entries[s.mpu[w]], v != w);
            var (r, handled) := Handle(entries, s, Fault(DataAccess, x));
            && handled && r.mpu == s.mpu && Reliable(r, v, w)
            && SlotsOf(r, i, v, w) == DataPaged(SlotsOf(s, i, v, w), PartOf(entries[s.mpu[w]], x), n)
            && RestOf(r, i, v, w) == RestOf(s, i, v, w)
  {
    TouchesIn(entries, s, i, v, w);
    NotMapped(s, w, x);
    SingleCases(entries, s, Fault(DataAccess, x), w);
    var slot := if s.flag then SPARE_DATA else w;
    PagePart(entries, s, i, x, w, slot, v, w);
    Toggled(PageIn(entries, s, x, w, slot), i, v, w);
    DataSlot(SlotsOf(s, i, v, w), v, w, PartOf(entries[s.mpu[w]], x),
      NeedsOf(i, entries[s.mpu[v]], entries[s.mpu[w]], v != w));
  }

  /** The flag is no part of what slots map. */
  lemma Toggled(s: FaultState, i: Instruction, v: nat, w: nat)
    requires Reliable(s, v, w)
    ensures var r := s.(flag := !s.flag);
            && Reliable(r, v, w) && RestOf(r, i, v, w) == RestOf(s, i, v, w)
            && SlotsOf(r, i, v, w) == SlotsOf(s, i, v, w).(flag := !s.flag)
  {
    var r := s.(flag := !s.flag);
    assert forall a: Word :: Elsewhere(r, v, w, a) == Elsewhere(s, v, w, a);
  }

  lemma DataSlot(t: Slots, v: nat, w: nat, p: nat, n: Needs)
    requires v < LISTED && w < LISTED && n.apart == (v != w)
    ensures WithSlot(t, if t.flag then SPARE_DATA else w, v, Part(n, p)).(flag := !t.flag) == DataPaged(t, p, n)
  {
  }

  lemma FetchSlot(t: Slots, v: nat, n: Needs)
    requires v < LISTED && !n.wide
    ensures WithSlot(t, if t.flag then SPARE_FETCH else v, v, Part(n, n.a)).(flag := !t.flag) == FetchPaged(t, n)
  {
  }

  lemma FetchRefines(entries: map<Paddr, Block>, s: FaultState, i: Instruction, v: nat, w: nat)
    requires Touches(entries, s, i, v, w) && Reliable(s, v, w) && !i.wide && !Reachable(s, i.fetch)
    ensures var n := NeedsOf(i, entries[s.mpu[v]], entries[s.mpu[w]], v != w);
            var (r, handled) := Handle(entries, s, Fault(Fetch16, i.fetch));
            && handled && r.mpu == s.mpu && Reliable(r, v, w)
            && SlotsOf(r, i, v, w) == FetchPaged(SlotsOf(s, i, v, w), n)
            && RestOf(r, i, v, w) == RestOf(s, i, v, w)
  {
    TouchesIn(entries, s, i, v, w);
    NotMapped(s, v, i.fetch);
    SingleCases(entries, s, Fault(Fetch16, i.fetch), v);
    var slot := if s.flag then SPARE_FETCH else v;
    PagePart(entries, s, i, i.fetch, v, slot, v, w);
    Toggled(PageIn(entries, s, i.fetch, v, slot), i, v, w);
    FetchSlot(SlotsOf(s, i, v, w), v, NeedsOf(i, entries[s.mpu[v]], entries[s.mpu[w]], v != w));
  }

  /** The slot, unless it maps the address already, gets the part around it. */
  ghost function Filled(entries: map<Paddr, Block>, s: FaultState, x: Word, h: nat, slot: nat): (r: FaultState)
    requires Ok(entries, s) && h < LISTED && slot < REGIONS && InVirtual(entries, s.mpu, x, h)
    ensures Ok(entries, r) && r.mpu == s.mpu && r.flag == s.flag
  {
    if Mapped(s.regions[slot], x) then s else PageIn(entries, s, x, h, slot)
  }

  lemma WideCases(entries: map<Paddr, Block>, s: FaultState, a: Word, v: nat)
    requires Ok(entries, s) && v == IndexOf(entries, s, a) < LISTED && InVirtual(entries, s.mpu, Wrap(a + 2), v)
    requires !(Mapped(s.regions[v], a) && Mapped(s.regions[SPARE_FETCH], Wrap(a + 2)))
    requires var s1 := Filled(entries, s, a, v, v); s1.regions[SPARE_FETCH] == s.regions[SPARE_FETCH]
    ensures Handle(entries, s, Fault(Fetch32, a))
         == (Filled(entries, Filled(entries, s, a, v, v), Wrap(a + 2), v, SPARE_FETCH), true)
  {
    Fetch32Cases(entries, s, a, v);
  }

  /** The tests of a 32-bit fetch. (The second half-word is not at 0, at which a cleared slot would mislead.) */
  lemma WideTests(entries: map<Paddr, Block>, s: FaultState, i: Instruction, v: nat, w: nat)
    requires Touches(entries, s, i, v, w) && Reliable(s, v, w) && i.wide
    ensures Mapped(s.regions[v], i.fetch) <==> InRegion(s.regions[v], i.fetch)
    ensures Mapped(s.regions[SPARE_FETCH], i.Half2()) <==> InRegion(s.regions[SPARE_FETCH], i.Half2())
  {
    TouchesIn(entries, s, i, v, w);
    MappedIffInRegion(s.regions[v], i.fetch);
    MappedIffInRegion(s.regions[SPARE_FETCH], i.Half2());
  }

  /** The own slot is filled first ... */
  lemma FirstFilled(entries: map<Paddr, Block>, s: FaultState, i: Instruction, v: nat, w: nat)
    requires Touches(entries, s, i, v, w) && Reliable(s, v, w) && i.wide
    ensures InVirtual(entries, s.mpu, i.fetch, v)
    ensures var n, t := NeedsOf(i, entries[s.mpu[v]], entries[s.mpu[w]], v != w), SlotsOf(s, i, v, w);
            var s1 := Filled(entries, s, i.fetch, v, v);
            && Reliable(s1, v, w) && RestOf(s1, i, v, w) == RestOf(s, i, v, w)
            && SlotsOf(s1, i, v, w) == t.(own := if t.own.a then t.own else Part(n, n.a))
            && s1.regions[SPARE_FETCH] == s.regions[SPARE_FETCH]
  {
    TouchesIn(entries, s, i, v, w);
    WideTests(entries, s, i, v, w);
    if !Mapped(s.regions[v], i.fetch) { PagePart(entries, s, i, i.fetch, v, v, v, w); }
  }

  /** ... and then the spare one. */
  lemma SecondFilled(entries: map<Paddr, Block>, s: FaultState, i: Instruction, v: nat, w: nat)
    requires Touches(entries, s, i, v, w) && Reliable(s, v, w) && i.wide
    ensures InVirtual(entries, s.mpu, i.Half2(), v)
    ensures var n, t := NeedsOf(i, entries[s.mpu[v]], entries[s.mpu[w]], v != w), SlotsOf(s, i, v, w);
            var r := Filled(entries, s, i.Half2(), v, SPARE_FETCH);
            && Reliable(r, v, w) && RestOf(r, i, v, w) == RestOf(s, i, v, w)
            && SlotsOf(r, i, v, w) == t.(fetch := if t.fetch.a2 then t.fetch else Part(n, n.a2))
  {
    TouchesIn(entries, s, i, v, w);
    WideTests(entries, s, i, v, w);
    if !Mapped(s.regions[SPARE_FETCH], i.Half2()) { PagePart(entries, s, i, i.Half2(), v, SPARE_FETCH, v, w); }
  }

  lemma WideRefines(entries: map<Paddr, Block>, s: FaultState, i: Instruction, v: nat, w: nat)
    requires Touches(entries, s, i, v, w) && Reliable(s, v, w)
    requires i.wide && (!Reachable(s, i.fetch) || !Reachable(s, i.Half2()))
    ensures var n := NeedsOf(i, entries[s.mpu[v]], entries[s.mpu[w]], v != w);
            var (r, handled) := Handle(entries, s, Fault(Fetch32, i.fetch));
            && handled && r.mpu == s.mpu && Reliable(r, v, w)
            && SlotsOf(r, i, v, w) == FetchPaged(SlotsOf(s, i, v, w), n)
            && RestOf(r, i, v, w) == RestOf(s, i, v, w)
  {
    WideTests(entries, s, i, v, w);
    FirstFilled(entries, s, i, v, w);
    var s1 := Filled(entries, s, i.fetch, v, v);
    WideCases(entries, s, i.fetch, v);
    TouchesKept(entries, s, s1, i, v, w);
    SecondFilled(entries, s1, i, v, w);
  }

  /** Faults follow the rules. */
  lemma FaultRefines(entries: map<Paddr, Block>, s: FaultState, i: Instruction, v: nat, w: nat)
    requires Touches(entries, s, i, v, w) && Reliable(s, v, w) && Raised(s, i).Some?
    ensures var (r, handled) := Handle(entries, s, Raised(s, i).value); handled && NextIs(entries, s, r, i, v, w)
  {
    var f := Raised(s, i).value;
    RaisedIs(s, i, v, w, NeedsOf(i, entries[s.mpu[v]], entries[s.mpu[w]], v != w));
    if f.cause == DataAccess {
      DataRefines(entries, s, i, v, w, f.addr);
    } else if i.wide {
      WideRefines(entries, s, i, v, w);
    } else {
      FetchRefines(entries, s, i, v, w);
    }
  }

  // ----- an instruction comes to an end, or does not -------------------------------------------------

  lemma TouchesKept(entries: map<Paddr, Block>, s: FaultState, r: FaultState, i: Instruction, v: nat, w: nat)
    requires Touches(entries, s, i, v, w) && Ok(entries, r) && r.mpu == s.mpu
    ensures Touches(entries, r, i, v, w)
  {
    SameIndex(entries, s, r, i.fetch, 0);
    SameIndex(entries, s, r, i.first, 0);
    SameIndex(entries, s, r, i.second, 0);
  }

  /** The slots of the state are in the machine's state `t`. */
  ghost predicate Simulates(entries: map<Paddr, Block>, s: FaultState, i: Instruction, v: nat, w: nat, n: Needs,
      t: Slots, rest: Maps)
  {
    && Touches(entries, s, i, v, w) && Reliable(s, v, w)
    && n == NeedsOf(i, entries[s.mpu[v]], entries[s.mpu[w]], v != w)
    && SlotsOf(s, i, v, w) == t && RestOf(s, i, v, w) == rest
  }

  lemma StepSimulates(entries: map<Paddr, Block>, s: FaultState, i: Instruction, v: nat, w: nat, n: Needs,
      t: Slots, rest: Maps)
    requires Simulates(entries, s, i, v, w, n, t, rest) && Raised(s, i).Some?
    ensures var (r, handled) := Handle(entries, s, Raised(s, i).value);
            handled && Simulates(entries, r, i, v, w, n, After(t, rest, n), rest)
  {
    FaultRefines(entries, s, i, v, w);
    TouchesKept(entries, s, Handle(entries, s, Raised(s, i).value).0, i, v, w);
  }

  lemma NoneSimulates(entries: map<Paddr, Block>, s: FaultState, i: Instruction, v: nat, w: nat, n: Needs,
      t: Slots, rest: Maps)
    requires Simulates(entries, s, i, v, w, n, t, rest)
    ensures Raised(s, i).None? <==> Done(t, rest, n)
  {
    RaisedIs(s, i, v, w, n);
  }

  /** Trying again follows the rules. */
  lemma RetrySimulates(entries: map<Paddr, Block>, s: FaultState, r: FaultState, i: Instruction, v: nat, w: nat,
      n: Needs, t: Slots, rest: Maps) returns (u: Slots)
    requires Simulates(entries, s, i, v, w, n, t, rest) && Retry(entries, s, i, r)
    ensures Simulates(entries, r, i, v, w, n, u, rest) && u == After(t, rest, n)
  {
    NoneSimulates(entries, s, i, v, w, n, t, rest);
    if Raised(s, i).Some? { StepSimulates(entries, s, i, v, w, n, t, rest); }
    u := After(t, rest, n);
  }

  lemma LastTry(entries: map<Paddr, Block>, s: FaultState, i: Instruction, k: nat, r: FaultState)
    returns (q: FaultState)
    requires k > 0 && Retried(entries, s, i, k, r)
    ensures Retried(entries, s, i, k - 1, q) && Retry(entries, q, i, r)
  {
    q :| Retried(entries, s, i, k - 1, q) && Retry(entries, q, i, r);
  }

  lemma {:induction false} RetriedSimulates(entries: map<Paddr, Block>, s: FaultState, r: FaultState, i: Instruction,
      v: nat, w: nat, n: Needs, t: Slots, rest: Maps, k: nat) returns (u: Slots)
    requires Simulates(entries, s, i, v, w, n, t, rest) && Retried(entries, s, i, k, r)
    ensures Simulates(entries, r, i, v, w, n, u, rest) && u == AfterAll(t, rest, n, k)
    decreases k
  {
    if k == 0 {
      u := t;
    } else {
      var q := LastTry(entries, s, i, k, r);
      u := RetriedSimulates(entries, s, q, i, v, w, n, t, rest, k - 1);
      u := RetrySimulates(entries, q, r, i, v, w, n, u, rest);
    }
  }

  /** There is always a next state. */
  lemma {:induction false} Retrying(entries: map<Paddr, Block>, s: FaultState, i: Instruction, k: nat)
    returns (r: FaultState)
    requires Ok(entries, s)
    ensures Ok(entries, r) && Retried(entries, s, i, k, r)
    decreases k
  {
    if k == 0 {
      r := s;
    } else {
      var q := Retrying(entries, s, i, k - 1);
      r := if Raised(q, i).None? then q else Handle(entries, q, Raised(q, i).value).0;
      assert Retry(entries, q, i, r);
    }
  }

  /** A 32-bit instruction with its data in the same block, whose first half-word and two ends of data lie in three
      different parts of it; and slot 6 will hold none of the three: neither what it holds now, if that maps the
      second half-word, nor else the part of the second half-word. */
  predicate TooMany(entries: map<Paddr, Block>, s: FaultState, i: Instruction, v: nat, w: nat)
    requires |s.regions| == REGIONS && v < |s.mpu| && s.mpu[v] in entries
  {
    var b := entries[s.mpu[v]];
    && i.wide && v == w
    && PartOf(b, i.fetch) != PartOf(b, i.first) && PartOf(b, i.fetch) != PartOf(b, i.second)
    && PartOf(b, i.first) != PartOf(b, i.second)
    && !KeepsMapped(s, i, b, i.fetch) && !KeepsMapped(s, i, b, i.first) && !KeepsMapped(s, i, b, i.second)
  }

  /** Slot 6 will map the address as long as it maps the second half-word. */
  predicate KeepsMapped(s: FaultState, i: Instruction, b: Block, a: Word)
    requires |s.regions| == REGIONS
  {
    if InRegion(s.regions[SPARE_FETCH], i.Half2()) then InRegion(s.regions[SPARE_FETCH], a)
    else PartOf(b, i.Half2()) == PartOf(b, a)
  }

  lemma TooManyCrowds(entries: map<Paddr, Block>, s: FaultState, i: Instruction, v: nat, w: nat)
    requires Touches(entries, s, i, v, w)
    ensures s.mpu[v] in entries && s.mpu[w] in entries
    ensures TooMany(entries, s, i, v, w)
        <==> Crowded(SlotsOf(s, i, v, w), NeedsOf(i, entries[s.mpu[v]], entries[s.mpu[w]], v != w))
  {
    TouchesIn(entries, s, i, v, w);
  }

  /** Unless it needs too many parts, an instruction completes after six faults at most, whatever the flag and the
      slots held before. */
  lemma InstructionCompletes(entries: map<Paddr, Block>, s: FaultState, r: FaultState, i: Instruction, v: nat, w: nat)
    requires Touches(entries, s, i, v, w) && Reliable(s, v, w) && s.mpu[v] in entries && !TooMany(entries, s, i, v, w)
    requires Retried(entries, s, i, 6, r)
    ensures Raised(r, i).None?
  {
    TooManyCrowds(entries, s, i, v, w);
    var n := NeedsOf(i, entries[s.mpu[v]], entries[s.mpu[w]], v != w);
    var t, rest := SlotsOf(s, i, v, w), RestOf(s, i, v, w);
    var u := RetriedSimulates(entries, s, r, i, v, w, n, t, rest, 6);
    StopsUnlessCrowded(t, rest, n);
    NoneSimulates(entries, r, i, v, w, n, u, rest);
  }

  /** Every fault on the way is handled. */
  lemma RetriedHandled(entries: map<Paddr, Block>, s: FaultState, r: FaultState, i: Instruction, v: nat, w: nat, k: nat)
    requires Touches(entries, s, i, v, w) && Reliable(s, v, w) && Retried(entries, s, i, k, r)
    ensures Raised(r, i).Some? ==> Ok(entries, r) && Handle(entries, r, Raised(r, i).value).1
  {
    TouchesIn(entries, s, i, v, w);
    var n := NeedsOf(i, entries[s.mpu[v]], entries[s.mpu[w]], v != w);
    var t, rest := SlotsOf(s, i, v, w), RestOf(s, i, v, w);
    var u := RetriedSimulates(entries, s, r, i, v, w, n, t, rest, k);
    if Raised(r, i).Some? { StepSimulates(entries, r, i, v, w, n, u, rest); }
  }

  // ----- when it does not ---------------------------------------------------------------------------

  /** The region lies inside the block, or maps none of it. */
  ghost predicate InsideOrNone(r: RegionRegs, b: Block) {
    || r == CLEARED
    || (Legal(r) && b.start <= r.rbar && r.rbar + Pow2(SizeField(r.rasr) + 1) <= b.last + 1)
    || (forall x: Word :: b.Contains(x) ==> !InRegion(r, x))
  }

  /** The slots that faults fill hold nothing that crosses a border of the block, and no further slot maps what the
      instruction touches. */
  ghost predicate Tidy(s: FaultState, i: Instruction, b: Block, v: nat)
    requires |s.regions| == REGIONS && v < LISTED
  {
    && InsideOrNone(s.regions[v], b) && InsideOrNone(s.regions[SPARE_FETCH], b)
    && InsideOrNone(s.regions[SPARE_DATA], b)
    && !Elsewhere(s, v, v, i.fetch) && !Elsewhere(s, v, v, i.Half2())
    && !Elsewhere(s, v, v, i.first) && !Elsewhere(s, v, v, i.second)
  }

  /** A legal region inside a block lies inside one part of it: the parts are the largest regions. */
  lemma InsideOnePart(r: RegionRegs, b: Block, x: Word, y: Word)
    requires b.Valid() && InsideOrNone(r, b) && b.Contains(x) && b.Contains(y) && InRegion(r, x) && InRegion(r, y)
    ensures PartOf(b, x) == PartOf(b, y)
  {
    var k := SizeField(r.rasr) + 1;
    ShrLow(r.rbar, k);
    CoverExpMaximal(b.start, b.last + 1, x, Shr(r.rbar, k), k);
    BaseUnique(x, k, Shr(r.rbar, k));
    Nested(x, k, b.Exp(x));
    assert InCover(b.start, b.last + 1, x, y);
    CoverByStart(b.start, b.last + 1, x, y);
  }

  lemma InsidePiece(r: RegionRegs, i: Instruction, b: Block)
    requires b.Valid() && InsideOrNone(r, b) && b.Contains(i.fetch) && (i.wide ==> b.Contains(i.Half2()))
    requires b.Contains(i.first) && b.Contains(i.second)
    ensures Piece(MapsOf(r, i), NeedsOf(i, b, b, false))
  {
    OneName(r, b, i.fetch, i.first);
    OneName(r, b, i.fetch, i.second);
    OneName(r, b, i.first, i.second);
    if i.wide {
      OneName(r, b, i.fetch, i.Half2());
      OneName(r, b, i.Half2(), i.first);
      OneName(r, b, i.Half2(), i.second);
    }
  }

  lemma OneName(r: RegionRegs, b: Block, x: Word, y: Word)
    requires b.Valid() && InsideOrNone(r, b) && b.Contains(x) && b.Contains(y)
    ensures InRegion(r, x) && InRegion(r, y) ==> PartOf(b, x) == PartOf(b, y)
  {
    if InRegion(r, x) && InRegion(r, y) { InsideOnePart(r, b, x, y); }
  }

  /** An instruction that needs too many parts faults for ever, where the slots are tidy. */
  lemma TooManyFaults(entries: map<Paddr, Block>, s: FaultState, r: FaultState, i: Instruction, v: nat, k: nat)
    requires Touches(entries, s, i, v, v) && Reliable(s, v, v) && s.mpu[v] in entries
    requires TooMany(entries, s, i, v, v) && Tidy(s, i, entries[s.mpu[v]], v) && Retried(entries, s, i, k, r)
    ensures Raised(r, i).Some?
  {
    var b := entries[s.mpu[v]];
    var n, t := NeedsOf(i, b, b, false), SlotsOf(s, i, v, v);
    TooManyCrowds(entries, s, i, v, v);
    TouchesIn(entries, s, i, v, v);
    InsidePiece(s.regions[v], i, b);
    InsidePiece(s.regions[SPARE_FETCH], i, b);
    InsidePiece(s.regions[SPARE_DATA], i, b);
    assert RestOf(s, i, v, v) == NOTHING;
    var u := RetriedSimulates(entries, s, r, i, v, v, n, t, NOTHING, k);
    CrowdedNeverStops(t, n, k);
    NoneSimulates(entries, r, i, v, v, n, u, NOTHING);
  }

  lemma Completed(entries: map<Paddr, Block>, s: FaultState, i: Instruction, v: nat, w: nat)
    returns (k: nat, r: FaultState)
    requires Touches(entries, s, i, v, w) && Reliable(s, v, w) && s.mpu[v] in entries && !TooMany(entries, s, i, v, w)
    ensures Retried(entries, s, i, k, r) && Raised(r, i).None?
  {
    k := 6;
    r := Retrying(entries, s, i, k);
    InstructionCompletes(entries, s, r, i, v, w);
  }

  /** Where the slots are tidy, an instruction completes, sooner or later, if and only if it does not need too many
      parts. One that does faults for ever, and the handler returns to it every time. */
  lemma InstructionExact(entries: map<Paddr, Block>, s: FaultState, i: Instruction, v: nat, w: nat)
    requires Touches(entries, s, i, v, w) && Reliable(s, v, w) && s.mpu[v] in entries
    requires v == w ==> Tidy(s, i, entries[s.mpu[v]], v)
    ensures (exists k: nat, r :: Retried(entries, s, i, k, r) && Raised(r, i).None?)
            <==> !TooMany(entries, s, i, v, w)
    ensures forall k: nat, r :: Retried(entries, s, i, k, r) && Raised(r, i).Some? ==>
              Ok(entries, r) && Handle(entries, r, Raised(r, i).value).1
  {
    forall k: nat, r | Retried(entries, s, i, k, r) && Raised(r, i).Some?
      ensures Ok(entries, r) && Handle(entries, r, Raised(r, i).value).1
    {
      RetriedHandled(entries, s, r, i, v, w, k);
    }
    if TooMany(entries, s, i, v, w) {
      forall k: nat, r | Retried(entries, s, i, k, r) ensures Raised(r, i).Some? {
        TooManyFaults(entries, s, r, i, v, k);
      }
    } else {
      var k, r := Completed(entries, s, i, v, w);
      assert Retried(entries, s, i, k, r) && Raised(r, i).None?;
    }
  }

  /** The instruction touches four different parts of one block. */
  predicate FourParts(i: Instruction, b: Block) {
    var p, p2, q, q2 := PartOf(b, i.fetch), PartOf(b, i.Half2()), PartOf(b, i.first), PartOf(b, i.second);
    i.wide && p != p2 && p != q && p != q2 && p2 != q && p2 != q2 && q != q2
  }

  /** The region is the part of the block around the address. */
  ghost predicate IsPartAt(r: RegionRegs, b: Block, a: Word) {
    Legal(r) && r.rbar == PartOf(b, a) && SizeField(r.rasr) + 1 == b.Exp(a)
  }

  /** Too many parts are four parts, unless slot 6 maps the second half-word by less than its whole part. */
  lemma TooManyIsFour(entries: map<Paddr, Block>, s: FaultState, i: Instruction, v: nat)
    requires Touches(entries, s, i, v, v) && s.mpu[v] in entries && i.wide
    requires InRegion(s.regions[SPARE_FETCH], i.Half2()) ==>
              IsPartAt(s.regions[SPARE_FETCH], entries[s.mpu[v]], i.Half2())
    ensures TooMany(entries, s, i, v, v) <==> FourParts(i, entries[s.mpu[v]])
  {
    var r, b := s.regions[SPARE_FETCH], entries[s.mpu[v]];
    TouchesIn(entries, s, i, v, v);
    if InRegion(r, i.Half2()) {
      PartMaps(r, b, i.Half2(), i.fetch);
      PartMaps(r, b, i.Half2(), i.first);
      PartMaps(r, b, i.Half2(), i.second);
    }
  }

  // ----- instructions that never complete --------------------------------------------------------------

  /** The state in which a block was just mapped, into slot 0. */
  function JustMapped(entries: map<Paddr, Block>, p: Paddr): FaultState
    requires p in entries && EntriesOk(entries)
  {
    var lut := SetEntry(ClearedLut(), 0, Some(entries[p]), entries[p].start);
    FaultState(InitialPd().mpu[0 := p], lut, LutRegions(lut), false)
  }

  lemma JustMappedOk(entries: map<Paddr, Block>, p: Paddr, s: FaultState)
    requires EntriesOk(entries) && p in entries && s == JustMapped(entries, p)
    ensures Ok(entries, s) && s.mpu[0] == p && Reliable(s, 0, 0) && MapsPartOf(s.regions[0], entries[p])
    ensures forall k :: 1 <= k < REGIONS ==> s.regions[k] == CLEARED
  {
    var b := entries[p];
    ClearedLutIsTagged();
    SetEntryFrame(ClearedLut(), 0, Some(b), b.start);
    SlotDecodes(ClearedLut(), 0, b, b.start);
  }

  lemma JustMappedTouches(entries: map<Paddr, Block>, p: Paddr, s: FaultState, i: Instruction)
    requires Ok(entries, s) && p in entries && s.mpu[0] == p && entries[p].present
    requires entries[p].Contains(i.fetch) && entries[p].Contains(i.Half2())
    requires entries[p].Contains(i.first) && entries[p].Contains(i.second)
    ensures Touches(entries, s, i, 0, 0)
  {
    assert forall a: Word :: entries[p].Contains(a) ==> InVirtual(entries, s.mpu, a, 0);
  }

  /** Any instruction across four parts of it faults for ever, and each fault is handled. */
  lemma NeverCompletes(entries: map<Paddr, Block>, p: Paddr, s: FaultState, i: Instruction, k: nat, r: FaultState)
    requires EntriesOk(entries) && p in entries && entries[p].present && s == JustMapped(entries, p)
    requires entries[p].Contains(i.fetch) && entries[p].Contains(i.Half2())
    requires entries[p].Contains(i.first) && entries[p].Contains(i.second)
    requires FourParts(i, entries[p]) && Retried(entries, s, i, k, r)
    ensures Ok(entries, r) && Raised(r, i).Some? && Handle(entries, r, Raised(r, i).value).1
  {
    JustMappedOk(entries, p, s);
    JustMappedTouches(entries, p, s, i);
    JustMappedTidy(entries, p, s, i);
    TooManyIsFour(entries, s, i, 0);
    TooManyForEver(entries, s, i, 0, k, r);
  }

  lemma JustMappedTidy(entries: map<Paddr, Block>, p: Paddr, s: FaultState, i: Instruction)
    requires EntriesOk(entries) && p in entries && Ok(entries, s) && MapsPartOf(s.regions[0], entries[p])
    requires forall k :: 1 <= k < REGIONS ==> s.regions[k] == CLEARED
    ensures Tidy(s, i, entries[p], 0) && !InRegion(s.regions[SPARE_FETCH], i.Half2())
  {
  }

  lemma TooManyForEver(entries: map<Paddr, Block>, s: FaultState, i: Instruction, v: nat, k: nat, r: FaultState)
    requires Touches(entries, s, i, v, v) && Reliable(s, v, v) && s.mpu[v] in entries
    requires TooMany(entries, s, i, v, v) && Tidy(s, i, entries[s.mpu[v]], v) && Retried(entries, s, i, k, r)
    ensures Ok(entries, r) && Raised(r, i).Some? && Handle(entries, r, Raised(r, i).value).1
  {
    TooManyFaults(entries, s, r, i, v, k);
    RetriedHandled(entries, s, r, i, v, v, k);
  }

  /** Six units of 32 bytes, in four parts: one, two, two and one. */
  predicate SixUnits(b: Block) {
    b.start == 0x2000_0020 && b.last == 0x2000_00DF
  }

  lemma OneUnitPart(b: Block, u: nat, a: Word)
    requires SixUnits(b) && (u == 0x2000_0020 || u == 0x2000_00C0) && u <= a < u + 32
    ensures PartOf(b, a) == u
  {
    Pow2Values();
    if u == 0x2000_0020 {
      CoverAt(b.start, b.last + 1, a, 5, 32, 0x100_0001, 0x80_0000);
    } else {
      CoverAt(b.start, b.last + 1, a, 5, 32, 0x100_0006, 0x80_0003);
    }
  }

  lemma TwoUnitPart(b: Block, u: nat, a: Word)
    requires SixUnits(b) && (u == 0x2000_0040 || u == 0x2000_0080) && u <= a < u + 64
    ensures PartOf(b, a) == u
  {
    assert Pow2(6) == 64;
    if u == 0x2000_0040 {
      CoverAt(b.start, b.last + 1, a, 6, 64, 0x80_0001, 0x40_0000);
    } else {
      CoverAt(b.start, b.last + 1, a, 6, 64, 0x80_0002, 0x40_0001);
    }
  }

  lemma FourDifferent(i: Instruction, b: Block, p: nat, p2: nat, q: nat, q2: nat)
    requires i.wide && PartOf(b, i.fetch) == p && PartOf(b, i.Half2()) == p2
    requires PartOf(b, i.first) == q && PartOf(b, i.second) == q2
    requires p < p2 < q < q2
    ensures FourParts(i, b)
  {
  }

  /** There are such instructions: a 32-bit one across the first border, with data across the last. */
  lemma AcrossFourParts(b: Block, i: Instruction)
    requires SixUnits(b) && i == Instruction(0x2000_003E, true, 0x2000_00BE, 0x2000_00C0)
    ensures FourParts(i, b)
  {
    assert i.Half2() == 0x2000_0040;
    OneUnitPart(b, 0x2000_0020, i.fetch);
    TwoUnitPart(b, 0x2000_0040, i.Half2());
    TwoUnitPart(b, 0x2000_0080, i.first);
    OneUnitPart(b, 0x2000_00C0, i.second);
    FourDifferent(i, b, 0x2000_0020, 0x2000_0040, 0x2000_0080, 0x2000_00C0);
  }
}
