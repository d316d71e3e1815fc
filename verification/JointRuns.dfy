/** Runs of the whole kernel: yields, interrupts and faults, MemManage faults, the memory layer's part of the
    services, and the stores of the running partition that the MPU lets pass. */
module JointRuns {
  import opened Bits
  import opened LookupTable
  import opened MpuRegisters
  import opened Mal
  import opened MemManage
  import opened FaultRuns
  import opened Memory
  import opened ExceptionFrames
  import opened Wrappers
  import opened Yield
  import opened YieldProperties
  import opened Faults
  import opened KernelMemory
  import LayerRuns
  import KernelRuns

  /** MemManage's exception number, under which a fault that cannot be paged in is propagated. */
  const MEM_MANAGE: Word := 4

  /** The kernel, the flag of the MemManage handler, and how deep the partitions are. */
  datatype Machine = Machine(k: KState, flag: bool, depth: map<Paddr, nat>)

  datatype Move =
    /** A call or an exception other than MemManage. */
    | Call(e: KernelRuns.Event)
    | MemFault(f: Fault, ctx: Paddr, stray: Word)
    /** createPartition: a descriptor at `p`, child of the running partition. */
    | CreateChild(p: Paddr)
    | Map(p: Paddr, block: Paddr, i: nat)
    | Unmap(p: Paddr, block: Paddr)
    /** An exception is taken: the hardware and the entry code stack a context. */
    | Stack(ctx: Word, ws: seq<Word>)
    /** The running partition stores a word. */
    | Store(a: Word, v: Word)

  function LayerOf(m: Machine): LayerRuns.Layer {
    LayerRuns.Layer(m.k.mal, m.flag)
  }

  /** The invariant: everything that the separate runs keep. */
  ghost predicate JointOk(env: Env, kernel: set<Word>, m: Machine) {
    && KernelRuns.Inv(env, m.k, m.depth)
    && KernelApart(env, kernel, m.k.mal)
    && TablesOk(env, m)
  }

  /** The slots are in order and confined, and list accessible blocks only. */
  ghost predicate TablesOk(env: Env, m: Machine)
    requires KernelOk(env, m.k.mal)
  {
    && LayerRuns.AllSlotsOk(env.entries, LayerOf(m))
    && LayerRuns.AllConfined(env.entries, LayerOf(m))
    && forall p :: p in m.k.mal.pds ==> ListsAccessible(env, m.k.mal.pds[p].mpu)
  }

  ghost predicate ListsAccessible(env: Env, mpu: seq<Paddr>) {
    forall i :: 0 <= i < |mpu| && mpu[i] in env.entries ==> Accessible(env.entries[mpu[i]])
  }

  predicate Accessible(b: Block) { b.present && b.accessible }

  /** The MPU lets the running partition store at `a`. */
  ghost predicate Writable(regions: seq<RegionRegs>, a: Word) {
    exists k :: 0 <= k < |regions| && InRegion(regions[k], a) && UserWrite(ApField(regions[k].rasr))
  }

  /** What the services check, and what the MPU does. */
  ghost predicate Enabled(env: Env, m: Machine, e: Move) {
    match e
    case Call(ev) => !ev.MemoryEvent?
    case MemFault(_, _, _) => true
    case CreateChild(p) => p != NULL && p !in m.k.mal.pds
    case Map(p, block, i) =>
      && p in m.k.mal.pds && i < REGIONS && Listable(env.entries, block)
      && (block != NULL ==> Accessible(env.entries[block]))
    case Unmap(p, _) => p in m.k.mal.pds
    case Stack(_, ws) => |ws| <= MAX_AREA
    case Store(a, _) => a % 4 == 0 && Writable(m.k.mal.regions, a)
  }

  ghost function AfterLayer(env: Env, m: Machine, e: LayerRuns.Step): Machine
    requires KernelOk(env, m.k.mal) && LayerRuns.Enabled(env.entries, LayerOf(m), e)
  {
    var r := LayerRuns.Next(env.entries, LayerOf(m), e);
    m.(k := m.k.(mal := r.mal), flag := r.flag)
  }

  function Created(m: Machine, p: Paddr): Machine
    requires m.k.mal.current in m.depth
  {
    var mal := m.k.mal;
    m.(
      k := m.k.(mal := mal.(pds := mal.pds[p := InitialPd().(parent := mal.current)])),
      depth := m.depth[p := m.depth[mal.current] + 1]
    )
  }

  ghost function Handled(env: Env, m: Machine, f: Fault): bool
    requires KernelOk(env, m.k.mal) && m.k.mal.current in m.k.mal.pds
  {
    assert PdOk(env.entries, m.k.mal.pds[m.k.mal.current]);
    Handle(env.entries, LayerRuns.CurrentFaultState(LayerOf(m)), f).1
  }

  ghost function Called(env: Env, m: Machine, e: KernelRuns.Event): Option<Machine>
    requires KernelRuns.Inv(env, m.k, m.depth)
  {
    match KernelRuns.Step(env, m.k, m.depth, e)
    case None => None
    case Some(k) => Some(m.(k := k))
  }

  /** The next state, None once the kernel has panicked. */
  ghost function Next(env: Env, kernel: set<Word>, m: Machine, e: Move): Option<Machine>
    requires JointOk(env, kernel, m) && Enabled(env, m, e)
  {
    match e
    case Call(ev) => Called(env, m, ev)
    case MemFault(f, ctx, stray) =>
      if Handled(env, m, f) then Some(AfterLayer(env, m, LayerRuns.FaultStep(f)))
      else Called(env, m, KernelRuns.FaultEvent(MEM_MANAGE, ctx, stray))
    case CreateChild(p) => Some(Created(m, p))
    case Map(p, block, i) => Some(AfterLayer(env, m, LayerRuns.ReplaceStep(p, block, i)))
    case Unmap(p, block) => Some(AfterLayer(env, m, LayerRuns.RemoveStep(p, block)))
    case Stack(ctx, ws) => Some(m.(k := m.k.(mem := WriteWords(m.k.mem, ctx, ws))))
    case Store(a, v) => Some(m.(k := m.k.(mem := Write32(m.k.mem, a, v))))
  }

  /** A privileged store that nothing checks meets the kernel's structures. */
  ghost predicate Astray(env: Env, kernel: set<Word>, m: Machine, e: Move)
    requires JointOk(env, kernel, m)
  {
    match e
    case Call(ev) => KernelRuns.Strays(env, kernel, m.k, m.depth, ev)
    case MemFault(f, ctx, stray) =>
      !Handled(env, m, f)
      && KernelRuns.Strays(env, kernel, m.k, m.depth, KernelRuns.FaultEvent(MEM_MANAGE, ctx, stray))
    case Stack(ctx, ws) => !AreaMisses(kernel, ctx, |ws|)
    case _ => false
  }

  /** The condition for a move to keep the invariant: no stray store; a Map or Unmap leaves the spare slots within
      listed blocks, and an Unmap clears no configured slot of the running partition. */
  ghost predicate Good(env: Env, kernel: set<Word>, m: Machine, e: Move)
    requires JointOk(env, kernel, m) && Enabled(env, m, e)
  {
    && !Astray(env, kernel, m, e)
    && match e
       case Map(p, block, i) =>
         LayerRuns.SparesStay(env.entries, LayerOf(m), LayerRuns.ReplaceStep(p, block, i))
       case Unmap(p, block) =>
         && LayerRuns.SparesStay(env.entries, LayerOf(m), LayerRuns.RemoveStep(p, block))
         && (p == m.k.mal.current ==> NothingConfigured(m.k.mal.pds[p], block))
       case _ => true
  }

  ghost predicate NothingConfigured(pd: Pd, block: Paddr) {
    WellSized(pd) && forall k :: 0 <= k < REGIONS && pd.mpu[k] == block ==> SlotRegion(pd.lut, k) == CLEARED
  }

  // ----- the layer's steps ------------------------------------------------------------------------

  /** Descriptors differ in their tables at most. */
  ghost predicate SameButTables(s: MalState, t: MalState) {
    && s.root == t.root && s.current == t.current && s.pds.Keys == t.pds.Keys
    && forall p :: p in s.pds ==> t.pds[p] == s.pds[p].(mpu := t.pds[p].mpu, lut := t.pds[p].lut)
  }

  lemma LayerSame(env: Env, m: Machine, e: LayerRuns.Step)
    requires KernelOk(env, m.k.mal) && LayerRuns.Enabled(env.entries, LayerOf(m), e)
    requires e.ReplaceStep? || e.RemoveStep? || e.FaultStep?
    ensures SameButTables(m.k.mal, AfterLayer(env, m, e).k.mal)
  {
  }

  /** Yields, interrupts and faults look at nothing else. */
  lemma TablesApart(env: Env, kernel: set<Word>, k: KState, depth: map<Paddr, nat>, t: MalState)
    requires KernelOk(env, k.mal) && StateOk(env.entries, t) && SameButTables(k.mal, t)
    requires k.mal.current in k.mal.pds && IsTree(k.mal, depth) && MaskOk(k) && KernelApart(env, kernel, k.mal)
    ensures KernelOk(env, t) && IsTree(t, depth) && MaskOk(k.(mal := t)) && KernelApart(env, kernel, t)
  {
    forall p | p in t.pds ensures VidtInside(env, t.pds[p]) {
      assert VidtInside(env, k.mal.pds[p]);
    }
  }

  /** A step of the layer on a running kernel: all but the confinement and the agreement of table and MPU is kept. */
  lemma LayerKeeps(env: Env, kernel: set<Word>, m: Machine, e: LayerRuns.Step)
    requires JointOk(env, kernel, m) && LayerRuns.Enabled(env.entries, LayerOf(m), e)
    requires e.ReplaceStep? || e.RemoveStep? || e.FaultStep?
    ensures var t := AfterLayer(env, m, e);
            && KernelOk(env, t.k.mal) && t.k.mal.current in t.k.mal.pds && IsTree(t.k.mal, t.depth)
            && MaskOk(t.k) && KernelApart(env, kernel, t.k.mal) && t.k.mem == m.k.mem
            && LayerRuns.AllSlotsOk(env.entries, LayerOf(t))
            && LayerOf(t) == LayerRuns.Next(env.entries, LayerOf(m), e)
  {
    LayerSame(env, m, e);
    TablesApart(env, kernel, m.k, m.depth, AfterLayer(env, m, e).k.mal);
    LayerRuns.StepKeepsSlots(env.entries, LayerOf(m), e);
  }

  lemma SyncAgrees(env: Env, m: Machine)
    requires KernelOk(env, m.k.mal) && m.k.mal.current in m.k.mal.pds
    ensures RunsInSync(m.k) <==> LayerRuns.InSync(env.entries, LayerOf(m))
  {
    assert PdOk(env.entries, m.k.mal.pds[m.k.mal.current]);
  }

  /** What is left of the invariant after a step of the layer. */
  lemma LayerExact(env: Env, kernel: set<Word>, m: Machine, e: LayerRuns.Step)
    requires JointOk(env, kernel, m) && LayerRuns.Enabled(env.entries, LayerOf(m), e)
    requires e.ReplaceStep? || e.RemoveStep? || e.FaultStep?
    requires forall q :: q in AfterLayer(env, m, e).k.mal.pds ==>
              ListsAccessible(env, AfterLayer(env, m, e).k.mal.pds[q].mpu)
    ensures AfterLayer(env, m, e).k.mem == m.k.mem
    ensures JointOk(env, kernel, AfterLayer(env, m, e)) <==>
            RunsInSync(AfterLayer(env, m, e).k) && LayerRuns.SparesStay(env.entries, LayerOf(m), e)
  {
    LayerKeeps(env, kernel, m, e);
    LayerRuns.StepConfinedExact(env.entries, LayerOf(m), e);
  }

  /** Mapping and paging load the MPU. */
  lemma LayerSync(env: Env, m: Machine, e: LayerRuns.Step)
    requires KernelOk(env, m.k.mal) && LayerRuns.Enabled(env.entries, LayerOf(m), e) && (e.ReplaceStep? || e.FaultStep?)
    requires m.k.mal.current in m.k.mal.pds && RunsInSync(m.k)
    ensures RunsInSync(AfterLayer(env, m, e).k)
  {
    LayerSame(env, m, e);
    TablesApartOk(env, m, e);
    SyncAgrees(env, m);
    SyncAgrees(env, AfterLayer(env, m, e));
    LayerRuns.StepKeepsSync(env.entries, LayerOf(m), e);
  }

  lemma TablesApartOk(env: Env, m: Machine, e: LayerRuns.Step)
    requires KernelOk(env, m.k.mal) && LayerRuns.Enabled(env.entries, LayerOf(m), e)
    requires SameButTables(m.k.mal, AfterLayer(env, m, e).k.mal)
    ensures KernelOk(env, AfterLayer(env, m, e).k.mal)
  {
  }

  lemma MapExact(env: Env, kernel: set<Word>, m: Machine, p: Paddr, block: Paddr, i: nat)
    requires JointOk(env, kernel, m) && Enabled(env, m, Map(p, block, i))
    ensures Good(env, kernel, m, Map(p, block, i)) <==>
            JointOk(env, kernel, Next(env, kernel, m, Map(p, block, i)).value)
  {
    var e := LayerRuns.ReplaceStep(p, block, i);
    MapLists(env, m, p, block, i);
    LayerExact(env, kernel, m, e);
    LayerSync(env, m, e);
  }

  lemma MapLists(env: Env, m: Machine, p: Paddr, block: Paddr, i: nat)
    requires KernelOk(env, m.k.mal) && Enabled(env, m, Map(p, block, i)) && TablesOk(env, m)
    ensures var t := AfterLayer(env, m, LayerRuns.ReplaceStep(p, block, i)).k.mal;
            forall q :: q in t.pds ==> ListsAccessible(env, t.pds[q].mpu)
  {
    var pd := WithBlock(env.entries, m.k.mal.pds[p], i, block, StartOf(env.entries, block));
    assert ListsAccessible(env, m.k.mal.pds[p].mpu);
    UpdateLists(env, m.k.mal, p, pd, AfterLayer(env, m, LayerRuns.ReplaceStep(p, block, i)).k.mal);
  }

  lemma UnmapExact(env: Env, kernel: set<Word>, m: Machine, p: Paddr, block: Paddr)
    requires JointOk(env, kernel, m) && Enabled(env, m, Unmap(p, block))
    ensures Good(env, kernel, m, Unmap(p, block)) <==>
            JointOk(env, kernel, Next(env, kernel, m, Unmap(p, block)).value)
  {
    var e := LayerRuns.RemoveStep(p, block);
    UnmapLists(env, m, p, block);
    LayerExact(env, kernel, m, e);
    UnmapSync(env, m, p, block);
  }

  lemma UnmapSync(env: Env, m: Machine, p: Paddr, block: Paddr)
    requires KernelOk(env, m.k.mal) && m.k.mal.current in m.k.mal.pds && p in m.k.mal.pds && RunsInSync(m.k)
    ensures var t := AfterLayer(env, m, LayerRuns.RemoveStep(p, block));
            && t.k.mal.current in t.k.mal.pds
            && (RunsInSync(t.k) <==> p == m.k.mal.current ==> NothingConfigured(m.k.mal.pds[p], block))
  {
    var e := LayerRuns.RemoveStep(p, block);
    var t := AfterLayer(env, m, e);
    LayerSame(env, m, e);
    TablesApartOk(env, m, e);
    SyncAgrees(env, m);
    SyncAgrees(env, t);
    assert PdOk(env.entries, m.k.mal.pds[p]);
    if p == m.k.mal.current {
      LayerRuns.RemoveFromCurrentSync(env.entries, LayerOf(m), block);
    } else {
      LayerRuns.StepKeepsSync(env.entries, LayerOf(m), e);
    }
  }

  lemma UnmapLists(env: Env, m: Machine, p: Paddr, block: Paddr)
    requires KernelOk(env, m.k.mal) && p in m.k.mal.pds && TablesOk(env, m)
    ensures var t := AfterLayer(env, m, LayerRuns.RemoveStep(p, block)).k.mal;
            forall q :: q in t.pds ==> ListsAccessible(env, t.pds[q].mpu)
  {
    FewerListed(env, m.k.mal.pds[p], block);
    UpdateLists(env, m.k.mal, p, WithoutBlock(m.k.mal.pds[p], block),
      AfterLayer(env, m, LayerRuns.RemoveStep(p, block)).k.mal);
  }

  lemma FewerListed(env: Env, pd: Pd, block: Paddr)
    requires WellSized(pd) && EntriesOk(env.entries) && ListsAccessible(env, pd.mpu)
    ensures ListsAccessible(env, WithoutBlock(pd, block).mpu)
  {
  }

  lemma PageKeeps(env: Env, kernel: set<Word>, m: Machine, f: Fault)
    requires JointOk(env, kernel, m)
    ensures var t := AfterLayer(env, m, LayerRuns.FaultStep(f));
            JointOk(env, kernel, t) && t.k.mem == m.k.mem
  {
    var e := LayerRuns.FaultStep(f);
    PageLists(env, m, f);
    LayerExact(env, kernel, m, e);
    LayerSync(env, m, e);
  }

  lemma PageLists(env: Env, m: Machine, f: Fault)
    requires KernelOk(env, m.k.mal) && m.k.mal.current in m.k.mal.pds && TablesOk(env, m)
    ensures var t := AfterLayer(env, m, LayerRuns.FaultStep(f)).k.mal;
            forall q :: q in t.pds ==> ListsAccessible(env, t.pds[q].mpu)
  {
    var p, t := m.k.mal.current, AfterLayer(env, m, LayerRuns.FaultStep(f)).k.mal;
    assert PdOk(env.entries, m.k.mal.pds[p]);
    LayerRuns.HandleKeepsMpu(env.entries, LayerRuns.CurrentFaultState(LayerOf(m)), f);
    assert t.pds[p].mpu == m.k.mal.pds[p].mpu;
    UpdateLists(env, m.k.mal, p, t.pds[p], t);
  }

  // ----- the kernel's steps ------------------------------------------------------------------------

  lemma CallKeeps(env: Env, kernel: set<Word>, m: Machine, e: KernelRuns.Event)
    requires JointOk(env, kernel, m) && !KernelRuns.Strays(env, kernel, m.k, m.depth, e)
    ensures var t := Called(env, m, e);
            t.Some? ==> JointOk(env, kernel, t.value) && Intact(kernel, m.k.mem, t.value.k.mem)
  {
    var t := Called(env, m, e);
    KernelRuns.StepKeeps(env, m.k, m.depth, e);
    KernelRuns.StepSame(env, m.k, m.depth, e);
    KernelRuns.StepSpares(env, kernel, m.k, m.depth, e);
    if t.Some? {
      KernelRuns.ApartKept(env, kernel, m.k.mal, t.value.k.mal);
      TablesKept(env, m, t.value);
    }
  }

  lemma TablesKept(env: Env, m: Machine, t: Machine)
    requires KernelOk(env, m.k.mal) && KernelOk(env, t.k.mal) && TablesOk(env, m)
    requires SameButIntStates(m.k.mal, t.k.mal)
    ensures TablesOk(env, t)
  {
    forall p | p in t.k.mal.pds
      ensures t.k.mal.pds[p].mpu == m.k.mal.pds[p].mpu && t.k.mal.pds[p].lut == m.k.mal.pds[p].lut
      ensures ListsAccessible(env, t.k.mal.pds[p].mpu)
    {
    }
  }

  lemma CreateKeeps(env: Env, kernel: set<Word>, m: Machine, p: Paddr)
    requires JointOk(env, kernel, m) && Enabled(env, m, CreateChild(p))
    ensures JointOk(env, kernel, Created(m, p))
  {
    CreatedKernel(env, kernel, m, p);
    CreatedTree(env, m, p);
    CreatedTables(env, m, p);
  }

  lemma CreatedKernel(env: Env, kernel: set<Word>, m: Machine, p: Paddr)
    requires KernelRuns.Inv(env, m.k, m.depth) && p != NULL && p !in m.k.mal.pds && KernelApart(env, kernel, m.k.mal)
    ensures var t := Created(m, p).k;
            && KernelOk(env, t.mal) && t.mal.current in t.mal.pds && MaskOk(t) && RunsInSync(t)
            && KernelApart(env, kernel, t.mal)
  {
    InitialPdOk(env.entries);
    StateOkUpdated(env.entries, m.k.mal, p, Created(m, p).k.mal.pds[p]);
  }

  lemma CreatedTables(env: Env, m: Machine, p: Paddr)
    requires KernelOk(env, m.k.mal) && TablesOk(env, m) && m.k.mal.current in m.depth && p != NULL
    requires KernelOk(env, Created(m, p).k.mal)
    ensures TablesOk(env, Created(m, p))
  {
    var t := Created(m, p);
    var pd := InitialPd().(parent := m.k.mal.current);
    LayerRuns.InitialSlots(env.entries);
    LayerRuns.InitialConfined(env.entries);
    LayerRuns.UpdateKeepsSlots(env.entries, LayerOf(m), p, pd, LayerOf(t));
    LayerRuns.UpdateConfined(env.entries, LayerOf(m), p, pd, LayerOf(t));
    UpdateLists(env, m.k.mal, p, pd, t.k.mal);
  }

  lemma UpdateLists(env: Env, m: MalState, p: Paddr, pd: Pd, t: MalState)
    requires forall q :: q in m.pds ==> ListsAccessible(env, m.pds[q].mpu)
    requires t.pds == m.pds[p := pd] && ListsAccessible(env, pd.mpu)
    ensures forall q :: q in t.pds ==> ListsAccessible(env, t.pds[q].mpu)
  {
  }

  lemma CreatedTree(env: Env, m: Machine, p: Paddr)
    requires KernelRuns.Inv(env, m.k, m.depth) && p != NULL && p !in m.k.mal.pds
    ensures IsTree(Created(m, p).k.mal, Created(m, p).depth)
  {
  }

  // ----- the partition's stores --------------------------------------------------------------------

  /** The MPU lets the running partition read at `a`. */
  ghost predicate Readable(regions: seq<RegionRegs>, a: Word) {
    exists k :: 0 <= k < |regions| && InRegion(regions[k], a) && UserRead(ApField(regions[k].rasr))
  }

  /** It lets it fetch instructions there. */
  ghost predicate Executable(regions: seq<RegionRegs>, a: Word) {
    exists k :: 0 <= k < |regions| && InRegion(regions[k], a) && UserRead(ApField(regions[k].rasr))
        && XnField(regions[k].rasr) == 0
  }

  /** The partition lists an accessible block that contains the address; `exec`: with the right to execute. */
  ghost predicate ListsReadable(env: Env, pd: Pd, a: Word, exec: bool) {
    exists i :: 0 <= i < |pd.mpu| && pd.mpu[i] in env.entries && ReadableBlock(env.entries[pd.mpu[i]], a, exec)
  }

  predicate ReadableBlock(b: Block, a: Word, exec: bool) {
    Accessible(b) && b.Contains(a) && (exec ==> b.exec)
  }

  lemma RegionReadable(env: Env, pd: Pd, r: RegionRegs, a: Word)
    requires WithinListed(env.entries, pd.mpu, r) && ListsAccessible(env, pd.mpu) && InRegion(r, a)
    ensures ListsReadable(env, pd, a, XnField(r.rasr) == 0)
  {
    var i :| 0 <= i < |pd.mpu| && pd.mpu[i] in env.entries && MapsPartOf(r, env.entries[pd.mpu[i]]);
    assert ReadableBlock(env.entries[pd.mpu[i]], a, XnField(r.rasr) == 0);
  }

  /** What the running partition can read or execute lies in such a block. */
  lemma ReadableInBlock(env: Env, kernel: set<Word>, m: Machine, a: Word)
    requires JointOk(env, kernel, m)
    ensures Readable(m.k.mal.regions, a) ==> ListsReadable(env, m.k.mal.pds[m.k.mal.current], a, false)
    ensures Executable(m.k.mal.regions, a) ==> ListsReadable(env, m.k.mal.pds[m.k.mal.current], a, true)
  {
    forall k | 0 <= k < REGIONS && InRegion(m.k.mal.regions[k], a)
      ensures ListsReadable(env, m.k.mal.pds[m.k.mal.current], a, XnField(m.k.mal.regions[k].rasr) == 0)
    {
      CurrentWithin(env, kernel, m, k);
      RegionReadable(env, m.k.mal.pds[m.k.mal.current], m.k.mal.regions[k], a);
    }
  }

  /** The enabled hardware regions lie within blocks that the running partition lists. */
  lemma CurrentWithin(env: Env, kernel: set<Word>, m: Machine, k: nat)
    requires JointOk(env, kernel, m) && k < REGIONS && EnableField(m.k.mal.regions[k].rasr) == 1
    ensures var pd := m.k.mal.pds[m.k.mal.current];
            WithinListed(env.entries, pd.mpu, m.k.mal.regions[k]) && ListsAccessible(env, pd.mpu)
  {
    var pd := m.k.mal.pds[m.k.mal.current];
    assert LayerRuns.ConfinedPd(env.entries, pd) && Listed(env.entries, pd.mpu, pd.lut, k);
    assert SlotRegion(pd.lut, k) == m.k.mal.regions[k];
  }

  /** The partition lists an accessible writable block that contains the address. */
  ghost predicate ListsWritable(env: Env, pd: Pd, a: Word) {
    exists i :: 0 <= i < |pd.mpu| && pd.mpu[i] in env.entries && WritableBlock(env.entries[pd.mpu[i]], a)
  }

  predicate WritableBlock(b: Block, a: Word) {
    Accessible(b) && b.write && b.Contains(a)
  }

  /** What the running partition can store to lies in such a block, and misses the kernel. */
  lemma WritableInBlock(env: Env, kernel: set<Word>, m: Machine, a: Word)
    requires JointOk(env, kernel, m) && Writable(m.k.mal.regions, a)
    ensures ListsWritable(env, m.k.mal.pds[m.k.mal.current], a)
    ensures a % 4 == 0 ==> !Meets(kernel, a)
  {
    var pd := m.k.mal.pds[m.k.mal.current];
    var k :| 0 <= k < REGIONS && InRegion(m.k.mal.regions[k], a) && UserWrite(ApField(m.k.mal.regions[k].rasr));
    CurrentWithin(env, kernel, m, k);
    RegionInBlock(env, pd, m.k.mal.regions[k], a);
    ListedMisses(env, kernel, m.k.mal, pd, a);
  }

  lemma RegionInBlock(env: Env, pd: Pd, r: RegionRegs, a: Word)
    requires WithinListed(env.entries, pd.mpu, r) && ListsAccessible(env, pd.mpu)
    requires InRegion(r, a) && UserWrite(ApField(r.rasr))
    ensures ListsWritable(env, pd, a)
  {
    var i :| 0 <= i < |pd.mpu| && pd.mpu[i] in env.entries && MapsPartOf(r, env.entries[pd.mpu[i]]);
    assert WritableBlock(env.entries[pd.mpu[i]], a);
  }

  lemma ListedMisses(env: Env, kernel: set<Word>, m: MalState, pd: Pd, a: Word)
    requires EntriesOk(env.entries) && KernelApart(env, kernel, m) && ListsWritable(env, pd, a)
    ensures a % 4 == 0 ==> !Meets(kernel, a)
  {
    var i :| 0 <= i < |pd.mpu| && pd.mpu[i] in env.entries && WritableBlock(env.entries[pd.mpu[i]], a);
    if a % 4 == 0 {
      WholeUnits(env.entries[pd.mpu[i]], a);
      InsideMisses(kernel, env.entries[pd.mpu[i]], a);
    }
  }

  /** And conversely: all that a slot of the running partition maps of its block is readable, and writable and
      executable as the block says. */
  lemma OwnAccess(env: Env, kernel: set<Word>, m: Machine, k: nat, a: Word)
    requires JointOk(env, kernel, m) && k < LISTED
    requires m.k.mal.current in m.k.mal.pds && WellSized(m.k.mal.pds[m.k.mal.current])
    requires m.k.mal.pds[m.k.mal.current].mpu[k] in env.entries && |m.k.mal.regions| == REGIONS
    requires InRegion(m.k.mal.regions[k], a)
    ensures var b := env.entries[m.k.mal.pds[m.k.mal.current].mpu[k]];
            && b.Contains(a) && Readable(m.k.mal.regions, a)
            && (b.write ==> Writable(m.k.mal.regions, a)) && (b.exec ==> Executable(m.k.mal.regions, a))
  {
    var pd := m.k.mal.pds[m.k.mal.current];
    assert SlotsOk(env.entries, pd.mpu, pd.lut) && SlotHolds(env.entries, pd.mpu[k], SlotRegion(pd.lut, k));
    assert MapsPartOf(m.k.mal.regions[k], env.entries[pd.mpu[k]]);
  }

  // ----- one move ----------------------------------------------------------------------------------

  /** What may come of a move. After a stray store nothing is known. */
  ghost predicate Follows(env: Env, kernel: set<Word>, m: Machine, e: Move, t: Machine)
    requires JointOk(env, kernel, m) && Enabled(env, m, e)
  {
    Astray(env, kernel, m, e) || Next(env, kernel, m, e) == Some(t)
  }

  lemma MoveKeeps(env: Env, kernel: set<Word>, m: Machine, e: Move, t: Machine)
    requires JointOk(env, kernel, m) && Enabled(env, m, e) && Good(env, kernel, m, e)
    requires Next(env, kernel, m, e) == Some(t)
    ensures JointOk(env, kernel, t) && Intact(kernel, m.k.mem, t.k.mem)
  {
    match e {
      case Call(ev) => CallKeeps(env, kernel, m, ev);
      case MemFault(f, ctx, stray) =>
        if Handled(env, m, f) {
          PageKeeps(env, kernel, m, f);
        } else {
          CallKeeps(env, kernel, m, KernelRuns.FaultEvent(MEM_MANAGE, ctx, stray));
        }
      case CreateChild(p) => CreateKeeps(env, kernel, m, p);
      case Map(p, block, i) => MapExact(env, kernel, m, p, block, i);
      case Unmap(p, block) => UnmapExact(env, kernel, m, p, block);
      case Stack(ctx, ws) => StackIntact(kernel, m.k.mem, ctx, ws);
      case Store(a, v) =>
        WritableInBlock(env, kernel, m, a);
        OneWordIntact(kernel, m.k.mem, a, v);
    }
  }

  lemma {:induction false} StackIntact(kernel: set<Word>, m: Words, ctx: Word, ws: seq<Word>)
    requires AreaMisses(kernel, ctx, |ws|)
    ensures Intact(kernel, m, WriteWords(m, ctx, ws))
    decreases |ws|
  {
    if ws != [] {
      var n := |ws| - 1;
      StackIntact(kernel, m, ctx, ws[..n]);
      OneWordIntact(kernel, WriteWords(m, ctx, ws[..n]), At(ctx, n), ws[n]);
    }
  }

  /** A move keeps the invariant, whatever follows, if and only if it is good. */
  lemma MoveExact(env: Env, kernel: set<Word>, m: Machine, e: Move)
    requires JointOk(env, kernel, m) && Enabled(env, m, e)
    ensures Good(env, kernel, m, e) <==>
            forall t :: Follows(env, kernel, m, e, t) ==> JointOk(env, kernel, t)
  {
    if Good(env, kernel, m, e) {
      forall t | Follows(env, kernel, m, e, t) ensures JointOk(env, kernel, t) {
        MoveKeeps(env, kernel, m, e, t);
      }
    } else {
      var t := BadMove(env, kernel, m, e);
    }
  }

  lemma BadMove(env: Env, kernel: set<Word>, m: Machine, e: Move) returns (t: Machine)
    requires JointOk(env, kernel, m) && Enabled(env, m, e) && !Good(env, kernel, m, e)
    ensures Follows(env, kernel, m, e, t) && !JointOk(env, kernel, t)
  {
    if Astray(env, kernel, m, e) {
      t := m.(k := m.k.(mal := m.k.mal.(current := NULL)));
    } else {
      t := Next(env, kernel, m, e).value;
      if e.Map? {
        MapExact(env, kernel, m, e.p, e.block, e.i);
      } else {
        UnmapExact(env, kernel, m, e.p, e.block);
      }
    }
  }

  // ----- runs ----------------------------------------------------------------------------------------

  /** `t` is reached by moves that are all enabled and good. */
  ghost predicate Reaches(env: Env, kernel: set<Word>, m: Machine, es: seq<Move>, t: Machine)
    requires JointOk(env, kernel, m)
    decreases |es|
  {
    if es == [] then m == t
    else
      && Enabled(env, m, es[0]) && Good(env, kernel, m, es[0]) && Next(env, kernel, m, es[0]).Some?
      && var next := Next(env, kernel, m, es[0]).value;
         MoveKeeps(env, kernel, m, es[0], next);
         Reaches(env, kernel, next, es[1..], t)
  }

  /** The invariant over every such run. */
  lemma {:induction false} JointInvariant(env: Env, kernel: set<Word>, m: Machine, es: seq<Move>, t: Machine)
    requires JointOk(env, kernel, m) && Reaches(env, kernel, m, es, t)
    ensures JointOk(env, kernel, t) && Intact(kernel, m.k.mem, t.k.mem)
    decreases |es|
  {
    if es != [] {
      var next := Next(env, kernel, m, es[0]).value;
      MoveKeeps(env, kernel, m, es[0], next);
      JointInvariant(env, kernel, next, es[1..], t);
      IntactBoth(kernel, m.k.mem, next.k.mem, t.k.mem);
    }
  }

  lemma TwoReach(env: Env, kernel: set<Word>, m: Machine, e: Move, f: Move, m1: Machine, t: Machine)
    requires JointOk(env, kernel, m) && Enabled(env, m, e) && Good(env, kernel, m, e)
    requires Next(env, kernel, m, e) == Some(m1) && JointOk(env, kernel, m1)
    requires Enabled(env, m1, f) && Good(env, kernel, m1, f) && Next(env, kernel, m1, f) == Some(t)
    ensures JointOk(env, kernel, t) && Reaches(env, kernel, m, [e, f], t)
  {
    MoveKeeps(env, kernel, m1, f, t);
    OneReaches(env, kernel, m1, f, t);
    assert [e, f][1..] == [f];
  }

  lemma OneReaches(env: Env, kernel: set<Word>, m: Machine, e: Move, t: Machine)
    requires JointOk(env, kernel, m) && Enabled(env, m, e) && Good(env, kernel, m, e)
    requires Next(env, kernel, m, e) == Some(t) && JointOk(env, kernel, t)
    ensures Reaches(env, kernel, m, [e], t)
  {
    assert [e][1..] == [];
  }

  /** Mapping a block for the running partition loads the part of it around its start. */
  lemma MapLoads(env: Env, kernel: set<Word>, m: Machine, block: Paddr, i: nat)
    requires JointOk(env, kernel, m) && Enabled(env, m, Map(m.k.mal.current, block, i)) && block != NULL
    ensures var r := Next(env, kernel, m, Map(m.k.mal.current, block, i)).value.k.mal.regions[i];
            InRegion(r, env.entries[block].start) && MapsPartOf(r, env.entries[block])
  {
    var b := env.entries[block];
    assert PdOk(env.entries, m.k.mal.pds[m.k.mal.current]);
    SlotDecodes(m.k.mal.pds[m.k.mal.current].lut, i, b, b.start);
  }

  /** Isolation: after any such run the kernel's words are as they were, interrupts are masked exactly when root
      runs and asked for it, and all that the MPU lets the running partition write, read or execute belongs to an
      accessible block that it lists, with the right to write or execute; what it can write misses the kernel. */
  lemma Isolation(env: Env, kernel: set<Word>, m: Machine, es: seq<Move>, t: Machine, a: Word)
    requires JointOk(env, kernel, m) && Reaches(env, kernel, m, es, t)
    ensures Intact(kernel, m.k.mem, t.k.mem)
    ensures t.k.mal.current in t.k.mal.pds && t.k.mal.root in t.k.mal.pds
    ensures t.k.masked <==> t.k.mal.current == t.k.mal.root && t.k.mal.pds[t.k.mal.root].intState == 0
    ensures Writable(t.k.mal.regions, a) ==>
              ListsWritable(env, t.k.mal.pds[t.k.mal.current], a) && (a % 4 == 0 ==> !Meets(kernel, a))
    ensures Readable(t.k.mal.regions, a) ==> ListsReadable(env, t.k.mal.pds[t.k.mal.current], a, false)
    ensures Executable(t.k.mal.regions, a) ==> ListsReadable(env, t.k.mal.pds[t.k.mal.current], a, true)
  {
    JointInvariant(env, kernel, m, es, t);
    ReadableInBlock(env, kernel, t, a);
    if Writable(t.k.mal.regions, a) { WritableInBlock(env, kernel, t, a); }
  }

  /** Where it begins: at the boot, if the descriptors' tables are in order by then. */
  lemma BootJoint(env: Env, kernel: set<Word>, s: KState, depth: map<Paddr, nat>, ctx: Paddr)
    requires KernelOk(env, s.mal) && s.mal.current == NULL && IsTree(s.mal, depth) && KernelApart(env, kernel, s.mal)
    requires FrameMisses(kernel, LoadState(s.mem, LoadMemory(s.mem, ctx, env.stkalign), ctx, env.stkalign))
    requires TablesOk(env, Machine(s, false, depth))
    ensures var m := Machine(KernelRuns.Booted(env, s, depth, ctx), false, depth);
            JointOk(env, kernel, m) && Intact(kernel, s.mem, m.k.mem)
  {
    SwitchSound(env, s, s.mal.root, 0, ctx);
    KernelRuns.BootSpares(env, kernel, s, depth, ctx);
    TablesKept(env, Machine(s, false, depth), Machine(KernelRuns.Booted(env, s, depth, ctx), false, depth));
  }
}
