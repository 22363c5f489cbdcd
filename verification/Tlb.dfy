/**
 Coherence of the processors' cached translations over whole runs.

 Nothing is flushed when a page is mapped or a table is destroyed; a processor is flushed
 only when a vCPU is (re)loaded on it.  A processor may cache, under the EPTP of a vCPU
 loaded on it, any present entry it meets on a walk: the walker starts at the root or at
 an entry it has cached, reads whatever physical memory holds there, and may keep the
 result.  Entries that are not present are never cached (section 29.4.3.4 of the Intel SDM,
 volume 3C).  Cached entries may also disappear at any time.
*/
module Tlb {
  import opened Common
  import opened Ept
  import opened EptProperties

  /** A cached entry: the root in the EPTP, and the node of that table it leads to. */
  datatype Key = Key(root: nat, level: nat, prefix: nat)

  type Cache = map<Key, nat>

  datatype Vcpu = Vcpu(loadedCpu: Option<nat>)

  datatype Vm = Vm(table: Table, slot: Slot, vcpu: Option<Vcpu>) {
    predicate LoadedOn(cpu: nat) { vcpu == Some(Vcpu(Some(cpu))) }
  }

  datatype System = System(vms: map<nat, Vm>, tlb: map<nat, Cache>) {
    function CacheOf(cpu: nat): Cache { if cpu in tlb then tlb[cpu] else map[] }

    /** Pages in use by some table. */
    predicate InUse(page: nat) { exists v | v in vms :: page in vms[v].table.mem }

    /** What a read of physical memory may return: anything, unless a table owns the page. */
    predicate MayRead(page: nat, i: nat, entry: nat) {
      forall v | v in vms && page in vms[v].table.mem :: entry == Read(vms[v].table.mem, page, i)
    }
  }

  const NO_SLOT := Slot(false, 0, 0, [])

  datatype Step =
    | CreateVm(vm: nat, root: nat)
    | SetMemory(vm: nat, slot: Slot)
    | CreateVcpu(vm: nat)
    | Load(vm: nat, cpu: nat, flushed: bool)    // KVM_RUN reaching a processor; was it flushed?
    | Fault(vm: nat, gpa: nat, supply: seq<nat>)
    | Fill(vm: nat, cpu: nat, level: nat, prefix: nat, entry: nat)
    | Evict(cpu: nat, key: Key)
    | CloseVcpu(vm: nat)
    | DestroyVm(vm: nat)

  ghost predicate Enabled(s: System, step: Step) {
    match step
    case CreateVm(v, root) => v !in s.vms && !s.InUse(root) && root < PFN_LIMIT
    case SetMemory(v, slot) => v in s.vms && !s.vms[v].slot.valid && slot.Ok() && slot.npages <= FRAME_LIMIT
    case CreateVcpu(v) => v in s.vms && s.vms[v].slot.valid && s.vms[v].vcpu == None
    case Load(v, c, flushed) => v in s.vms && s.vms[v].vcpu.Some?
    case Fault(v, gpa, supply) =>
      && v in s.vms && s.vms[v].slot.Ok() && s.vms[v].vcpu.Some?
      && NoDuplicates(supply) && forall page | page in supply :: page < PFN_LIMIT && !s.InUse(page)
    case Fill(v, c, level, prefix, entry) =>
      && v in s.vms && s.vms[v].LoadedOn(c) && 1 <= level <= 4 && Target(entry).Some?
      && WalkerAt(s, v, c, level - 1, prefix / ENTRIES).Some?
      && s.MayRead(WalkerAt(s, v, c, level - 1, prefix / ENTRIES).value, prefix % ENTRIES, entry)
    case Evict(c, key) => true
    case CloseVcpu(v) => v in s.vms && s.vms[v].vcpu.Some?
    case DestroyVm(v) => v in s.vms && s.vms[v].vcpu == None
  }

  /** The page from which the walker reads the next level: the root, or a cached entry. */
  function WalkerAt(s: System, v: nat, c: nat, level: nat, prefix: nat): Option<nat>
    requires v in s.vms
  {
    var root := s.vms[v].table.root;
    if level == 0 then
      if prefix == 0 then Some(root) else None
    else
      var key := Key(root, level, prefix);
      if key in s.CacheOf(c) then Some(s.CacheOf(c)[key]) else None
  }

  ghost function Apply(s: System, step: Step): System
    requires Enabled(s, step)
  {
    match step
    case CreateVm(v, root) => s.(vms := s.vms[v := Vm(FreshTable(root), NO_SLOT, None)])
    case SetMemory(v, slot) => s.(vms := s.vms[v := s.vms[v].(slot := slot)])
    case CreateVcpu(v) => s.(vms := s.vms[v := s.vms[v].(vcpu := Some(Vcpu(None)))])
    case Load(v, c, flushed) =>
      if s.vms[v].LoadedOn(c) then s
      else System(s.vms[v := s.vms[v].(vcpu := Some(Vcpu(Some(c))))], if flushed then s.tlb[c := map[]] else s.tlb)
    case Fault(v, gpa, supply) =>
      s.(vms := s.vms[v := s.vms[v].(table := HandleViolation(s.vms[v].table, s.vms[v].slot, gpa, supply).t)])
    case Fill(v, c, level, prefix, entry) =>
      s.(tlb := s.tlb[c := s.CacheOf(c)[Key(s.vms[v].table.root, level, prefix) := Target(entry).value]])
    case Evict(c, key) => s.(tlb := s.tlb[c := s.CacheOf(c) - {key}])
    case CloseVcpu(v) => s.(vms := s.vms[v := s.vms[v].(vcpu := None)])
    case DestroyVm(v) => s.(vms := s.vms - {v})
  }

  // ---------------------------------------------------------------- invariant

  ghost predicate VmOk(vm: Vm) {
    Shape(vm.table) && vm.slot.Ok() && vm.slot.npages <= FRAME_LIMIT && Aliased(vm.table, vm.slot)
  }

  /** Everything cached under a table's root is what that table says now. */
  ghost predicate Agrees(cache: Cache, t: Table) {
    forall key | key in cache && key.root == t.root ::
      1 <= key.level <= 4 && NodeAt(t, key.level, key.prefix) == Some(cache[key])
  }

  ghost predicate Coherent(s: System) {
    forall v, c | v in s.vms && s.vms[v].LoadedOn(c) :: Agrees(s.CacheOf(c), s.vms[v].table)
  }

  ghost predicate Separate(s: System) {
    forall v, w | v in s.vms && w in s.vms && v != w :: s.vms[v].table.mem.Keys !! s.vms[w].table.mem.Keys
  }

  ghost predicate Inv(s: System) {
    (forall v | v in s.vms :: VmOk(s.vms[v])) && Separate(s) && Coherent(s)
  }

  lemma FaultKeeps(s: System, step: Step)
    requires Inv(s) && step.Fault? && Enabled(s, step)
    ensures Inv(Apply(s, step))
  {
    hide Shape, Aliased, HandleViolation, NodeAt;
    var vm := s.vms[step.vm];
    var h := HandleViolation(vm.table, vm.slot, step.gpa, step.supply);
    var s' := Apply(s, step);
    assert FreePages(vm.table, step.supply);
    ViolationKeeps(vm.table, vm.slot, step.gpa, step.supply);
    ViolationOnlyAdds(vm.table, vm.slot, step.gpa, step.supply);
    FaultPages(vm.table, h, step.supply);
    forall w, c | w in s'.vms && s'.vms[w].LoadedOn(c)
      ensures Agrees(s'.CacheOf(c), s'.vms[w].table)
    {
      assert s.vms[w].LoadedOn(c) && Agrees(s.CacheOf(c), s.vms[w].table);
    }
  }

  lemma FaultPages(t: Table, h: Handled, supply: seq<nat>)
    requires Shape(t) && Shape(h.t) && h.t.root == t.root && t.tracked + supply == h.t.tracked + h.supply
    ensures h.t.mem.Keys <= t.mem.Keys + Elements(supply)
  {
    forall page | page in h.t.tracked
      ensures page in t.tracked || page in supply
    {
      assert page in t.tracked + supply;
    }
  }

  lemma FillKeeps(s: System, step: Step)
    requires Inv(s) && step.Fill? && Enabled(s, step)
    ensures Inv(Apply(s, step))
  {
    hide Shape, NodeAt, Aliased;
    var s' := Apply(s, step);
    FillReadsTable(s, step);
    forall w, c | w in s'.vms && s'.vms[w].LoadedOn(c)
      ensures Agrees(s'.CacheOf(c), s'.vms[w].table)
    {
      assert s.vms[w].LoadedOn(c) && Agrees(s.CacheOf(c), s.vms[w].table);
      if w != step.vm { RootsDiffer(s, w, step.vm); }
    }
  }

  lemma RootsDiffer(s: System, v: nat, w: nat)
    requires Inv(s) && v in s.vms && w in s.vms && v != w
    ensures s.vms[v].table.root != s.vms[w].table.root
  {}

  /** A walker that starts from coherent entries reads its own table. */
  lemma FillReadsTable(s: System, step: Step)
    requires Inv(s) && step.Fill? && Enabled(s, step)
    ensures NodeAt(s.vms[step.vm].table, step.level, step.prefix) == Target(step.entry)
  {
    var t := s.vms[step.vm].table;
    var (l, p) := (step.level - 1, step.prefix / ENTRIES);
    var page := WalkerAt(s, step.vm, step.cpu, l, p).value;
    assert Agrees(s.CacheOf(step.cpu), t);
    assert NodeAt(t, l, p) == Some(page);
    assert IsNode(t, l, p);
    assert page in t.mem;
  }

  lemma CreateKeeps(s: System, step: Step)
    requires Inv(s) && step.CreateVm? && Enabled(s, step)
    ensures Inv(Apply(s, step))
  {
    hide Shape, NodeAt;
    var s' := Apply(s, step);
    FreshTableShape(step.root);
    forall w, c | w in s'.vms && s'.vms[w].LoadedOn(c)
      ensures Agrees(s'.CacheOf(c), s'.vms[w].table)
    {
      assert s.vms[w].LoadedOn(c) && Agrees(s.CacheOf(c), s.vms[w].table);
    }
  }

  lemma SetMemoryKeeps(s: System, step: Step)
    requires Inv(s) && step.SetMemory? && Enabled(s, step)
    ensures Inv(Apply(s, step))
  {
    hide Shape, NodeAt;
    var s' := Apply(s, step);
    assert VmOk(s.vms[step.vm]);
    forall w, c | w in s'.vms && s'.vms[w].LoadedOn(c)
      ensures Agrees(s'.CacheOf(c), s'.vms[w].table)
    {
      assert s.vms[w].LoadedOn(c) && Agrees(s.CacheOf(c), s.vms[w].table);
    }
  }

  lemma LoadKeeps(s: System, step: Step)
    requires Inv(s) && step.Load? && step.flushed && Enabled(s, step)
    ensures Inv(Apply(s, step))
  {
    hide Shape, NodeAt, Aliased;
    var s' := Apply(s, step);
    if s' != s {
      forall w, c | w in s'.vms && s'.vms[w].LoadedOn(c)
        ensures Agrees(s'.CacheOf(c), s'.vms[w].table)
      {
        if c != step.cpu {
          assert s.vms[w].LoadedOn(c) && Agrees(s.CacheOf(c), s.vms[w].table);
        } else {
          assert s'.CacheOf(c) == map[];
        }
      }
    }
  }

  lemma StepKeeps(s: System, step: Step)
    requires Inv(s) && Enabled(s, step) && (step.Load? ==> step.flushed)
    ensures Inv(Apply(s, step))
  {
    hide Shape, NodeAt, Aliased;
    var s' := Apply(s, step);
    match step
    case CreateVm(_, _) => CreateKeeps(s, step);
    case SetMemory(_, _) => SetMemoryKeeps(s, step);
    case Fault(_, _, _) => FaultKeeps(s, step);
    case Fill(_, _, _, _, _) => FillKeeps(s, step);
    case Load(_, _, _) => LoadKeeps(s, step);
    case _ =>
      forall w, c | w in s'.vms && s'.vms[w].LoadedOn(c)
        ensures Agrees(s'.CacheOf(c), s'.vms[w].table)
      {
        assert s.vms[w].LoadedOn(c) && Agrees(s.CacheOf(c), s.vms[w].table);
      }
  }

  // ------------------------------------------------------------------- runs

  /** The system after a run; a step that is not possible where it stands does nothing. */
  ghost function After(steps: seq<Step>): System {
    if steps == [] then System(map[], map[])
    else
      var s := After(steps[..|steps| - 1]);
      var step := steps[|steps| - 1];
      if Enabled(s, step) then Apply(s, step) else s
  }

  lemma {:induction false} RunKeeps(steps: seq<Step>)
    requires forall i | 0 <= i < |steps| && steps[i].Load? :: steps[i].flushed
    ensures Inv(After(steps))
  {
    hide Inv, Apply, Enabled;
    if steps == [] {
      EmptySystem();
    } else {
      var s := After(steps[..|steps| - 1]);
      RunKeeps(steps[..|steps| - 1]);
      if Enabled(s, steps[|steps| - 1]) { StepKeeps(s, steps[|steps| - 1]); }
    }
  }

  lemma EmptySystem()
    ensures Inv(System(map[], map[]))
  {}

  /** What IA32_VMX_EPT_VPID_CAP says. */
  datatype Caps = Caps(walk4: bool, writeBack: bool, inveptGlobal: bool)

  /** mini_vmx_read_capabilities lets the module load. */
  predicate Loads(caps: Caps) { caps.walk4 && caps.writeBack && caps.inveptGlobal }

  /**
   mini_ept_invept_global: refused outside VMX operation; an all-context INVEPT, where it is
   supported, always succeeds (section 31.3 of the Intel SDM, volume 3C).
  */
  predicate InveptSucceeds(caps: Caps, inVmxOperation: bool) { inVmxOperation && caps.inveptGlobal }

  /** A run of the loaded module: the run loop loads only on processors in VMX operation. */
  ghost predicate CodeRun(caps: Caps, vmxon: set<nat>, steps: seq<Step>) {
    && Loads(caps)
    && forall i | 0 <= i < |steps| && steps[i].Load? ::
         steps[i].cpu in vmxon && steps[i].flushed == InveptSucceeds(caps, steps[i].cpu in vmxon)
  }

  /**
   In every run of the module, whatever a processor has cached under the EPTP of a vCPU loaded
   on it is what that vCPU's table says now: each translation is the current one, and each
   cached table page is a page of that table.
  */
  lemma CachedEntriesAreCurrent(caps: Caps, vmxon: set<nat>, steps: seq<Step>, v: nat, c: nat, key: Key)
    requires CodeRun(caps, vmxon, steps)
    requires v in After(steps).vms && After(steps).vms[v].LoadedOn(c)
    requires key in After(steps).CacheOf(c) && key.root == After(steps).vms[v].table.root
    ensures var (t, cached) := (After(steps).vms[v].table, After(steps).CacheOf(c)[key]);
      && NodeAt(t, key.level, key.prefix) == Some(cached)
      && (key.level == 4 ==> Translate(t, key.prefix) == Some(cached))
      && (key.level < 4 ==> cached in t.mem)
  {
    hide NodeAt;
    RunKeeps(steps);
    var s := After(steps);
    assert VmOk(s.vms[v]);
    assert Agrees(s.CacheOf(c), s.vms[v].table);
    assert key.level < 4 ==> IsNode(s.vms[v].table, key.level, key.prefix);
  }

  // ----------------------------------------------------- what the processor may do

  /** A cached entry can disappear at any time, and no other with it. */
  lemma MayDrop(s: System, c: nat, key: Key)
    ensures Enabled(s, Evict(c, key))
    ensures var t := Apply(s, Evict(c, key));
      && t.vms == s.vms && key !in t.CacheOf(c)
      && (forall k | k in s.CacheOf(c) && k != key :: k in t.CacheOf(c) && t.CacheOf(c)[k] == s.CacheOf(c)[k])
      && (forall d: nat | d != c :: t.CacheOf(d) == s.CacheOf(d))
  {
  }

  /** And whatever the walker meets on its way down from the root can be cached. */
  lemma MayCache(s: System, v: nat, c: nat, level: nat, prefix: nat) returns (step: Step)
    requires Inv(s) && v in s.vms && s.vms[v].LoadedOn(c)
    requires 1 <= level <= 4 && NodeAt(s.vms[v].table, level, prefix).Some?
    requires level == 1 || Key(s.vms[v].table.root, level - 1, prefix / ENTRIES) in s.CacheOf(c)
    ensures Enabled(s, step)
    ensures var (t, key) := (Apply(s, step), Key(s.vms[v].table.root, level, prefix));
      t.vms == s.vms && key in t.CacheOf(c) && Some(t.CacheOf(c)[key]) == NodeAt(s.vms[v].table, level, prefix)
  {
    hide Shape, Aliased;
    var t := s.vms[v].table;
    assert Agrees(s.CacheOf(c), t);
    var page := NodeAt(t, level - 1, prefix / ENTRIES).value;
    assert WalkerAt(s, v, c, level - 1, prefix / ENTRIES) == Some(page);
    var entry := Read(t.mem, page, prefix % ENTRIES);
    PageOwned(s, v, level - 1, prefix / ENTRIES);
    step := Fill(v, c, level, prefix, entry);
  }

  lemma PageOwned(s: System, v: nat, level: nat, prefix: nat)
    requires Inv(s) && v in s.vms && level <= 3 && NodeAt(s.vms[v].table, level, prefix).Some?
    ensures var page := NodeAt(s.vms[v].table, level, prefix).value;
      page in s.vms[v].table.mem && forall w | w in s.vms && page in s.vms[w].table.mem :: w == v
  {
    hide NodeAt, Aliased;
    assert VmOk(s.vms[v]) && IsNode(s.vms[v].table, level, prefix);
  }

  // ------------------------------------------------------------- why it flushes

  /**
   What the flush on a load is for: without it the invariant would survive only where the
   processor's entries happen to agree with the table already.
  */
  lemma LoadNeedsFlush(s: System, v: nat, c: nat, flushed: bool)
    requires Inv(s) && v in s.vms && s.vms[v].vcpu.Some? && !s.vms[v].LoadedOn(c)
    ensures Inv(Apply(s, Load(v, c, flushed))) <==> flushed || Agrees(s.CacheOf(c), s.vms[v].table)
  {
    hide Shape, NodeAt, Aliased;
    var s' := Apply(s, Load(v, c, flushed));
    if flushed {
      LoadKeeps(s, Load(v, c, flushed));
    } else if Agrees(s.CacheOf(c), s.vms[v].table) {
      forall w, d | w in s'.vms && s'.vms[w].LoadedOn(d)
        ensures Agrees(s'.CacheOf(d), s'.vms[w].table)
      {
        assert (w == v && d == c) || (s.vms[w].LoadedOn(d) && Agrees(s.CacheOf(d), s.vms[w].table));
      }
    } else {
      assert s'.vms[v].LoadedOn(c) && s'.CacheOf(c) == s.CacheOf(c);
    }
  }

  /**
   A load without a flush would be safe for whatever table may have got the root page, exactly
   when the processor holds nothing under that EPTP.
  */
  lemma SafeUnflushedIff(cache: Cache, root: nat)
    requires root < PFN_LIMIT
    ensures (forall t: Table | t.root == root && Shape(t) :: Agrees(cache, t)) <==>
              forall key | key in cache :: key.root != root
  {
    hide Shape, NodeAt;
    FreshTableShape(root);
    var empty := FreshTable(root);
    assert empty.root == root && Shape(empty);
    if Agrees(cache, empty) {
      forall key | key in cache
        ensures key.root != root
      {
        assert key.root == root ==> NodeAt(empty, key.level, key.prefix).None?;
      }
    }
  }

  lemma Extend(steps: seq<Step>, step: Step) returns (longer: seq<Step>)
    requires Enabled(After(steps), step)
    ensures longer == steps + [step] && After(longer) == Apply(After(steps), step)
  {
    longer := steps + [step];
    assert longer[..|steps|] == steps;
  }

  const ONE_PAGE := Slot(true, 0, 1, [9])

  /** A VM with root page 5 whose vCPU is loaded on processor 0. */
  lemma LoadedRun() returns (steps: seq<Step>)
    ensures After(steps) == System(map[1 := Vm(FreshTable(5), ONE_PAGE, Some(Vcpu(Some(0))))], map[0 := map[]])
  {
    hide After;
    assert After([]) == System(map[], map[]) by { EmptyRun(); }
    steps := Extend([], CreateVm(1, 5));
    steps := Extend(steps, SetMemory(1, ONE_PAGE));
    steps := Extend(steps, CreateVcpu(1));
    steps := Extend(steps, Load(1, 0, true));
  }

  /** The same after a violation, with the root's first entry cached by processor 0. */
  lemma RunWithCachedEntry() returns (steps: seq<Step>, vm: Vm, child: nat)
    ensures After(steps) == System(map[1 := vm], map[0 := map[Key(5, 1, 0) := child]])
    ensures vm.vcpu.Some? && vm.table.root == 5
  {
    hide After, HandleViolation, Walk, Shape;
    steps := LoadedRun();
    var t := FreshTable(5);
    FreshTableShape(5);
    FirstFault(t, ONE_PAGE);
    steps := Extend(steps, Fault(1, 0, [6, 7, 8]));
    vm := After(steps).vms[1];
    assert NodeAt(vm.table, 1, 0) == Target(Read(vm.table.mem, 5, 0));
    child := NodeAt(vm.table, 1, 0).value;
    steps := Extend(steps, Fill(1, 0, 1, 0, Read(vm.table.mem, 5, 0)));
  }

  lemma EmptyRun()
    ensures After([]) == System(map[], map[])
  {}

  lemma FirstFault(t: Table, slot: Slot)
    requires t == FreshTable(5) && Shape(t) && slot == ONE_PAGE
    ensures var after := HandleViolation(t, slot, 0, [6, 7, 8]).t;
      after.root == 5 && NodeAt(after, 1, 0).Some?
  {
    hide Shape, HandleViolation;
    assert FreePages(t, [6, 7, 8]);
    assert Prefix(0, 1) == 0;
    AtMostThreeMissing(t);
    ViolationSucceeds(t, slot, 0, [6, 7, 8]);
    ViolationKeeps(t, slot, 0, [6, 7, 8]);
    var after := HandleViolation(t, slot, 0, [6, 7, 8]).t;
    assert NodeAt(after, 4, 0).Some?;
    assert NodeAt(after, 3, 0).Some?;
    assert NodeAt(after, 2, 0).Some?;
  }

  /**
   And they need not: a VM destroyed after its processor cached a table entry, a second VM
   given the same root page, and a load that did not flush would leave the second vCPU with
   an entry its table does not have.
  */
  lemma UnflushedLoadLeavesStaleEntry() returns (steps: seq<Step>, key: Key)
    ensures var s := After(steps);
      && 2 in s.vms && s.vms[2].LoadedOn(0) && key in s.CacheOf(0) && key.root == s.vms[2].table.root
      && NodeAt(s.vms[2].table, key.level, key.prefix) != Some(s.CacheOf(0)[key])
  {
    hide After;
    var vm, child;
    key := Key(5, 1, 0);
    steps, vm, child := RunWithCachedEntry();
    steps := Extend(steps, CloseVcpu(1));
    steps := Extend(steps, DestroyVm(1));
    assert After(steps).vms == map[];
    steps := Extend(steps, CreateVm(2, 5));
    steps := Extend(steps, SetMemory(2, ONE_PAGE));
    steps := Extend(steps, CreateVcpu(2));
    steps := Extend(steps, Load(2, 0, false));
    FreshTableShape(5);
  }
}
