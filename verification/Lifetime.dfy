/**
 Lifetimes of a VM and its vCPUs in mini-kvm, vcpu.c, under every interleaving of creating
 the VM, creating vCPUs (each possibly failing at any step), running them, and closing the
 files in any order.

 One VM is followed; vCPU creations and vCPU files are named by the vCPU object they carry.
 The kernel keeps a file open while a system call uses it, so the VM file is not released
 while a creation is under way.
*/
module Lifetime {
  import opened Common

  /** Where mini_kvm_create_vcpu is. */
  datatype Creation =
    | Preparing       // allocating the vCPU and setting up its VMCS
    | Got             // after mini_kvm_get
    | Locked          // holding kvm->lock, before the test of kvm->vcpu
    | Published       // kvm->vcpu set, before anon_inode_getfd
    | Installed       // file installed, before unlocking
    | Refused         // unlocked on an error path, before mini_kvm_put
    | Undoing         // after mini_kvm_put, before freeing the vCPU

  /** Where the vCPU file is: open, or in mini_vcpu_release. */
  datatype VcpuFile =
    | Open
    | Closing         // before taking kvm->lock
    | Clearing        // holding kvm->lock, before clearing kvm->vcpu
    | Freeing         // unlocked, before freeing the vCPU
    | Putting         // vCPU freed, before mini_kvm_put

  /** Where the VM file is. */
  datatype VmFile = Creating | VmOpen | VmClosing | VmGone

  datatype Holder = Vm | Creator(v: nat) | File(v: nat)

  datatype State = State(
    refcount: nat, alive: bool, released: nat,  // kvm->refcount, not kfree'd, runs of the release
    vcpu: Option<nat>, lock: Option<Holder>,    // kvm->vcpu, kvm->lock
    vm: VmFile, creations: map<nat, Creation>, files: map<nat, VcpuFile>,
    begun: set<nat>, freed: set<nat>,           // vCPU objects allocated, and kfree'd
    logging: bool                               // the creator has yet to log kvm->vm_id
  )

  /** mini_kvm_create_vm before its file is installed. */
  const START := State(1, true, 0, None, None, Creating, map[], map[], {}, {}, false)

  datatype Step =
    | InstallVm(ok: bool)
    | LogVm                 // pr_info of kvm->vm_id, after the file is installed
    | BeginCreate(v: nat)
    | PrepareFails(v: nat)
    | Get(v: nat)
    | Lock(v: nat)
    | Publish(v: nat)
    | InstallFile(v: nat, ok: bool)
    | Unlock(v: nat)
    | PutRefused(v: nat)
    | Undo(v: nat)
    | UseVcpu(v: nat)
    | CloseVcpu(v: nat)
    | LockClose(v: nat)
    | Clear(v: nat)
    | FreeVcpu(v: nat)
    | PutVcpu(v: nat)
    | CloseVm
    | PutVm

  predicate At(s: State, v: nat, c: Creation) { v in s.creations && s.creations[v] == c }

  predicate FileAt(s: State, v: nat, f: VcpuFile) { v in s.files && s.files[v] == f }

  predicate Enabled(s: State, step: Step) {
    match step
    case InstallVm(_) => s.vm == Creating
    case LogVm => s.logging
    case BeginCreate(v) => s.vm == VmOpen && v !in s.begun
    case PrepareFails(v) => At(s, v, Preparing)
    case Get(v) => At(s, v, Preparing)
    case Lock(v) => At(s, v, Got) && s.lock == None
    case Publish(v) => At(s, v, Locked)
    case InstallFile(v, _) => At(s, v, Published)
    case Unlock(v) => At(s, v, Installed)
    case PutRefused(v) => At(s, v, Refused)
    case Undo(v) => At(s, v, Undoing)
    case UseVcpu(v) => FileAt(s, v, Open)
    case CloseVcpu(v) => FileAt(s, v, Open)
    case LockClose(v) => FileAt(s, v, Closing) && s.lock == None
    case Clear(v) => FileAt(s, v, Clearing)
    case FreeVcpu(v) => FileAt(s, v, Freeing)
    case PutVcpu(v) => FileAt(s, v, Putting)
    case CloseVm => s.vm == VmOpen && s.creations == map[]
    case PutVm => s.vm == VmClosing
  }

  /** kref_put: the last one runs mini_kvm_destroy. */
  function Put(s: State): State {
    if s.refcount == 1 then s.(refcount := 0, alive := false, released := s.released + 1)
    else if s.refcount > 1 then s.(refcount := s.refcount - 1)
    else s
  }

  function GoTo(s: State, v: nat, c: Creation): State { s.(creations := s.creations[v := c]) }

  function FileGoTo(s: State, v: nat, f: VcpuFile): State { s.(files := s.files[v := f]) }

  function Apply(s: State, step: Step): State {
    match step
    case InstallVm(ok) =>
      if ok then s.(vm := VmOpen, logging := true) else s.(vm := VmGone, alive := false, released := s.released + 1)
    case LogVm => s.(logging := false)
    case BeginCreate(v) => GoTo(s, v, Preparing).(begun := s.begun + {v})
    case PrepareFails(v) => s.(creations := s.creations - {v}, freed := s.freed + {v})
    case Get(v) => GoTo(s, v, Got).(refcount := s.refcount + 1)
    case Lock(v) => GoTo(s, v, Locked).(lock := Some(Creator(v)))
    case Publish(v) =>
      if s.vcpu.Some? then GoTo(s, v, Refused).(lock := None) else GoTo(s, v, Published).(vcpu := Some(v))
    case InstallFile(v, ok) =>
      if ok then FileGoTo(GoTo(s, v, Installed), v, Open) else GoTo(s, v, Refused).(vcpu := None, lock := None)
    case Unlock(v) => s.(creations := s.creations - {v}, lock := None)
    case PutRefused(v) => GoTo(Put(s), v, Undoing)
    case Undo(v) => s.(creations := s.creations - {v}, freed := s.freed + {v})
    case UseVcpu(v) => s
    case CloseVcpu(v) => FileGoTo(s, v, Closing)
    case LockClose(v) => FileGoTo(s, v, Clearing).(lock := Some(File(v)))
    case Clear(v) => FileGoTo(s, v, Freeing).(vcpu := if s.vcpu == Some(v) then None else s.vcpu, lock := None)
    case FreeVcpu(v) => FileGoTo(s, v, Putting).(freed := s.freed + {v})
    case PutVcpu(v) => var p := Put(s); p.(files := p.files - {v})
    case CloseVm => s.(vm := VmClosing)
    case PutVm => Put(s).(vm := VmGone)
  }

  // ---------------------------------------------------------------- invariant

  predicate CreatorHolds(c: Creation) { c == Got || c == Locked || c == Published || c == Refused }

  /** Who is entitled to a reference: the VM file, creations under way, vCPU files. */
  predicate Holds(s: State, h: Holder) {
    match h
    case Vm => s.vm != VmGone
    case Creator(v) => v in s.creations && CreatorHolds(s.creations[v])
    case File(v) => v in s.files
  }

  ghost function Holders(s: State): (hs: set<Holder>)
    ensures forall h :: h in hs <==> Holds(s, h)
  {
    (if s.vm == VmGone then {} else {Vm})
    + (set v | v in s.creations && CreatorHolds(s.creations[v]) :: Creator(v))
    + (set v | v in s.files :: File(v))
  }

  /** A live VM counts its holders; it was released once, and only once nobody held it. */
  ghost predicate Counted(s: State) {
    if s.alive then s.refcount == |Holders(s)| && Holders(s) != {} && s.released == 0
    else Holders(s) == {} && s.released == 1
  }

  predicate CreatorLocks(s: State, v: nat) { At(s, v, Locked) || At(s, v, Published) || At(s, v, Installed) }

  /** kvm->lock is held exactly by the creation or the release that is in its critical section. */
  predicate LocksWell(s: State, v: nat) {
    && (CreatorLocks(s, v) <==> s.lock == Some(Creator(v)))
    && (FileAt(s, v, Clearing) <==> s.lock == Some(File(v)))
  }

  ghost predicate LockInv(s: State) { s.lock != Some(Vm) && forall v: nat :: LocksWell(s, v) }

  /** vCPUs that stand in kvm->vcpu: published, and not yet taken down by the release. */
  predicate Standing(s: State, v: nat) {
    At(s, v, Published) || FileAt(s, v, Open) || FileAt(s, v, Closing) || FileAt(s, v, Clearing)
  }

  ghost predicate PointerInv(s: State) {
    forall v: nat :: Standing(s, v) <==> s.vcpu == Some(v)
  }

  /** One owner for each vCPU object: its creation, its file, or nobody once it is freed. */
  predicate OwnedWell(s: State, v: nat) {
    && (v in s.creations && v in s.files ==> At(s, v, Installed) && (FileAt(s, v, Open) || FileAt(s, v, Closing)))
    && (At(s, v, Installed) ==> v in s.files)
    && (v in s.freed ==> v !in s.creations)
    && (v in s.files ==> (v in s.freed <==> FileAt(s, v, Putting)))
    && (v in s.begun <==> v in s.creations || v in s.files || v in s.freed)
    && (v in s.creations ==> s.vm == VmOpen)
    && (v in s.files ==> s.vm != Creating)
  }

  ghost predicate OwnInv(s: State) { forall v: nat :: OwnedWell(s, v) }

  ghost predicate Inv(s: State) { Counted(s) && LockInv(s) && PointerInv(s) && OwnInv(s) }

  // ---------------------------------------------------------------- counting

  function Added(step: Step): set<Holder> {
    match step
    case Get(v) => {Creator(v)}
    case InstallFile(v, ok) => if ok then {File(v)} else {}
    case _ => {}
  }

  function Removed(step: Step): set<Holder> {
    match step
    case InstallFile(v, ok) => if ok then {Creator(v)} else {}
    case PutRefused(v) => {Creator(v)}
    case PutVcpu(v) => {File(v)}
    case PutVm => {Vm}
    case InstallVm(ok) => if ok then {} else {Vm}
    case _ => {}
  }

  /** The vCPU a step names; any, if it names none. */
  function Named(step: Step): nat {
    if step.InstallVm? || step.LogVm? || step.CloseVm? || step.PutVm? then 0 else step.v
  }

  // Four groups of steps, to look at a few at a time.

  predicate Creates(step: Step) {
    step.BeginCreate? || step.PrepareFails? || step.Get? || step.Lock? || step.Publish?
  }

  predicate Finishes(step: Step) { step.InstallFile? || step.Unlock? || step.PutRefused? || step.Undo? }

  predicate OnVm(step: Step) { step.InstallVm? || step.LogVm? || step.CloseVm? || step.PutVm? }

  /** What the state says of one vCPU is as it was. */
  predicate SameVcpu(s: State, t: State, v: nat) {
    && (v in t.creations <==> v in s.creations) && (v in s.creations ==> t.creations[v] == s.creations[v])
    && (v in t.files <==> v in s.files) && (v in s.files ==> t.files[v] == s.files[v])
    && (v in t.freed <==> v in s.freed) && (v in t.begun <==> v in s.begun)
  }

  lemma PutIs(s: State)
    ensures Put(s) == s.(refcount := Put(s).refcount, alive := Put(s).alive, released := Put(s).released)
  {}

  lemma CreatesNoOther(s: State, step: Step, v: nat)
    requires v != Named(step) && Creates(step)
    ensures SameVcpu(s, Apply(s, step), v)
  {}

  lemma FinishesNoOther(s: State, step: Step, v: nat)
    requires v != Named(step) && Finishes(step)
    ensures SameVcpu(s, Apply(s, step), v)
  {
    PutIs(s);
    hide Put;
  }

  lemma OnFileNoOther(s: State, step: Step, v: nat)
    requires v != Named(step) && !Creates(step) && !Finishes(step) && !OnVm(step)
    ensures SameVcpu(s, Apply(s, step), v)
  {
    PutIs(s);
    hide Put;
  }

  /** A step changes no entry but those of the vCPU it names. */
  lemma OthersUntouched(s: State, step: Step, v: nat)
    requires v != Named(step)
    ensures SameVcpu(s, Apply(s, step), v)
  {
    if Creates(step) {
      CreatesNoOther(s, step, v);
    } else if Finishes(step) {
      FinishesNoOther(s, step, v);
    } else if OnVm(step) {
      PutIs(s);
      hide Put;
    } else {
      OnFileNoOther(s, step, v);
    }
    hide SameVcpu, Named;
  }

  lemma VmHoldsStep(s: State, step: Step, h: Holder)
    requires OwnedWell(s, Named(step)) && Enabled(s, step) && h == Vm
    ensures Holds(Apply(s, step), h) <==> (Holds(s, h) && h !in Removed(step)) || h in Added(step)
    ensures h in Removed(step) ==> Holds(s, h)
    ensures h in Added(step) ==> !Holds(s, h)
  {
  }

  lemma CreatesHolds(s: State, step: Step, h: Holder)
    requires OwnedWell(s, Named(step)) && Enabled(s, step) && h != Vm && h.v == Named(step) && Creates(step)
    ensures Holds(Apply(s, step), h) <==> (Holds(s, h) && h !in Removed(step)) || h in Added(step)
    ensures h in Removed(step) ==> Holds(s, h)
    ensures h in Added(step) ==> !Holds(s, h)
  {
    if step.Get? {
    } else {
    }
  }

  lemma FinishesHolds(s: State, step: Step, h: Holder)
    requires OwnedWell(s, Named(step)) && Enabled(s, step) && h != Vm && h.v == Named(step) && Finishes(step)
    ensures Holds(Apply(s, step), h) <==> (Holds(s, h) && h !in Removed(step)) || h in Added(step)
    ensures h in Removed(step) ==> Holds(s, h)
    ensures h in Added(step) ==> !Holds(s, h)
  {
    PutIs(s);
    hide Put;
    if step.InstallFile? {
    } else if step.PutRefused? {
    } else {
    }
  }

  lemma NamedHoldsStep(s: State, step: Step, h: Holder)
    requires OwnedWell(s, Named(step)) && Enabled(s, step) && h != Vm && h.v == Named(step)
    ensures Holds(Apply(s, step), h) <==> (Holds(s, h) && h !in Removed(step)) || h in Added(step)
    ensures h in Removed(step) ==> Holds(s, h)
    ensures h in Added(step) ==> !Holds(s, h)
  {
    if Creates(step) {
      CreatesHolds(s, step, h);
      hide Holds, Apply, Enabled, Added, Removed, OwnedWell, Named;
    } else if Finishes(step) {
      FinishesHolds(s, step, h);
      hide Holds, Apply, Enabled, Added, Removed, OwnedWell, Named;
    } else {
      PutIs(s);
      hide Put;
    }
  }

  lemma NotInvolved(step: Step, h: Holder)
    requires h != Vm && h.v != Named(step)
    ensures h !in Added(step) && h !in Removed(step)
  {
  }

  lemma HoldsStep(s: State, step: Step, h: Holder)
    requires OwnedWell(s, Named(step)) && Enabled(s, step)
    ensures Holds(Apply(s, step), h) <==> (Holds(s, h) && h !in Removed(step)) || h in Added(step)
    ensures h in Removed(step) ==> Holds(s, h)
    ensures h in Added(step) ==> !Holds(s, h)
  {
    if h == Vm {
      VmHoldsStep(s, step, h);
    } else if h.v == Named(step) {
      NamedHoldsStep(s, step, h);
    } else {
      OthersUntouched(s, step, h.v);
      NotInvolved(step, h);
    }
    hide Apply, Enabled, OwnedWell, Named, Added, Removed;
  }

  lemma HoldersStep(s: State, step: Step)
    requires OwnInv(s) && Enabled(s, step)
    ensures Holders(Apply(s, step)) == Holders(s) - Removed(step) + Added(step)
    ensures Removed(step) <= Holders(s) && Added(step) !! Holders(s)
  {
    assert OwnedWell(s, Named(step));
    hide Holds, Apply, Enabled, Removed, Added, OwnInv, OwnedWell;
    forall h: Holder
      ensures Holds(Apply(s, step), h) <==> (Holds(s, h) && h !in Removed(step)) || h in Added(step)
      ensures h in Removed(step) ==> Holds(s, h)
      ensures h in Added(step) ==> !Holds(s, h)
    {
      HoldsStep(s, step, h);
    }
  }

  /** Whoever takes a step, the VM is held: by its file, or by the vCPU file that steps. */
  function Keeper(step: Step): Holder {
    match step
    case UseVcpu(v) => File(v)
    case CloseVcpu(v) => File(v)
    case LockClose(v) => File(v)
    case Clear(v) => File(v)
    case FreeVcpu(v) => File(v)
    case PutVcpu(v) => File(v)
    case _ => Vm
  }

  lemma KeeperHolds(s: State, step: Step)
    requires OwnedWell(s, Named(step)) && Enabled(s, step) && !step.LogVm?
    ensures Holds(s, Keeper(step))
  {
  }

  /** Every step but the creator's log line finds the VM not yet released, however the files are closed. */
  lemma StepFindsVmAlive(s: State, step: Step)
    requires Counted(s) && OwnInv(s) && Enabled(s, step) && !step.LogVm?
    ensures s.alive && s.refcount >= 1
  {
    assert OwnedWell(s, Named(step));
    KeeperHolds(s, step);
    assert Keeper(step) in Holders(s);
  }

  function Change(step: Step): int {
    if step.Get? then 1
    else if step.PutRefused? || step.PutVcpu? || step.PutVm? || step == InstallVm(false) then -1
    else 0
  }

  lemma SizeChanges(hs: set<Holder>, removed: set<Holder>, added: set<Holder>)
    requires removed <= hs && added !! hs
    ensures |hs - removed + added| == |hs| - |removed| + |added|
  {
  }

  lemma ChangeIs(step: Step)
    ensures Change(step) == |Added(step)| - |Removed(step)|
  {
  }

  lemma OnlyTheNewFile(s: State)
    requires OwnInv(s) && s.vm == Creating
    ensures Holders(s) == {Vm}
  {
    forall v: nat
      ensures v !in s.creations && v !in s.files
    {
      assert OwnedWell(s, v);
    }
    assert forall h :: Holds(s, h) ==> h == Vm;
    assert Vm in Holders(s);
  }

  lemma ApplyCounts(s: State, step: Step)
    requires Enabled(s, step) && s.alive && s.refcount >= 1 && (step.InstallVm? ==> s.refcount == 1)
    ensures var t := Apply(s, step);
            if s.refcount + Change(step) == 0 then !t.alive && t.released == s.released + 1
            else t.alive && t.refcount == s.refcount + Change(step) && t.released == s.released
  {
  }

  lemma LogCounts(s: State)
    requires Counted(s)
    ensures Counted(Apply(s, LogVm))
  {
    var t := Apply(s, LogVm);
    assert forall h :: Holds(t, h) <==> Holds(s, h);
    assert Holders(t) == Holders(s);
  }

  lemma CountedKept(s: State, step: Step)
    requires Counted(s) && OwnInv(s) && Enabled(s, step)
    ensures Counted(Apply(s, step))
  {
    hide Holds, OwnInv, Apply, Removed, Added, Change, Holders;
    if step.LogVm? {
      LogCounts(s);
      return;
    }
    HoldersStep(s, step);
    StepFindsVmAlive(s, step);
    SizeChanges(Holders(s), Removed(step), Added(step));
    ChangeIs(step);
    if step.InstallVm? {
      assert s.vm == Creating;
      OnlyTheNewFile(s);
    }
    hide Enabled;
    ApplyCounts(s, step);
  }

  // ---------------------------------------------------------------- the other invariants

  /** The VM file does not leave its open state under a creation, nor return to being created. */
  lemma VmPhase(s: State, step: Step)
    requires Enabled(s, step)
    ensures Apply(s, step).vm == Creating ==> s.vm == Creating
    ensures s.vm == VmOpen && s.creations != map[] ==> Apply(s, step).vm == VmOpen
  {
  }

  /** Who can change the lock, and the pointer. */
  lemma LockStep(s: State, step: Step)
    requires Enabled(s, step) && LocksWell(s, Named(step))
    ensures var (a, b, v) := (s.lock, Apply(s, step).lock, Named(step));
      || a == b
      || (a == None && (b == Some(Creator(v)) || b == Some(File(v))))
      || (b == None && (a == Some(Creator(v)) || a == Some(File(v))))
  {
  }

  lemma PointerStep(s: State, step: Step)
    requires Enabled(s, step) && (Standing(s, Named(step)) ==> s.vcpu == Some(Named(step)))
    ensures var (a, b, v) := (s.vcpu, Apply(s, step).vcpu, Named(step));
      a == b || (a == None && b == Some(v)) || (b == None && a == Some(v))
  {
  }

  /** What the invariants say of one vCPU. */
  ghost predicate Local(s: State, v: nat) {
    OwnedWell(s, v) && LocksWell(s, v) && (Standing(s, v) <==> s.vcpu == Some(v))
  }

  lemma CreatesKeeps(s: State, step: Step)
    requires Local(s, Named(step)) && Enabled(s, step) && Creates(step)
    ensures Local(Apply(s, step), Named(step))
  {
    hide Finishes, OnVm;
    match step
    case BeginCreate(_) =>
    case PrepareFails(_) =>
    case Get(_) =>
    case Lock(_) =>
    case Publish(_) =>
  }

  lemma FinishesKeeps(s: State, step: Step)
    requires Local(s, Named(step)) && Enabled(s, step) && Finishes(step)
    ensures Local(Apply(s, step), Named(step))
  {
    PutIs(s);
    hide Put, Creates, OnVm;
    match step
    case InstallFile(_, _) =>
    case Unlock(_) =>
    case PutRefused(_) =>
    case Undo(_) =>
  }

  lemma OnVmKeeps(s: State, step: Step)
    requires Local(s, Named(step)) && Enabled(s, step) && OnVm(step)
    ensures Local(Apply(s, step), Named(step))
  {
    var (t, v) := (Apply(s, step), Named(step));
    PutIs(s);
    hide Put, Creates, Finishes;
    assert t == s.(refcount := t.refcount, alive := t.alive, released := t.released, vm := t.vm, logging := t.logging);
    assert v in s.creations ==> t.vm == VmOpen;
    assert v in s.files ==> t.vm != Creating;
    hide Apply, Enabled, Named, OnVm;
  }

  lemma OnFileKeeps(s: State, step: Step)
    requires Local(s, Named(step)) && Enabled(s, step) && !Creates(step) && !Finishes(step) && !OnVm(step)
    ensures Local(Apply(s, step), Named(step))
  {
    match step
    case UseVcpu(_) =>
    case CloseVcpu(_) =>
    case LockClose(_) =>
    case Clear(_) =>
    case FreeVcpu(_) =>
    case PutVcpu(_) =>
  }

  lemma NamedKept(s: State, step: Step)
    requires Local(s, Named(step)) && Enabled(s, step)
    ensures Local(Apply(s, step), Named(step))
  {
    hide Local, Enabled, Apply, Named, Creates, Finishes, OnVm;
    if Creates(step) {
      CreatesKeeps(s, step);
    } else if Finishes(step) {
      FinishesKeeps(s, step);
    } else if OnVm(step) {
      OnVmKeeps(s, step);
    } else {
      OnFileKeeps(s, step);
    }
  }

  lemma LocalKept(s: State, step: Step, v: nat)
    requires Local(s, v) && Local(s, Named(step)) && Enabled(s, step)
    ensures Local(Apply(s, step), v)
  {
    if v == Named(step) {
      NamedKept(s, step);
    } else {
      OthersUntouched(s, step, v);
      VmPhase(s, step);
      LockStep(s, step);
      PointerStep(s, step);
      hide Apply, Enabled, Named, OwnedWell, LocksWell, Standing, SameVcpu;
      StillOwned(s, Apply(s, step), v);
      StillStanding(s, Apply(s, step), v, Named(step));
    }
  }

  lemma StillOwned(s: State, t: State, v: nat)
    requires SameVcpu(s, t, v) && OwnedWell(s, v)
    requires t.vm == Creating ==> s.vm == Creating
    requires s.vm == VmOpen && s.creations != map[] ==> t.vm == VmOpen
    ensures OwnedWell(t, v)
  {}

  lemma StillStanding(s: State, t: State, v: nat, n: nat)
    requires SameVcpu(s, t, v) && v != n && LocksWell(s, v) && (Standing(s, v) <==> s.vcpu == Some(v))
    requires s.lock == t.lock || (s.lock == None && t.lock in {Some(Creator(n)), Some(File(n))})
             || (t.lock == None && s.lock in {Some(Creator(n)), Some(File(n))})
    requires s.vcpu == t.vcpu || (s.vcpu == None && t.vcpu == Some(n)) || (t.vcpu == None && s.vcpu == Some(n))
    ensures LocksWell(t, v) && (Standing(t, v) <==> t.vcpu == Some(v))
  {
  }

  lemma NoLockOfVm(s: State, step: Step)
    requires s.lock != Some(Vm)
    ensures Apply(s, step).lock != Some(Vm)
  {
  }

  lemma StepKeeps(s: State, step: Step)
    requires Inv(s) && Enabled(s, step)
    ensures Inv(Apply(s, step))
  {
    AllLocal(s);
    CountedKept(s, step);
    NoLockOfVm(s, step);
    hide Counted, Local, Enabled, Apply, Named, Inv, LockInv, PointerInv, OwnInv;
    forall v: nat
      ensures Local(Apply(s, step), v)
    {
      LocalKept(s, step, v);
    }
    FromLocal(Apply(s, step));
  }

  lemma AllLocal(s: State)
    requires Inv(s)
    ensures Counted(s) && OwnInv(s) && s.lock != Some(Vm) && forall v: nat :: Local(s, v)
  {
    forall v: nat
      ensures Local(s, v)
    {
      assert OwnedWell(s, v) && LocksWell(s, v) && (Standing(s, v) <==> s.vcpu == Some(v));
    }
  }

  lemma FromLocal(s: State)
    requires Counted(s) && s.lock != Some(Vm) && forall v: nat :: Local(s, v)
    ensures Inv(s)
  {
    hide Counted, OwnedWell, LocksWell, Standing;
    forall v: nat
      ensures OwnedWell(s, v) && LocksWell(s, v) && (Standing(s, v) <==> s.vcpu == Some(v))
    {
      assert Local(s, v);
    }
  }

  // ---------------------------------------------------------------- runs

  /** A schedule of steps; a step that cannot run where the schedule puts it does nothing. */
  function After(steps: seq<Step>): State {
    if steps == [] then START
    else
      var (s, step) := (After(steps[..|steps| - 1]), steps[|steps| - 1]);
      if Enabled(s, step) then Apply(s, step) else s
  }

  lemma StartHolds()
    ensures Inv(START)
  {
  }

  lemma {:induction false} RunKeeps(steps: seq<Step>)
    ensures Inv(After(steps))
  {
    if steps == [] {
      StartHolds();
    } else {
      var s := After(steps[..|steps| - 1]);
      RunKeeps(steps[..|steps| - 1]);
      if Enabled(s, steps[|steps| - 1]) {
        StepKeeps(s, steps[|steps| - 1]);
      }
    }
  }

  /**
   No use after free, in every interleaving: a step that can run finds the VM not yet released,
   and the vCPU object it names, if any, not yet freed.  The log line of mini_kvm_create_vm is
   the one exception, see LogFindsVmIff.  mini_kvm_put runs after the vCPU object is freed, and
   does not name it.
  */
  lemma NothingFreedIsTouched(steps: seq<Step>, step: Step)
    requires Enabled(After(steps), step)
    ensures !step.LogVm? ==> After(steps).alive
    ensures !step.InstallVm? && !step.LogVm? && !step.CloseVm? && !step.PutVm? && !step.PutVcpu? ==>
              step.v !in After(steps).freed
  {
    RunKeeps(steps);
    if !step.LogVm? { StepFindsVmAlive(After(steps), step); }
    assert OwnedWell(After(steps), Named(step));
  }

  /**
   The log line reads the VM after its file was installed, when another thread can close it.
   It finds the VM alive exactly when the VM file or a vCPU file is still open or being closed.
   It is written once, and only if the file was installed.
  */
  lemma LogFindsVmIff(steps: seq<Step>)
    requires Enabled(After(steps), LogVm)
    ensures var s := After(steps);
      && (s.alive <==> s.vm != VmGone || s.files != map[])
      && s.vm != Creating && !Enabled(Apply(s, LogVm), LogVm)
  {
    RunKeeps(steps);
    LogsAfterInstall(steps);
    var s := After(steps);
    if v :| v in s.files {
      assert File(v) in Holders(s);
    } else if s.vm != VmGone {
      assert Vm in Holders(s);
    } else {
      forall v: nat
        ensures v !in s.creations
      {
        assert OwnedWell(s, v);
      }
      assert forall h :: !Holds(s, h);
      assert Holders(s) == {};
    }
  }

  lemma {:induction false} LogsAfterInstall(steps: seq<Step>)
    ensures After(steps).logging ==> After(steps).vm != Creating
  {
    if steps != [] {
      var (s, step) := (After(steps[..|steps| - 1]), steps[|steps| - 1]);
      LogsAfterInstall(steps[..|steps| - 1]);
      if Enabled(s, step) { LogStep(s, step); }
      hide Apply, Enabled;
    }
  }

  lemma LogStep(s: State, step: Step)
    requires Enabled(s, step) && (s.logging ==> s.vm != Creating)
    ensures Apply(s, step).logging ==> Apply(s, step).vm != Creating
  {
    PutIs(s);
    hide Put;
  }

  /** A run in which the new descriptor is closed first, and the log line reads a freed VM. */
  lemma LogAfterClose()
    ensures var s := After([InstallVm(true), CloseVm, PutVm]); Enabled(s, LogVm) && !s.alive
  {
    var steps := [InstallVm(true), CloseVm, PutVm];
    assert steps[..2] == [InstallVm(true), CloseVm] && steps[..2][..1] == [InstallVm(true)] && steps[..1][..0] == [];
    assert After(steps[..1]) == Apply(START, InstallVm(true));
    assert After(steps[..2]) == Apply(After(steps[..1]), CloseVm);
  }

  /** The reference count is the number of open files and creations under way that hold one. */
  lemma RefcountIsHolders(steps: seq<Step>)
    ensures var s := After(steps); s.alive ==> s.refcount == |Holders(s)|
  {
    RunKeeps(steps);
  }

  /** The VM's resources are released exactly once, and exactly when the last holder has gone. */
  lemma ReleasedByTheLastHolder(steps: seq<Step>)
    ensures var s := After(steps); s.released == (if Holders(s) == {} then 1 else 0)
    ensures var s := After(steps); s.alive <==> s.released == 0
  {
    RunKeeps(steps);
  }

  /** kvm->vcpu never dangles, and a VM never has two vCPUs that can be run. */
  lemma OneVcpu(steps: seq<Step>, v: nat, w: nat)
    ensures var s := After(steps); s.vcpu == Some(v) ==> v !in s.freed
    ensures var s := After(steps); Standing(s, v) && Standing(s, w) ==> v == w
  {
    RunKeeps(steps);
    var s := After(steps);
    assert OwnedWell(s, v) && LocksWell(s, v);
    assert Standing(s, v) <==> s.vcpu == Some(v);
    assert Standing(s, w) <==> s.vcpu == Some(w);
  }

  /** Nothing leaks: once the VM file is gone and every vCPU file is closed, all was freed. */
  lemma NothingLeaks(steps: seq<Step>)
    requires After(steps).vm == VmGone && After(steps).files == map[]
    ensures After(steps).released == 1 && After(steps).freed == After(steps).begun
  {
    RunKeeps(steps);
    var s := After(steps);
    forall v: nat
      ensures v in s.begun <==> v in s.freed
      ensures v !in s.creations
    {
      assert OwnedWell(s, v);
    }
    assert Holders(s) == {};
  }

  // ---------------------------------------------------------------- progress

  /** In every reachable state, a creation is refused exactly if some vCPU file still stands. */
  lemma PublishIff(steps: seq<Step>, v: nat)
    requires Enabled(After(steps), Publish(v))
    ensures var s := After(steps);
      var t := Apply(s, Publish(v));
      && v in t.creations
      && if exists w :: w in s.files && s.files[w] in {Open, Closing, Clearing}
         then t.creations[v] == Refused && t.vcpu == s.vcpu && t.lock == None
         else t.creations[v] == Published && t.vcpu == Some(v) && t.lock == Some(Creator(v))
  {
    hide After, Local, Inv;
    RunKeeps(steps);
    var s := After(steps);
    PublishedOrStanding(s, v);
    assert Enabled(s, Publish(v)) && At(s, v, Locked);
    assert s.lock == Some(Creator(v)) by { LockedHolds(s, v); }
  }

  lemma LockedHolds(s: State, v: nat)
    requires Inv(s) && At(s, v, Locked)
    ensures s.lock == Some(Creator(v))
  {
    LocalAt(s, v);
  }

  /** With the lock held by a creation about to publish, the pointer is set exactly if a vCPU file stands. */
  lemma PublishedOrStanding(s: State, v: nat)
    requires Inv(s) && At(s, v, Locked)
    ensures s.vcpu.Some? <==> exists w :: w in s.files && s.files[w] in {Open, Closing, Clearing}
  {
    hide Inv;
    LocalAt(s, v);
    if s.vcpu.Some? {
      VcpuStands(s, v);
    } else {
      forall w | w in s.files
        ensures s.files[w] !in {Open, Closing, Clearing}
      {
        LocalAt(s, w);
      }
    }
  }

  lemma VcpuStands(s: State, v: nat)
    requires Inv(s) && At(s, v, Locked) && s.vcpu.Some?
    ensures s.vcpu.value in s.files && s.files[s.vcpu.value] in {Open, Closing, Clearing}
  {
    LocalAt(s, v);
    LocalAt(s, s.vcpu.value);
  }

  lemma LocalAt(s: State, v: nat)
    requires Inv(s)
    ensures Local(s, v)
  {
    AllLocal(s);
  }

  /** Nothing else refuses a creation but a descriptor that cannot be had. */
  lemma RefusedFor(s: State, step: Step, v: nat)
    requires Enabled(s, step) && !At(s, v, Refused) && At(Apply(s, step), v, Refused)
    ensures (step == Publish(v) && s.vcpu.Some?) || step == InstallFile(v, false)
  {
    if v != Named(step) { OthersUntouched(s, step, v); }
    hide Put;
  }

  lemma Extend(steps: seq<Step>, step: Step)
    requires Enabled(After(steps), step)
    ensures After(steps + [step]) == Apply(After(steps), step)
  {
    assert (steps + [step])[..|steps|] == steps;
  }

  /**
   Left alone, a creation in a VM whose vCPU, if it ever had one, has been taken down installs
   its vCPU: file open, pointer set, one reference more, nothing freed.
  */
  lemma CreationGoesThrough(steps: seq<Step>, v: nat)
    requires var s := After(steps); s.vm == VmOpen && v !in s.begun && s.lock == None
    requires forall w | w in After(steps).files :: After(steps).files[w] in {Freeing, Putting}
    ensures var s := After(steps);
      var t := After(steps + [BeginCreate(v)] + [Get(v)] + [Lock(v)] + [Publish(v)] + [InstallFile(v, true)] + [Unlock(v)]);
      && t.files == s.files[v := Open] && t.creations == s.creations && t.vcpu == Some(v) && t.lock == None
      && t.refcount == s.refcount + 1 && t.begun == s.begun + {v} && t.freed == s.freed
      && t.vm == s.vm && t.alive == s.alive && t.released == s.released
  {
    RunKeeps(steps);
    var s := After(steps);
    LocalAt(s, v);
    if s.vcpu.Some? {
      NothingPublished(s, s.vcpu.value);
      LocalAt(s, s.vcpu.value);
    }
    LockTaken(s, v);
    LockGivenBack(s, v);
    hide After, Enabled, Apply, Inv, Local, WithLock;
    Extend(steps, BeginCreate(v));
    Extend(steps + [BeginCreate(v)], Get(v));
    Extend(steps + [BeginCreate(v)] + [Get(v)], Lock(v));
    var locked := steps + [BeginCreate(v)] + [Get(v)] + [Lock(v)];
    Extend(locked, Publish(v));
    Extend(locked + [Publish(v)], InstallFile(v, true));
    Extend(locked + [Publish(v)] + [InstallFile(v, true)], Unlock(v));
  }

  lemma NothingPublished(s: State, w: nat)
    requires Inv(s) && s.lock == None
    ensures !At(s, w, Published)
  {
    LocalAt(s, w);
  }

  function WithLock(s: State, v: nat): State {
    s.(creations := s.creations[v := Locked], lock := Some(Creator(v)), refcount := s.refcount + 1, begun := s.begun + {v})
  }

  lemma LockTaken(s: State, v: nat)
    requires s.vm == VmOpen && v !in s.begun && s.lock == None
    ensures Enabled(s, BeginCreate(v))
    ensures var a := Apply(s, BeginCreate(v));
      && Enabled(a, Get(v))
      && var b := Apply(a, Get(v)); Enabled(b, Lock(v)) && Apply(b, Lock(v)) == WithLock(s, v)
  {
    assert s.creations[v := Preparing][v := Got][v := Locked] == s.creations[v := Locked];
  }

  lemma LockGivenBack(s: State, v: nat)
    requires s.lock == None && s.vcpu == None && v !in s.creations
    ensures var c := WithLock(s, v);
      && Enabled(c, Publish(v))
      && var d := Apply(c, Publish(v));
      && Enabled(d, InstallFile(v, true))
      && var e := Apply(d, InstallFile(v, true));
      && Enabled(e, Unlock(v))
      && Apply(e, Unlock(v)) ==
         s.(files := s.files[v := Open], vcpu := Some(v), refcount := s.refcount + 1, begun := s.begun + {v})
  {
    assert s.creations[v := Locked][v := Published][v := Installed] - {v} == s.creations;
  }

  /**
   Left alone, closing a vCPU file takes the vCPU down: pointer cleared, object freed, one
   reference less.  With CreationGoesThrough, another vCPU can then be created.
  */
  lemma CloseGoesThrough(steps: seq<Step>, v: nat)
    requires var s := After(steps); FileAt(s, v, Open) && s.lock == None
    ensures var s := After(steps);
      var t := After(steps + [CloseVcpu(v)] + [LockClose(v)] + [Clear(v)] + [FreeVcpu(v)] + [PutVcpu(v)]);
      && t.files == s.files - {v} && t.freed == s.freed + {v} && t.vcpu == None && t.lock == None
      && t.creations == s.creations && t.vm == s.vm && t.begun == s.begun
      && t.refcount == s.refcount - 1 && t.alive == (s.refcount > 1)
  {
    RunKeeps(steps);
    var s := After(steps);
    LocalAt(s, v);
    StepFindsVmAlive(s, CloseVcpu(v));
    TakenDown(s, v);
    PutBack(s, v);
    hide After, Enabled, Apply, Inv, Local, Down;
    Extend(steps, CloseVcpu(v));
    Extend(steps + [CloseVcpu(v)], LockClose(v));
    Extend(steps + [CloseVcpu(v)] + [LockClose(v)], Clear(v));
    var down := steps + [CloseVcpu(v)] + [LockClose(v)] + [Clear(v)];
    Extend(down, FreeVcpu(v));
    Extend(down + [FreeVcpu(v)], PutVcpu(v));
  }

  function Down(s: State, v: nat): State { s.(files := s.files[v := Freeing], vcpu := None) }

  lemma TakenDown(s: State, v: nat)
    requires FileAt(s, v, Open) && s.lock == None && s.vcpu == Some(v)
    ensures Enabled(s, CloseVcpu(v))
    ensures var a := Apply(s, CloseVcpu(v));
      && Enabled(a, LockClose(v))
      && var b := Apply(a, LockClose(v)); Enabled(b, Clear(v)) && Apply(b, Clear(v)) == Down(s, v)
  {
    assert s.files[v := Closing][v := Clearing][v := Freeing] == s.files[v := Freeing];
  }

  lemma PutBack(s: State, v: nat)
    requires s.alive && s.refcount >= 1
    ensures var c := Down(s, v);
      && Enabled(c, FreeVcpu(v))
      && var d := Apply(c, FreeVcpu(v));
      && Enabled(d, PutVcpu(v))
      && var e := Apply(d, PutVcpu(v));
      e == Down(s, v).(files := s.files - {v}, freed := s.freed + {v}, refcount := s.refcount - 1,
                       alive := s.refcount > 1, released := if s.refcount > 1 then s.released else s.released + 1)
  {
    assert s.files[v := Freeing][v := Putting] - {v} == s.files - {v};
  }

  /**
   No thread is ever stuck: a creation or a release that is under way can take its next step,
   or waits for the lock, and whoever holds the lock can take his.
  */
  lemma NobodyIsStuck(s: State, v: nat)
    ensures v in s.creations ==>
      || Enabled(s, Get(v)) || Enabled(s, Lock(v)) || Enabled(s, Publish(v)) || Enabled(s, InstallFile(v, true))
      || Enabled(s, Unlock(v)) || Enabled(s, PutRefused(v)) || Enabled(s, Undo(v)) || (At(s, v, Got) && s.lock.Some?)
    ensures v in s.files ==>
      || Enabled(s, CloseVcpu(v)) || Enabled(s, LockClose(v)) || Enabled(s, Clear(v)) || Enabled(s, FreeVcpu(v))
      || Enabled(s, PutVcpu(v)) || (FileAt(s, v, Closing) && s.lock.Some?)
  {
    if v in s.creations {
      match s.creations[v]
      case Preparing =>
      case Got =>
      case Locked =>
      case Published =>
      case Installed =>
      case Refused =>
      case Undoing =>
    }
    if v in s.files {
      match s.files[v]
      case Open =>
      case Closing =>
      case Clearing =>
      case Freeing =>
      case Putting =>
    }
  }

  lemma LockHolderGoesOn(steps: seq<Step>, v: nat)
    ensures var s := After(steps);
      && s.lock != Some(Vm)
      && (s.lock == Some(Creator(v)) ==> Enabled(s, Publish(v)) || Enabled(s, InstallFile(v, true)) || Enabled(s, Unlock(v)))
      && (s.lock == Some(File(v)) ==> Enabled(s, Clear(v)))
  {
    RunKeeps(steps);
    LockInvAt(After(steps), v);
    hide After, Inv;
    NextOfHolder(After(steps), v);
    hide Enabled, CreatorLocks;
  }

  lemma NextOfHolder(s: State, v: nat)
    ensures CreatorLocks(s, v) ==> Enabled(s, Publish(v)) || Enabled(s, InstallFile(v, true)) || Enabled(s, Unlock(v))
    ensures FileAt(s, v, Clearing) ==> Enabled(s, Clear(v))
  {
  }

  lemma LockInvAt(s: State, v: nat)
    requires Inv(s)
    ensures LocksWell(s, v) && s.lock != Some(Vm)
  {
    hide Counted, PointerInv, OwnInv, LocksWell;
  }
}
