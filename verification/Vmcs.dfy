/**
 The VMCS protocol of mini-kvm, vcpu.c and vmx.c: where a vCPU's VMCS is active and current,
 which of VMLAUNCH and VMRESUME is used, and whose page table its EPTP names, while vCPUs
 move between processors.

 The processor side follows sections 25.11.1 and 25.11.3 of the Intel SDM, volume 3C:
 VMPTRLD makes a VMCS active and current, VMCLEAR makes it inactive, not current and
 "clear", a successful VMLAUNCH makes it "launched", VMLAUNCH demands "clear" and VMRESUME
 demands "launched".  VMWRITE writes to the current VMCS, whichever that is.
*/
module Vmcs {
  import opened Common

  /** The fields of struct mini_kvm_vcpu that matter here. */
  datatype Vcpu = Vcpu(loadedCpu: Option<nat>, launched: bool)

  /**
   How far mini_vcpu_vmx_setup has come: VMCLEAR done, VMPTRLD done on a processor, loaded_cpu
   set, fields written.
  */
  datatype Phase = Cleared | Loaded(on: nat) | Recorded | Written {
    predicate CpuKnown() { Recorded? || Written? }
  }

  datatype Machine = Machine(
    vmxon: set<nat>,                    // processors in VMX operation (mini_vmxon_done)
    vcpus: map<nat, Vcpu>,              // the software's view, by VMCS
    active: map<nat, set<nat>>,         // per VMCS, the processors it is active on
    current: map<nat, nat>,             // per processor, the current VMCS
    launched: set<nat>,                 // VMCSs whose launch state is "launched"
    running: map<nat, nat>,             // per processor, the vCPU inside its run loop
    setup: map<nat, Phase>,             // vCPUs being set up
    eptp: map<nat, nat>                 // per VMCS, the vCPU whose table its EPTP field names
  ) {
    predicate OwnTable(v: nat) { v in eptp && eptp[v] == v }

    function ActiveOn(v: nat): set<nat> { if v in active then active[v] else {} }

    predicate LoadedOn(v: nat, c: nat) { v in vcpus && vcpus[v].loadedCpu == Some(c) }

    predicate InLoop(v: nat) { exists c | c in running :: running[c] == v }
  }

  // ------------------------------------------------------------ the processor

  function VmClear(m: Machine, c: nat, v: nat): Machine {
    m.(active := m.active[v := m.ActiveOn(v) - {c}],
       current := if c in m.current && m.current[c] == v then m.current - {c} else m.current,
       launched := m.launched - {v})
  }

  function VmPtrld(m: Machine, c: nat, v: nat): Machine {
    m.(active := m.active[v := m.ActiveOn(v) + {c}], current := m.current[c := v])
  }

  /** VMWRITE of the EPTP of v's VM on processor c; without a current VMCS it fails, unnoticed. */
  function VmWrite(m: Machine, c: nat, v: nat): Machine {
    if c in m.current then m.(eptp := m.eptp[m.current[c] := v]) else m
  }

  /** The zeroed page of a new VMCS. */
  function NewPage(m: Machine, v: nat): Machine { m.(eptp := m.eptp - {v}) }

  /** What the entry checks say: controls or host state bad, guest state bad (bit 31), or fine. */
  datatype Checks = BadControls | BadGuestState | Fine

  /** The instruction fell through, without a VM exit. */
  predicate EntryFails(m: Machine, c: nat, resume: bool, checks: Checks) {
    c !in m.current || (m.current[c] in m.launched) != resume || checks == BadControls
  }

  function EnterHardware(m: Machine, c: nat, resume: bool, checks: Checks): Machine {
    if EntryFails(m, c, resume, checks) || checks == BadGuestState then m
    else m.(launched := m.launched + {m.current[c]})
  }

  // ------------------------------------------------------------- the software

  function Set(m: Machine, v: nat, loadedCpu: Option<nat>, launched: bool): Machine {
    m.(vcpus := m.vcpus[v := Vcpu(loadedCpu, launched)])
  }

  /** mini_vmcs_clear: VMCLEAR on the processor that last loaded the VMCS. */
  function Unload(m: Machine, v: nat): Machine
    requires v in m.vcpus
  {
    match m.vcpus[v].loadedCpu
    case None => Set(m, v, None, false)
    case Some(c) => Set(if c in m.vmxon then VmClear(m, c, v) else m, v, None, false)
  }

  datatype Status = Ok | NotVmxon | LoadFailed

  /** Going on a processor at the start of KVM_RUN. */
  function Load(m: Machine, v: nat, c: nat, ptrldOk: bool): (Machine, Status)
    requires v in m.vcpus
  {
    if c !in m.vmxon then (m, NotVmxon)
    else if m.vcpus[v].loadedCpu == Some(c) then (m, Ok)
    else
      var u := Unload(m, v);
      if !ptrldOk then (u, LoadFailed) else (Set(VmPtrld(u, c, v), v, Some(c), false), Ok)
  }

  /** One VM entry: launched chooses the instruction, and is set unless it fell through. */
  function Enter(m: Machine, v: nat, c: nat, checks: Checks): Machine
    requires v in m.vcpus
  {
    var resume := m.vcpus[v].launched;
    var after := EnterHardware(m, c, resume, checks);
    if EntryFails(m, c, resume, checks) then after else Set(after, v, m.vcpus[v].loadedCpu, true)
  }

  /** A vCPU whose set-up failed is freed. */
  function Drop(m: Machine, v: nat): Machine {
    m.(vcpus := m.vcpus - {v}, setup := m.setup - {v})
  }

  // --------------------------------------------------------------------- runs

  /**
   mini_vcpu_vmx_setup does not disable preemption, so each of its steps names the processor
   it runs on: VMCLEAR, VMPTRLD, the read of the processor number into loaded_cpu, the VMWRITE
   of the EPTP, and mini_vmcs_clear, which goes to loaded_cpu from anywhere.
  */
  datatype Step =
    | SetupClear(v: nat, c: nat)
    | SetupLoad(v: nat, c: nat, ptrldOk: bool)
    | SetupRecord(v: nat, c: nat)
    | SetupWrite(v: nat, c: nat)
    | SetupUnload(v: nat, controlsOk: bool)
    | StartRun(v: nat, c: nat, ptrldOk: bool)
    | EnterGuest(v: nat, c: nat, checks: Checks)
    | EndRun(c: nat)
    | Close(v: nat)

  /** The vCPU mutex, preempt_disable and the file's lifetime decide what can happen. */
  predicate Enabled(m: Machine, step: Step) {
    match step
    case SetupClear(v, c) => v !in m.vcpus && c in m.vmxon && c !in m.running
    case SetupLoad(v, c, _) => v in m.setup && m.setup[v] == Cleared && c in m.vmxon && c !in m.running
    case SetupRecord(v, c) => v in m.setup && m.setup[v].Loaded? && c !in m.running
    case SetupWrite(v, c) => v in m.setup && m.setup[v] == Recorded && v in m.vcpus && c !in m.running
    case SetupUnload(v, ok) => v in m.setup && m.setup[v] == (if ok then Written else Recorded) && v in m.vcpus
    case StartRun(v, c, _) => v in m.vcpus && v !in m.setup && c !in m.running && !m.InLoop(v)
    case EnterGuest(v, c, _) => v in m.vcpus && c in m.running && m.running[c] == v
    case EndRun(c) => c in m.running
    case Close(v) => v in m.vcpus && v !in m.setup && !m.InLoop(v)
  }

  function Apply(m: Machine, step: Step): Machine
    requires Enabled(m, step)
  {
    match step
    case SetupClear(v, c) => Set(VmClear(NewPage(m, v), c, v), v, None, false).(setup := m.setup[v := Cleared])
    case SetupLoad(v, c, ok) => if ok then VmPtrld(m, c, v).(setup := m.setup[v := Loaded(c)]) else Drop(m, v)
    case SetupRecord(v, c) => Set(m, v, Some(c), false).(setup := m.setup[v := Recorded])
    case SetupWrite(v, c) => VmWrite(m, c, v).(setup := m.setup[v := Written])
    case SetupUnload(v, ok) => var u := Unload(m, v); if ok then u.(setup := m.setup - {v}) else Drop(u, v)
    case StartRun(v, c, ok) =>
      var (after, status) := Load(m, v, c, ok);
      if status == Ok then after.(running := after.running[c := v]) else after
    case EnterGuest(v, c, checks) => Enter(m, v, c, checks)
    case EndRun(c) => m.(running := m.running - {c})
    case Close(v) => var u := Unload(m, v); u.(vcpus := u.vcpus - {v})
  }

  /** Where a VMCS is loaded: on the processor set-up loaded it on, later where loaded_cpu says. */
  function Home(m: Machine, v: nat): set<nat> {
    if v in m.setup && m.setup[v].Loaded? then {m.setup[v].on}
    else if v in m.vcpus && m.vcpus[v].loadedCpu.Some? then {m.vcpus[v].loadedCpu.value}
    else {}
  }

  /** No other vCPU is loaded on the processor a step loads a VMCS on. */
  ghost predicate Exclusive(m: Machine, step: Step) {
    (step.SetupLoad? || step.StartRun?) ==> forall w: nat | w != step.v :: step.c !in Home(m, w)
  }

  /** Set-up reads the processor number where it did VMPTRLD. */
  predicate Stayed(m: Machine, step: Step) {
    step.SetupRecord? ==> step.v in m.setup && m.setup[step.v] == Loaded(step.c)
  }

  /** Set-up writes the EPTP where its own VMCS is the current one. */
  predicate WritesOwn(m: Machine, step: Step) {
    step.SetupWrite? ==> step.c in m.current && m.current[step.c] == step.v
  }

  /**
   The vCPUs whose last launch was refused by the guest-state checks, since their VMCS was
   last cleared: the source has set `launched` although the processor has not.
  */
  function NextFailed(m: Machine, step: Step, failed: set<nat>): set<nat>
    requires Enabled(m, step)
  {
    match step
    case SetupClear(v, _) => failed - {v}
    case StartRun(v, c, _) => if c in m.vmxon && m.vcpus[v].loadedCpu != Some(c) then failed - {v} else failed
    case EnterGuest(v, c, checks) =>
      if checks == BadGuestState && !EntryFails(m, c, m.vcpus[v].launched, checks) && !m.vcpus[v].launched
      then failed + {v} else failed
    case Close(v) => failed - {v}
    case _ => failed
  }

  // --------------------------------------------------------------- invariants

  /** A VMCS is active where the software loaded it and nowhere else. */
  ghost predicate ActiveInv(m: Machine) {
    && (forall v: nat :: m.ActiveOn(v) == Home(m, v) <= m.vmxon)
    && (forall c | c in m.running :: m.LoadedOn(m.running[c], c) && m.running[c] !in m.setup)
    && (forall c | c in m.current :: c in Home(m, m.current[c]))
    && SetupInv(m)
  }

  ghost predicate SetupInv(m: Machine) {
    forall v | v in m.setup :: v in m.vcpus && !m.vcpus[v].launched
      && (m.vcpus[v].loadedCpu.Some? <==> m.setup[v].CpuKnown())
  }

  /** Every loaded VMCS is the current one of its processor. */
  ghost predicate CurrentInv(m: Machine) {
    forall v: nat, c | c in Home(m, v) :: c in m.current && m.current[c] == v
  }

  /** The launched flag is the launch state, but for VMCSs whose launch was refused. */
  ghost predicate LaunchInv(m: Machine, failed: set<nat>) {
    && m.launched !! failed
    && (forall v | v in m.launched :: v in m.vcpus && m.vcpus[v].loadedCpu.Some?)
    && (forall v | v in m.vcpus :: m.vcpus[v].launched <==> v in m.launched || v in failed)
  }

  /** A vCPU's EPTP names its own table, once set-up has written it and never before. */
  ghost predicate OwnInv(m: Machine) {
    && (forall v | v in m.setup :: v in m.vcpus)
    && forall v | v in m.vcpus :: m.OwnTable(v) <==> (v in m.setup ==> m.setup[v] == Written)
  }

  /** mini_vmcs_clear has a recorded processor to go to, or there is nothing to clear. */
  predicate Clearable(m: Machine, v: nat) {
    v in m.vcpus && (v in m.setup ==> m.setup[v].CpuKnown())
  }

  /** Unloading leaves the VMCS inactive, clear, and not current; nothing else changes. */
  lemma UnloadIs(m: Machine, v: nat)
    requires ActiveInv(m) && Clearable(m, v)
    ensures var u := Unload(m, v);
      && u.vcpus == m.vcpus[v := Vcpu(None, false)] && u.vmxon == m.vmxon
      && u.running == m.running && u.setup == m.setup && u.eptp == m.eptp
      && (forall w: nat :: u.ActiveOn(w) == if w == v then {} else m.ActiveOn(w))
      && (forall c | c in u.current :: c in m.current && u.current[c] == m.current[c] != v)
      && (forall c | c in m.current && m.current[c] != v :: c in u.current)
      && u.launched == if m.vcpus[v].loadedCpu.Some? then m.launched - {v} else m.launched
  {
    LoadedPlace(m, v);
    hide ActiveInv, Home;
    var u := Unload(m, v);
    if m.vcpus[v].loadedCpu.Some? {
      var c := m.vcpus[v].loadedCpu.value;
      assert u == Set(VmClear(m, c, v), v, None, false);
      hide Unload;
      assert m.ActiveOn(v) - {c} == {};
    }
  }

  lemma LoadedPlace(m: Machine, v: nat)
    requires ActiveInv(m) && Clearable(m, v)
    ensures var at := m.vcpus[v].loadedCpu;
      && m.ActiveOn(v) == (if at.Some? then {at.value} else {})
      && (at.Some? ==> at.value in m.vmxon)
      && forall c | c in m.current && m.current[c] == v :: at == Some(c)
  {
    assert m.ActiveOn(v) == Home(m, v);
  }

  /** The vCPU after mini_vmcs_clear, set up or freed. */
  function Cleanly(m: Machine, v: nat, keep: bool): Machine
    requires v in m.vcpus
  {
    var u := Unload(m, v);
    u.(vcpus := if keep then u.vcpus else u.vcpus - {v}, setup := m.setup - {v})
  }

  lemma CleanlyIs(m: Machine, v: nat, keep: bool)
    requires ActiveInv(m) && Clearable(m, v)
    ensures var u := Cleanly(m, v, keep);
      && u.vmxon == m.vmxon && u.running == m.running && u.setup == m.setup - {v} && u.eptp == m.eptp
      && (forall w | w != v :: (w in u.vcpus <==> w in m.vcpus) && (w in m.vcpus ==> u.vcpus[w] == m.vcpus[w]))
      && (forall w: nat :: u.ActiveOn(w) == if w == v then {} else m.ActiveOn(w))
      && (forall w: nat :: Home(u, w) == if w == v then {} else Home(m, w))
      && (forall c | c in u.current :: c in m.current && u.current[c] == m.current[c] != v)
  {
    hide Unload;
    UnloadIs(m, v);
    hide ActiveInv;
    assert forall w: nat :: Cleanly(m, v, keep).ActiveOn(w) == Unload(m, v).ActiveOn(w);
  }

  lemma UnloadKeeps(m: Machine, v: nat, keep: bool)
    requires ActiveInv(m) && Clearable(m, v) && !m.InLoop(v)
    ensures ActiveInv(Cleanly(m, v, keep))
  {
    CleanlyIs(m, v, keep);
    hide Unload, Cleanly, Machine.ActiveOn, Home, ActiveInv;
    var u := Cleanly(m, v, keep);
    assert forall w: nat | w != v :: SameVcpu(m, u, w);
    OnlyMoves(m, u, v);
  }

  lemma PtrldKeeps(m: Machine, v: nat, c: nat)
    requires ActiveInv(m) && v in m.vcpus && m.vcpus[v] == Vcpu(None, false)
    requires c in m.vmxon && !m.InLoop(v) && v !in m.setup
    ensures ActiveInv(Set(VmPtrld(m, c, v), v, Some(c), false))
  {
    var p := Set(VmPtrld(m, c, v), v, Some(c), false);
    LoadedPlace(m, v);
    hide ActiveInv;
    assert forall w: nat | w != v :: SameVcpu(m, p, w);
    OnlyMoves(m, p, v);
  }

  // ------------------------------------------------------------------- set-up

  /** What the invariants say about one vCPU is as it was. */
  ghost predicate SameVcpu(m: Machine, s: Machine, w: nat) {
    && (w in s.vcpus <==> w in m.vcpus) && (w in m.vcpus ==> s.vcpus[w] == m.vcpus[w])
    && (w in s.setup <==> w in m.setup) && (w in m.setup ==> s.setup[w] == m.setup[w])
    && s.ActiveOn(w) == m.ActiveOn(w)
  }

  /** Only v, which is not running, is somewhere else. */
  lemma OnlyMoves(m: Machine, s: Machine, v: nat)
    requires ActiveInv(m) && !m.InLoop(v) && s.vmxon == m.vmxon && s.running == m.running
    requires forall w: nat | w != v :: SameVcpu(m, s, w)
    requires s.ActiveOn(v) == Home(s, v) <= s.vmxon
    requires forall c | c in s.current ::
               if s.current[c] == v then c in Home(s, v) else c in m.current && s.current[c] == m.current[c]
    requires v in s.setup ==> v in s.vcpus && !s.vcpus[v].launched && (s.vcpus[v].loadedCpu.Some? <==> s.setup[v].CpuKnown())
    ensures ActiveInv(s)
    ensures forall w: nat | w != v :: Home(s, w) == Home(m, w)
  {
    hide Machine.ActiveOn;
    forall w: nat | w != v
      ensures s.ActiveOn(w) == Home(s, w) == Home(m, w) <= s.vmxon
    {
      assert SameVcpu(m, s, w);
      assert m.ActiveOn(w) == Home(m, w);
    }
    assert forall c | c in m.running :: m.running[c] != v && SameVcpu(m, s, m.running[c]);
    forall w | w in s.setup && w != v
      ensures w in s.vcpus && !s.vcpus[w].launched && (s.vcpus[w].loadedCpu.Some? <==> s.setup[w].CpuKnown())
    {
      assert SameVcpu(m, s, w);
    }
    hide SameVcpu;
  }

  lemma SetupClearKeeps(m: Machine, step: Step)
    requires ActiveInv(m) && step.SetupClear? && Enabled(m, step)
    ensures ActiveInv(Apply(m, step)) && Apply(m, step).current == m.current
    ensures forall w: nat :: Home(Apply(m, step), w) == Home(m, w)
  {
    var (s, v) := (Apply(m, step), step.v);
    NewVcpu(m, v);
    NotRunning(m, v);
    hide ActiveInv;
    assert s == Set(VmClear(NewPage(m, v), step.c, v), v, None, false).(setup := m.setup[v := Cleared]);
    hide Apply, Enabled;
    assert forall w: nat | w != v :: SameVcpu(m, s, w);
    OnlyMoves(m, s, v);
  }

  lemma NotRunning(m: Machine, v: nat)
    requires ActiveInv(m) && (v !in m.vcpus || m.vcpus[v].loadedCpu.None?)
    ensures !m.InLoop(v)
  {}

  lemma SetupLoadKeeps(m: Machine, step: Step)
    requires ActiveInv(m) && step.SetupLoad? && Enabled(m, step)
    ensures ActiveInv(Apply(m, step))
    ensures forall w: nat | w != step.v :: Home(Apply(m, step), w) == Home(m, w)
    ensures Home(Apply(m, step), step.v) == (if step.ptrldOk then {step.c} else {})
  {
    var (s, v) := (Apply(m, step), step.v);
    AwaitsLoad(m, v);
    hide ActiveInv;
    if step.ptrldOk {
      assert s == VmPtrld(m, step.c, v).(setup := m.setup[v := Loaded(step.c)]);
    } else {
      assert s == Drop(m, v);
    }
    hide Apply, Enabled;
    assert forall w: nat | w != v :: SameVcpu(m, s, w);
    OnlyMoves(m, s, v);
  }

  lemma AwaitsLoad(m: Machine, v: nat)
    requires ActiveInv(m) && v in m.setup && m.setup[v] == Cleared
    ensures v in m.vcpus && m.vcpus[v] == Vcpu(None, false) && m.ActiveOn(v) == {} && !m.InLoop(v)
    ensures forall c | c in m.current :: m.current[c] != v
  {
    assert m.ActiveOn(v) == Home(m, v);
  }

  /** Recording the processor keeps the invariant exactly when it is the one VMPTRLD ran on. */
  lemma RecordKeepsIff(m: Machine, step: Step)
    requires ActiveInv(m) && step.SetupRecord? && Enabled(m, step)
    ensures ActiveInv(Apply(m, step)) <==> Stayed(m, step)
    ensures Stayed(m, step) ==> forall w: nat :: Home(Apply(m, step), w) == Home(m, w)
  {
    var (s, v) := (Apply(m, step), step.v);
    assert m.ActiveOn(v) == Home(m, v) == {m.setup[v].on};
    assert s.ActiveOn(v) == m.ActiveOn(v) && Home(s, v) == {step.c};
    if Stayed(m, step) {
      forall w: nat
        ensures s.ActiveOn(w) == Home(s, w) == Home(m, w) <= s.vmxon
      {
        assert m.ActiveOn(w) == Home(m, w);
      }
    } else {
      assert step.c in Home(s, v) && step.c !in s.ActiveOn(v);
    }
  }

  lemma SetupWriteKeeps(m: Machine, step: Step)
    requires ActiveInv(m) && step.SetupWrite? && Enabled(m, step)
    ensures ActiveInv(Apply(m, step)) && Apply(m, step).current == m.current
    ensures forall w: nat :: Home(Apply(m, step), w) == Home(m, w)
  {
    var s := Apply(m, step);
    forall w: nat
      ensures s.ActiveOn(w) == Home(s, w) == Home(m, w) <= s.vmxon
    {
      assert m.ActiveOn(w) == Home(m, w);
    }
  }

  /**
   mini_vcpu_vmx_setup with the processors its steps run on: VMCLEAR, VMPTRLD, loaded_cpu, and
   the VMWRITEs, to which it does not come when the controls are refused.
  */
  function Setup(m: Machine, v: nat, clearOn: nat, loadOn: nat, recordOn: nat, writeOn: Option<nat>): Machine {
    Unload(SetupWritten(SetupLoaded(m, v, clearOn, loadOn, recordOn), v, writeOn), v)
  }

  /** A set-up up to loaded_cpu. */
  function SetupLoaded(m: Machine, v: nat, clearOn: nat, loadOn: nat, recordOn: nat): Machine {
    Set(VmPtrld(VmClear(NewPage(m, v), clearOn, v), loadOn, v), v, Some(recordOn), false)
  }

  lemma SetupLoadedIs(m: Machine, v: nat, clearOn: nat, loadOn: nat, recordOn: nat)
    requires ActiveInv(m) && v !in m.vcpus
    ensures v !in m.setup
    ensures SetupLoaded(m, v, clearOn, loadOn, recordOn) ==
      m.(vcpus := m.vcpus[v := Vcpu(Some(recordOn), false)], active := m.active[v := {loadOn}],
         current := m.current[loadOn := v], launched := m.launched - {v}, eptp := m.eptp - {v})
  {
    NewVcpu(m, v);
    hide ActiveInv;
    assert m.ActiveOn(v) - {clearOn} + {loadOn} == {loadOn};
    assert m.active[v := m.ActiveOn(v) - {clearOn}][v := {loadOn}] == m.active[v := {loadOn}];
  }

  lemma NewVcpu(m: Machine, v: nat)
    requires ActiveInv(m) && v !in m.vcpus
    ensures m.ActiveOn(v) == {} && v !in m.setup && forall c | c in m.current :: m.current[c] != v
  {
    assert m.ActiveOn(v) == Home(m, v);
  }

  /** The VMWRITE of a set-up, if it comes to it. */
  function SetupWritten(m: Machine, v: nat, writeOn: Option<nat>): Machine {
    if writeOn.Some? then VmWrite(m, writeOn.value, v) else m
  }

  lemma SetupWrittenIs(m: Machine, r: Machine, v: nat, loadOn: nat, writeOn: Option<nat>)
    requires forall c | c in m.current :: m.current[c] != v
    requires r.current == m.current[loadOn := v] && v !in r.eptp
    ensures var w := SetupWritten(r, v, writeOn);
      w == r.(eptp := w.eptp) && (w.OwnTable(v) <==> writeOn == Some(loadOn))
  {
  }

  /** mini_vmcs_clear of a VMCS that is active on one processor, perhaps another than loaded_cpu. */
  lemma SetupUnloaded(m: Machine, v: nat, loadOn: nat, recordOn: nat)
    requires v in m.vcpus && m.vcpus[v] == Vcpu(Some(recordOn), false) && recordOn in m.vmxon
    requires v in m.active && m.active[v] == {loadOn} && loadOn in m.current && m.current[loadOn] == v && v !in m.launched
    requires forall c | c in m.current && c != loadOn :: m.current[c] != v
    ensures Unload(m, v) ==
      m.(vcpus := m.vcpus[v := Vcpu(None, false)], active := m.active[v := if loadOn == recordOn then {} else {loadOn}],
         current := if loadOn == recordOn then m.current - {loadOn} else m.current)
  {
    ActiveEntry(m, v, {loadOn});
    hide Machine.ActiveOn;
    assert {loadOn} - {recordOn} == if loadOn == recordOn then {} else {loadOn};
    assert m.launched - {v} == m.launched;
  }

  lemma SetupActive(m: Machine, v: nat, clearOn: nat, loadOn: nat, recordOn: nat, writeOn: Option<nat>)
    requires ActiveInv(m) && v !in m.vcpus && recordOn in m.vmxon
    ensures var s := Setup(m, v, clearOn, loadOn, recordOn, writeOn);
      && s.vcpus == m.vcpus[v := Vcpu(None, false)] && s.setup == m.setup && v !in m.setup
      && s.running == m.running && s.vmxon == m.vmxon && s.launched == m.launched - {v}
      && s.active == m.active[v := if loadOn == recordOn then {} else {loadOn}]
      && s.current == (if loadOn == recordOn then m.current[loadOn := v] - {loadOn} else m.current[loadOn := v])
      && (s.OwnTable(v) <==> writeOn == Some(loadOn))
  {
    hide ActiveInv, SetupLoaded, SetupWritten, Unload, Machine.ActiveOn;
    NewVcpu(m, v);
    SetupLoadedIs(m, v, clearOn, loadOn, recordOn);
    var r := SetupLoaded(m, v, clearOn, loadOn, recordOn);
    SetupWrittenIs(m, r, v, loadOn, writeOn);
    var w := SetupWritten(r, v, writeOn);
    SetupUnloaded(w, v, loadOn, recordOn);
    assert m.active[v := {loadOn}][v := w.active[v]] == m.active[v := w.active[v]];
    assert m.active[v := {loadOn}][v := {}] == m.active[v := {}];
    assert m.vcpus[v := Vcpu(Some(recordOn), false)][v := Vcpu(None, false)] == m.vcpus[v := Vcpu(None, false)];
  }

  /**
   A whole set-up: the VMCS stays active where it was loaded unless that processor was recorded,
   and its EPTP names its own table exactly if it was written there.
  */
  lemma SetupLeaves(m: Machine, v: nat, clearOn: nat, loadOn: nat, recordOn: nat, writeOn: Option<nat>)
    requires ActiveInv(m) && v !in m.vcpus && {clearOn, loadOn, recordOn} <= m.vmxon
    ensures var s := Setup(m, v, clearOn, loadOn, recordOn, writeOn);
      && s.vcpus == m.vcpus[v := Vcpu(None, false)]
      && s.ActiveOn(v) == (if loadOn == recordOn then {} else {loadOn})
      && (ActiveInv(s) <==> loadOn == recordOn) && (s.OwnTable(v) <==> writeOn == Some(loadOn))
  {
    hide Setup;
    SetupActive(m, v, clearOn, loadOn, recordOn, writeOn);
    var s := Setup(m, v, clearOn, loadOn, recordOn, writeOn);
    assert Home(s, v) == {};
    if loadOn == recordOn {
      forall w: nat
        ensures s.ActiveOn(w) == Home(s, w) <= s.vmxon && (w != v ==> Home(s, w) == Home(m, w))
      {
        assert m.ActiveOn(w) == Home(m, w);
      }
      assert forall c | c in m.current :: m.current[c] != v;
    } else {
      assert s.ActiveOn(v) != Home(s, v);
    }
  }

  lemma StartKeeps(m: Machine, step: Step)
    requires ActiveInv(m) && step.StartRun? && Enabled(m, step)
    ensures ActiveInv(Apply(m, step))
  {
    hide Unload, Machine.ActiveOn, Home;
    var (v, c) := (step.v, step.c);
    if c in m.vmxon && m.vcpus[v].loadedCpu != Some(c) {
      UnloadIs(m, v);
      UnloadKeeps(m, v, true);
      assert m.setup - {v} == m.setup && Cleanly(m, v, true) == Unload(m, v);
      if step.ptrldOk {
        PtrldKeeps(Unload(m, v), v, c);
        var p := Set(VmPtrld(Unload(m, v), c, v), v, Some(c), false);
        StillActive(p, Apply(m, step), v, c);
      }
    } else if c in m.vmxon {
      StillActive(m, Apply(m, step), v, c);
    }
  }

  lemma StillActive(m: Machine, after: Machine, v: nat, c: nat)
    requires ActiveInv(m) && m.LoadedOn(v, c) && v !in m.setup && after == m.(running := m.running[c := v])
    ensures ActiveInv(after)
  {
    forall w: nat
      ensures after.ActiveOn(w) == Home(after, w) <= after.vmxon
    {
      assert m.ActiveOn(w) == Home(m, w);
    }
  }

  lemma EnterKeeps(m: Machine, step: Step)
    requires ActiveInv(m) && (step.EnterGuest? || step.EndRun?) && Enabled(m, step)
    ensures ActiveInv(Apply(m, step)) && Apply(m, step).current == m.current
    ensures forall w: nat :: Home(Apply(m, step), w) == Home(m, w)
  {
    var after := Apply(m, step);
    EntryStays(m, step);
    EntryLeavesSetup(m, step);
    hide Apply, Enabled, Machine.ActiveOn, Home;
    forall w: nat
      ensures after.ActiveOn(w) == m.ActiveOn(w) && Home(after, w) == Home(m, w)
    {
      SamePlace(m, after, w);
    }
    SamePlacesActive(m, after);
  }

  /** No VMCS moves, and at most some runs end. */
  lemma SamePlacesActive(m: Machine, after: Machine)
    requires ActiveInv(m) && after.vmxon == m.vmxon && after.current == m.current && after.setup == m.setup
    requires forall w: nat :: after.ActiveOn(w) == m.ActiveOn(w) && Home(after, w) == Home(m, w)
    requires forall c | c in after.running :: c in m.running && after.running[c] == m.running[c]
    requires forall w | w in m.vcpus :: w in after.vcpus && after.vcpus[w].loadedCpu == m.vcpus[w].loadedCpu
    requires forall w | w in m.vcpus && w in m.setup :: after.vcpus[w] == m.vcpus[w]
    ensures ActiveInv(after)
  {
    hide Machine.ActiveOn, Home;
    assert SetupInv(m);
    assert SetupInv(after);
    hide SetupInv;
    forall w: nat
      ensures after.ActiveOn(w) == Home(after, w) <= after.vmxon
    {
      assert m.ActiveOn(w) == Home(m, w) <= m.vmxon;
    }
  }

  lemma SamePlace(m: Machine, s: Machine, w: nat)
    requires s.active == m.active && s.setup == m.setup && s.vcpus.Keys == m.vcpus.Keys
    requires w in m.vcpus ==> s.vcpus[w].loadedCpu == m.vcpus[w].loadedCpu
    ensures s.ActiveOn(w) == m.ActiveOn(w) && Home(s, w) == Home(m, w)
  {}

  lemma EntryLeavesSetup(m: Machine, step: Step)
    requires ActiveInv(m) && (step.EnterGuest? || step.EndRun?) && Enabled(m, step)
    ensures step.EnterGuest? ==> step.v !in m.setup
  {}

  /** Entering and leaving the guest moves no VMCS. */
  lemma EntryStays(m: Machine, step: Step)
    requires (step.EnterGuest? || step.EndRun?) && Enabled(m, step)
    ensures var a := Apply(m, step);
      && a == m.(vcpus := a.vcpus, launched := a.launched, running := a.running)
      && a.vcpus.Keys == m.vcpus.Keys && a.running.Keys <= m.running.Keys
      && (forall c | c in a.running :: a.running[c] == m.running[c])
      && (forall w | w in m.vcpus :: a.vcpus[w].loadedCpu == m.vcpus[w].loadedCpu)
      && (forall w | w in m.vcpus && (step.EndRun? || w != step.v) :: a.vcpus[w] == m.vcpus[w])
  {
    var after := Apply(m, step);
    if step.EnterGuest? {
      EnterIs(m, step.v, step.c, step.checks);
      assert after == Enter(m, step.v, step.c, step.checks);
    } else {
      assert after == m.(running := m.running - {step.c});
    }
    hide Apply, Enabled, Enter;
  }

  lemma EnterIs(m: Machine, v: nat, c: nat, checks: Checks)
    requires v in m.vcpus
    ensures var (a, before) := (Enter(m, v, c, checks), m.vcpus[v]);
      && a == m.(vcpus := a.vcpus, launched := a.launched)
      && (a.vcpus == m.vcpus || a.vcpus == m.vcpus[v := Vcpu(before.loadedCpu, true)])
  {
    var hw := EnterHardware(m, c, m.vcpus[v].launched, checks);
    assert hw == m.(launched := hw.launched);
    hide EntryFails, EnterHardware;
  }

  lemma ActiveKept(m: Machine, step: Step)
    requires ActiveInv(m) && Enabled(m, step)
    ensures ActiveInv(Apply(m, step)) <==> Stayed(m, step)
  {
    if step.Close? || step.SetupUnload? { ClearingKeeps(m, step); }
    hide ActiveInv, Enabled, Apply;
    match step
    case SetupClear(_, _) => SetupClearKeeps(m, step);
    case SetupLoad(_, _, _) => SetupLoadKeeps(m, step);
    case SetupRecord(_, _) => RecordKeepsIff(m, step);
    case SetupWrite(_, _) => SetupWriteKeeps(m, step);
    case SetupUnload(_, _) =>
    case StartRun(_, _, _) => StartKeeps(m, step);
    case EnterGuest(_, _, _) => EnterKeeps(m, step);
    case EndRun(_) => EnterKeeps(m, step);
    case Close(_) =>
  }

  lemma ClearingKeeps(m: Machine, step: Step)
    requires ActiveInv(m) && (step.Close? || step.SetupUnload?) && Enabled(m, step)
    ensures Clearable(m, step.v)
    ensures Apply(m, step) == Cleanly(m, step.v, step.SetupUnload? && step.controlsOk)
    ensures ActiveInv(Apply(m, step))
  {
    hide Unload;
    UnloadIs(m, step.v);
    assert step.Close? ==> m.setup - {step.v} == m.setup;
    UnloadKeeps(m, step.v, step.SetupUnload? && step.controlsOk);
  }

  /** What starting a run does, when the VMCS has to be loaded. */
  lemma StartIs(m: Machine, v: nat, c: nat, ok: bool)
    requires ActiveInv(m) && v in m.vcpus && v !in m.setup && c in m.vmxon && m.vcpus[v].loadedCpu != Some(c)
    ensures var u := Unload(m, v);
      var (after, status) := Load(m, v, c, ok);
      && after.vcpus == m.vcpus[v := Vcpu(if ok then Some(c) else None, false)] && after.setup == m.setup
      && after.current == (if ok then u.current[c := v] else u.current)
      && after.launched == (if m.vcpus[v].loadedCpu.Some? then m.launched - {v} else m.launched)
      && status == (if ok then Ok else LoadFailed) && after.vmxon == m.vmxon && after.running == m.running
  {
    hide ActiveInv, Unload;
    UnloadIs(m, v);
  }

  lemma CurrentKept(m: Machine, step: Step)
    requires ActiveInv(m) && CurrentInv(m) && Enabled(m, step) && Exclusive(m, step) && Stayed(m, step)
    ensures CurrentInv(Apply(m, step))
  {
    hide ActiveInv, CurrentInv, Enabled, Apply, Exclusive, Stayed;
    match step
    case SetupClear(_, _) => CurrentKeptBySetup(m, step);
    case SetupLoad(_, _, _) => CurrentKeptBySetup(m, step);
    case SetupRecord(_, _) => CurrentKeptBySetup(m, step);
    case SetupWrite(_, _) => CurrentKeptBySetup(m, step);
    case SetupUnload(_, _) => CurrentKeptByClearing(m, step);
    case StartRun(_, _, _) => CurrentKeptByStart(m, step);
    case EnterGuest(_, _, _) => CurrentKeptInLoop(m, step);
    case EndRun(_) => CurrentKeptInLoop(m, step);
    case Close(_) => CurrentKeptByClearing(m, step);
  }

  lemma CurrentKeptBySetup(m: Machine, step: Step)
    requires ActiveInv(m) && CurrentInv(m) && Enabled(m, step) && Exclusive(m, step) && Stayed(m, step)
    requires step.SetupClear? || step.SetupLoad? || step.SetupRecord? || step.SetupWrite?
    ensures CurrentInv(Apply(m, step))
  {
    if step.SetupClear? {
      SetupClearKeeps(m, step);
      SamePlaces(m, Apply(m, step));
    } else if step.SetupRecord? {
      RecordKeepsIff(m, step);
      SamePlaces(m, Apply(m, step));
    } else if step.SetupWrite? {
      SetupWriteKeeps(m, step);
      SamePlaces(m, Apply(m, step));
    } else {
      CurrentKeptBySetupLoad(m, step);
    }
    hide ActiveInv, CurrentInv, Enabled, Apply, Exclusive, Stayed, Home;
  }

  lemma CurrentKeptBySetupLoad(m: Machine, step: Step)
    requires ActiveInv(m) && CurrentInv(m) && Enabled(m, step) && Exclusive(m, step) && step.SetupLoad?
    ensures CurrentInv(Apply(m, step))
  {
    SetupLoadKeeps(m, step);
    hide ActiveInv, Home;
    CurrentMoves(m, Apply(m, step), step.v, if step.ptrldOk then Some(step.c) else None);
  }

  lemma CurrentKeptInLoop(m: Machine, step: Step)
    requires ActiveInv(m) && CurrentInv(m) && Enabled(m, step) && (step.EnterGuest? || step.EndRun?)
    ensures CurrentInv(Apply(m, step))
  {
    EnterKeeps(m, step);
    hide ActiveInv, Apply;
    SamePlaces(m, Apply(m, step));
  }

  lemma CurrentKeptByClearing(m: Machine, step: Step)
    requires ActiveInv(m) && CurrentInv(m) && Enabled(m, step) && (step.Close? || step.SetupUnload?)
    ensures CurrentInv(Apply(m, step))
  {
    hide Unload, ActiveInv;
    ClearingKeeps(m, step);
    UnloadIs(m, step.v);
    CurrentMoves(m, Apply(m, step), step.v, None);
  }

  lemma CurrentKeptByStart(m: Machine, step: Step)
    requires ActiveInv(m) && CurrentInv(m) && Enabled(m, step) && Exclusive(m, step) && step.StartRun?
    ensures CurrentInv(Apply(m, step))
  {
    hide Unload, Load, ActiveInv;
    var (v, c, ok) := (step.v, step.c, step.ptrldOk);
    if c in m.vmxon && m.vcpus[v].loadedCpu != Some(c) {
      UnloadIs(m, v);
      StartIs(m, v, c, ok);
      CurrentMoves(m, Apply(m, step), v, if ok then Some(c) else None);
    } else {
      LoadIdle(m, v, c, ok);
      SamePlaces(m, Apply(m, step));
    }
  }

  lemma SamePlaces(m: Machine, after: Machine)
    requires CurrentInv(m) && after.current == m.current
    requires forall w: nat :: Home(after, w) == Home(m, w)
    ensures CurrentInv(after)
  {
    hide Home;
    forall w: nat, d | d in Home(after, w)
      ensures d in after.current && after.current[d] == w
    {
      assert d in Home(m, w);
    }
  }

  /** Only v changed its processor, and only the one it came to may have changed its current VMCS. */
  lemma CurrentMoves(m: Machine, after: Machine, v: nat, to: Option<nat>)
    requires CurrentInv(m)
    requires forall w: nat | w != v :: Home(after, w) == Home(m, w)
    requires forall c | c in m.current && m.current[c] != v && to != Some(c) ::
               c in after.current && after.current[c] == m.current[c]
    requires to.Some? ==> forall w: nat | w != v :: to.value !in Home(m, w)
    requires forall c | c in Home(after, v) :: c in after.current && after.current[c] == v
    ensures CurrentInv(after)
  {
    hide Home;
    forall w: nat, d | d in Home(after, w)
      ensures d in after.current && after.current[d] == w
    {
      if w != v { assert d in Home(m, w); }
    }
  }

  lemma LoadIdle(m: Machine, v: nat, c: nat, ok: bool)
    requires v in m.vcpus && (c !in m.vmxon || m.vcpus[v].loadedCpu == Some(c))
    ensures Load(m, v, c, ok) == (m, if c in m.vmxon then Ok else NotVmxon)
  {}

  lemma LaunchKeptByStart(m: Machine, step: Step, failed: set<nat>)
    requires ActiveInv(m) && LaunchInv(m, failed) && step.StartRun? && Enabled(m, step)
    ensures LaunchInv(Apply(m, step), NextFailed(m, step, failed))
  {
    hide Unload, ActiveInv, Load;
    if step.c in m.vmxon && m.vcpus[step.v].loadedCpu != Some(step.c) { StartIs(m, step.v, step.c, step.ptrldOk); }
    else { LoadIdle(m, step.v, step.c, step.ptrldOk); }
  }

  lemma LaunchKeptBySetup(m: Machine, step: Step, failed: set<nat>)
    requires ActiveInv(m) && LaunchInv(m, failed) && Enabled(m, step)
    requires step.SetupClear? || step.SetupLoad? || step.SetupRecord? || step.SetupWrite?
    ensures LaunchInv(Apply(m, step), NextFailed(m, step, failed))
  {
    assert SetupInv(m);
    hide ActiveInv, Home;
  }

  lemma LaunchKept(m: Machine, step: Step, failed: set<nat>)
    requires ActiveInv(m) && CurrentInv(m) && LaunchInv(m, failed) && Enabled(m, step)
    ensures LaunchInv(Apply(m, step), NextFailed(m, step, failed))
  {
    hide Unload, Load, Cleanly;
    match step
    case SetupClear(_, _) => LaunchKeptBySetup(m, step, failed);
    case SetupLoad(_, _, _) => LaunchKeptBySetup(m, step, failed);
    case SetupRecord(_, _) => LaunchKeptBySetup(m, step, failed);
    case SetupWrite(_, _) => LaunchKeptBySetup(m, step, failed);
    case SetupUnload(_, _) => LaunchKeptByClearing(m, step, failed);
    case StartRun(_, _, _) => LaunchKeptByStart(m, step, failed);
    case EnterGuest(_, _, _) => LaunchKeptByEntry(m, step, failed);
    case EndRun(_) =>
    case Close(_) => LaunchKeptByClearing(m, step, failed);
  }

  lemma LaunchKeptByEntry(m: Machine, step: Step, failed: set<nat>)
    requires ActiveInv(m) && CurrentInv(m) && LaunchInv(m, failed) && step.EnterGuest? && Enabled(m, step)
    ensures LaunchInv(Apply(m, step), NextFailed(m, step, failed))
  {
    assert m.LoadedOn(step.v, step.c) && step.v !in m.setup;
    assert step.c in Home(m, step.v);
    hide ActiveInv, CurrentInv;
  }

  lemma LaunchKeptByClearing(m: Machine, step: Step, failed: set<nat>)
    requires ActiveInv(m) && LaunchInv(m, failed) && Enabled(m, step) && (step.Close? || step.SetupUnload?)
    ensures LaunchInv(Apply(m, step), NextFailed(m, step, failed))
  {
    assert SetupInv(m);
    hide Unload, ActiveInv, Home;
    ClearingKeeps(m, step);
    UnloadIs(m, step.v);
  }

  /** Loading a VMCS on a processor keeps every loaded VMCS current exactly when no other is loaded there. */
  lemma SharingBreaksCurrent(m: Machine, step: Step)
    requires ActiveInv(m) && CurrentInv(m) && Enabled(m, step) && (step.SetupLoad? || step.StartRun?) && step.ptrldOk
    requires step.StartRun? ==> step.c in m.vmxon && m.vcpus[step.v].loadedCpu != Some(step.c)
    ensures CurrentInv(Apply(m, step)) <==> Exclusive(m, step)
  {
    hide Unload;
    if Exclusive(m, step) {
      CurrentKept(m, step);
    } else {
      var w: nat :| w != step.v && step.c in Home(m, w);
      if step.StartRun? { LoadTakesOver(m, step, w); }
      assert step.c in Home(Apply(m, step), w) && Apply(m, step).current[step.c] == step.v;
    }
  }

  lemma LoadTakesOver(m: Machine, step: Step, w: nat)
    requires ActiveInv(m) && step.StartRun? && Enabled(m, step) && step.ptrldOk && w != step.v
    requires step.c in m.vmxon && m.vcpus[step.v].loadedCpu != Some(step.c)
    ensures Home(Apply(m, step), w) == Home(m, w)
    ensures step.c in Apply(m, step).current && Apply(m, step).current[step.c] == step.v
  {
    hide Unload, Load, ActiveInv;
    UnloadIs(m, step.v);
    StartIs(m, step.v, step.c, true);
  }

  // --------------------------------------------------------- whose page table

  /** Writing the EPTP keeps every vCPU on its own table exactly if it goes to the vCPU's own VMCS. */
  lemma EptpKeptIff(m: Machine, step: Step)
    requires OwnInv(m) && Enabled(m, step)
    ensures OwnInv(Apply(m, step)) <==> WritesOwn(m, step)
  {
    hide OwnInv, Apply, Enabled;
    match step
    case SetupClear(_, _) => EptpKeptBySetup(m, step);
    case SetupLoad(_, _, _) => EptpKeptBySetup(m, step);
    case SetupRecord(_, _) => EptpKeptBySetup(m, step);
    case SetupWrite(v, c) => WriteKeepsIff(m, v, c);
    case SetupUnload(_, _) => EptpKeptByClearing(m, step);
    case StartRun(_, _, _) => EptpKeptInRun(m, step);
    case EnterGuest(_, _, _) => EptpKeptInRun(m, step);
    case EndRun(_) => EptpKeptInRun(m, step);
    case Close(_) => EptpKeptByClearing(m, step);
  }

  lemma EptpKeptBySetup(m: Machine, step: Step)
    requires OwnInv(m) && Enabled(m, step) && (step.SetupClear? || step.SetupLoad? || step.SetupRecord?)
    ensures OwnInv(Apply(m, step))
  {
    hide Machine.ActiveOn;
    var s := Apply(m, step);
    if step.SetupClear? {
      assert s.eptp == m.eptp - {step.v};
    } else {
      assert s.eptp == m.eptp;
    }
  }

  lemma EptpKeptByClearing(m: Machine, step: Step)
    requires OwnInv(m) && Enabled(m, step) && (step.SetupUnload? || step.Close?)
    ensures OwnInv(Apply(m, step))
  {
    UnloadStays(m, step.v);
    hide Unload;
  }

  lemma EptpKeptInRun(m: Machine, step: Step)
    requires OwnInv(m) && Enabled(m, step) && (step.StartRun? || step.EnterGuest? || step.EndRun?)
    ensures OwnInv(Apply(m, step))
  {
    var s := Apply(m, step);
    if step.StartRun? {
      LoadStays(m, step.v, step.c, step.ptrldOk);
    } else {
      EntryStays(m, step);
    }
    hide Load, Enter;
    assert s.eptp == m.eptp && s.setup == m.setup && s.vcpus.Keys == m.vcpus.Keys;
    hide Apply, Enabled;
    assert forall v | v in s.vcpus :: v in m.vcpus;
  }

  lemma WriteKeepsIff(m: Machine, v: nat, c: nat)
    requires OwnInv(m) && Enabled(m, SetupWrite(v, c))
    ensures OwnInv(Apply(m, SetupWrite(v, c))) <==> c in m.current && m.current[c] == v
  {
    var s := Apply(m, SetupWrite(v, c));
    assert s.setup[v] == Written;
    assert !m.OwnTable(v);
    if c in m.current && m.current[c] == v {
      assert s.OwnTable(v);
    } else {
      assert !s.OwnTable(v);
    }
  }

  /** That is, where processors are not shared, exactly if set-up still runs where it did VMPTRLD. */
  lemma WritesOwnIff(m: Machine, step: Step)
    requires ActiveInv(m) && CurrentInv(m) && step.SetupWrite? && Enabled(m, step)
    ensures WritesOwn(m, step) <==> step.c in Home(m, step.v)
  {
  }

  // ------------------------------------------------------------- whole runs

  datatype History = History(m: Machine, failed: set<nat>)

  /** The machine after a run that starts without vCPUs; a step that is not possible does nothing. */
  function After(vmxon: set<nat>, steps: seq<Step>): History {
    if steps == [] then History(Machine(vmxon, map[], map[], map[], {}, map[], map[], map[]), {})
    else
      var h := After(vmxon, steps[..|steps| - 1]);
      var step := steps[|steps| - 1];
      if Enabled(h.m, step) then History(Apply(h.m, step), NextFailed(h.m, step, h.failed)) else h
  }

  /** No step of the run loads a VMCS on a processor where another vCPU is loaded. */
  ghost predicate NoSharing(vmxon: set<nat>, steps: seq<Step>) {
    steps != [] ==>
      var (h, step) := (After(vmxon, steps[..|steps| - 1]), steps[|steps| - 1]);
      NoSharing(vmxon, steps[..|steps| - 1]) && (Enabled(h.m, step) ==> Exclusive(h.m, step))
  }

  /** No set-up of the run moved to another processor between VMPTRLD and the read of its number. */
  ghost predicate NoMoves(vmxon: set<nat>, steps: seq<Step>) {
    steps != [] ==>
      var (h, step) := (After(vmxon, steps[..|steps| - 1]), steps[|steps| - 1]);
      NoMoves(vmxon, steps[..|steps| - 1]) && (Enabled(h.m, step) ==> Stayed(h.m, step))
  }

  /** Every set-up of the run wrote the EPTP to its own VMCS. */
  ghost predicate WritesHome(vmxon: set<nat>, steps: seq<Step>) {
    steps != [] ==>
      var (h, step) := (After(vmxon, steps[..|steps| - 1]), steps[|steps| - 1]);
      WritesHome(vmxon, steps[..|steps| - 1]) && (Enabled(h.m, step) ==> WritesOwn(h.m, step))
  }

  /** A vCPU that runs is set up, and runs in VMX operation. */
  ghost predicate RunsOnVmxon(m: Machine) {
    forall c | c in m.running :: c in m.vmxon && m.running[c] in m.vcpus && m.running[c] !in m.setup
  }

  lemma {:induction false} RunKeeps(vmxon: set<nat>, steps: seq<Step>)
    ensures After(vmxon, steps).m.vmxon == vmxon && RunsOnVmxon(After(vmxon, steps).m)
    ensures NoMoves(vmxon, steps) ==> ActiveInv(After(vmxon, steps).m)
    ensures NoMoves(vmxon, steps) && NoSharing(vmxon, steps) ==>
      CurrentInv(After(vmxon, steps).m) && LaunchInv(After(vmxon, steps).m, After(vmxon, steps).failed)
    ensures WritesHome(vmxon, steps) ==> OwnInv(After(vmxon, steps).m)
  {
    hide ActiveInv, CurrentInv, LaunchInv, OwnInv, Enabled, Apply, NextFailed, Exclusive, Stayed, WritesOwn, RunsOnVmxon;
    if steps == [] {
      StartOk(vmxon);
    } else {
      var h := After(vmxon, steps[..|steps| - 1]);
      var step := steps[|steps| - 1];
      RunKeeps(vmxon, steps[..|steps| - 1]);
      if Enabled(h.m, step) {
        VmxonKept(h.m, step);
        if WritesHome(vmxon, steps) { EptpKeptIff(h.m, step); }
        if NoMoves(vmxon, steps) {
          ActiveKept(h.m, step);
          if NoSharing(vmxon, steps) {
            CurrentKept(h.m, step);
            LaunchKept(h.m, step, h.failed);
          }
        }
      }
    }
  }

  lemma VmxonKept(m: Machine, step: Step)
    requires Enabled(m, step) && RunsOnVmxon(m)
    ensures Apply(m, step).vmxon == m.vmxon && RunsOnVmxon(Apply(m, step))
  {
    if step.EnterGuest? || step.EndRun? {
      EntryStays(m, step);
      hide Apply, Enabled;
    } else if step.StartRun? {
      LoadStays(m, step.v, step.c, step.ptrldOk);
      hide Load;
    } else if step.SetupUnload? || step.Close? {
      UnloadStays(m, step.v);
      hide Unload;
    }
  }

  lemma UnloadStays(m: Machine, v: nat)
    requires v in m.vcpus
    ensures var u := Unload(m, v);
      && u == m.(vcpus := u.vcpus, active := u.active, current := u.current, launched := u.launched)
      && u.vcpus == m.vcpus[v := Vcpu(None, false)]
  {}

  lemma LoadStays(m: Machine, v: nat, c: nat, ok: bool)
    requires v in m.vcpus
    ensures var a := Load(m, v, c, ok).0;
      && a == m.(vcpus := a.vcpus, active := a.active, current := a.current, launched := a.launched)
      && a.vcpus.Keys == m.vcpus.Keys
  {
    UnloadStays(m, v);
    hide Unload;
  }

  lemma StartOk(vmxon: set<nat>)
    ensures var m := Machine(vmxon, map[], map[], map[], {}, map[], map[], map[]);
      ActiveInv(m) && CurrentInv(m) && LaunchInv(m, {}) && OwnInv(m) && RunsOnVmxon(m)
  {}

  /**
   At every VM entry the processor is in VMX operation.  If every set-up wrote to its own VMCS,
   the EPTP of the vCPU names its own table.  If no set-up moved between VMPTRLD and the read
   of the processor number, the VMCS is active on exactly that processor.  If also no processor
   was shared, it is the current VMCS there, and the instruction chosen matches the launch
   state exactly unless an earlier launch of this vCPU was refused by the guest-state checks.
  */
  lemma EntryIsRight(vmxon: set<nat>, steps: seq<Step>, v: nat, c: nat, checks: Checks)
    requires Enabled(After(vmxon, steps).m, EnterGuest(v, c, checks))
    ensures var (m, failed) := (After(vmxon, steps).m, After(vmxon, steps).failed);
      && c in vmxon
      && (WritesHome(vmxon, steps) ==> m.OwnTable(v))
      && (NoMoves(vmxon, steps) ==> m.ActiveOn(v) == {c})
      && (NoMoves(vmxon, steps) && NoSharing(vmxon, steps) ==>
          && c in m.current && m.current[c] == v
          && (m.vcpus[v].launched == (v in m.launched) <==> v !in failed)
          && (v !in failed && checks == Fine ==> !EntryFails(m, c, m.vcpus[v].launched, checks)))
  {
    hide After, NoSharing, NoMoves, WritesHome;
    RunKeeps(vmxon, steps);
    if NoMoves(vmxon, steps) {
      var m := After(vmxon, steps).m;
      assert m.LoadedOn(v, c) && v !in m.setup;
      assert c in Home(m, v);
      assert m.ActiveOn(v) == Home(m, v) <= m.vmxon;
    }
  }

  lemma Extend(vmxon: set<nat>, steps: seq<Step>, step: Step) returns (longer: seq<Step>)
    requires Enabled(After(vmxon, steps).m, step)
    ensures longer == steps + [step]
    ensures var h := After(vmxon, steps);
      After(vmxon, longer) == History(Apply(h.m, step), NextFailed(h.m, step, h.failed))
  {
    longer := steps + [step];
    assert longer[..|steps|] == steps;
  }

  // The machine at three points of a set-up that stays on one processor.

  function AfterPtrld(m: Machine, v: nat, c: nat): Machine {
    m.(vcpus := m.vcpus[v := Vcpu(None, false)], active := m.active[v := {c}], current := m.current[c := v],
       launched := m.launched - {v}, setup := m.setup[v := Loaded(c)], eptp := m.eptp - {v})
  }

  function AfterWrite(m: Machine, v: nat, c: nat): Machine {
    m.(vcpus := m.vcpus[v := Vcpu(Some(c), false)], active := m.active[v := {c}], current := m.current[c := v],
       launched := m.launched - {v}, setup := m.setup[v := Written], eptp := (m.eptp - {v})[v := v])
  }

  function AfterSetUp(m: Machine, v: nat, c: nat): Machine {
    m.(vcpus := m.vcpus[v := Vcpu(None, false)], active := m.active[v := {}],
       current := m.current - {c}, launched := m.launched - {v}, eptp := (m.eptp - {v})[v := v])
  }

  lemma SetUpFirst(m: Machine, v: nat, c: nat)
    requires c in m.vmxon && v !in m.vcpus && c !in m.running && ActiveInv(m)
    ensures Enabled(m, SetupClear(v, c))
    ensures var a := Apply(m, SetupClear(v, c));
      Enabled(a, SetupLoad(v, c, true)) && Apply(a, SetupLoad(v, c, true)) == AfterPtrld(m, v, c)
  {
    NewVcpu(m, v);
    hide ActiveInv;
    assert m.ActiveOn(v) - {c} + {c} == {c};
    assert m.active[v := m.ActiveOn(v) - {c}][v := {c}] == m.active[v := {c}];
    assert m.setup[v := Cleared][v := Loaded(c)] == m.setup[v := Loaded(c)];
  }

  lemma SetUpSecond(m: Machine, v: nat, c: nat)
    requires c in m.vmxon && c !in m.running
    ensures var b := AfterPtrld(m, v, c);
      && Enabled(b, SetupRecord(v, c))
      && var d := Apply(b, SetupRecord(v, c));
      && Enabled(d, SetupWrite(v, c)) && Apply(d, SetupWrite(v, c)) == AfterWrite(m, v, c)
  {
    assert m.setup[v := Loaded(c)][v := Recorded][v := Written] == m.setup[v := Written];
    assert m.vcpus[v := Vcpu(None, false)][v := Vcpu(Some(c), false)] == m.vcpus[v := Vcpu(Some(c), false)];
  }

  lemma SetUpThird(m: Machine, v: nat, c: nat)
    requires c in m.vmxon && v !in m.setup
    ensures var e := AfterWrite(m, v, c);
      Enabled(e, SetupUnload(v, true)) && Apply(e, SetupUnload(v, true)) == AfterSetUp(m, v, c)
  {
    var e := AfterWrite(m, v, c);
    ActiveEntry(e, v, {c});
    hide Machine.ActiveOn;
    assert {c} - {c} == {};
    assert m.launched - {v} - {v} == m.launched - {v};
    assert m.current[c := v] - {c} == m.current - {c};
    assert m.setup[v := Written] - {v} == m.setup;
    assert m.active[v := {c}][v := {}] == m.active[v := {}];
    assert m.vcpus[v := Vcpu(Some(c), false)][v := Vcpu(None, false)] == m.vcpus[v := Vcpu(None, false)];
  }

  lemma ActiveEntry(m: Machine, v: nat, on: set<nat>)
    requires v in m.active && m.active[v] == on
    ensures m.ActiveOn(v) == on
  {}

  /** A set-up that stays on one processor. */
  lemma SetUp(vmxon: set<nat>, steps: seq<Step>, v: nat, c: nat) returns (longer: seq<Step>)
    requires ActiveInv(After(vmxon, steps).m)
    requires var m := After(vmxon, steps).m; c in m.vmxon && v !in m.vcpus && c !in m.running
    ensures var (h, g) := (After(vmxon, steps), After(vmxon, longer));
      g.failed == h.failed - {v} && g.m == AfterSetUp(h.m, v, c)
  {
    var m := After(vmxon, steps).m;
    NewVcpu(m, v);
    SetUpFirst(m, v, c);
    SetUpSecond(m, v, c);
    SetUpThird(m, v, c);
    hide After, ActiveInv, Apply, Enabled, AfterPtrld, AfterWrite, AfterSetUp;
    longer := Extend(vmxon, steps, SetupClear(v, c));
    longer := Extend(vmxon, longer, SetupLoad(v, c, true));
    longer := Extend(vmxon, longer, SetupRecord(v, c));
    longer := Extend(vmxon, longer, SetupWrite(v, c));
    longer := Extend(vmxon, longer, SetupUnload(v, true));
  }

  /** VMPTRLD on processor 0, and then preempted. */
  lemma LoadedOnZero() returns (steps: seq<Step>)
    ensures OneVcpu(After({0, 1, 2}, steps).m, {0, 1, 2}, {0}, None, map[1 := Loaded(0)])
  {
    hide After;
    NothingYet({0, 1, 2});
    steps := Extend({0, 1, 2}, [], SetupClear(1, 0));
    steps := Extend({0, 1, 2}, steps, SetupLoad(1, 0, true));
  }

  lemma MovedSetup() returns (steps: seq<Step>)
    ensures OneVcpu(After({0, 1, 2}, steps).m, {0, 1, 2}, {0}, None, map[])
  {
    hide After;
    steps := LoadedOnZero();
    steps := Extend({0, 1, 2}, steps, SetupRecord(1, 1));
    assert OneVcpu(After({0, 1, 2}, steps).m, {0, 1, 2}, {0}, Some(1), map[1 := Recorded]);
    steps := Extend({0, 1, 2}, steps, SetupWrite(1, 1));
    assert OneVcpu(After({0, 1, 2}, steps).m, {0, 1, 2}, {0}, Some(1), map[1 := Written]);
    steps := Extend({0, 1, 2}, steps, SetupUnload(1, true));
  }

  /**
   A set-up that is preempted after VMPTRLD on processor 0 and records processor 1: VMCLEAR
   goes to 1, and the first run, on processor 2, enters a VMCS that is active on 0 as well.
  */
  lemma MovedSetupStaysActive() returns (steps: seq<Step>)
    ensures var m := After({0, 1, 2}, steps).m;
      Enabled(m, EnterGuest(1, 2, Fine)) && m.ActiveOn(1) == {0, 2}
  {
    hide After;
    steps := MovedSetup();
    steps := Extend({0, 1, 2}, steps, StartRun(1, 2, true));
    assert After({0, 1, 2}, steps).m.ActiveOn(1) == {0} + {2};
  }

  /** The machine with vCPU 2 alone, on processor 1. */
  ghost predicate Second(m: Machine, vcpu: Vcpu, running: map<nat, nat>) {
    && m.vmxon == {0, 1} && m.vcpus == map[2 := vcpu] && m.running == running && m.setup == map[] && m.eptp == map[2 := 2]
    && m.current == (if vcpu.loadedCpu == None then map[] else map[1 := 2])
  }

  lemma SecondSetUp() returns (steps: seq<Step>)
    ensures Second(After({0, 1}, steps).m, Vcpu(None, false), map[])
  {
    NothingYet({0, 1});
    StartOk({0, 1});
    hide After, ActiveInv;
    steps := SetUp({0, 1}, [], 2, 1);
  }

  lemma SecondStarts(m: Machine)
    requires Second(m, Vcpu(None, false), map[])
    ensures Enabled(m, StartRun(2, 1, true))
    ensures Second(Apply(m, StartRun(2, 1, true)), Vcpu(Some(1), false), map[1 := 2])
  {
  }

  lemma SecondEnds(m: Machine)
    requires Second(m, Vcpu(Some(1), false), map[1 := 2])
    ensures Enabled(m, EndRun(1)) && Second(Apply(m, EndRun(1)), Vcpu(Some(1), false), map[])
  {
  }

  /** vCPU 2 is loaded on processor 1; the set-up of vCPU 1, of another VM, is recorded on 0. */
  ghost predicate TwoPlaces(m: Machine) {
    && m.vmxon == {0, 1} && m.vcpus == map[1 := Vcpu(Some(0), false), 2 := Vcpu(Some(1), false)]
    && m.running == map[] && m.setup == map[1 := Recorded] && m.current == map[0 := 1, 1 := 2] && m.eptp == map[2 := 2]
  }

  lemma SetUpRecorded(start: seq<Step>) returns (steps: seq<Step>)
    requires Second(After({0, 1}, start).m, Vcpu(Some(1), false), map[])
    ensures TwoPlaces(After({0, 1}, steps).m)
  {
    hide After;
    steps := Extend({0, 1}, start, SetupClear(1, 0));
    steps := Extend({0, 1}, steps, SetupLoad(1, 0, true));
    steps := Extend({0, 1}, steps, SetupRecord(1, 0));
  }

  /**
   A set-up that moves to another processor before its VMWRITEs: they go to the VMCS loaded
   there, and that vCPU, of another VM, enters with the page table of the new one.
  */
  lemma MovedWriteGivesOthersTable() returns (steps: seq<Step>)
    ensures var m := After({0, 1}, steps).m;
      Enabled(m, EnterGuest(2, 1, Fine)) && 1 in m.current && m.current[1] == 2 && 2 in m.eptp && m.eptp[2] == 1
  {
    steps := SecondSetUp();
    hide After;
    SecondStarts(After({0, 1}, steps).m);
    steps := Extend({0, 1}, steps, StartRun(2, 1, true));
    SecondEnds(After({0, 1}, steps).m);
    steps := Extend({0, 1}, steps, EndRun(1));
    hide Second;
    steps := SetUpRecorded(steps);
    WrittenElsewhere(After({0, 1}, steps).m);
    hide Enabled, Apply;
    steps := Extend({0, 1}, steps, SetupWrite(1, 1));
    steps := Extend({0, 1}, steps, StartRun(2, 1, true));
  }

  lemma WrittenElsewhere(m: Machine)
    requires TwoPlaces(m)
    ensures Enabled(m, SetupWrite(1, 1))
    ensures var a := Apply(m, SetupWrite(1, 1));
      && Enabled(a, StartRun(2, 1, true))
      && var b := Apply(a, StartRun(2, 1, true));
      Enabled(b, EnterGuest(2, 1, Fine)) && 1 in b.current && b.current[1] == 2 && 2 in b.eptp && b.eptp[2] == 1
  {
  }

  /** The machine with vCPU 1 alone, not running. */
  ghost predicate OneVcpu(m: Machine, vmxon: set<nat>, active: set<nat>, loadedCpu: Option<nat>, setup: map<nat, Phase>) {
    && m.vmxon == vmxon && m.vcpus == map[1 := Vcpu(loadedCpu, false)]
    && m.ActiveOn(1) == active && m.setup == setup && m.running == map[]
  }

  lemma NothingYet(vmxon: set<nat>)
    ensures After(vmxon, []) == History(Machine(vmxon, map[], map[], map[], {}, map[], map[], map[]), {})
  {}

  /**
   Two vCPUs on one processor: the second load goes unnoticed by the first vCPU, which then
   enters with the other's VMCS.
  */
  lemma SharedProcessorEntersOther() returns (steps: seq<Step>)
    ensures var m := After({0}, steps).m;
      Enabled(m, EnterGuest(1, 0, Fine)) && m.current == map[0 := 2] && m.ActiveOn(1) == {0}
  {
    steps := FirstLoaded();
    hide After;
    SecondTakesOver(After({0}, steps).m);
    hide Apply, Enabled;
    steps := Extend({0}, steps, StartRun(2, 0, true));
    steps := Extend({0}, steps, EndRun(0));
    FirstEntersOther(After({0}, steps).m);
    steps := Extend({0}, steps, StartRun(1, 0, true));
  }

  lemma SecondTakesOver(m: Machine)
    requires TwoVcpus(m, Vcpu(Some(0), false), Vcpu(None, false), map[0 := 1], map[])
    ensures Enabled(m, StartRun(2, 0, true))
    ensures var a := Apply(m, StartRun(2, 0, true));
      && Enabled(a, EndRun(0))
      && TwoVcpus(Apply(a, EndRun(0)), Vcpu(Some(0), false), Vcpu(Some(0), false), map[0 := 2], map[])
  {
    var a := Apply(m, StartRun(2, 0, true));
    assert TwoVcpus(a, Vcpu(Some(0), false), Vcpu(Some(0), false), map[0 := 2], map[0 := 2]);
  }

  lemma FirstEntersOther(m: Machine)
    requires TwoVcpus(m, Vcpu(Some(0), false), Vcpu(Some(0), false), map[0 := 2], map[])
    ensures Enabled(m, StartRun(1, 0, true))
    ensures var a := Apply(m, StartRun(1, 0, true));
      Enabled(a, EnterGuest(1, 0, Fine)) && a.current == map[0 := 2] && a.ActiveOn(1) == {0}
  {
  }

  /** Two vCPUs, the first of which has run on processor 0. */
  lemma FirstLoaded() returns (steps: seq<Step>)
    ensures TwoVcpus(After({0}, steps).m, Vcpu(Some(0), false), Vcpu(None, false), map[0 := 1], map[])
  {
    hide After;
    steps := TwoSetUp();
    var none := Vcpu(None, false);
    steps := Extend({0}, steps, StartRun(1, 0, true));
    assert TwoVcpus(After({0}, steps).m, Vcpu(Some(0), false), none, map[0 := 1], map[0 := 1]);
    steps := Extend({0}, steps, EndRun(0));
  }

  lemma TwoSetUp() returns (steps: seq<Step>)
    ensures TwoVcpus(After({0}, steps).m, Vcpu(None, false), Vcpu(None, false), map[], map[])
  {
    NothingYet({0});
    StartOk({0});
    hide After, ActiveInv;
    steps := SetUp({0}, [], 1, 0);
    RunKeepsHere(steps, 1);
    steps := SetUp({0}, steps, 2, 0);
  }

  lemma RunKeepsHere(steps: seq<Step>, v: nat)
    requires var m := After({0}, steps).m; m.vcpus == map[v := Vcpu(None, false)] && m.setup == map[] && m.running == map[]
    requires After({0}, steps).m.current == map[] && After({0}, steps).m.active == map[v := {}]
    ensures ActiveInv(After({0}, steps).m)
  {
  }

  /** The machine with vCPUs 1 and 2, both active only where they are loaded. */
  ghost predicate TwoVcpus(m: Machine, first: Vcpu, second: Vcpu, current: map<nat, nat>, running: map<nat, nat>) {
    && m.vmxon == {0} && m.vcpus == map[1 := first, 2 := second] && m.current == current && m.running == running
    && m.setup == map[] && m.ActiveOn(1) == Home(m, 1) && m.ActiveOn(2) == Home(m, 2)
  }

  /** The machine with vCPU 1 alone, on processor 0. */
  ghost predicate Solo(m: Machine, vcpu: Vcpu, running: map<nat, nat>) {
    && m.vmxon == {0} && m.vcpus == map[1 := vcpu] && m.running == running && m.setup == map[] && m.launched == {}
    && (vcpu.loadedCpu == Some(0) ==> m.current == map[0 := 1])
    && (vcpu.loadedCpu == None ==> m.current == map[])
  }

  lemma SoloLoads(m: Machine)
    requires Solo(m, Vcpu(None, false), map[])
    ensures Enabled(m, StartRun(1, 0, true))
    ensures Solo(Apply(m, StartRun(1, 0, true)), Vcpu(Some(0), false), map[0 := 1])
    ensures NextFailed(m, StartRun(1, 0, true), {}) == {}
  {
  }

  lemma SoloStays(m: Machine)
    requires Solo(m, Vcpu(Some(0), true), map[])
    ensures Enabled(m, StartRun(1, 0, true))
    ensures Solo(Apply(m, StartRun(1, 0, true)), Vcpu(Some(0), true), map[0 := 1])
    ensures NextFailed(m, StartRun(1, 0, true), {1}) == {1}
  {
  }

  lemma SoloRefused(m: Machine)
    requires Solo(m, Vcpu(Some(0), false), map[0 := 1])
    ensures Enabled(m, EnterGuest(1, 0, BadGuestState))
    ensures Solo(Apply(m, EnterGuest(1, 0, BadGuestState)), Vcpu(Some(0), true), map[0 := 1])
    ensures forall failed :: NextFailed(m, EnterGuest(1, 0, BadGuestState), failed) == failed + {1}
  {
  }

  lemma SoloEnds(m: Machine, launched: bool)
    requires Solo(m, Vcpu(Some(0), launched), map[0 := 1])
    ensures Enabled(m, EndRun(0)) && Solo(Apply(m, EndRun(0)), Vcpu(Some(0), launched), map[])
    ensures forall failed :: NextFailed(m, EndRun(0), failed) == failed
  {
  }

  /** A launch refused by the guest-state checks: every later entry uses VMRESUME and falls through. */
  lemma RefusedLaunchSticks() returns (steps: seq<Step>)
    ensures var h := After({0}, steps);
      && Enabled(h.m, EnterGuest(1, 0, Fine)) && h.failed == {1}
      && EntryFails(h.m, 0, h.m.vcpus[1].launched, Fine)
  {
    NothingYet({0});
    StartOk({0});
    steps := SetUp({0}, [], 1, 0);
    hide After, Apply, NextFailed;
    SoloLoads(After({0}, steps).m);
    steps := Extend({0}, steps, StartRun(1, 0, true));
    SoloRefused(After({0}, steps).m);
    steps := Extend({0}, steps, EnterGuest(1, 0, BadGuestState));
    SoloEnds(After({0}, steps).m, true);
    steps := Extend({0}, steps, EndRun(0));
    SoloStays(After({0}, steps).m);
    steps := Extend({0}, steps, StartRun(1, 0, true));
  }
}
