/**
 The code of mini-kvm that moves a VMCS between processors, updating the vCPU's fields and
 the processors' state in place.
*/
module VmcsHost {
  import opened Common
  import opened Vmcs

  class Host {
    const vmxon: set<nat>
    var loadedCpu: map<nat, Option<nat>>        // vcpu->loaded_cpu, None for -1
    var launched: map<nat, bool>                // vcpu->launched
    var active: map<nat, set<nat>>              // processor state, as in Vmcs.Machine
    var current: map<nat, nat>
    var launchState: set<nat>
    var running: map<nat, nat>
    var setup: map<nat, Phase>                  // vCPUs whose set-up is under way in another thread
    var eptp: map<nat, nat>                     // per VMCS, the vCPU whose table its EPTP names

    ghost predicate Valid()
      reads this
    {
      loadedCpu.Keys == launched.Keys
    }

    ghost function View(): Machine
      requires Valid()
      reads this
    {
      Machine(vmxon, map v | v in loadedCpu :: Vcpu.Vcpu(loadedCpu[v], launched[v]), active, current,
              launchState, running, setup, eptp)
    }

    /** The VMCLEAR instruction on a processor. */
    method ExecVmClear(c: nat, v: nat)
      requires Valid()
      modifies this`active, this`current, this`launchState
      ensures Valid() && View() == VmClear(old(View()), c, v)
    {
      active := active[v := (if v in active then active[v] else {}) - {c}];
      if c in current && current[c] == v { current := current - {c}; }
      launchState := launchState - {v};
    }

    /** The VMPTRLD instruction on a processor. */
    method ExecVmPtrld(c: nat, v: nat)
      requires Valid()
      modifies this`active, this`current
      ensures Valid() && View() == VmPtrld(old(View()), c, v)
    {
      active := active[v := (if v in active then active[v] else {}) + {c}];
      current := current[c := v];
    }

    /** The VMWRITE of the EPTP of v's VM on a processor; its failure goes unnoticed. */
    method ExecVmWrite(c: nat, v: nat)
      requires Valid()
      modifies this`eptp
      ensures Valid() && View() == VmWrite(old(View()), c, v)
    {
      if c in current { eptp := eptp[current[c] := v]; }
    }

    /** The zeroed page of a new VMCS. */
    method AllocVmcs(v: nat)
      requires Valid()
      modifies this`eptp
      ensures Valid() && View() == NewPage(old(View()), v)
    {
      eptp := eptp - {v};
    }

    /** VMLAUNCH or VMRESUME on a processor; false when it falls through. */
    method ExecEnter(c: nat, resume: bool, checks: Checks) returns (entered: bool)
      requires Valid()
      modifies this`launchState
      ensures Valid() && View() == EnterHardware(old(View()), c, resume, checks)
      ensures entered == !EntryFails(old(View()), c, resume, checks)
    {
      if c !in current || (current[c] in launchState) != resume || checks == BadControls { return false; }
      if checks == Fine { launchState := launchState + {current[c]}; }
      return true;
    }

    /** mini_vmcs_clear */
    method VmcsClear(v: nat)
      requires Valid() && v in loadedCpu
      modifies this`loadedCpu, this`launched, this`active, this`current, this`launchState
      ensures Valid() && View() == Unload(old(View()), v)
      ensures loadedCpu == old(loadedCpu)[v := None] && launched == old(launched)[v := false]
    {
      ghost var before := View();
      var cpu := loadedCpu[v];
      launched := launched[v := false];
      if cpu.None? {
        assert View().vcpus == before.vcpus[v := Vcpu.Vcpu(None, false)];
        return;
      }
      if cpu.value in vmxon { ExecVmClear(cpu.value, v); }
      loadedCpu := loadedCpu[v := None];
      assert View().vcpus == before.vcpus[v := Vcpu.Vcpu(None, false)];
    }

    /** vcpu->loaded_cpu = raw_smp_processor_id() */
    method RecordCpu(v: nat, c: nat)
      requires Valid()
      modifies this`loadedCpu, this`launched
      ensures Valid() && v in loadedCpu && View() == Set(old(View()), v, Some(c), false)
    {
      loadedCpu, launched := loadedCpu[v := Some(c)], launched[v := false];
      assert View().vcpus == Set(old(View()), v, Some(c), false).vcpus;
    }

    /** The vCPU is freed. */
    method Free(v: nat)
      requires Valid() && v !in setup
      modifies this`loadedCpu, this`launched
      ensures Valid() && View() == Drop(old(View()), v)
    {
      loadedCpu, launched := loadedCpu - {v}, launched - {v};
      assert View().vcpus == Drop(old(View()), v).vcpus && setup - {v} == setup;
    }

    /**
     mini_vcpu_vmx_setup of a new vCPU, with the processors its VMCLEAR, its VMPTRLD, its read
     of the processor number and its VMWRITE of the EPTP run on; VMPTRLD or the controls may
     fail, the latter before anything is written.
    */
    method VmxSetup(v: nat, clearOn: nat, loadOn: nat, recordOn: nat, writeOn: nat, ptrldOk: bool, controlsOk: bool)
      returns (ok: bool)
      requires Valid() && v !in loadedCpu && v !in setup
      modifies this`loadedCpu, this`launched, this`active, this`current, this`launchState, this`eptp
      ensures Valid() && ok == (ptrldOk && controlsOk)
      ensures View() == if !ptrldOk then VmClear(NewPage(old(View()), v), clearOn, v)
                        else
                          var written := if controlsOk then Some(writeOn) else None;
                          var s := Setup(old(View()), v, clearOn, loadOn, recordOn, written);
                          if controlsOk then s else Drop(s, v)
    {
      hide View, Valid, VmClear, VmPtrld, VmWrite, NewPage, Set, Unload, Drop;
      AllocVmcs(v);
      ExecVmClear(clearOn, v);
      if !ptrldOk { return false; }
      ExecVmPtrld(loadOn, v);
      RecordCpu(v, recordOn);
      ghost var r := View();
      assert r == SetupLoaded(old(View()), v, clearOn, loadOn, recordOn);
      hide SetupLoaded;
      if !controlsOk {
        assert SetupWritten(r, v, None) == r;
        VmcsClear(v);
        Free(v);
        return false;
      }
      ExecVmWrite(writeOn, v);
      assert SetupWritten(r, v, Some(writeOn)) == View();
      VmcsClear(v);
      return true;
    }

    /** The part of mini_vcpu_run_loop before the loop. */
    method LoadOnCpu(v: nat, c: nat, ptrldOk: bool) returns (status: Status)
      requires Valid() && v in loadedCpu
      modifies this`loadedCpu, this`launched, this`active, this`current, this`launchState
      ensures Valid() && (View(), status) == Load(old(View()), v, c, ptrldOk)
    {
      hide Unload, VmPtrld;
      if c !in vmxon { return NotVmxon; }
      if loadedCpu[v] != Some(c) {
        VmcsClear(v);
        if !ptrldOk { return LoadFailed; }
        ExecVmPtrld(c, v);
        loadedCpu := loadedCpu[v := Some(c)];
        assert View().vcpus == Load(old(View()), v, c, ptrldOk).0.vcpus;
      }
      return Status.Ok;
    }

    /** One entry of the run loop; false on the error paths. */
    method EnterOnce(v: nat, c: nat, checks: Checks) returns (ok: bool)
      requires Valid() && v in loadedCpu
      modifies this`launched, this`launchState
      ensures Valid() && View() == Enter(old(View()), v, c, checks)
      ensures ok == (!EntryFails(old(View()), c, old(launched)[v], checks) && checks == Fine)
    {
      var entered := ExecEnter(c, launched[v], checks);
      if !entered { return false; }
      if !launched[v] { launched := launched[v := true]; }
      assert View().vcpus == Enter(old(View()), v, c, checks).vcpus;
      return checks == Fine;        // bit 31 of the exit reason is only looked at here
    }
  }
}
