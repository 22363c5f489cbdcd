# Verified models of mini-kvm and minivmm

Dafny models of the two hand-written virtual machine monitors in
`phase9-capstone/practice`: **mini-kvm**, an in-kernel hypervisor in miniature, and
**minivmm**, a user-space VMM. `dafny verify dfyconfig.toml` checks the whole project.

Code that updates structures in place is a class here (`EptTable.PageTables`,
`EventSlot.Vcpu`, `VmcsHost.Host`, `BringUp.Host`, `VirtioDev.Device`, `UartDevice.Serial`,
`Msix.Vfio`) whose methods are proved against functions on values; the theorems are about
those functions, about whole runs, and about every interleaving.

## What is modelled

**mini-kvm**

- `Ept`, `EptProperties`, `EptRuns`, `EptTable`: the four-level extended page table, filled
  on demand. The table is a heap of 512-entry pages. Its pages form a tree, the side list
  `tracked[]` holds each of them once, and handling a violation is a one-key update of a
  flat map from frames to pages.
- `Tlb`: any number of VMs and processors, faults at any address, each processor with a cache of translations and
  paging structures that it fills and drops at will (section 29.4.3 of the Intel SDM,
  volume 3C). Neither mapping, nor destroying a VM, nor creating one on a recycled root page
  flushes anything; the flush on each load keeps every loaded vCPU coherent.
- `EventSlot`: the single slot for a pending event and the run loop around it.
- `Vmcs`, `VmcsHost`: which processor a VMCS is active on, which one is current, the launch
  state, and whose page table its EPTP names, against the processor's own rules for VMCLEAR,
  VMPTRLD, VMWRITE, VMLAUNCH and VMRESUME. Set-up runs step by step, each step on a processor
  of its own.
- `Lifetime`: one VM, its reference count, its lock, and vCPU creations and closes
  interleaved step by step.
- `BringUp`: VMXON on every processor, with roll-back, for every order of the callbacks.

**minivmm**

- `Descriptors`, `ScatterGather`, `Ring`, `Virtqueue`, `Service`, `Echo`, `EchoTrip`, `Blk`,
  `VirtioDev`: the split virtqueue device of section 2.7 of Virtio v1.3, its echoing console
  (which serves the receive queue from inside a transmit request) and its block backend.
  `Echo` gives one function for a whole transmit call on both queues; `EchoTrip` proves that
  the guest reads back what it sent.
- `Uart`, `UartProbe`, `UartDevice`, `UartRuns`, `UartDrain`: the 16550A. `Uart` tells what a register
  access means when status registers and the interrupt line are simply functions of the
  state; `UartDevice` proves that the code, which stores and patches them, agrees.
- `Msix`: the shadow MSI-X table and the interrupt routes rebuilt from it.

`Common` and `Arithmetic` are helpers. Shifts and masks of 64-bit words are written as
quotients and remainders; `Ept.EntryBits` and `EventSlot.InfoBits` prove the two forms equal.
Counters of 16 and 32 bits wrap explicitly.

Some promises hold only on a condition that the code does not enforce. Each has a theorem
that states the condition exactly; the further members named are inputs or runs on the other
side of it:

- a fault address maps its own frame iff it is below 2^48 (`EptProperties.MapsTheFaultingFrame`,
  `EptProperties.HighFaultMapsAddressZero`);
- setting up a VMCS leaves it inactive iff the thread stays on one processor between VMPTRLD and
  the read of the processor number (`Vmcs.RecordKeepsIff`, `Vmcs.SetupLeaves`,
  `Vmcs.MovedSetupStaysActive`); set-up does not disable preemption;
- set-up gives a VMCS the EPTP of its own VM iff the VMCS is the current one of the processor the
  VMWRITE runs on (`Vmcs.EptpKeptIff`, `Vmcs.WritesOwnIff`, `Vmcs.MovedWriteGivesOthersTable`);
- loading a VMCS keeps every loaded VMCS current iff no other vCPU is loaded on that
  processor (`Vmcs.SharingBreaksCurrent`, `Vmcs.SharedProcessorEntersOther`), and a launch
  refused by the guest-state checks leaves `launched` wrong (`Vmcs.RefusedLaunchSticks`);
- the log line of `mini_kvm_create_vm` finds the VM alive iff the VM file or a vCPU file is
  still there, that is, unless another thread has closed the new descriptor already
  (`Lifetime.LogFindsVmIff`, `Lifetime.LogAfterClose`); callers keep the condition by not
  closing it before the ioctl returns;
- no accepted interrupt is lost iff no failing VM entry carries one (`EventSlot.ExactlyOnce`,
  `EventSlot.FailedEntryLosesInterrupt`);
- entries less than the queue size apart have ring slots of their own iff the queue size
  divides 2^16 (`Virtqueue.SlotsDistinctIff`, `Virtqueue.SlotsCollide`);
- pending and newly echoed bytes are all in the echo buffer, whatever they are, iff together they
  are at most 8192 (`Ring.PushedAllKeepsIff`, `Ring.PushedOnFull`, `EchoTrip.OverflowShowsTwice`);
- the status byte of a block request goes to the buffer of the chain's last descriptor iff the
  chain has at most 64 descriptors (`Service.StatusInLastBufferIff`,
  `Service.LongChainMisplacesStatus`);
- a block request moves all its bytes iff no segment exceeds what Linux moves in one call
  (`Blk.MovedAllIff`, `Blk.LongSegmentCutShort`);
- the UART handler finishes iff the bytes it must read are not hidden by DLAB
  (`UartDrain.DrainsIff`, `UartDrain.StuckUnderDlab`, `UartDrain.DlabAfterInput`);
- a write that starts in a vector control word keeps routes and table in agreement iff it
  stays in its entry (`Msix.KeepsIff`, `Msix.CrossingLosesAgreement`).

The flush on every load is enforced: the module loads only where all-context INVEPT is
supported, and the run loop loads only on processors in VMX operation, where it cannot fail.
`Tlb.SafeUnflushedIff` and `Tlb.UnflushedLoadLeavesStaleEntry` say what it is for.

Where comments and code differ, the models follow the code. `mini-kvm.h:118` calls
`enable_err` the first error code; callbacks that run at once may overwrite it, so
`BringUp.Host.EnableAll` says that it is an error some CPU met, not which.

## Model

| member | source | states |
|---|---|---|
| Ept.PackRoundTrip | phase9-capstone/practice/mini-kvm/ept.c:209-224 | packing a page frame number below 2^40 into a leaf or non-leaf entry and masking it out again gives it back, and the entry is one the processor accepts: bits 2:0 all set, bits 11:3 zero in a non-leaf entry and memory type 6 in a leaf |
| Ept.EntryBits | phase9-capstone/practice/mini-kvm/ept.c:199-224 | the shifts, masks and ors of the walk on 64-bit words are the quotients and remainders of the model |
| Ept.WriteEntry | phase9-capstone/practice/mini-kvm/ept.c:221 | writing one absent (or last-level) entry of a tree changes the node at exactly that level and prefix and no other, anywhere in the table |
| Ept.LinkAddsNode | phase9-capstone/practice/mini-kvm/ept.c:209-222 | linking a fresh page adds that one node and changes no other node or translation |
| Ept.LinkKeepsShape | phase9-capstone/practice/mini-kvm/ept.c:209-222 | after a link the pages still form a tree without sharing, `tracked[]` lists exactly the non-root pages once each, non-leaf bits 7:3 are zero |
| Ept.WalkLinks | phase9-capstone/practice/mini-kvm/ept.c:209-225 | one missing level filled in keeps the tree, consumes one page, and leaves one less missing |
| Ept.WalkKeeps | phase9-capstone/practice/mini-kvm/ept.c:192-227 | the walk keeps the shape even when it stops half-way, changes no existing node, adds nodes on the faulting path only, and reaches the leaf exactly when pages and tracking room suffice for what is missing |
| Ept.CoversExactly | phase9-capstone/practice/mini-kvm/ept.c:243-248 | the wrapping 64-bit range test accepts exactly the slot's addresses, and none at all for a slot that runs past 2^64 |
| Ept.LeafMaps | phase9-capstone/practice/mini-kvm/ept.c:258 | writing a leaf translates that one frame to the given page and leaves every node and other frame alone |
| Ept.LeafKeepsShape | phase9-capstone/practice/mini-kvm/ept.c:258 | a leaf is readable, writable, executable and of memory type 6, and leaves tree, tracking and all other entries intact |
| EptProperties.FreshTableShape | phase9-capstone/practice/mini-kvm/ept.c:137-159 | a new table has the shape and translates nothing |
| EptProperties.ViolationKeeps | phase9-capstone/practice/mini-kvm/ept.c:233-261 | a violation at any address keeps the shape, only ever adds nodes, maps on success the frame of the address's low 48 bits to `slot->pages[idx]` and nothing otherwise |
| EptProperties.ViolationRefinesMap | phase9-capstone/practice/mini-kvm/ept.c:192-260 | seen as a flat map of all frames below 2^36, a handled violation at any address is exactly one key update, at the frame of its low 48 bits, and a failed one changes nothing |
| EptProperties.ViolationSucceeds | phase9-capstone/practice/mini-kvm/ept.c:214-218 | inside the slot, at any address, it fails exactly when the missing table pages exceed the free pages or the tracking room |
| EptProperties.ViolationIsOver | phase9-capstone/practice/mini-kvm/ept.c:209-258 | after a handled violation the walk for the address finds on each of the four levels a present entry with all three access rights and no reserved bit set, so that the access does not fault again |
| EptProperties.ViolationOnlyAdds | phase9-capstone/practice/mini-kvm/ept.c:240-258 | with a slot of at most 2^36 pages no violation, at any address, changes a node or mapping that is there |
| EptProperties.WalkIgnoresHighBits | phase9-capstone/practice/mini-kvm/ept.c:194-199 | the walk for a frame is the walk for its low 36 bits |
| EptProperties.MapsTheFaultingFrame | phase9-capstone/practice/mini-kvm/ept.c:240-258 | after a handled violation the faulting frame translates to its page iff it is below 2^36; otherwise the low frame was mapped instead |
| EptProperties.HighFaultMapsAddressZero | phase9-capstone/practice/mini-kvm/ept.c:240-258 | a concrete slot at 2^48: the fault is handled, address 0 is mapped, and the faulting address still is not |
| EptRuns.RunRefinesMap | phase9-capstone/practice/mini-kvm/ept.c:192-260 | after any sequence of violations at any addresses, with any allocation failures, exactly the frames (low 36 bits) whose violation succeeded translate, each to the page of a slot address with those low bits, and each to its own if all addresses are below 2^48 |
| EptRuns.EntriesAccepted | phase9-capstone/practice/mini-kvm/ept.c:192-260 | after every run of violations each entry of each table page is zero, or readable, writable and executable with bits 11:3 zero above the leaves and memory type write-back in a leaf |
| EptRuns.PathNodeCount | phase9-capstone/practice/mini-kvm/ept.c:194-199 | a set of addresses needs as many tables as it has distinct values of gpa>>39, gpa>>30 and gpa>>21 |
| EptRuns.TrackedCount | phase9-capstone/practice/mini-kvm/ept.c:219 | `nr_tracked` is the number of nodes below the root |
| EptRuns.TablePageCount | phase9-capstone/practice/mini-kvm/ept.c:192-227 | over any run `nr_tracked` lies between what the low 48 bits of the mapped and of the walked addresses need, and equals it when no walk failed |
| EptRuns.RoomForPath | phase9-capstone/practice/mini-kvm/ept.c:214 | tracked pages plus those a frame still misses never exceed what the whole address set needs |
| EptRuns.SmallSlotNeverHitsLimit | phase9-capstone/practice/mini-kvm/ept.c:214 | in a slot whose addresses, by their low 48 bits, need at most 1024 tables, in every fault order, a violation succeeds exactly when enough free pages are left: the tracking limit never refuses |
| EptTable.PageTables.Init | phase9-capstone/practice/mini-kvm/ept.c:137-159 | sets up a fresh table and the EPTP for its root (write-back, four levels, no other bit), or changes nothing when no page is free |
| EptTable.PageTables.WalkEntry | phase9-capstone/practice/mini-kvm/ept.c:192-227 | the in-place loop computes the walk function and returns the last-level entry of the right node |
| EptTable.PageTables.AddTable | phase9-capstone/practice/mini-kvm/ept.c:214-222 | allocating, tracking and linking a page in place is the link function, or nothing |
| EptTable.PageTables.HandleFault | phase9-capstone/practice/mini-kvm/ept.c:233-261 | the in-place handler computes table, status and remaining pages of the violation function; when it reports success all four entries on the way allow reading, writing and executing |
| EptTable.PageTables.Destroy | phase9-capstone/practice/mini-kvm/ept.c:161-184 | frees every page of the table, each exactly once and only pages in use, and leaves nothing allocated |
| Tlb.MayCache | phase9-capstone/practice/mini-kvm/vcpu.c:113-135 | what the model grants the processor: it may cache every node of a loaded vCPU's table whose way down it has cached |
| Tlb.MayDrop | phase9-capstone/practice/mini-kvm/vcpu.c:113-135 | and drop any entry at any time, alone |
| Tlb.FillReadsTable | phase9-capstone/practice/mini-kvm/vcpu.c:113-135 | a hardware walk that starts from cached entries of a coherent cache reads the current table, never recycled memory |
| Tlb.FaultKeeps | phase9-capstone/practice/mini-kvm/ept.c:209-222 | mapping without a flush, for a fault at any address, keeps every loaded processor's cache coherent and tables of different VMs separate |
| Tlb.CreateKeeps | phase9-capstone/practice/mini-kvm/ept.c:137-159 | creating a VM on a root page with stale cached entries keeps coherence, since its vCPU is loaded nowhere |
| Tlb.LoadKeeps | phase9-capstone/practice/mini-kvm/vcpu.c:113-135 | loading with the flush establishes coherence on the new processor |
| Tlb.StepKeeps | phase9-capstone/practice/mini-kvm/vcpu.c:113-135 | every step of the system keeps the coherence invariant |
| Tlb.CachedEntriesAreCurrent | phase9-capstone/practice/mini-kvm/vcpu.c:113-135 | in every run of the loaded module (which demands all-context INVEPT, and loads only in VMX operation), for every interleaving of faults at any addresses, cache fills and drops, loads, closes, destroys and creates, what a processor has cached under a loaded vCPU's EPTP is what its table says now |
| Tlb.LoadNeedsFlush | phase9-capstone/practice/mini-kvm/vcpu.c:118-130 | loading a vCPU keeps coherence iff it flushes or the processor's entries happen to agree with the table already |
| Tlb.SafeUnflushedIff | phase9-capstone/practice/mini-kvm/vcpu.c:122-130 | what the flush is for: a load without one would be safe for every table that can be on that root page iff nothing is cached under the root |
| Tlb.UnflushedLoadLeavesStaleEntry | phase9-capstone/practice/mini-kvm/vcpu.c:122-130 | what the flush is for: a run in which an unflushed load on a recycled root page would leave a loaded vCPU with an entry its table does not have |
| EventSlot.InfoFields | phase9-capstone/practice/mini-kvm/interrupt.c:67-68 | valid bit, type and vector read back from a composed information word |
| EventSlot.InfoBits | phase9-capstone/practice/mini-kvm/interrupt.c:129-134 | the bit operations on the information word are the arithmetic of the model |
| EventSlot.InjectKeeps | phase9-capstone/practice/mini-kvm/interrupt.c:55-71 | injection accepts exactly vectors 32 to 255 into an empty slot, as 0x80000000 + vector, is busy exactly on a full one, and keeps the account of accepted interrupts |
| EventSlot.TurnKeeps | phase9-capstone/practice/mini-kvm/vcpu.c:152-282 | one take, entry and reconciliation keeps accepted = gone + held, in order, and loses an interrupt only through a failed entry |
| EventSlot.RunKeeps | phase9-capstone/practice/mini-kvm/vcpu.c:137-390 | so does a whole KVM_RUN over any sequence of exits, and it loses an interrupt iff an entry it gets to fails while the slot holds one |
| EventSlot.RunStops | phase9-capstone/practice/mini-kvm/vcpu.c:284-382 | a run is its turns up to the first exit not handled: a failed entry, a guest exception, failed I/O, a failed EPT violation, HLT, a triple fault or any other reason; external interrupts, NMIs, I/O, handled violations and CPUID go round again |
| EventSlot.Redelivered | phase9-capstone/practice/mini-kvm/vcpu.c:137-390 | an interrupt whose delivery is cut short by handled exits, however often, is delivered by the first entry of the same KVM_RUN that gets that far |
| EventSlot.ExactlyOnce | phase9-capstone/practice/mini-kvm/interrupt.c:55-165 | over every sequence of injections and runs the accepted vectors are, in order, those gone followed by at most one held; all those gone were delivered iff no failing entry carried one |
| EventSlot.FailedEntryLosesInterrupt | phase9-capstone/practice/mini-kvm/vcpu.c:207-272 | for every acceptable vector, a run whose entry fails loses the interrupt |
| EventSlot.NmiNeverDisplaces | phase9-capstone/practice/mini-kvm/interrupt.c:151-165 | an NMI exit that interrupted a delivery leaves that interrupt in the slot; otherwise the NMI (0x80000202) is in the slot unless NMIs are blocked |
| EventSlot.Vcpu.InjectIrq | phase9-capstone/practice/mini-kvm/interrupt.c:55-71 | the in-place method is the injection function, error cases included |
| EventSlot.Vcpu.TakeIntrInfo | phase9-capstone/practice/mini-kvm/interrupt.c:77-83 | returns the slot and empties it |
| EventSlot.Vcpu.CompleteIntrInfo | phase9-capstone/practice/mini-kvm/interrupt.c:122-143 | the slot afterwards is what the IDT-vectoring information alone prescribes |
| EventSlot.Vcpu.Reinject | phase9-capstone/practice/mini-kvm/interrupt.c:151-165 | the slot changes only if it was empty and NMIs are not blocked |
| EventSlot.Vcpu.RunLoop | phase9-capstone/practice/mini-kvm/vcpu.c:137-390 | the loop over in-place calls, which decides by its own cases whether to go on, is the run function |
| Vmcs.UnloadIs | phase9-capstone/practice/mini-kvm/vmx.c:204-237 | unloading leaves the VMCS active nowhere, clear and not current, and touches no other VMCS |
| Vmcs.RecordKeepsIff | phase9-capstone/practice/mini-kvm/vmx.c:704-707 | recording the processor number keeps "active exactly where loaded" iff it is read on the processor that did VMPTRLD |
| Vmcs.SetupLeaves | phase9-capstone/practice/mini-kvm/vmx.c:685-770 | a whole set-up, its steps on any processors, leaves the VMCS unloaded and active nowhere iff VMPTRLD and the read of the processor number ran on the same one, else active on the former; its EPTP names its own table iff the VMWRITE ran where VMPTRLD did |
| Vmcs.MovedSetupStaysActive | phase9-capstone/practice/mini-kvm/vmx.c:704-707 | a concrete run in which set-up moves in between and the first entry finds the VMCS active on two processors |
| Vmcs.EptpKeptIff | phase9-capstone/practice/mini-kvm/vmx.c:714-744 | every step keeps "each vCPU that is set up has its own EPTP, none has it before" iff it is no VMWRITE on a processor where another VMCS, or none, is current |
| Vmcs.WritesOwnIff | phase9-capstone/practice/mini-kvm/vmx.c:714-744 | where no processors were shared and no set-up moved, that is, iff the VMWRITE runs on the processor the VMCS was loaded on |
| Vmcs.MovedWriteGivesOthersTable | phase9-capstone/practice/mini-kvm/vmx.c:707-744 | a concrete run in which set-up moves before the VMWRITE and a vCPU of another VM then enters with the page table of the new one |
| Vmcs.ActiveKept | phase9-capstone/practice/mini-kvm/vcpu.c:93-135 | every step of set-up, migration, entry and close keeps "active exactly where loaded, and only in VMX operation" iff it is not a set-up that moved |
| Vmcs.CurrentKept | phase9-capstone/practice/mini-kvm/vcpu.c:113-135 | without sharing and without moved set-ups, every step keeps every loaded VMCS, also one being set up, the current one of its processor |
| Vmcs.LaunchKept | phase9-capstone/practice/mini-kvm/vcpu.c:196-217 | every step keeps `launched` equal to the processor's launch state, but for VMCSs whose launch was refused |
| Vmcs.SharingBreaksCurrent | phase9-capstone/practice/mini-kvm/vcpu.c:113-117 | loading keeps all loaded VMCSs current iff no other vCPU is loaded on that processor |
| Vmcs.RunKeeps | phase9-capstone/practice/mini-kvm/vcpu.c:67-399 | the invariants on activity, current VMCS, launch state and EPTP over every run of step-wise set-ups, runs, migrations and closes, each under its own condition on the run |
| Vmcs.EntryIsRight | phase9-capstone/practice/mini-kvm/vcpu.c:93-217 | at every entry of every run the processor did VMXON; if every set-up wrote to its own VMCS the EPTP is the vCPU's own; if no set-up moved before the read of the processor number the VMCS is active on exactly that processor; if also no processor was shared it is current there, and the right one of VMLAUNCH and VMRESUME is used iff no launch of it was refused |
| Vmcs.SharedProcessorEntersOther | phase9-capstone/practice/mini-kvm/vcpu.c:113 | a concrete run with two vCPUs in which one enters the other's VMCS |
| Vmcs.RefusedLaunchSticks | phase9-capstone/practice/mini-kvm/vcpu.c:216-234 | a concrete run in which a launch refused by the guest-state checks makes later entries use VMRESUME and fall through |
| VmcsHost.Host.VmcsClear | phase9-capstone/practice/mini-kvm/vmx.c:204-237 | clearing in place, on the processor that last loaded the VMCS, is the unload function |
| VmcsHost.Host.VmxSetup | phase9-capstone/practice/mini-kvm/vmx.c:685-773 | set-up in place, on the processors its steps run on, VMWRITE included, and with its two failures, is the set-up function |
| VmcsHost.Host.LoadOnCpu | phase9-capstone/practice/mini-kvm/vcpu.c:93-135 | the start of KVM_RUN in place is the load function, with its error results |
| VmcsHost.Host.EnterOnce | phase9-capstone/practice/mini-kvm/vcpu.c:196-234 | one entry in place is the enter function, and reports success exactly when the guest ran |
| Lifetime.HoldersStep | phase9-capstone/practice/mini-kvm/vcpu.c:600-695 | a step adds and removes exactly the holders it says, none of them twice |
| Lifetime.CountedKept | phase9-capstone/practice/mini-kvm/vcpu.c:600-618 | every step keeps: refcount equals the number of holders while the VM lives, and it was released once when there are none |
| Lifetime.StepKeeps | phase9-capstone/practice/mini-kvm/vcpu.c:620-695 | every step of every creation, close and use keeps counting, lock, pointer and ownership invariants |
| Lifetime.StepFindsVmAlive | phase9-capstone/practice/mini-kvm/vcpu.c:583-618 | a step that can run, other than the log line of VM creation, finds the VM alive |
| Lifetime.NothingFreedIsTouched | phase9-capstone/practice/mini-kvm/vcpu.c:473-499 | in every interleaving no step but the log line of VM creation touches a released VM, and no step that names a vCPU object, other than the mini_kvm_put after its kfree, finds it freed |
| Lifetime.LogFindsVmIff | phase9-capstone/practice/mini-kvm/vcpu.c:766-775 | in every interleaving the log line of VM creation finds the VM alive iff the VM file or a vCPU file is still there; it comes once, after the file was installed |
| Lifetime.LogAfterClose | phase9-capstone/practice/mini-kvm/vcpu.c:766-775 | a concrete run in which the new descriptor is closed first and the log line reads a freed VM |
| Lifetime.RefcountIsHolders | phase9-capstone/practice/mini-kvm/vcpu.c:610-618 | in every reachable state refcount is the number of open files plus creations that hold a reference |
| Lifetime.ReleasedByTheLastHolder | phase9-capstone/practice/mini-kvm/vcpu.c:600-608 | in every reachable state the VM was released once if it has no holder and never otherwise |
| Lifetime.OneVcpu | phase9-capstone/practice/mini-kvm/vcpu.c:668-675 | `kvm->vcpu` never dangles and no two vCPUs of a VM stand published or open at once |
| Lifetime.NothingLeaks | phase9-capstone/practice/mini-kvm/vcpu.c:746-776 | once the VM file is gone and all vCPU files are closed, the VM was released once and every vCPU object allocated was freed |
| Lifetime.PublishIff | phase9-capstone/practice/mini-kvm/vcpu.c:667-675 | in every reachable state a creation that holds the lock is refused iff some vCPU file stands (open, closing, or not yet cleared); otherwise the pointer becomes its own and it keeps the lock |
| Lifetime.RefusedFor | phase9-capstone/practice/mini-kvm/vcpu.c:667-683 | nothing else makes a creation fail after it took its reference but a descriptor that cannot be had |
| Lifetime.CreationGoesThrough | phase9-capstone/practice/mini-kvm/vcpu.c:620-688 | from every reachable state with the VM open, the lock free and no vCPU file standing, a creation left alone ends with its file open, the pointer set, one reference more and nothing freed |
| Lifetime.CloseGoesThrough | phase9-capstone/practice/mini-kvm/vcpu.c:473-499 | from every reachable state with the file open and the lock free, closing it left alone clears the pointer, frees the vCPU and gives back one reference, after which another creation goes through |
| Lifetime.NobodyIsStuck | phase9-capstone/practice/mini-kvm/vcpu.c:473-499 | a creation or a release under way can always take its next step, or waits for the lock |
| Lifetime.LockHolderGoesOn | phase9-capstone/practice/mini-kvm/vcpu.c:665-686 | in every reachable state whoever holds the lock can take his next step |
| BringUp.Host.EnableAct | phase9-capstone/practice/mini-kvm/main.c:273-299 | checks in source order with roll-back of CR4.VMXE; on success the CPU is in VMX operation on its own page, CR4.VMXE set, and marked; CR4.VMXE is never cleared in VMX operation |
| BringUp.Host.EnableEach | phase9-capstone/practice/mini-kvm/main.c:426 | for every interleaving of the callbacks: no error iff no online CPU has a reason to fail, and then all entered; an error is one some online CPU met |
| BringUp.Host.DisableOne | phase9-capstone/practice/mini-kvm/main.c:342-361 | exactly the CPUs marked leave VMX operation, by VMXOFF before CR4.VMXE is cleared |
| BringUp.Host.AllocateRegions | phase9-capstone/practice/mini-kvm/main.c:404-422 | every possible CPU gets its page, or none keeps one and all taken pages are given back |
| BringUp.Host.FreeRegions | phase9-capstone/practice/mini-kvm/main.c:432-435 | frees each region once, only pages in use |
| BringUp.Host.EnableAll | phase9-capstone/practice/mini-kvm/main.c:393-443 | all or nothing: success iff every page was given and no online CPU fails, with every online CPU in VMX operation on its own page and the count the number online; otherwise CR4.VMXE, VMX operation, pages, marks and count on every CPU are as before |
| BringUp.Host.DisableAll | phase9-capstone/practice/mini-kvm/main.c:445-462 | undoes a successful enabling exactly, and does nothing otherwise |
| Descriptors.InRamExactly | phase9-capstone/practice/minivmm.c:1019-1024 | the wrapping bounds test accepts exactly the buffers that lie in guest memory |
| Descriptors.FlagBits | phase9-capstone/practice/minivmm.c:1074-1082 | bit 0 of a descriptor's flags says that the chain goes on, bit 1 that the buffer is writable, and no other bit matters |
| Descriptors.NoRepeat | phase9-capstone/practice/minivmm.c:1067-1083 | a chain that ends visits no descriptor twice |
| Descriptors.Pigeonhole | phase9-capstone/practice/minivmm.c:1068-1069 | distinct numbers below n are at most n |
| Descriptors.ChainFitsTable | phase9-capstone/practice/minivmm.c:1068-1069 | so a chain that ends is no longer than the table, and the guard never refuses one |
| Descriptors.NotComplete | phase9-capstone/practice/minivmm.c:1068-1073 | a chain longer than the table, or that meets an unusable descriptor, never ends in bounds |
| Descriptors.GatherChain | phase9-capstone/practice/minivmm.c:1056-1086 | terminates on every table, cyclic ones included; succeeds iff the chain ends with every index and buffer in bounds; yields its first min(64, length) buffers |
| Ring.Push | phase9-capstone/practice/minivmm.c:1135-1139 | on a ring that is not full, a write at the wrapping head appends to the queue |
| Ring.Pop | phase9-capstone/practice/minivmm.c:1140-1146 | a read at the wrapping tail takes the oldest |
| Ring.PushedIs | phase9-capstone/practice/minivmm.c:1135-1139 | however full the ring, a write appends and overwrites exactly the pending bytes in the same slot, until 2^32 - 1 pending bytes wrap to none |
| Ring.PushedOnFull | phase9-capstone/practice/minivmm.c:1135-1139 | so a full ring loses its oldest byte and shows the new one twice |
| Ring.PushedAllKeepsIff | phase9-capstone/practice/minivmm.c:1135-1139 | for every ring size, m pending bytes and k more are all there afterwards, whatever they are, iff m + k fits |
| ScatterGather.ScatterReadsBack | phase9-capstone/practice/minivmm.c:1175-1187 | data stored across disjoint segments reads back as stored |
| ScatterGather.ScatterFrame | phase9-capstone/practice/minivmm.c:1175-1187 | and nothing apart from the segments changes |
| ScatterGather.ChainSliceStep | phase9-capstone/practice/minivmm.c:1095-1106 | the slice of a segment list splits at each segment boundary |
| ScatterGather.ChainRead | phase9-capstone/practice/minivmm.c:1089-1107 | copies exactly the slice [off, off+len) of the concatenated segments, as far as it exists, and leaves the rest of the destination |
| Blk.MovedAllIff | phase9-capstone/practice/minivmm.c:1214-1236 | a request moves all its bytes iff no segment exceeds what one pread or pwrite moves |
| Blk.HeaderBytes | phase9-capstone/practice/minivmm.c:1199-1204 | type and sector of a request are the little-endian bytes 0-3 and 8-15 of its header |
| Blk.OtherRequests | phase9-capstone/practice/minivmm.c:1195-1245 | a flush reports success, an unknown type status 2, a request of fewer than two buffers nothing; none touches data or file |
| Blk.NegativeOffset | phase9-capstone/practice/minivmm.c:1204-1238 | a transfer at a byte offset of 2^63 or more moves nothing and reports status 1 |
| Blk.LongSegmentCutShort | phase9-capstone/practice/minivmm.c:1214-1236 | a concrete segment, one byte above the limit and within guest memory, that is cut short |
| Blk.WriteIsFlat | phase9-capstone/practice/minivmm.c:1226-1238 | writing segment by segment, short writes included, is one write of the concatenation up to where the request stops |
| Blk.ReadIsScatter | phase9-capstone/practice/minivmm.c:1211-1225 | reading segment by segment, short reads included, stores the file's bytes across the segments and counts them, up to the end of the file or where the request stops |
| Blk.WriteRequest | phase9-capstone/practice/minivmm.c:1190-1238 | a write request changes the file by the data it moves and guest memory by the status byte |
| Blk.ReadRequest | phase9-capstone/practice/minivmm.c:1190-1225 | a read request delivers the file's bytes it moves, keeps the status byte, and reports their number plus one, modulo 2^32 |
| Blk.WriteThenRead | phase9-capstone/practice/minivmm.c:1190-1245 | what is written under one segmentation is read back identically under any other, as far as both requests move bytes: wholly when no segment exceeds the limit |
| Virtqueue.RingTests | phase9-capstone/practice/minivmm.c:1112-1118 | the two wrapping tests of a ring accept it iff header and elements lie in memory, or what comes after an address wrap does |
| Virtqueue.UsedRingAfter | phase9-capstone/practice/minivmm.c:1110-1124 | progress on a queue counts its completions in the used index, modulo 2^16, iff the used ring lies in memory, and otherwise changes no used element |
| Virtqueue.PushAllStands | phase9-capstone/practice/minivmm.c:1110-1124 | for every queue size, a completion stands in the used ring unless a later one was written to its slot, and the index counts them all |
| Virtqueue.PushAllFillsRing | phase9-capstone/practice/minivmm.c:1110-1124 | with a queue size that divides 2^16 the last `num` completions stand where the driver looks, across any number of wraps |
| Virtqueue.AdvancedTransitive | phase9-capstone/practice/minivmm.c:1282-1295 | progress made in two goes, the re-entrant one included, is the progress made in one |
| Virtqueue.SlotsDistinctIff | phase9-capstone/practice/minivmm.c:1121-1123 | entries less than the queue size apart, with 16-bit indices on both sides, have slots of their own iff the queue size divides 2^16 |
| Virtqueue.SlotsCollide | phase9-capstone/practice/minivmm.c:1121-1123 | for every other queue size, two such entries that share a slot at the wrap |
| Virtqueue.TakeOne | phase9-capstone/practice/minivmm.c:1282-1295 | one turn takes the oldest waiting entry and completes it exactly when its chain gathers |
| Service.StatusInLastBufferIff | phase9-capstone/practice/minivmm.c:1074-1079 | the buffer that receives the status byte is that of the last descriptor iff the chain has at most 64 descriptors |
| Service.LongChainMisplacesStatus | phase9-capstone/practice/minivmm.c:1074-1079 | a concrete chain of 65 descriptors whose status byte goes to the 64th buffer |
| Service.ServeNext | phase9-capstone/practice/minivmm.c:1282-1295 | serving n+1 entries is serving n and then the next, in ring order, each request with its own content of the uninitialised header |
| Echo.DeliverIs | phase9-capstone/practice/minivmm.c:1247-1295 | a service of the receive queue that takes entries only while input is pending, and stops only when none is or none waits, has one possible outcome: number of entries, completions, memory and echo buffer |
| Echo.EchoesNext | phase9-capstone/practice/minivmm.c:1282-1295 | a transmit call of n turns followed by one more turn is the call of n+1 turns: bytes sent, losses, memory, echo buffer, and what both used rings got, through the re-entrant service |
| Echo.EffectNext | phase9-capstone/practice/minivmm.c:1282-1295 | the same for either queue of either device |
| EchoTrip.FedFrame | phase9-capstone/practice/minivmm.c:1175-1187 | serving receive chains touches no waiting transmit buffer, if none overlaps a receive buffer |
| EchoTrip.TransmittedFits | phase9-capstone/practice/minivmm.c:1163-1174 | a transmit call takes no more receive entries than wait; it loses nothing while pending and sent bytes fit in 8192 |
| EchoTrip.TransmittedAsWere | phase9-capstone/practice/minivmm.c:1163-1174 | if no waiting receive buffer overlaps a waiting transmit buffer, a call sends the chains as they were at its start, deliveries in between notwithstanding |
| EchoTrip.TransmittedTrip | phase9-capstone/practice/minivmm.c:1163-1188 | without a loss, and if no receive buffers overlap: what the used lengths say was received, read back from memory in order of completion, followed by what is pending, is what was pending followed by what was sent |
| EchoTrip.EchoIsExact | phase9-capstone/practice/minivmm.c:1163-1188 | so if no waiting buffers overlap and everything fits, the guest reads back from its receive buffers, in order and followed by what is still pending, exactly what was pending and what its transmit buffers held |
| EchoTrip.CallIsExact | phase9-capstone/practice/minivmm.c:1265-1298 | the same of a whole call of service_vq on the transmit queue |
| EchoTrip.OverflowShowsTwice | phase9-capstone/practice/minivmm.c:1163-1174 | a concrete transmit on a full buffer: the oldest byte is gone and the new one will be read twice |
| VirtioDev.Device.ConPushAll | phase9-capstone/practice/minivmm.c:1135-1139 | states the pending bytes afterwards however full the buffer (`Ring.PushedAllKeepsIff` says when they are all there), and marks a loss exactly when they do not fit into 8192 |
| VirtioDev.Device.ConPop | phase9-capstone/practice/minivmm.c:1140-1146 | takes the oldest byte, or reports that there is none |
| VirtioDev.Device.FillSegment | phase9-capstone/practice/minivmm.c:1178-1186 | one segment takes the next bytes until either runs out |
| VirtioDev.Device.Receive | phase9-capstone/practice/minivmm.c:1175-1187 | delivers the oldest pending bytes across the segments and leaves the others pending |
| VirtioDev.Device.Transmit | phase9-capstone/practice/minivmm.c:1166-1171 | sends the concatenated segments and pushes them on the echo buffer, losing some iff they do not fit beside those pending; otherwise everything sent is everything delivered followed by the buffer |
| VirtioDev.Device.ConsoleHandle | phase9-capstone/practice/minivmm.c:1163-1188 | a transmit sends its bytes, marks a loss iff they do not fit, and delivers to the waiting receive chains exactly what the delivery function says, completions included; a receive delivers the oldest bytes and never loses any |
| VirtioDev.Device.PushUsed | phase9-capstone/practice/minivmm.c:1110-1124 | the in-place update writes the element and steps the index when usedGpa + 4 + 8 num is within memory, and does nothing otherwise |
| VirtioDev.Device.BlkHandle | phase9-capstone/practice/minivmm.c:1190-1245 | the in-place loops compute the block request function |
| VirtioDev.Device.GatherHead | phase9-capstone/practice/minivmm.c:1285-1289 | takes the head of the oldest waiting entry and gathers its chain iff it is complete |
| VirtioDev.Device.HandleNext | phase9-capstone/practice/minivmm.c:1285-1290 | gathers the oldest waiting chain and hands it to the device, which for the receive queue has input to deliver, with the effect of that one chain on memory, file, output, echo buffer and both queues |
| VirtioDev.Device.ServeOne | phase9-capstone/practice/minivmm.c:1282-1295 | one turn advances its queue by one entry, completes it iff it gathers (with an unmapped used ring nothing is written), and has the effect of that one chain, loss mark and re-entrant deliveries included |
| VirtioDev.Device.ServiceVq | phase9-capstone/practice/minivmm.c:1265-1298 | terminates; takes waiting entries strictly in order, receive entries only while input is pending, and pushes exactly the heads whose chain gathered, once each and in that order, with both 16-bit indices wrapping (with an unmapped used ring nothing is written, though entries are taken and the interrupt raised); stops only when nothing waits or the echo buffer is empty; interrupts iff a chain gathered; block requests each see their own content of the uninitialised header; a transmit call is the transmission function on both queues, memory, echo buffer and output |
| Uart.IirIs | phase9-capstone/practice/minivmm.c:264-282 | IIR names the highest-priority raised source, says none exactly when none is raised, and its FIFO bits match FCR |
| UartProbe.ReadsBack | phase9-capstone/practice/minivmm.c:355-367 | line control, modem control and scratch register read back as written and change nothing else; writes to the status registers do nothing |
| UartProbe.IerReadsBack | phase9-capstone/practice/minivmm.c:323-335 | four interrupt enables read back and the upper bits do not |
| UartProbe.DivisorReadsBack | phase9-capstone/practice/minivmm.c:306-335 | with DLAB set, registers 0 and 1 are the divisor, and nothing is sent, received or enabled |
| UartProbe.LoopTest | phase9-capstone/practice/minivmm.c:418-427 | in loop-back OUT2, OUT1, DTR and RTS come back as DCD, RI, DSR and CTS |
| UartProbe.ModemStatus | phase9-capstone/practice/minivmm.c:418-434 | otherwise the lines are read and their deltas cleared |
| UartProbe.FifoControl | phase9-capstone/practice/minivmm.c:336-354 | the top bits of IIR say whether the FIFO was enabled; clears happen when asked for or when the enable bit toggles |
| UartProbe.Capacity | phase9-capstone/practice/minivmm.c:290-300 | 1023 bytes are held, the next is lost and marked |
| UartProbe.Sends | phase9-capstone/practice/minivmm.c:306-322 | a byte leaves at once, or comes back in loop-back, and "transmitter empty" is raised |
| UartProbe.Ids | phase9-capstone/practice/minivmm.c:264-282 | IIR reports 6, 4, 2, 0 by priority and 1 for none; reading it acknowledges exactly the id 2 |
| UartProbe.LineStatus | phase9-capstone/practice/minivmm.c:408-416 | LSR shows data ready, overrun and an empty transmitter, and reading it forgets the overrun |
| UartProbe.ReceiverBuffer | phase9-capstone/practice/minivmm.c:376-390 | register 0 takes the oldest byte, 0 if there is none |
| UartProbe.PowerOn | phase9-capstone/practice/minivmm.c:226-231 | the initial registers, with no interrupt raised |
| UartDevice.Serial.constructor | phase9-capstone/practice/minivmm.c:226-231 | the initial registers are the reset state, with the line low |
| UartDevice.Serial.UpdateIrq | phase9-capstone/practice/minivmm.c:264-287 | afterwards IIR and the line fit the state, and at most one level change was given to KVM, so changes strictly alternate starting with high |
| UartDevice.Serial.Recv | phase9-capstone/practice/minivmm.c:290-300 | a byte joins the receive queue of capacity 1023, or is lost and sets OE |
| UartDevice.Serial.Input | phase9-capstone/practice/minivmm.c:500-512 | every read of the terminal takes the port from a coherent state to a coherent state, its bytes received one by one |
| UartDevice.Serial.WriteThr | phase9-capstone/practice/minivmm.c:306-322 | transmits or loops back, raises THRI, and leaves every status register coherent |
| UartDevice.Serial.WriteIer | phase9-capstone/practice/minivmm.c:323-335 | sets the four enables, raises THRI if enabled, coherently |
| UartDevice.Serial.WriteFcr | phase9-capstone/practice/minivmm.c:336-354 | clears what the value or a FIFO toggle says, keeps the kept bits, coherently |
| UartDevice.Serial.WriteReg | phase9-capstone/practice/minivmm.c:302-368 | every register write is the write function of the simple UART, and sends exactly the bytes it transmits to the console |
| UartDevice.Serial.ReadRbr | phase9-capstone/practice/minivmm.c:376-390 | returns the oldest byte and withdraws DR exactly when it was the last |
| UartDevice.Serial.ReadIir | phase9-capstone/practice/minivmm.c:395-401 | returns IIR and acknowledges THRI exactly when it reports it |
| UartDevice.Serial.ReadReg | phase9-capstone/practice/minivmm.c:370-438 | every register read is the read function of the simple UART |
| UartRuns.ReceiverStep | phase9-capstone/practice/minivmm.c:290-390 | each access moves bytes only from arrival to queue to reader or clear, and OE is set exactly by a rejection and cleared exactly by reading LSR |
| UartRuns.TransmitStep | phase9-capstone/practice/minivmm.c:311-334 | THRI is raised by exactly the arming writes and withdrawn by exactly the acknowledgements |
| UartRuns.LsrSays | phase9-capstone/practice/minivmm.c:292-297 | DR is set iff a byte is pending, OE iff one was lost |
| UartRuns.RunKeeps | phase9-capstone/practice/minivmm.c:290-438 | over every run, loop-back included, the accepted bytes are those read or cleared, in order, followed by those pending; OE marks exactly the runs with a loss since LSR was read; THRI acknowledgements never exceed arming writes; no modem delta arises |
| UartDrain.RoundServices | phase9-capstone/practice/minivmm.c:370-438 | one handler round services exactly the highest-priority raised source |
| UartDrain.DrainsExactly | phase9-capstone/practice/minivmm.c:370-438 | the handler reaches "no interrupt", with the line low, after exactly as many rounds as there are enabled events |
| UartDrain.WorkBound | phase9-capstone/practice/minivmm.c:264-287 | that is at most [OE] + rx_count + [thr_ipending] |
| UartDrain.StuckUnderDlab | phase9-capstone/practice/minivmm.c:377-380 | with DLAB set and a receive interrupt raised the handler never finishes |
| UartDrain.DlabAfterInput | phase9-capstone/practice/minivmm.c:376-390 | a concrete run, enabling receive interrupts, one input byte, DLAB set, after which the handler never finishes |
| UartDrain.DrainsIff | phase9-capstone/practice/minivmm.c:376-390 | the handler finishes iff DLAB does not hide bytes it must read |
| Msix.Vfio.UpdateRoutes | phase9-capstone/practice/minivmm.c:2243-2293 | the routes given to KVM are the 40 fixed pins and then, once each, exactly the vectors with a non-zero shadow address, on GSI 24+v with its address and data; without memory, or if KVM refuses, the old routes stay |
| Msix.Vfio.HandleTableWrite | phase9-capstone/practice/minivmm.c:2520-2546 | the shadow takes the bytes; agreement of the routes survives every write whose rebuild succeeds and that does not start in a control word and leave its entry; the control word touched, and no other, is passed on, so synchronised ones stay so |
| Msix.Vfio.HandleAccess | phase9-capstone/practice/minivmm.c:2518-2548 | an access is answered from the shadow iff it lies wholly inside the table, and changes nothing here otherwise; reads return the shadow, and every handled access but a crossing write or one whose rebuild fails keeps agreement of the routes |
| Msix.EntryBytes | phase9-capstone/practice/minivmm.c:2268-2285 | address, data and control word of a vector are the little-endian words of its 16 bytes; it is programmed iff an address byte is not zero; its GSI is 24 plus its number |
| Msix.AgreeMeans | phase9-capstone/practice/minivmm.c:2251-2288 | routes in agreement are 24 IOAPIC pins, 8 pins of each PIC, and for each vector its route iff an address byte of its entry is not zero |
| Msix.Vfio.SetupIrqs | phase9-capstone/practice/minivmm.c:2368-2440 | routes agree with the shadow once set up, if they could be built, and programmed vectors are masked as the guest wrote |
| Msix.CrossingLosesAgreement | phase9-capstone/practice/minivmm.c:2530-2542 | for every table and every crossing position, data that leaves the routes wrong |
| Msix.KeepsIff | phase9-capstone/practice/minivmm.c:2530-2542 | a write starting in a control word keeps agreement for all data iff it stays in its entry |
| Msix.AlignedNeverCrosses | phase9-capstone/practice/minivmm.c:2530-2531 | naturally aligned accesses of 1, 2, 4 or 8 bytes never leave their entry |
| Msix.RunKeepsRoutes | phase9-capstone/practice/minivmm.c:2520-2547 | after every run of naturally aligned writes, KVM routes exactly what the guest programmed, unless the last rebuild of the routes failed |
| Msix.ReadsLastWritten | phase9-capstone/practice/minivmm.c:2524-2545 | after every run of guest writes, aligned or not, a read returns the byte last written at each position |

## Left out

- Inline assembly, MSR access, exception tables, SWAPGS and host-state handling: each VMX instruction is a small contract on the processor state it changes.
- VMXOFF on a processor in VMX operation is taken to succeed; dual-monitor SMM, where it would not, is only logged by the source.
- CPU hot-plug after loading: set-up of a VMCS runs on processors in VMX operation, and `smp_call_function_single` reaches them.
- The contents of a VMCS other than its EPTP: set-up may also move between two VMWRITEs, and the fields written then go to another VMCS in the same way.
- Slots of more than 2^36 pages: their pages are pinned memory of one process, which is below 2^47 bytes.
- `mini_kvm_set_memregion` races between two callers; a slot is registered once before the first fault.
- Guest RFLAGS.IF and interruptibility, NMI blocking beyond its one test, and the statistics counters.
- IDT-vectoring events other than external interrupts are dropped by the source, and so here.
- Guest writes to rings and buffers while a queue is served, device resets and interrupt acknowledgements from other threads, and the overlap of rings with buffers: guest memory ends below the virtio windows at 0xd0000000.
- A disk that fills up, and a block status byte outside guest memory.
- Virtqueue.PushAllFillsRing: for queue sizes that divide 2^16; `Virtqueue.PushAllStands` covers the others, of which `Virtqueue.SlotsCollide` shows that entries can overwrite each other.
- Descriptors.GatherChain: a table of 2^32 - 1 descriptors that lies in guest memory, for which the 32-bit guard would never end a cycle, is excluded; it takes 64 GiB, and guest memory ends below 0xd0000000.
- KVM_IRQFD and writes to the device's own table are taken to succeed; MSI-X tables of more than 32 vectors do not fit the shadow array and are excluded.
- VFIO, ioctl, eventfd, epoll and terminal plumbing, virtio MMIO registers, PCI configuration space, timing of the UART's transmitter.
- bzImage loading, GDT and TSS constants, CPUID set-up, the MP table, the self-test blob and `device.c` of mini-kvm: fixed data or format copying that would only add easy members.
- The demonstrations, readers, benchmarks and notes in the other phases.
