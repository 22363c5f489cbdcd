/**
 Bringing every processor into VMX operation and out again, main.c of mini-kvm: per-CPU
 VMXON regions, the callbacks run on every online CPU, and the roll-back.

 `on_each_cpu` runs its callback on all online CPUs at the same time. What the callbacks
 share is the error code and the count; the enabling callback reads the error once, on entry,
 and writes per-CPU state and the atomics afterwards. So its run is a check step and an act
 step, and the loops below take the steps of all CPUs in an arbitrary order.
*/
module BringUp {
  import opened Common

  datatype Errno = ENOMEM | ENODEV | EBUSY | EIO

  /** One CPU: mini_vmxon_page, mini_vmxon_done, CR4.VMXE, and the region of VMX operation. */
  datatype Cpu = Cpu(page: Option<nat>, done: bool, vmxe: bool, region: Option<nat>) {
    /** In VMX operation on its own page, and so marked. */
    function Entered(): (cpu: Cpu)
      ensures cpu.done && cpu.vmxe && cpu.page == page && cpu.region == page
    {
      Cpu(page, true, true, page)
    }

    function Left(): (cpu: Cpu)
      ensures !cpu.done && !cpu.vmxe && cpu.page == page && cpu.region == None
    {
      Cpu(page, false, false, None)
    }

    /**
     CR4.VMXE stays set throughout VMX operation (section 24.8 of the Intel SDM, volume 3C), and
     a CPU that is marked is in VMX operation on its own page.
    */
    predicate Sound() {
      && (region.Some? ==> vmxe)
      && (done ==> page.Some? && region == page)
    }
  }

  ghost function DoneSet(cpus: seq<Cpu>): set<nat> { set c: nat | c < |cpus| && cpus[c].done }

  lemma DoneSetGrows(cpus: seq<Cpu>, c: nat, cpu: Cpu)
    requires c < |cpus| && !cpus[c].done && cpu.done
    ensures |DoneSet(cpus[c := cpu])| == |DoneSet(cpus)| + 1
  {
    assert DoneSet(cpus[c := cpu]) == DoneSet(cpus) + {c};
  }

  lemma DoneSetShrinks(cpus: seq<Cpu>, c: nat, cpu: Cpu)
    requires c < |cpus| && cpus[c].done && !cpu.done
    ensures |DoneSet(cpus[c := cpu])| == |DoneSet(cpus)| - 1
  {
    DoneSetGrows(cpus[c := cpu], c, cpus[c]);
    assert cpus[c := cpu][c := cpus[c]] == cpus;
  }

  lemma DoneSetSame(cpus: seq<Cpu>, c: nat, cpu: Cpu)
    requires c < |cpus| && cpus[c].done == cpu.done
    ensures DoneSet(cpus[c := cpu]) == DoneSet(cpus)
  {
  }

  lemma SizeWithout(s: set<nat>, c: nat)
    ensures |s - {c}| == |s| - (if c in s then 1 else 0)
  {
  }

  predicate Distinct(pages: seq<nat>) { forall i, j | 0 <= i < j < |pages| :: pages[i] != pages[j] }

  ghost function Elements(pages: seq<nat>): set<nat> { set p | p in pages }

  class Host {
    const possible: nat                 // number of possible CPUs
    const online: set<nat>              // CPUs online while the module is loaded
    const supported: set<nat>           // mini_cpu_vmx_supported
    const vmxonWorks: set<nat>          // mini_cpu_vmxon on the CPU's own region
    var cpus: seq<Cpu>
    var inUse: set<nat>             // pages the allocator has handed out
    var enableErr: Option<Errno>
    var enableCount: int
    var enabled: bool

    ghost predicate Valid()
      reads this
    {
      && |cpus| == possible && (forall c | c in online :: c < possible)
      && enableCount == |DoneSet(cpus)|
      && forall c | 0 <= c < possible :: cpus[c].Sound()
    }

    /** The module holds nothing: how it is loaded, and how it must be left. */
    ghost predicate Idle()
      reads this
    {
      Valid() && !enabled && forall c | 0 <= c < possible :: cpus[c].page == None && !cpus[c].done
    }

    /** Why enabling fails on a CPU, seen from its state before. */
    function Failure(c: nat, cpu: Cpu): (e: Option<Errno>)
      ensures e == None <==> c in supported && !cpu.vmxe && c in vmxonWorks
      ensures e == Some(ENODEV) <==> c !in supported
      ensures e == Some(EBUSY) <==> c in supported && cpu.vmxe
      ensures e == Some(EIO) <==> c in supported && !cpu.vmxe && c !in vmxonWorks
    {
      if c !in supported then Some(ENODEV)
      else if cpu.vmxe then Some(EBUSY)
      else if c !in vmxonWorks then Some(EIO)
      else None
    }

    ghost predicate SomeFailure(before: seq<Cpu>, e: Errno) {
      exists c :: c in online && c < |before| && Failure(c, before[c]) == Some(e)
    }

    // --------------------------------------------------------- instructions

    /** cr4_set_bits and cr4_clear_bits; the bit is fixed to 1 in VMX operation. */
    method SetVmxe(c: nat, on: bool)
      requires c < |cpus| && (on || cpus[c].region == None)
      modifies this`cpus
      ensures cpus == old(cpus)[c := old(cpus)[c].(vmxe := on)]
    {
      cpus := cpus[c := cpus[c].(vmxe := on)];
    }

    /** VMXON on a region; false when it fails. */
    method Vmxon(c: nat, phys: nat) returns (ok: bool)
      requires c < |cpus| && cpus[c].vmxe && cpus[c].region == None
      modifies this`cpus
      ensures ok == (c in vmxonWorks)
      ensures cpus == if ok then old(cpus)[c := old(cpus)[c].(region := Some(phys))] else old(cpus)
    {
      if c !in vmxonWorks { return false; }
      cpus := cpus[c := cpus[c].(region := Some(phys))];
      return true;
    }

    /** VMXOFF, in VMX operation only. */
    method Vmxoff(c: nat)
      requires c < |cpus| && cpus[c].region.Some?
      modifies this`cpus
      ensures cpus == old(cpus)[c := old(cpus)[c].(region := None)]
    {
      cpus := cpus[c := cpus[c].(region := None)];
    }

    // ------------------------------------------------------------- callbacks

    /** mini_vmx_enable_one after its test of enable_err. */
    method EnableAct(c: nat)
      requires Valid() && c in online && !cpus[c].done && cpus[c].page.Some?
      modifies this`cpus, this`enableErr, this`enableCount
      ensures Valid()
      ensures var (was, now) := (old(cpus)[c], cpus[c]);
        if c in supported && !was.vmxe && c in vmxonWorks then
          now.done && now.vmxe && now.page == now.region == was.page && enableErr == old(enableErr)
        else
          now == was && enableErr == Some(if c !in supported then ENODEV else if was.vmxe then EBUSY else EIO)
      ensures cpus == old(cpus)[c := cpus[c]]
    {
      if c !in supported {
        enableErr := Some(ENODEV);
        return;
      }
      if cpus[c].vmxe {
        enableErr := Some(EBUSY);
        return;
      }
      ghost var before := cpus;
      var phys := cpus[c].page.value;
      SetVmxe(c, true);
      var ok := Vmxon(c, phys);
      if !ok {
        SetVmxe(c, false);
        assert cpus == before;
        enableErr := Some(EIO);
        return;
      }
      cpus := cpus[c := cpus[c].(done := true)];
      assert cpus == before[c := cpus[c]];
      DoneSetGrows(before, c, cpus[c]);
      enableCount := enableCount + 1;
    }

    /** mini_vmx_disable_one */
    method DisableOne(c: nat)
      requires Valid() && c in online
      modifies this`cpus, this`enableCount
      ensures Valid()
      ensures var (was, now) := (old(cpus)[c], cpus[c]);
        if was.done then !now.done && !now.vmxe && now.region == None && now.page == was.page else now == was
      ensures cpus == old(cpus)[c := cpus[c]]
    {
      if !cpus[c].done { return; }
      ghost var before := cpus;
      Vmxoff(c);
      SetVmxe(c, false);
      cpus := cpus[c := cpus[c].(done := false)];
      assert cpus == before[c := cpus[c]];
      DoneSetShrinks(before, c, cpus[c]);
      enableCount := enableCount - 1;
    }

    /** Once its callback ended, a CPU was entered if it can be; some failure stopped the others. */
    ghost predicate Ran(before: seq<Cpu>, now: seq<Cpu>, err: Option<Errno>, finished: set<nat>) {
      && |before| == possible && |now| == possible && finished <= online
      && (forall c: nat | c < possible :: now[c] == before[c]
           || (c in finished && Failure(c, before[c]) == None && now[c] == before[c].Entered()))
      && (err == None ==> forall c | c in finished && c < possible ::
           Failure(c, before[c]) == None && now[c] == before[c].Entered())
      && (err.Some? ==> SomeFailure(before, err.value))
    }

    lemma RanSkips(before: seq<Cpu>, now: seq<Cpu>, err: Option<Errno>, finished: set<nat>, c: nat)
      requires Ran(before, now, err, finished) && err.Some? && c in online
      ensures Ran(before, now, err, finished + {c})
    {
    }

    lemma RanActs(before: seq<Cpu>, now: seq<Cpu>, err: Option<Errno>, finished: set<nat>, c: nat)
      requires Ran(before, now, err, finished) && c in online && c !in finished && c < possible
      ensures now[c] == before[c]
      ensures Failure(c, before[c]) == None ==> Ran(before, now[c := now[c].Entered()], err, finished + {c})
      ensures Failure(c, before[c]).Some? ==> Ran(before, now, Failure(c, before[c]), finished + {c})
    {
    }

    /** on_each_cpu(mini_vmx_enable_one), in every order of the callbacks' steps. */
    method EnableEach()
      requires Valid() && enableErr == None && (forall c | 0 <= c < possible :: !cpus[c].done && cpus[c].page.Some?)
      modifies this`cpus, this`enableErr, this`enableCount
      ensures Valid() && Ran(old(cpus), cpus, enableErr, online)
    {
      hide SomeFailure, Failure, DoneSet, Cpu.Entered, Ran;
      ghost var before := cpus;
      RanStart(before);
      var (left, started) := (online, {});        // not finished; past the test of enable_err
      while left != {}
        invariant Valid() && left <= online && Ran(before, cpus, enableErr, online - left)
        decreases |left| + |left - started|
      {
        var c :| c in left;
        CallbackStep(online, left, started, c);
        RanActs(before, cpus, enableErr, online - left, c);
        if c !in started {
          if enableErr == None {
            started := started + {c};
          } else {
            RanSkips(before, cpus, enableErr, online - left, c);
            left := left - {c};
          }
        } else {
          ghost var now := cpus;
          EnableAct(c);
          EnteredOrNot(c, before[c], now, cpus);
          left := left - {c};
        }
      }
      assert online - left == online;
    }

    lemma EnteredOrNot(c: nat, was: Cpu, now: seq<Cpu>, after: seq<Cpu>)
      requires c < |now| == |after| && now[c] == was && after == now[c := after[c]]
      requires if Failure(c, was) == None then after[c].done && after[c].vmxe && after[c].page == after[c].region == was.page
               else after[c] == was
      ensures after == if Failure(c, was) == None then now[c := now[c].Entered()] else now
    {
    }

    static lemma CallbackStep(online: set<nat>, left: set<nat>, started: set<nat>, c: nat)
      requires c in left && left <= online
      ensures online - (left - {c}) == online - left + {c} && c in online - (left - {c}) && c !in online - left
      ensures |left - {c}| == |left| - 1 && |(left - {c}) - started| <= |left - started|
      ensures c !in started ==> |left - (started + {c})| == |left - started| - 1
    {
      SizeWithout(left, c);
      SizeWithout(left - started, c);
      SetsWithout(left, started, c);
    }

    static lemma SetsWithout(left: set<nat>, started: set<nat>, c: nat)
      ensures (left - {c}) - started == (left - started) - {c} == left - (started + {c})
    {
    }

    lemma RanStart(before: seq<Cpu>)
      requires |before| == possible
      ensures Ran(before, before, None, online - online)
    {
    }

    /** on_each_cpu(mini_vmx_disable_one), in every order. */
    method DisableEach()
      requires Valid()
      modifies this`cpus, this`enableCount
      ensures Valid()
      ensures forall c | 0 <= c < possible ::
                cpus[c] == if c in online && old(cpus)[c].done then old(cpus)[c].Left() else old(cpus)[c]
    {
      ghost var before := cpus;
      var left := online;
      while left != {}
        invariant Valid() && left <= online
        invariant forall c | 0 <= c < possible ::
                    cpus[c] == if c in online - left && before[c].done then before[c].Left() else before[c]
        decreases |left|
      {
        var c :| c in left;
        ghost var was := left;
        left := left - {c};
        assert was == left + {c};
        DisableOne(c);
      }
    }

    // ----------------------------------------------------------------- pages

    /** __free_page of a CPU's region; it must be in use. */
    method FreeRegion(c: nat)
      requires Valid() && c < possible && !cpus[c].done && cpus[c].page.Some? && cpus[c].page.value in inUse
      modifies this`cpus, this`inUse
      ensures Valid() && cpus == old(cpus)[c := old(cpus)[c].(page := None)]
      ensures inUse == old(inUse) - {old(cpus)[c].page.value}
    {
      DoneSetSame(cpus, c, cpus[c].(page := None));
      inUse := inUse - {cpus[c].page.value};
      cpus := cpus[c := cpus[c].(page := None)];
    }

    /** Every online CPU in VMX operation on its own page, every other CPU only given a page. */
    ghost predicate Up(before: seq<Cpu>, pages: seq<nat>)
      reads this
    {
      && Valid() && |before| == possible == |pages| && Distinct(pages)
      && (forall c: nat | c < possible :: before[c].page == None && !before[c].done)
      && (forall c | c in online :: !before[c].vmxe && before[c].region == None)
      && (forall c: nat | c < possible :: cpus[c].page == Some(pages[c]))
      && (forall c | c in online :: cpus[c].done && cpus[c].vmxe && cpus[c].region == Some(pages[c]))
      && (forall c: nat | c < possible && c !in online :: cpus[c] == before[c].(page := Some(pages[c])))
    }

    /** CPUs below `k` own the first `k` of these pages; the others own none. */
    ghost predicate Owns(pages: seq<nat>, k: nat)
      reads this
    {
      && k <= |pages| && k <= possible == |cpus|
      && forall c | 0 <= c < possible :: cpus[c].page == if c < k then Some(pages[c]) else None
    }

    /** Free the regions of the CPUs below `k`. */
    method FreeRegions(k: nat, ghost pages: seq<nat>)
      requires Valid() && Owns(pages, k) && Distinct(pages) && Elements(pages[..k]) <= inUse
      requires forall c | 0 <= c < possible :: !cpus[c].done
      modifies this`cpus, this`inUse
      ensures Valid() && inUse == old(inUse) - Elements(pages[..k])
      ensures forall c | 0 <= c < possible :: cpus[c] == old(cpus)[c].(page := None)
    {
      ghost var before := cpus;
      var c := 0;
      while c < k
        invariant Valid() && 0 <= c <= k
        invariant forall d | 0 <= d < possible :: cpus[d] == if d < c then before[d].(page := None) else before[d]
        invariant inUse == old(inUse) - Elements(pages[..c])
      {
        assert pages[c] in pages[..k];
        assert pages[..c + 1] == pages[..c] + [pages[c]];
        FreeRegion(c);
        c := c + 1;
      }
    }

    /**
     The allocation loop. `pages` is what the allocator hands out before it fails, or one
     page for every possible CPU. On failure the pages already taken are given back.
    */
    method AllocateRegions(pages: seq<nat>) returns (ok: bool)
      requires Idle() && |pages| <= possible && Distinct(pages) && Elements(pages) !! inUse
      modifies this`cpus, this`inUse
      ensures Valid() && ok == (|pages| == possible)
      ensures forall c | 0 <= c < possible :: cpus[c] == if ok then old(cpus)[c].(page := Some(pages[c])) else old(cpus)[c]
      ensures inUse == if ok then old(inUse) + Elements(pages) else old(inUse)
    {
      ghost var before := cpus;
      var c := 0;
      while c < possible
        invariant Valid() && 0 <= c <= |pages|
        invariant forall d | 0 <= d < possible ::
                    cpus[d] == if d < c then before[d].(page := Some(pages[d])) else before[d]
        invariant inUse == old(inUse) + Elements(pages[..c])
      {
        if c == |pages| {
          FreeRegions(c, pages);
          return false;
        }
        assert pages[..c + 1] == pages[..c] + [pages[c]];
        DoneSetSame(cpus, c, cpus[c].(page := Some(pages[c])));
        inUse := inUse + {pages[c]};
        cpus := cpus[c := cpus[c].(page := Some(pages[c]))];
        c := c + 1;
      }
      assert pages[..c] == pages;
      return true;
    }

    // ------------------------------------------------------------ operations

    /**
     mini_vmx_hardware_enable_all. All or nothing: it succeeds exactly when every page was
     given and no online CPU has a reason to fail; otherwise every CPU's CR4.VMXE, VMX
     operation, page and mark are as before, whatever the callbacks' order, and the error
     is one that some online CPU met.
    */
    method EnableAll(pages: seq<nat>) returns (error: Option<Errno>)
      requires Idle() && |pages| <= possible && Distinct(pages) && Elements(pages) !! inUse
      modifies this
      ensures error == None <==>
                |pages| == possible && forall c | c in online :: c in supported && !old(cpus)[c].vmxe && c in vmxonWorks
      ensures error == None ==> Up(old(cpus), pages) && enabled && enableCount == |online|
      ensures error == None ==> inUse == old(inUse) + Elements(pages)
      ensures error.Some? ==> Idle() && cpus == old(cpus) && inUse == old(inUse) && enableCount == 0
      ensures error == Some(ENOMEM) <==> |pages| < possible
      ensures error.Some? && error != Some(ENOMEM) ==> SomeFailure(old(cpus), error.value)
    {
      ghost var before := cpus;
      NoneDone(before);
      var ok := AllocateRegions(pages);
      if !ok { return Some(ENOMEM); }
      ghost var given := cpus;
      NoneDone(given);
      enableErr := None;
      enableCount := 0;
      EnableEach();
      PageDoesNotMatter(before, given);
      if enableErr.Some? {
        error := enableErr;
        DisableEach();
        assert pages[..possible] == pages;
        FreeRegions(possible, pages);
        assert cpus == before;
        return;
      }
      assert DoneSet(cpus) == online;
      enabled := true;
      return None;
    }

    /** mini_vmx_hardware_disable_all undoes what enabling did. */
    method DisableAll(ghost before: seq<Cpu>, ghost pages: seq<nat>)
      requires enabled ==> Up(before, pages) && Elements(pages) <= inUse
      modifies this
      ensures !enabled
      ensures old(enabled) ==> Idle() && cpus == before && inUse == old(inUse) - Elements(pages) && enableCount == 0
      ensures !old(enabled) ==> cpus == old(cpus) && inUse == old(inUse) && enableCount == old(enableCount)
    {
      if !enabled { return; }
      DisableEach();
      assert pages[..possible] == pages;
      FreeRegions(possible, pages);
      assert cpus == before;
      NoneDone(cpus);
      enabled := false;
    }

    lemma PageDoesNotMatter(before: seq<Cpu>, given: seq<Cpu>)
      requires |before| == |given| && forall c | 0 <= c < |given| :: given[c].vmxe == before[c].vmxe
      ensures forall c: nat | c < |given| :: Failure(c, given[c]) == Failure(c, before[c])
      ensures forall e :: SomeFailure(given, e) ==> SomeFailure(before, e)
    {
    }

    lemma NoneDone(cs: seq<Cpu>)
      requires forall c | 0 <= c < |cs| :: !cs[c].done
      ensures DoneSet(cs) == {}
    {
    }
  }
}
