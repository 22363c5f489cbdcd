/**
 struct mini_kvm_ept and the functions that update it in place.
*/
module EptTable {
  import opened Common
  import opened Ept
  import opened EptProperties

  const EPTP_BITS := 30                 // VMX_EPTP_MT_WB | VMX_EPTP_PWL_4

  /** gpa >> shifts[level], as a divisor. */
  function Divisor(level: nat): (d: nat)
    requires level <= 3
    ensures d > 0
  {
    [0x80_0000_0000, 0x4000_0000, 0x20_0000, 0x1000][level]
  }

  lemma DivisorIndex(gpa: nat, level: nat)
    requires level <= 3
    ensures gpa / Divisor(level) % ENTRIES == Index(gpa / PAGE_SIZE, level)
  {
  }

  /** The EPTP of section 25.6.11: memory type in bits 2:0, walk length minus one in bits 5:3. */
  lemma EptpFields(root: nat)
    ensures var eptp := root * PAGE_SIZE + EPTP_BITS; eptp / 4096 == root && eptp % 8 == 6 && eptp / 8 % 512 == 3
  {
    assert (root * 4096 + 30) / 8 == root * 512 + 3;
  }

  class PageTables {
    var mem: Memory                     // the pages this table owns
    var pml4: Option<nat>
    var eptp: nat
    const tracked: array<nat>
    var nrTracked: nat

    /** The table as a value; a table exists between Init and Destroy. */
    ghost function View(): Table
      requires Live()
      reads this, tracked
    {
      Table(mem, pml4.value, tracked[..nrTracked])
    }

    ghost predicate Live()
      reads this
    {
      tracked.Length == TRACK_MAX && nrTracked <= TRACK_MAX && pml4.Some?
    }

    ghost predicate Valid()
      reads this, tracked
    {
      Live() && Shape(View())
    }

    constructor ()
      ensures pml4.None? && mem == map[] && nrTracked == 0 && fresh(tracked) && tracked.Length == TRACK_MAX
    {
      mem, pml4, eptp, nrTracked := map[], None, 0, 0;
      tracked := new nat[TRACK_MAX];
    }

    /** alloc_page(GFP | __GFP_ZERO): the next free page, zeroed, or failure. */
    method AllocPage(supply: seq<nat>) returns (page: Option<nat>, left: seq<nat>)
      modifies this`mem
      ensures supply == [] ==> page.None? && left == [] && mem == old(mem)
      ensures supply != [] ==> page == Some(supply[0]) && left == supply[1..] && mem == old(mem)[supply[0] := ZeroPage()]
    {
      if supply == [] { return None, []; }
      mem := mem[supply[0] := ZeroPage()];
      return Some(supply[0]), supply[1..];
    }

    /** __free_page: only a page in use may be freed. */
    method FreePage(page: nat)
      requires page in mem
      modifies this`mem
      ensures mem == old(mem) - {page}
    {
      mem := mem - {page};
    }

    method Init(supply: seq<nat>) returns (ok: bool)
      requires tracked.Length == TRACK_MAX && mem == map[]
      modifies this
      ensures ok <==> supply != []
      ensures ok ==> Valid() && View() == FreshTable(supply[0])
      ensures ok ==> eptp / 4096 == supply[0] && eptp % 8 == 6 && eptp / 8 % 512 == 3     // write-back, four levels
      ensures !ok ==> mem == map[] && pml4 == old(pml4)
    {
      var page, left := AllocPage(supply);
      if page.None? { return false; }
      pml4 := page;
      nrTracked := 0;
      eptp := page.value * PAGE_SIZE + EPTP_BITS;
      FreshTableShape(page.value);
      EptpFields(page.value);
      return true;
    }

    /** The four-level walk; returns the last-level entry as (table page, index). */
    method WalkEntry(gpa: nat, alloc: bool, supply: seq<nat>) returns (entry: Option<(nat, nat)>, left: seq<nat>)
      requires Valid() && FreePages(View(), supply)
      modifies this`mem, this`nrTracked, tracked
      ensures Valid()
      ensures var w := Walk(old(View()), old(pml4.value), 0, gpa / PAGE_SIZE, alloc, supply);
        && View() == w.t && left == w.supply && FreePages(View(), left)
        && entry == if w.leafPage.Some? then Some((w.leafPage.value, Index(gpa / PAGE_SIZE, 3))) else None
      ensures entry.Some? ==> NodeAt(View(), 3, Prefix(gpa / PAGE_SIZE % FRAME_LIMIT, 3)) == Some(entry.value.0)
    {
      hide Shape, FreePages, NodeAt, Target, Prefix, Index, Link, Divisor;
      ghost var frame := gpa / PAGE_SIZE;
      ghost var low := frame % FRAME_LIMIT;
      var table := pml4.value;
      left := supply;
      var level := 0;
      RootNode(View(), low);
      IndexIgnoresHighBits(frame);
      while true
        invariant 0 <= level <= 3 && Valid() && FreePages(View(), left)
        invariant NodeAt(View(), level, Prefix(low, level)) == Some(table)
        invariant Walk(View(), table, level, frame, alloc, left) ==
                  Walk(old(View()), old(pml4.value), 0, frame, alloc, supply)
        decreases 3 - level
      {
        var idx := gpa / Divisor(level) % ENTRIES;
        DivisorIndex(gpa, level);
        if level == 3 { return Some((table, idx)), left; }

        InTable(View(), table, level, Prefix(low, level));
        NextNode(View(), table, level, low);
        ReadTarget(View(), table, idx);
        if mem[table][idx] % 2 == 0 {
          if !alloc { return None, left; }
          if nrTracked >= TRACK_MAX { return None, left; }
          var np;
          np, left := AddTable(table, idx, left, level, low);
          if !np { return None, left; }
          InTable(View(), table, level, Prefix(low, level));
          NextNode(View(), table, level, low);
          ReadTarget(View(), table, idx);
        }
        table := mem[table][idx] / PAGE_SIZE % PFN_LIMIT;
        level := level + 1;
      }
    }

    /** Handle an EPT violation at an address: map the pinned page behind it. */
    method HandleFault(slot: Slot, gpa: nat, supply: seq<nat>) returns (status: Status, left: seq<nat>)
      requires Valid() && slot.Ok() && FreePages(View(), supply)
      modifies this`mem, this`nrTracked, tracked
      ensures Valid()
      ensures Handled(View(), status, left) == HandleViolation(old(View()), slot, gpa, supply)
      ensures status == Mapped ==>
        var low := gpa / PAGE_SIZE % FRAME_LIMIT;
        forall level: nat | level <= 3 ::
          NodeAt(View(), level, Prefix(low, level)).Some? && EntryFor(View(), low, level) % 8 == 7
    {
      hide Shape, FreePages, NodeAt, Walk, Prefix;
      var page := gpa / PAGE_SIZE * PAGE_SIZE;
      ghost var frame := gpa / PAGE_SIZE;
      if !slot.valid || page < slot.baseGpa || page >= (slot.baseGpa + slot.npages * PAGE_SIZE % U64) % U64 {
        return OutsideSlot, supply;
      }
      SlotIndex(slot, frame);
      var idx := (page - slot.baseGpa) / PAGE_SIZE;
      var entry;
      entry, left := WalkEntry(page, true, supply);
      if entry.None? { return NoMemory, left; }
      InTable(View(), entry.value.0, 3, Prefix(frame % FRAME_LIMIT, 3));
      SameLeaf(View(), entry.value.0, frame, slot.pages[idx]);
      LeafKeepsShape(View(), entry.value.0, frame % FRAME_LIMIT, slot.pages[idx]);
      SetEntry(entry.value.0, entry.value.1, slot.pages[idx] * PAGE_SIZE + RWX + MEMTYPE_WB);
      ghost var low := frame % FRAME_LIMIT;
      forall level: nat | level <= 3
        ensures NodeAt(View(), level, Prefix(low, level)).Some? && EntryFor(View(), low, level) % 8 == 7
      {
        ViolationIsOver(old(View()), slot, gpa, supply, level);
      }
      return Mapped, left;
    }

    /** Free the tracked pages and the root: every page of the table, each exactly once. */
    method Destroy() returns (ghost freed: seq<nat>)
      requires Valid()
      modifies this
      ensures freed == old(View().tracked) + [old(View().root)] && NoDuplicates(freed)
      ensures Elements(freed) == old(mem.Keys)
      ensures mem == map[] && pml4 == None && nrTracked == 0
    {
      hide Closed, IsTree, Reached, EntriesOk, NodeAt, Elements;
      ghost var t := View();
      AllElements(t.tracked, t.root);
      freed := [];
      var i := 0;
      while i < nrTracked
        invariant 0 <= i <= nrTracked == |t.tracked| && Live() && pml4 == Some(t.root) && tracked[..nrTracked] == t.tracked
        invariant mem.Keys == {t.root} + Elements(t.tracked[i..])
        invariant freed == t.tracked[..i]
      {
        DropOne(t.tracked, i);
        var page := tracked[i];
        assert page == t.tracked[i];
        FreePage(page);
        freed := freed + [page];
        i := i + 1;
      }
      nrTracked := 0;
      if pml4.Some? {
        FreePage(pml4.value);
        freed := freed + [pml4.value];
        pml4 := None;
      }
    }

    /** Allocate a page, track it, and link it at an entry that is not present. */
    method AddTable(table: nat, idx: nat, supply: seq<nat>, ghost level: nat, ghost low: nat)
        returns (ok: bool, left: seq<nat>)
      requires Valid() && nrTracked < TRACK_MAX && FreePages(View(), supply)
      requires level < 3 && NodeAt(View(), level, Prefix(low, level)) == Some(table) && idx == Index(low, level)
      requires NodeAt(View(), level + 1, Prefix(low, level + 1)).None?
      requires table in mem && idx < |mem[table]|
      modifies this`mem, this`nrTracked, tracked
      ensures ok <==> supply != []
      ensures Valid() && FreePages(View(), left)
      ensures !ok ==> View() == old(View()) && left == supply
      ensures ok ==> View() == Link(old(View()), table, idx, supply[0]) && left == supply[1..]
      ensures ok ==> NodeAt(View(), level + 1, Prefix(low, level + 1)) == Some(supply[0])
      ensures NodeAt(View(), level, Prefix(low, level)) == Some(table)
    {
      hide NodeAt, Prefix, Index, Closed, IsTree, Reached, EntriesOk, Target, Write;
      ghost var before := View();
      var np;
      np, left := AllocPage(supply);
      if np.None? { return false, left; }
      WalkLinks(before, table, level, low, supply);
      tracked[nrTracked] := np.value;
      nrTracked := nrTracked + 1;
      SetEntry(table, idx, np.value * PAGE_SIZE + RWX);
      assert tracked[..nrTracked] == before.tracked + [np.value];
      return true, left;
    }

    /** *entry = value */
    method SetEntry(page: nat, i: nat, value: nat)
      requires page in mem && i < |mem[page]|
      modifies this`mem
      ensures mem == Write(old(mem), page, i, value)
    {
      var content: seq<nat> := mem[page][i := value];
      mem := mem[page := content];
    }
  }

  lemma InTable(t: Table, page: nat, level: nat, prefix: nat)
    requires Shape(t) && level <= 3 && NodeAt(t, level, prefix) == Some(page)
    ensures page in t.mem && |t.mem[page]| == ENTRIES
  {
  }

  lemma ReadTarget(t: Table, page: nat, i: nat)
    requires page in t.mem && i < |t.mem[page]|
    ensures Target(Read(t.mem, page, i)) ==
      if t.mem[page][i] % 2 == 1 then Some(t.mem[page][i] / PAGE_SIZE % PFN_LIMIT) else None
  {}

  lemma DropOne(s: seq<nat>, i: nat)
    requires i < |s| && NoDuplicates(s)
    ensures Elements(s[i..]) == {s[i]} + Elements(s[i + 1..]) && s[i] !in Elements(s[i + 1..])
    ensures s[i] in Elements(s)
  {
  }

  lemma AllElements(s: seq<nat>, last: nat)
    ensures s[0..] == s && Elements(s[|s|..]) == {}
    ensures Elements(s + [last]) == {last} + Elements(s)
    ensures last in Elements(s) <==> last in s
  {}
}
