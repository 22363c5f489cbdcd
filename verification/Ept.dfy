/**
 Extended page tables of mini-kvm, ept.c: the four-level radix tree, the side
 array of table pages, and the EPT-violation handler.

 Machine words are natural numbers.  `EntryBits` below justifies reading the
 shifts, masks and ors of the source as divisions, remainders and sums.
 A "frame" is a guest-physical address shifted right by 12.
*/
module Ept {
  import opened Arithmetic
  import opened Common

  const PAGE_SIZE := 4096
  const ENTRIES := 512
  const RWX := 7                        // EPT_ENTRY_RWX
  const MEMTYPE_WB := 48                // 6 << 3
  const TRACK_MAX := 1024               // MINI_KVM_EPT_TRACK_MAX
  const PFN_LIMIT := 0x100_0000_0000    // an entry holds 40 address bits
  const FRAME_LIMIT := 0x10_0000_0000   // four levels of nine bits
  const U64 := 0x1_0000_0000_0000_0000

  /** Physical memory holding the page tables: page frame number to 512 entries. */
  type Memory = map<nat, seq<nat>>

  /** One VM's page table: its memory, its root (the PML4), and tracked[0..nr_tracked). */
  datatype Table = Table(mem: Memory, root: nat, tracked: seq<nat>)

  // ---------------------------------------------------------------- entries

  function NonLeaf(pfn: nat): nat { pfn * PAGE_SIZE + RWX }

  function Leaf(pfn: nat): nat { pfn * PAGE_SIZE + RWX + MEMTYPE_WB }

  /** What an entry points at: nothing unless its read bit is set, else address bits 51:12. */
  function Target(entry: nat): Option<nat> {
    if entry % 2 == 1 then Some(entry / PAGE_SIZE % PFN_LIMIT) else None
  }

  function ZeroPage(): (page: seq<nat>)
    ensures |page| == ENTRIES && forall i | 0 <= i < ENTRIES :: page[i] == 0
  {
    seq(ENTRIES, _ => 0)
  }

  /** Reading outside the table memory gives 0; `Shape` shows that no walk does. */
  function Read(mem: Memory, page: nat, i: nat): nat {
    if page in mem && i < |mem[page]| then mem[page][i] else 0
  }

  function Write(mem: Memory, page: nat, i: nat, entry: nat): Memory {
    if page in mem && i < |mem[page]| then
      var content: seq<nat> := mem[page][i := entry];
      mem[page := content]
    else mem
  }

  lemma PackRoundTrip(pfn: nat)
    requires pfn < PFN_LIMIT
    ensures Target(NonLeaf(pfn)) == Some(pfn) == Target(Leaf(pfn))
    ensures EntryOk(3, Leaf(pfn)) && forall level | 0 <= level < 3 :: EntryOk(level, NonLeaf(pfn))
  {
    Fields(pfn, 6);
    Fields(pfn, 0);
    hide EntryOk;
    assert Leaf(pfn) == pfn * 4096 + 8 * 6 + 7 && NonLeaf(pfn) == pfn * 4096 + 8 * 0 + 7;
    assert forall level | 0 <= level < 3 :: EntryOk(level, NonLeaf(pfn)) by { NonLeafOk(pfn); }
    assert EntryOk(3, Leaf(pfn)) by { LeafOk(pfn); }
  }

  lemma NonLeafOk(pfn: nat)
    requires pfn < PFN_LIMIT
    ensures forall level | 0 <= level < 3 :: EntryOk(level, NonLeaf(pfn))
  {
    Fields(pfn, 0);
  }

  lemma LeafOk(pfn: nat)
    requires pfn < PFN_LIMIT
    ensures EntryOk(3, Leaf(pfn))
  {
    Fields(pfn, 6);
  }

  /** An entry of a page frame number, bits 11:3 and access rights, taken apart. */
  lemma Fields(pfn: nat, bits: nat)
    requires bits < 512
    ensures var e := pfn * 4096 + 8 * bits + 7;
      e / 4096 == pfn && e % 8 == 7 && e / 8 % 512 == bits && e % 2 == 1
  {
    var e := pfn * 4096 + 8 * bits + 7;
    DivUnique(e, 4096, pfn, 8 * bits + 7);
    DivUnique(e, 8, 512 * pfn + bits, 7);
    DivUnique(512 * pfn + bits, 512, pfn, bits);
    DivUnique(e, 2, 2048 * pfn + 4 * bits + 3, 1);
  }

  /** The bit operations of the source, on 64-bit words, are the arithmetic used here. */
  lemma EntryBits(pfn: bv64, entry: bv64, gpa: bv64)
    requires pfn < 0x100_0000_0000
    ensures (pfn << 12) | 7 == pfn * 4096 + 7
    ensures (pfn << 12) | 7 | (6 << 3) == pfn * 4096 + 7 + 48
    ensures entry & 1 != 0 <==> entry % 2 == 1
    ensures (entry & 0x000F_FFFF_FFFF_F000) >> 12 == entry / 4096 % 0x100_0000_0000
    ensures (gpa >> 39) & 511 == gpa / 0x80_0000_0000 % 512
    ensures (gpa >> 30) & 511 == gpa / 0x4000_0000 % 512
    ensures (gpa >> 21) & 511 == gpa / 0x20_0000 % 512
    ensures (gpa >> 12) & 511 == gpa / 4096 % 512
  {
  }

  // ------------------------------------------------------------ the radix tree

  /** The nine bits that select an entry at a level: (gpa >> shifts[level]) & 511. */
  function Index(frame: nat, level: nat): nat
    requires level <= 3
  {
    if level == 0 then frame / 0x800_0000 % ENTRIES
    else if level == 1 then frame / 0x4_0000 % ENTRIES
    else if level == 2 then frame / 0x200 % ENTRIES
    else frame % ENTRIES
  }

  /** The address bits consumed on the way down to a level: none at the root, all at level 4. */
  function Prefix(frame: nat, level: nat): nat
    requires level <= 4
    decreases 4 - level
  {
    if level == 4 then frame else Prefix(frame, level + 1) / ENTRIES
  }

  /** The page-table page at (level, prefix); at level 4, the mapped guest page itself. */
  function NodeAt(t: Table, level: nat, prefix: nat): Option<nat> {
    if level == 0 then
      if prefix == 0 then Some(t.root) else None
    else
      match NodeAt(t, level - 1, prefix / ENTRIES)
      case None => None
      case Some(page) => Target(Read(t.mem, page, prefix % ENTRIES))
  }

  /** The translation the processor finds for a frame. */
  function Translate(t: Table, frame: nat): Option<nat> { NodeAt(t, 4, frame) }

  /** The entry that a walk for a frame reads at a level. */
  function EntryFor(t: Table, frame: nat, level: nat): nat
    requires level <= 3 && NodeAt(t, level, Prefix(frame, level)).Some?
  {
    Read(t.mem, NodeAt(t, level, Prefix(frame, level)).value, Index(frame, level))
  }

  lemma PrefixStep(frame: nat, level: nat)
    requires level <= 3
    ensures Prefix(frame, level + 1) / ENTRIES == Prefix(frame, level)
    ensures Prefix(frame, level + 1) % ENTRIES == Index(frame, level)
    ensures frame < FRAME_LIMIT ==> Prefix(frame, 0) == 0
  {
    assert Prefix(frame, 3) == frame / 512;
    assert Prefix(frame, 2) == frame / 512 / 512 == frame / 0x4_0000;
    assert Prefix(frame, 1) == frame / 512 / 512 / 512 == frame / 0x800_0000;
  }

  // ---------------------------------------------------------- shape invariant

  ghost predicate IsNode(t: Table, level: nat, prefix: nat) {
    level <= 3 && NodeAt(t, level, prefix).Some?
  }

  /**
   What the processor demands of an entry (section 29.3.2 of the Intel SDM, volume 3C), and the
   handler of access rights: not present, or readable, writable and executable (bits 2:0), with a
   40-bit page frame number, and in bits 11:3 nothing in a non-leaf entry and memory type 6, which
   is write-back, in a leaf.
  */
  predicate EntryOk(level: nat, entry: nat) {
    entry == 0 || (entry % 8 == 7 && entry / 8 % 512 == (if level < 3 then 0 else 6) && entry / 4096 < 0x100_0000_0000)
  }

  ghost predicate NoDuplicates(s: seq<nat>) {
    forall i, j | 0 <= i < j < |s| :: s[i] != s[j]
  }

  ghost function Elements(s: seq<nat>): set<nat> { set x | x in s }

  /** The table memory is the root and the tracked pages, each once. */
  ghost predicate Accounted(t: Table) {
    && t.mem.Keys == {t.root} + Elements(t.tracked)
    && NoDuplicates(t.tracked)
    && t.root !in t.tracked
    && forall page | page in t.mem :: |t.mem[page]| == ENTRIES
  }

  /** No page is reached twice: the pages below the root form a tree. */
  ghost predicate IsTree(t: Table) {
    forall l, p, m, q | IsNode(t, l, p) && IsNode(t, m, q) && NodeAt(t, l, p) == NodeAt(t, m, q) ::
      l == m && p == q
  }

  ghost predicate Closed(t: Table) {
    forall l, p | IsNode(t, l, p) :: NodeAt(t, l, p).value in t.mem
  }

  ghost predicate Reached(t: Table) {
    forall page | page in t.tracked :: exists l, p :: l >= 1 && IsNode(t, l, p) && NodeAt(t, l, p) == Some(page)
  }

  ghost predicate EntriesOk(t: Table) {
    forall l, p, i | IsNode(t, l, p) && 0 <= i < ENTRIES :: EntryOk(l, Read(t.mem, NodeAt(t, l, p).value, i))
  }

  ghost predicate Shape(t: Table) {
    Accounted(t) && Closed(t) && IsTree(t) && Reached(t) && EntriesOk(t)
  }

  // --------------------------------------------------------- writing one entry

  /**
   Writing the entry that (l + 1, c) hangs from changes what that one entry reaches and
   nothing else, provided the entry was not present or is a leaf.  `after` may hold fresh
   zero pages.
  */
  lemma {:induction false} WriteEntry(t: Table, after: Table, l: nat, c: nat, entry: nat, m: nat, q: nat)
    requires Closed(t) && IsTree(t) && IsNode(t, l, c / ENTRIES)
    requires after.root == t.root && t.mem.Keys <= after.mem.Keys
    requires var page := NodeAt(t, l, c / ENTRIES).value;
      forall x, j | x in after.mem && 0 <= j < ENTRIES :: Read(after.mem, x, j) ==
        if x == page && j == c % ENTRIES then entry else if x in t.mem then Read(t.mem, x, j) else 0
    requires NodeAt(t, l + 1, c).None? || l == 3
    requires l < 3 ==> Target(entry).Some? && Target(entry).value in after.mem && Target(entry).value !in t.mem
    requires m <= 4
    ensures NodeAt(after, m, q) == if m == l + 1 && q == c then Target(entry) else NodeAt(t, m, q)
  {
    if m > 0 {
      var (m', q') := (m - 1, q / ENTRIES);
      WriteEntry(t, after, l, c, entry, m', q');
      if NodeAt(t, m', q').Some? {
        assert IsNode(t, m', q');
      }
    }
  }

  /** The tables agree on every node and every translation but one. */
  ghost predicate SameExcept(t: Table, after: Table, level: nat, prefix: nat) {
    forall m, q | m <= 4 && !(m == level && q == prefix) :: NodeAt(after, m, q) == NodeAt(t, m, q)
  }

  /** Allocate `np` as a zeroed table page, track it, and point entry i of `page` at it. */
  function Link(t: Table, page: nat, i: nat, np: nat): Table {
    Table(Write(t.mem[np := ZeroPage()], page, i, NonLeaf(np)), t.root, t.tracked + [np])
  }

  lemma LinkAddsNode(t: Table, l: nat, c: nat, np: nat)
    requires Shape(t) && l < 3 && IsNode(t, l, c / ENTRIES) && NodeAt(t, l + 1, c).None?
    requires np !in t.mem && np < PFN_LIMIT
    ensures var after := Link(t, NodeAt(t, l, c / ENTRIES).value, c % ENTRIES, np);
      && NodeAt(after, l + 1, c) == Some(np)
      && SameExcept(t, after, l + 1, c)
      && Accounted(after)
      && after.mem.Keys == t.mem.Keys + {np}
  {
    var after := Link(t, NodeAt(t, l, c / ENTRIES).value, c % ENTRIES, np);
    PackRoundTrip(np);
    forall m, q | m <= 4
      ensures NodeAt(after, m, q) == if m == l + 1 && q == c then Some(np) else NodeAt(t, m, q)
    {
      WriteEntry(t, after, l, c, NonLeaf(np), m, q);
    }
  }

  lemma LinkedTree(t: Table, after: Table, level: nat, c: nat, np: nat)
    requires Closed(t) && IsTree(t) && np !in t.mem
    requires SameExcept(t, after, level, c) && NodeAt(after, level, c) == Some(np)
    ensures IsTree(after)
  {
  }

  lemma LinkedNodes(t: Table, after: Table, level: nat, c: nat, np: nat)
    requires Closed(t) && Reached(t)
    requires 1 <= level <= 3 && after.mem.Keys == t.mem.Keys + {np} && after.tracked == t.tracked + [np]
    requires NodeAt(t, level, c).None? && SameExcept(t, after, level, c) && NodeAt(after, level, c) == Some(np)
    ensures Closed(after) && Reached(after)
  {
  }

  lemma LinkedEntry(t: Table, l: nat, c: nat, np: nat, m: nat, q: nat, i: nat)
    requires Closed(t) && IsTree(t) && Accounted(t) && i < ENTRIES
    requires l < 3 && IsNode(t, l, c / ENTRIES) && np !in t.mem && np < PFN_LIMIT
    requires IsNode(t, m, q) && EntryOk(m, Read(t.mem, NodeAt(t, m, q).value, i))
    ensures EntryOk(m, Read(Link(t, NodeAt(t, l, c / ENTRIES).value, c % ENTRIES, np).mem, NodeAt(t, m, q).value, i))
  {
    PackRoundTrip(np);
    hide EntryOk, Target;
    var page := NodeAt(t, l, c / ENTRIES).value;
    var mem := Link(t, page, c % ENTRIES, np).mem;
    var x := NodeAt(t, m, q).value;
    if x == page && i == c % ENTRIES {
      assert m == l;
      assert Read(mem, x, i) == NonLeaf(np);
    } else {
      assert Read(mem, x, i) == Read(t.mem, x, i);
    }
  }

  lemma LinkedEntries(t: Table, l: nat, c: nat, np: nat)
    requires Closed(t) && IsTree(t) && EntriesOk(t) && Accounted(t)
    requires l < 3 && IsNode(t, l, c / ENTRIES) && np !in t.mem && np < PFN_LIMIT
    requires var after := Link(t, NodeAt(t, l, c / ENTRIES).value, c % ENTRIES, np);
      SameExcept(t, after, l + 1, c) && NodeAt(after, l + 1, c) == Some(np)
    ensures EntriesOk(Link(t, NodeAt(t, l, c / ENTRIES).value, c % ENTRIES, np))
  {
    var page := NodeAt(t, l, c / ENTRIES).value;
    var after := Link(t, page, c % ENTRIES, np);
    forall m, q, i | IsNode(after, m, q) && 0 <= i < ENTRIES
      ensures EntryOk(m, Read(after.mem, NodeAt(after, m, q).value, i))
    {
      if m == l + 1 && q == c {
        assert Read(after.mem, np, i) == 0;
      } else {
        assert IsNode(t, m, q);
        LinkedEntry(t, l, c, np, m, q, i);
      }
    }
  }

  lemma LinkKeepsShape(t: Table, l: nat, c: nat, np: nat)
    requires Shape(t) && l < 3 && IsNode(t, l, c / ENTRIES) && NodeAt(t, l + 1, c).None?
    requires np !in t.mem && np < PFN_LIMIT
    ensures Shape(Link(t, NodeAt(t, l, c / ENTRIES).value, c % ENTRIES, np))
  {
    var after := Link(t, NodeAt(t, l, c / ENTRIES).value, c % ENTRIES, np);
    LinkAddsNode(t, l, c, np);
    LinkedTree(t, after, l + 1, c, np);
    LinkedNodes(t, after, l + 1, c, np);
    LinkedEntries(t, l, c, np);
  }

  // ------------------------------------------------------------------ the walk

  /** Result of a walk: the table, the last-level page if reached, and unused free pages. */
  datatype Walked = Walked(t: Table, leafPage: Option<nat>, supply: seq<nat>)

  /**
   mini_ept_walk from a given level on.  `supply` lists the pages alloc_page() will hand
   out, in order; when it is exhausted alloc_page() fails.
  */
  function Walk(t: Table, page: nat, level: nat, frame: nat, alloc: bool, supply: seq<nat>): Walked
    requires level <= 3
    decreases 3 - level
  {
    if level == 3 then Walked(t, Some(page), supply)
    else
      var i := Index(frame, level);
      match Target(Read(t.mem, page, i))
      case Some(next) => Walk(t, next, level + 1, frame, alloc, supply)
      case None =>
        if !alloc || |t.tracked| >= TRACK_MAX || supply == [] then Walked(t, None, supply)
        else Walk(Link(t, page, i, supply[0]), supply[0], level + 1, frame, alloc, supply[1..])
  }

  /** Free pages: distinct, addressable, and not in use by the table. */
  ghost predicate FreePages(t: Table, supply: seq<nat>) {
    && NoDuplicates(supply)
    && forall page | page in supply :: page < PFN_LIMIT && page !in t.mem
  }

  /** How many table pages are missing on the path of a frame below a level. */
  function Missing(t: Table, level: nat, frame: nat): nat
    requires level <= 3
    decreases 3 - level
  {
    if level == 3 then 0
    else (if NodeAt(t, level + 1, Prefix(frame, level + 1)).None? then 1 else 0) + Missing(t, level + 1, frame)
  }

  /** `after` has every node of t, and what is new lies on the path of the frame, above the leaves. */
  ghost predicate Grown(t: Table, after: Table, frame: nat) {
    forall m, q | m <= 4 && NodeAt(after, m, q) != NodeAt(t, m, q) ::
      NodeAt(t, m, q).None? && 1 <= m <= 3 && q == Prefix(frame, m)
  }

  lemma GrownTransitive(t: Table, u: Table, v: Table, frame: nat)
    requires Grown(t, u, frame) && Grown(u, v, frame)
    ensures Grown(t, v, frame)
  {
  }

  lemma NextNode(t: Table, page: nat, level: nat, frame: nat)
    requires level <= 3 && NodeAt(t, level, Prefix(frame, level)) == Some(page)
    ensures NodeAt(t, level + 1, Prefix(frame, level + 1)) == Target(Read(t.mem, page, Index(frame, level)))
  {
  }

  lemma GrownReflexive(t: Table, frame: nat)
    ensures Grown(t, t, frame)
  {}

  /** One missing level filled in on the way down. */
  lemma WalkLinks(t: Table, page: nat, level: nat, frame: nat, supply: seq<nat>)
    requires level < 3 && Shape(t) && FreePages(t, supply) && supply != []
    requires NodeAt(t, level, Prefix(frame, level)) == Some(page)
    requires NodeAt(t, level + 1, Prefix(frame, level + 1)).None?
    ensures var u := Link(t, page, Index(frame, level), supply[0]);
      && Shape(u) && FreePages(u, supply[1..]) && Grown(t, u, frame)
      && NodeAt(u, level + 1, Prefix(frame, level + 1)) == Some(supply[0])
      && Missing(u, level + 1, frame) == Missing(t, level + 1, frame)
  {
    hide IsTree, Reached, EntriesOk, Closed;
    var c := Prefix(frame, level + 1);
    PrefixStep(frame, level);
    assert IsNode(t, level, c / ENTRIES);
    LinkAddsNode(t, level, c, supply[0]);
    LinkKeepsShape(t, level, c, supply[0]);
    RestFree(t, Link(t, page, Index(frame, level), supply[0]), supply);
  }

  lemma RestFree(t: Table, u: Table, supply: seq<nat>)
    requires FreePages(t, supply) && supply != [] && u.mem.Keys == t.mem.Keys + {supply[0]}
    ensures FreePages(u, supply[1..])
  {
    var rest := supply[1..];
    forall page | page in rest
      ensures page < PFN_LIMIT && page !in u.mem
    {
      var i :| 0 <= i < |rest| && rest[i] == page;
      assert supply[i + 1] == page && page in supply && page != supply[0];
      assert page !in t.mem.Keys + {supply[0]};
    }
  }

  lemma {:induction false} WalkKeeps(t: Table, page: nat, level: nat, frame: nat, alloc: bool, supply: seq<nat>)
    requires level <= 3 && Shape(t) && FreePages(t, supply)
    requires NodeAt(t, level, Prefix(frame, level)) == Some(page)
    ensures var r := Walk(t, page, level, frame, alloc, supply);
      && Shape(r.t) && r.t.root == t.root && FreePages(r.t, r.supply)
      && Grown(t, r.t, frame)
      && t.tracked + supply == r.t.tracked + r.supply
      && (r.leafPage.Some? ==> NodeAt(r.t, 3, Prefix(frame, 3)) == r.leafPage)
      && (r.leafPage.Some? <==>
          var missing := Missing(t, level, frame);
          missing == 0 || (alloc && missing <= |supply| && |t.tracked| + missing <= TRACK_MAX))
    decreases 3 - level
  {
    hide Shape, FreePages, Grown, NodeAt, Read, Target, Index, Prefix, Write;
    GrownReflexive(t, frame);
    if level < 3 {
      NextNode(t, page, level, frame);
      var next := NodeAt(t, level + 1, Prefix(frame, level + 1));
      if next.Some? {
        WalkKeeps(t, next.value, level + 1, frame, alloc, supply);
      } else if alloc && |t.tracked| < TRACK_MAX && supply != [] {
        WalkLinks(t, page, level, frame, supply);
        var u := Link(t, page, Index(frame, level), supply[0]);
        WalkKeeps(u, supply[0], level + 1, frame, alloc, supply[1..]);
        GrownTransitive(t, u, Walk(u, supply[0], level + 1, frame, alloc, supply[1..]).t, frame);
        assert t.tracked + supply == u.tracked + supply[1..];
      }
    }
  }

  // ----------------------------------------------------- the violation handler

  /** The memory slot: guest pages pinned at KVM_SET_USER_MEMORY_REGION. */
  datatype Slot = Slot(valid: bool, baseGpa: nat, npages: nat, pages: seq<nat>) {
    ghost predicate Ok() {
      && baseGpa % PAGE_SIZE == 0 && baseGpa < U64 && npages * PAGE_SIZE < U64
      && |pages| == npages && forall i | 0 <= i < npages :: pages[i] < PFN_LIMIT
    }

    /** The range test of the handler, on 64-bit words. */
    predicate Covers(gpa: nat) {
      valid && baseGpa <= gpa < (baseGpa + npages * PAGE_SIZE % U64) % U64
    }

    function PageFor(frame: nat): nat
      requires Ok() && Covers(frame * PAGE_SIZE)
    {
      SlotIndex(this, frame);
      pages[frame - baseGpa / PAGE_SIZE]
    }
  }

  lemma SlotIndex(slot: Slot, frame: nat)
    requires slot.Ok() && slot.Covers(frame * PAGE_SIZE)
    ensures 0 <= frame - slot.baseGpa / PAGE_SIZE < slot.npages
    ensures (frame * PAGE_SIZE - slot.baseGpa) / PAGE_SIZE == frame - slot.baseGpa / PAGE_SIZE
  {
  }

  /** The handler accepts exactly the slot's addresses, or none when the slot ends past 2^64. */
  lemma CoversExactly(slot: Slot, gpa: nat)
    requires slot.Ok() && slot.valid
    ensures slot.Covers(gpa) <==>
      slot.baseGpa + slot.npages * 4096 < 0x1_0000_0000_0000_0000 && slot.baseGpa <= gpa < slot.baseGpa + slot.npages * 4096
  {
  }

  datatype Status = Mapped | OutsideSlot | NoMemory

  datatype Handled = Handled(t: Table, status: Status, supply: seq<nat>)

  /** mini_ept_handle_violation. */
  function HandleViolation(t: Table, slot: Slot, gpa: nat, supply: seq<nat>): Handled
    requires slot.Ok()
  {
    var frame := gpa / PAGE_SIZE;
    if !slot.Covers(frame * PAGE_SIZE) then Handled(t, OutsideSlot, supply)
    else
      var w := Walk(t, t.root, 0, frame, true, supply);
      match w.leafPage
      case None => Handled(w.t, NoMemory, w.supply)
      case Some(page) =>
        Handled(MapLeaf(w.t, page, frame, slot.PageFor(frame)), Mapped, w.supply)
  }

  /** Point the last-level entry of a frame at a guest page. */
  function MapLeaf(t: Table, page: nat, frame: nat, pfn: nat): Table {
    t.(mem := Write(t.mem, page, Index(frame, 3), Leaf(pfn)))
  }

  lemma LeafMaps(t: Table, page: nat, frame: nat, pfn: nat)
    requires Shape(t) && NodeAt(t, 3, Prefix(frame, 3)) == Some(page) && pfn < PFN_LIMIT
    ensures var after := MapLeaf(t, page, frame, pfn);
      Translate(after, frame) == Some(pfn) && SameExcept(t, after, 4, frame)
  {
    hide Reached, EntriesOk;
    var after := MapLeaf(t, page, frame, pfn);
    assert IsNode(t, 3, frame / ENTRIES);
    forall m, q | m <= 4
      ensures NodeAt(after, m, q) == if m == 4 && q == frame then Some(pfn) else NodeAt(t, m, q)
    {
      PackRoundTrip(pfn);
      WriteEntry(t, after, 3, frame, Leaf(pfn), m, q);
    }
  }

  lemma LeafKeepsShape(t: Table, page: nat, frame: nat, pfn: nat)
    requires Shape(t) && NodeAt(t, 3, Prefix(frame, 3)) == Some(page) && pfn < PFN_LIMIT
    ensures Shape(MapLeaf(t, page, frame, pfn))
    ensures MapLeaf(t, page, frame, pfn).mem.Keys == t.mem.Keys
  {
    var after := MapLeaf(t, page, frame, pfn);
    LeafMaps(t, page, frame, pfn);
    SameNodes(t, after, 4, frame);
    forall m, q, i | IsNode(after, m, q) && 0 <= i < ENTRIES
      ensures EntryOk(m, Read(after.mem, NodeAt(after, m, q).value, i))
    {
      LeafEntry(t, page, frame, pfn, m, q, i);
    }
  }

  lemma SameNodes(t: Table, after: Table, level: nat, c: nat)
    requires level == 4 && SameExcept(t, after, level, c)
    requires after.mem.Keys == t.mem.Keys && after.tracked == t.tracked
    requires Closed(t) && IsTree(t) && Reached(t)
    ensures Closed(after) && IsTree(after) && Reached(after)
  {
  }

  lemma LeafEntry(t: Table, page: nat, frame: nat, pfn: nat, m: nat, q: nat, i: nat)
    requires Closed(t) && IsTree(t) && Accounted(t) && EntriesOk(t) && i < ENTRIES && pfn < PFN_LIMIT
    requires NodeAt(t, 3, Prefix(frame, 3)) == Some(page) && IsNode(t, m, q)
    ensures EntryOk(m, Read(MapLeaf(t, page, frame, pfn).mem, NodeAt(t, m, q).value, i))
  {
    PackRoundTrip(pfn);
    hide EntryOk, Target;
    var mem := MapLeaf(t, page, frame, pfn).mem;
    var x := NodeAt(t, m, q).value;
    if x == page && i == Index(frame, 3) {
      assert IsNode(t, 3, Prefix(frame, 3));
      assert m == 3;
      assert Read(mem, x, i) == Leaf(pfn);
    } else {
      assert Read(mem, x, i) == Read(t.mem, x, i);
    }
  }
}
