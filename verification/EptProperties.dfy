/**
 What the page table promises, for one violation and over whole runs of violations:
 it refines a flat map from frames to pinned pages, and it holds exactly the table
 pages the mapped addresses need.
*/
module EptProperties {
  import opened Arithmetic
  import opened Common
  import opened Ept

  // ------------------------------------------------------- refining a flat map

  /** The translations below 2^48, as a flat map from frames to page frame numbers. */
  ghost function FlatMap(t: Table): map<nat, nat> {
    map frame: nat | frame < FRAME_LIMIT && Translate(t, frame).Some? :: Translate(t, frame).value
  }

  /** Every mapping is the one the slot prescribes. */
  ghost predicate FromSlot(t: Table, slot: Slot)
    requires slot.Ok()
  {
    forall frame: nat | Translate(t, frame).Some? ::
      slot.Covers(frame * PAGE_SIZE) && Translate(t, frame).value == slot.PageFor(frame)
  }

  /** Every mapping is the one the slot prescribes for some address whose low bits it has. */
  ghost predicate Aliased(t: Table, slot: Slot)
    requires slot.Ok()
  {
    forall frame: nat | Translate(t, frame).Some? :: exists g :: Prescribes(slot, g, frame, Translate(t, frame).value)
  }

  predicate Prescribes(slot: Slot, g: nat, frame: nat, pfn: nat)
    requires slot.Ok()
  {
    slot.Covers(g * PAGE_SIZE) && g % FRAME_LIMIT == frame && slot.PageFor(g) == pfn
  }

  /** Nodes and mappings only ever appear; none changes or goes away. */
  ghost predicate Monotone(t: Table, after: Table) {
    forall m, q | m <= 4 && NodeAt(t, m, q).Some? :: NodeAt(after, m, q) == NodeAt(t, m, q)
  }

  /** A new table: a zeroed root and nothing else. */
  function FreshTable(root: nat): Table { Table(map[root := ZeroPage()], root, []) }

  lemma FreshTableShape(root: nat)
    ensures Shape(FreshTable(root))
    ensures forall m, q | 1 <= m <= 4 :: NodeAt(FreshTable(root), m, q).None?
  {
    var t := FreshTable(root);
    forall m, q | 1 <= m <= 4
      ensures NodeAt(t, m, q).None?
    {
      EmptyBelow(root, m, q);
    }
    assert forall l, p | IsNode(t, l, p) :: l == 0 && p == 0;
  }

  lemma EmptyBelow(root: nat, m: nat, q: nat)
    requires m >= 1
    ensures NodeAt(FreshTable(root), m, q).None?
  {
  }

  /**
   The handler keeps the tree; on success it maps the frame, by its low 36 bits, and no other,
   on failure nothing.
  */
  lemma ViolationKeeps(t: Table, slot: Slot, gpa: nat, supply: seq<nat>)
    requires Shape(t) && slot.Ok() && FreePages(t, supply)
    ensures var r := HandleViolation(t, slot, gpa, supply);
      var (frame, low) := (gpa / PAGE_SIZE, gpa / PAGE_SIZE % FRAME_LIMIT);
      && Shape(r.t) && r.t.root == t.root && FreePages(r.t, r.supply)
      && t.tracked + supply == r.t.tracked + r.supply
      && (r.status == OutsideSlot <==> !slot.Covers(frame * PAGE_SIZE))
      && (r.status == Mapped ==> Translate(r.t, low) == Some(slot.PageFor(frame)))
      && (r.status == OutsideSlot ==> r.t == t)
      && forall m, q | m <= 4 && NodeAt(r.t, m, q) != NodeAt(t, m, q) ::
           q == Prefix(low, m) && if m == 4 then r.status == Mapped else 1 <= m && NodeAt(t, m, q).None?
  {
    hide Shape, FreePages, NodeAt, Walk, MapLeaf, Target, Read;
    var (frame, low) := (gpa / PAGE_SIZE, gpa / PAGE_SIZE % FRAME_LIMIT);
    if slot.Covers(frame * PAGE_SIZE) {
      RootNode(t, low);
      WalkIgnoresHighBits(t, t.root, 0, frame, supply);
      WalkKeeps(t, t.root, 0, low, true, supply);
      var w := Walk(t, t.root, 0, low, true, supply);
      if w.leafPage.Some? {
        var pfn := slot.PageFor(frame);
        SameLeaf(w.t, w.leafPage.value, frame, pfn);
        LeafKeepsShape(w.t, w.leafPage.value, low, pfn);
        LeafMaps(w.t, w.leafPage.value, low, pfn);
        MapLeafFields(w.t, w.leafPage.value, low, pfn, w.supply);
        var after := MapLeaf(w.t, w.leafPage.value, low, pfn);
        assert Prefix(low, 4) == low;
        forall m, q | m <= 4 && NodeAt(after, m, q) != NodeAt(t, m, q)
          ensures q == Prefix(low, m) && if m == 4 then true else 1 <= m && NodeAt(t, m, q).None?
        {
          assert (m == 4 && q == low) || NodeAt(after, m, q) == NodeAt(w.t, m, q);
        }
      }
    }
  }

  lemma RootNode(t: Table, frame: nat)
    requires frame < FRAME_LIMIT
    ensures NodeAt(t, 0, Prefix(frame, 0)) == Some(t.root)
  {
  }

  lemma MapLeafFields(t: Table, page: nat, frame: nat, pfn: nat, supply: seq<nat>)
    requires FreePages(t, supply)
    ensures var after := MapLeaf(t, page, frame, pfn);
      after.root == t.root && after.tracked == t.tracked && FreePages(after, supply)
  {}

  /** A violation is an update of the flat map when it succeeds and leaves it alone otherwise. */
  lemma ViolationRefinesMap(t: Table, slot: Slot, gpa: nat, supply: seq<nat>)
    requires Shape(t) && slot.Ok() && FreePages(t, supply)
    ensures var r := HandleViolation(t, slot, gpa, supply);
      var (frame, low) := (gpa / PAGE_SIZE, gpa / PAGE_SIZE % FRAME_LIMIT);
      && Shape(r.t)
      && FlatMap(r.t) == (if r.status == Mapped then FlatMap(t)[low := slot.PageFor(frame)] else FlatMap(t))
      && (FromSlot(t, slot) && frame < FRAME_LIMIT ==> FromSlot(r.t, slot) && Monotone(t, r.t))
  {
    hide Shape, FreePages, NodeAt, HandleViolation;
    var r := HandleViolation(t, slot, gpa, supply);
    ViolationKeeps(t, slot, gpa, supply);
    assert forall f: nat | f != gpa / PAGE_SIZE % FRAME_LIMIT :: Translate(r.t, f) == Translate(t, f);
  }

  /** Whatever is mapped stays the page of a covered address with the frame's low bits. */
  lemma ViolationKeepsAliased(t: Table, slot: Slot, gpa: nat, supply: seq<nat>)
    requires Shape(t) && slot.Ok() && FreePages(t, supply) && Aliased(t, slot)
    ensures Aliased(HandleViolation(t, slot, gpa, supply).t, slot)
  {
    hide Shape, FreePages, NodeAt, HandleViolation, Prefix;
    var r := HandleViolation(t, slot, gpa, supply);
    var (frame, low) := (gpa / PAGE_SIZE, gpa / PAGE_SIZE % FRAME_LIMIT);
    ViolationKeeps(t, slot, gpa, supply);
    if r.status == Mapped { assert Prescribes(slot, frame, low, slot.PageFor(frame)); }
    LowPrefix(low);
    forall f: nat | Translate(r.t, f).Some?
      ensures exists g :: Prescribes(slot, g, f, Translate(r.t, f).value)
    {
      if f != low || r.status != Mapped { assert Translate(r.t, f) == Translate(t, f); }
    }
  }

  /** In a slot of at most 2^36 pages no two addresses share their low bits. */
  lemma OnePrescribed(slot: Slot, g: nat, h: nat)
    requires slot.Ok() && slot.npages <= FRAME_LIMIT
    requires slot.Covers(g * PAGE_SIZE) && slot.Covers(h * PAGE_SIZE) && g % FRAME_LIMIT == h % FRAME_LIMIT
    ensures g == h
  {
    SlotIndex(slot, g);
    SlotIndex(slot, h);
    if g < h {
      CloseRemaindersDiffer(g, h, FRAME_LIMIT);
    } else if h < g {
      CloseRemaindersDiffer(h, g, FRAME_LIMIT);
    }
  }

  /** So no violation, at whatever address, changes a node or a mapping that is there. */
  lemma ViolationOnlyAdds(t: Table, slot: Slot, gpa: nat, supply: seq<nat>)
    requires Shape(t) && slot.Ok() && FreePages(t, supply) && slot.npages <= FRAME_LIMIT && Aliased(t, slot)
    ensures var r := HandleViolation(t, slot, gpa, supply); Aliased(r.t, slot) && Monotone(t, r.t)
  {
    hide Shape, FreePages, NodeAt, HandleViolation, Prefix;
    var r := HandleViolation(t, slot, gpa, supply);
    var (frame, low) := (gpa / PAGE_SIZE, gpa / PAGE_SIZE % FRAME_LIMIT);
    ViolationKeeps(t, slot, gpa, supply);
    ViolationKeepsAliased(t, slot, gpa, supply);
    LowPrefix(low);
    if r.status == Mapped && Translate(t, low).Some? {
      var g :| Prescribes(slot, g, low, Translate(t, low).value);
      OnePrescribed(slot, g, frame);
    }
  }

  lemma LowPrefix(frame: nat)
    ensures Prefix(frame, 4) == frame
  {
  }

  /**
   A handled violation is over: the walk for the address now finds, on all four levels, entries
   that the processor accepts and that allow reading, writing and executing.
  */
  lemma ViolationIsOver(t: Table, slot: Slot, gpa: nat, supply: seq<nat>, level: nat)
    requires Shape(t) && slot.Ok() && FreePages(t, supply) && level <= 3
    requires HandleViolation(t, slot, gpa, supply).status == Mapped
    ensures var (after, low) := (HandleViolation(t, slot, gpa, supply).t, gpa / PAGE_SIZE % FRAME_LIMIT);
      && NodeAt(after, level, Prefix(low, level)).Some?
      && var e := EntryFor(after, low, level);
         e % 8 == 7 && e / 8 % 512 == (if level < 3 then 0 else 6) && e / 4096 < 0x100_0000_0000
  {
    hide Shape, FreePages, NodeAt, HandleViolation, Prefix, EntryFor;
    ViolationKeeps(t, slot, gpa, supply);
    PathAccepted(HandleViolation(t, slot, gpa, supply).t, gpa / PAGE_SIZE % FRAME_LIMIT, level);
  }

  lemma PathAccepted(t: Table, frame: nat, level: nat)
    requires Shape(t) && Translate(t, frame).Some? && level <= 3
    ensures NodeAt(t, level, Prefix(frame, level)).Some?
    ensures EntryFor(t, frame, level) != 0 && EntryOk(level, EntryFor(t, frame, level))
  {
    hide Accounted, Closed, IsTree, Reached;
    LowPrefix(frame);
    OnPath(t, frame, level);
    OnPath(t, frame, level + 1);
    NextNode(t, NodeAt(t, level, Prefix(frame, level)).value, level, frame);
    assert IsNode(t, level, Prefix(frame, level));
    assert Index(frame, level) < ENTRIES;
  }

  /** Whatever leads to a translation is there. */
  lemma {:induction false} OnPath(t: Table, frame: nat, level: nat)
    requires Translate(t, frame).Some? && level <= 4
    ensures NodeAt(t, level, Prefix(frame, level)).Some?
    decreases 4 - level
  {
    LowPrefix(frame);
    if level < 4 {
      OnPath(t, frame, level + 1);
      PrefixStep(frame, level);
    }
  }

  /** It fails exactly outside the slot, or when table pages are missing and cannot be had. */
  lemma ViolationSucceeds(t: Table, slot: Slot, gpa: nat, supply: seq<nat>)
    requires Shape(t) && slot.Ok() && FreePages(t, supply)
    requires slot.Covers(gpa / PAGE_SIZE * PAGE_SIZE)
    ensures var missing := Missing(t, 0, gpa / PAGE_SIZE % FRAME_LIMIT);
      HandleViolation(t, slot, gpa, supply).status == Mapped <==>
        missing == 0 || (missing <= |supply| && |t.tracked| + missing <= 1024)
  {
    hide Shape, FreePages, NodeAt, Walk, MapLeaf, Missing;
    var low := gpa / PAGE_SIZE % FRAME_LIMIT;
    RootNode(t, low);
    WalkIgnoresHighBits(t, t.root, 0, gpa / PAGE_SIZE, supply);
    WalkKeeps(t, t.root, 0, low, true, supply);
  }

  /** The walk only looks at 36 frame bits. */
  lemma {:induction false} WalkIgnoresHighBits(t: Table, page: nat, level: nat, frame: nat, supply: seq<nat>)
    requires level <= 3
    ensures Walk(t, page, level, frame, true, supply) == Walk(t, page, level, frame % FRAME_LIMIT, true, supply)
    decreases 3 - level
  {
    IndexIgnoresHighBits(frame);
    if level < 3 {
      var i := Index(frame, level);
      match Target(Read(t.mem, page, i))
      case Some(next) => WalkIgnoresHighBits(t, next, level + 1, frame, supply);
      case None =>
        if |t.tracked| < TRACK_MAX && supply != [] {
          WalkIgnoresHighBits(Link(t, page, i, supply[0]), supply[0], level + 1, frame, supply[1..]);
        }
    }
  }

  lemma IndexIgnoresHighBits(frame: nat)
    ensures forall l | 0 <= l <= 3 :: Index(frame, l) == Index(frame % FRAME_LIMIT, l)
  {
    HighBitsVanish(frame, 0x800_0000, 512);
    HighBitsVanish(frame, 0x4_0000, 0x4_0000);
    HighBitsVanish(frame, 0x200, 0x800_0000);
    HighBitsVanish(frame, 1, FRAME_LIMIT);
  }

  lemma HighBitsVanish(frame: nat, low: nat, high: nat)
    requires low * high == FRAME_LIMIT && high % ENTRIES == 0 && low > 0
    ensures frame / low % ENTRIES == frame % FRAME_LIMIT / low % ENTRIES
  {
    var (h, rest) := (frame / FRAME_LIMIT, frame % FRAME_LIMIT);
    calc {
      frame;
      FRAME_LIMIT * h + rest;
      { assert (low * high) * h == low * (high * h); }
      low * (high * h) + rest;
    }
    DivPlusMultiple(high * h, rest, low);
    calc {
      high * h;
      { assert high == ENTRIES * (high / ENTRIES); }
      (ENTRIES * (high / ENTRIES)) * h;
      ENTRIES * (high / ENTRIES * h);
    }
    DivPlusMultiple(high / ENTRIES * h, rest / low, ENTRIES);
  }

  /**
   Why addresses must stay below 2^48: there the refinement holds, and at or above 2^48 a
   handled violation maps the low frame instead and leaves the faulting one untranslated.
  */
  lemma MapsTheFaultingFrame(t: Table, slot: Slot, gpa: nat, supply: seq<nat>)
    requires Shape(t) && slot.Ok() && FreePages(t, supply)
    requires HandleViolation(t, slot, gpa, supply).status == Mapped
    ensures var (after, frame) := (HandleViolation(t, slot, gpa, supply).t, gpa / PAGE_SIZE);
      && (Translate(after, frame) == Some(slot.PageFor(frame)) <==> frame < FRAME_LIMIT)
      && Translate(after, frame % FRAME_LIMIT) == Some(slot.PageFor(frame))
  {
    hide Shape, FreePages, NodeAt, HandleViolation;
    var frame := gpa / PAGE_SIZE;
    ViolationKeeps(t, slot, gpa, supply);
    if frame >= FRAME_LIMIT { HighFrameUnmapped(HandleViolation(t, slot, gpa, supply).t, frame); }
  }

  /** A slot of one page at 2^48, backed by page 9. */
  const HIGH_SLOT := Slot(true, 0x1_0000_0000_0000, 1, [9])

  /** The handler maps address 0 for a fault at 2^48, and the fault comes again. */
  lemma HighFaultMapsAddressZero()
    ensures HIGH_SLOT.Ok()
    ensures var r := HandleViolation(FreshTable(5), HIGH_SLOT, 0x1_0000_0000_0000, [6, 7, 8]);
      r.status == Mapped && Translate(r.t, 0) == Some(9) && Translate(r.t, 0x10_0000_0000) == None
  {
    hide Shape, Walk, MapLeaf, Translate, NodeAt;
    var (t, supply, gpa) := (FreshTable(5), [6, 7, 8], 0x1_0000_0000_0000);
    FreshTableShape(5);
    RootNode(t, 0);
    assert FreePages(t, supply);
    WalkIgnoresHighBits(t, 5, 0, gpa / PAGE_SIZE, supply);
    WalkKeeps(t, 5, 0, 0, true, supply);
    AtMostThreeMissing(t);
    assert HandleViolation(t, HIGH_SLOT, gpa, supply).status == Mapped;
    MapsTheFaultingFrame(t, HIGH_SLOT, gpa, supply);
    HighFrameUnmapped(HandleViolation(t, HIGH_SLOT, gpa, supply).t, gpa / PAGE_SIZE);
  }

  lemma AtMostThreeMissing(t: Table)
    ensures Missing(t, 0, 0) <= 3
  {
    assert Missing(t, 2, 0) <= 1 && Missing(t, 1, 0) <= 2;
  }

  lemma SameLeaf(t: Table, page: nat, frame: nat, pfn: nat)
    ensures MapLeaf(t, page, frame, pfn) == MapLeaf(t, page, frame % FRAME_LIMIT, pfn)
  {
  }

  lemma HighFrameUnmapped(t: Table, frame: nat)
    requires frame >= FRAME_LIMIT
    ensures Translate(t, frame).None?
  {
    assert frame / ENTRIES / ENTRIES / ENTRIES / ENTRIES == frame / FRAME_LIMIT > 0;
    assert NodeAt(t, 0, frame / FRAME_LIMIT).None?;
    assert NodeAt(t, 1, frame / ENTRIES / ENTRIES / ENTRIES).None?;
    assert NodeAt(t, 2, frame / ENTRIES / ENTRIES).None?;
    assert NodeAt(t, 3, frame / ENTRIES).None?;
  }
}
