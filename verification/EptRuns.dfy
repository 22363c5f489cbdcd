/**
 Whole runs of EPT violations: what is mapped, and how many table pages that takes.
*/
module EptRuns {
  import opened Common
  import opened Ept
  import opened EptProperties

  /** One violation: the faulting address, and the pages alloc_page() can hand out. */
  datatype Fault = Fault(gpa: nat, supply: seq<nat>) {
    function Frame(): nat { gpa / PAGE_SIZE }

    /** The low 36 bits of the frame, all that the walk looks at. */
    function Low(): nat { Frame() % FRAME_LIMIT }
  }

  /** The table after handling the faults in order, starting from a new table. */
  function Run(root: nat, slot: Slot, faults: seq<Fault>): Table
    requires slot.Ok()
  {
    if faults == [] then FreshTable(root)
    else Handle(Run(root, slot, faults[..|faults| - 1]), slot, faults[|faults| - 1]).t
  }

  function Handle(t: Table, slot: Slot, fault: Fault): Handled
    requires slot.Ok()
  {
    HandleViolation(t, slot, fault.gpa, fault.supply)
  }

  /** Every fault finds free pages that are free. */
  ghost predicate Possible(root: nat, slot: Slot, faults: seq<Fault>)
    requires slot.Ok()
  {
    faults == [] || (
      var before := faults[..|faults| - 1];
      var last := faults[|faults| - 1];
      Possible(root, slot, before) && FreePages(Run(root, slot, before), last.supply))
  }

  /** The frames some fault of the run mapped, as the walk sees them. */
  ghost function MappedFrames(root: nat, slot: Slot, faults: seq<Fault>): set<nat>
    requires slot.Ok()
  {
    if faults == [] then {}
    else
      var before := faults[..|faults| - 1];
      var last := faults[|faults| - 1];
      MappedFrames(root, slot, before) +
      if Handle(Run(root, slot, before), slot, last).status == Mapped then {last.Low()} else {}
  }

  /** The frames for which some fault of the run walked the table. */
  ghost function WalkedFrames(slot: Slot, faults: seq<Fault>): set<nat> {
    set i | 0 <= i < |faults| && slot.Covers(faults[i].Frame() * PAGE_SIZE) :: faults[i].Low()
  }

  /**
   In every order and with every allocation failure, exactly the mapped frames translate, each
   to the page of a covered address with its low bits: its own if every fault is below 2^48.
  */
  lemma {:induction false} RunRefinesMap(root: nat, slot: Slot, faults: seq<Fault>)
    requires slot.Ok() && Possible(root, slot, faults)
    ensures var t := Run(root, slot, faults);
      && Shape(t) && t.root == root && Aliased(t, slot)
      && ((forall i | 0 <= i < |faults| :: faults[i].Frame() < FRAME_LIMIT) ==> FromSlot(t, slot))
      && FlatMap(t).Keys == MappedFrames(root, slot, faults)
  {
    hide Shape, FreePages, NodeAt, HandleViolation;
    if faults == [] {
      FreshTableShape(root);
    } else {
      var before := faults[..|faults| - 1];
      var last := faults[|faults| - 1];
      RunRefinesMap(root, slot, before);
      var t := Run(root, slot, before);
      ViolationRefinesMap(t, slot, last.gpa, last.supply);
      ViolationKeeps(t, slot, last.gpa, last.supply);
      ViolationKeepsAliased(t, slot, last.gpa, last.supply);
      hide Aliased, FromSlot;
    }
  }

  /**
   In every run each entry of each table page is absent or such as the processor accepts:
   readable, writable, executable, with nothing in the reserved bits of a non-leaf entry, and
   of memory type write-back in a leaf.
  */
  lemma EntriesAccepted(root: nat, slot: Slot, faults: seq<Fault>, l: nat, p: nat, i: nat)
    requires slot.Ok() && Possible(root, slot, faults)
    requires l <= 3 && NodeAt(Run(root, slot, faults), l, p).Some? && i < ENTRIES
    ensures var t := Run(root, slot, faults);
      var e := Read(t.mem, NodeAt(t, l, p).value, i);
      e == 0 || (e % 8 == 7 && e / 8 % 512 == (if l < 3 then 0 else 6) && e / 4096 < 0x100_0000_0000)
  {
    RunRefinesMap(root, slot, faults);
    hide Accounted, Closed, IsTree, Reached, NodeAt, Run;
    assert IsNode(Run(root, slot, faults), l, p);
  }

  // --------------------------------------------------- counting table pages

  /** The table pages below the root that the frames need, as (level, prefix) pairs. */
  ghost function PathNodes(frames: set<nat>): set<(nat, nat)> {
    Level(1, frames) + Level(2, frames) + Level(3, frames)
  }

  ghost function Level(level: nat, frames: set<nat>): set<(nat, nat)>
    requires level <= 3
  {
    set frame | frame in frames :: (level, Prefix(frame, level))
  }

  /** The distinct values of gpa >> shift over the frames. */
  ghost function Shifted(frames: set<nat>, shift: nat): set<nat>
    requires shift in {0x80_0000_0000, 0x4000_0000, 0x20_0000}
  {
    set frame | frame in frames :: frame * PAGE_SIZE / shift
  }

  lemma {:induction false} SameSize<A, B>(s: set<A>, r: set<B>, f: A -> B)
    requires forall x | x in s :: f(x) in r
    requires forall x, y | x in s && y in s && f(x) == f(y) :: x == y
    requires forall z | z in r :: exists x :: x in s && f(x) == z
    ensures |s| == |r|
  {
    if s == {} {
      assert r == {};
    } else {
      var x :| x in s;
      forall z | z in r - {f(x)}
        ensures exists y :: y in s - {x} && f(y) == z
      {
        var y :| y in s && f(y) == z;
      }
      SameSize(s - {x}, r - {f(x)}, f);
    }
  }

  lemma PathNodeCount(frames: set<nat>)
    ensures |PathNodes(frames)| ==
      |Shifted(frames, 0x80_0000_0000)| + |Shifted(frames, 0x4000_0000)| + |Shifted(frames, 0x20_0000)|
  {
    LevelCount(frames, 1, 0x80_0000_0000);
    LevelCount(frames, 2, 0x4000_0000);
    LevelCount(frames, 3, 0x20_0000);
    var (one, two, three) := (Level(1, frames), Level(2, frames), Level(3, frames));
    assert one !! two && (one + two) !! three;
  }

  lemma LevelCount(frames: set<nat>, level: nat, shift: nat)
    requires (level, shift) in {(1, 0x80_0000_0000), (2, 0x4000_0000), (3, 0x20_0000)}
    ensures |Level(level, frames)| == |Shifted(frames, shift)|
  {
    forall frame: nat
      ensures frame * PAGE_SIZE / shift == Prefix(frame, level)
    {
      PrefixIsShift(frame, level, shift);
    }
    forall z | z in Shifted(frames, shift)
      ensures exists x :: x in Level(level, frames) && x.1 == z
    {
      var frame :| frame in frames && frame * PAGE_SIZE / shift == z;
      assert (level, Prefix(frame, level)) in Level(level, frames);
    }
    SameSize(Level(level, frames), Shifted(frames, shift), (x: (nat, nat)) => x.1);
  }

  lemma PrefixIsShift(frame: nat, level: nat, shift: nat)
    requires (level, shift) in {(1, 0x80_0000_0000), (2, 0x4000_0000), (3, 0x20_0000)}
    ensures frame * PAGE_SIZE / shift == Prefix(frame, level)
  {
  }

  /** Nodes below the root that exist, among the candidates. */
  ghost function Present(t: Table, candidates: set<(nat, nat)>): set<(nat, nat)> {
    set x | x in candidates && NodeAt(t, x.0, x.1).Some?
  }

  /** Every table page below the root lies on the path of one of the frames. */
  ghost predicate OnlyPaths(t: Table, frames: set<nat>) {
    forall l: nat, p: nat | l >= 1 && IsNode(t, l, p) :: (l, p) in PathNodes(frames)
  }

  lemma NodesBelowRoot(t: Table, l: nat, p: nat)
    requires Shape(t) && l >= 1 && IsNode(t, l, p)
    ensures NodeAt(t, l, p).value in t.tracked
  {
    hide Reached, EntriesOk;
    assert IsNode(t, 0, 0);
  }

  lemma {:induction false} SetSize(s: seq<nat>)
    requires NoDuplicates(s)
    ensures |Elements(s)| == |s|
  {
    if s != [] {
      var last := s[|s| - 1];
      var rest := s[..|s| - 1];
      SetSize(rest);
      assert Elements(s) == Elements(rest) + {last};
      assert last !in Elements(rest);
    }
  }

  /** nr_tracked is the number of nodes below the root. */
  lemma TrackedCount(t: Table, frames: set<nat>)
    requires Shape(t) && OnlyPaths(t, frames)
    ensures |t.tracked| == |Present(t, PathNodes(frames))|
  {
    hide NodeAt, Closed, EntriesOk, PathNodes;
    var nodes := Present(t, PathNodes(frames));
    var pages := Elements(t.tracked);
    var f := (x: (nat, nat)) => NodeAt(t, x.0, x.1).GetOr(0);
    forall page | page in pages
      ensures exists x :: x in nodes && f(x) == page
    {
      var l: nat, p: nat :| l >= 1 && IsNode(t, l, p) && NodeAt(t, l, p) == Some(page);
      assert (l, p) in nodes && f((l, p)) == page;
    }
    forall x | x in nodes
      ensures IsNode(t, x.0, x.1) && f(x) in pages
    {
      PathLevels(frames, x);
      NodesBelowRoot(t, x.0, x.1);
    }
    SameSize(nodes, pages, f);
    SetSize(t.tracked);
  }

  lemma PathLevels(frames: set<nat>, x: (nat, nat))
    requires x in PathNodes(frames)
    ensures 1 <= x.0 <= 3
  {}

  lemma PathNode(frames: set<nat>, frame: nat, level: nat)
    requires frame in frames && 1 <= level <= 3
    ensures (level, Prefix(frame, level)) in PathNodes(frames)
  {
  }

  lemma {:induction false} RunOnlyPaths(root: nat, slot: Slot, faults: seq<Fault>)
    requires slot.Ok() && Possible(root, slot, faults)
    ensures OnlyPaths(Run(root, slot, faults), WalkedFrames(slot, faults))
  {
    hide Shape, FreePages, NodeAt, HandleViolation, PathNodes;
    if faults == [] {
      FreshTableShape(root);
    } else {
      var before := faults[..|faults| - 1];
      var last := faults[|faults| - 1];
      var t := Run(root, slot, before);
      var after := Run(root, slot, faults);
      RunOnlyPaths(root, slot, before);
      RunRefinesMap(root, slot, before);
      ViolationKeeps(t, slot, last.gpa, last.supply);
      MorePaths(WalkedFrames(slot, before), WalkedFrames(slot, faults));
      forall l: nat, p: nat | l >= 1 && IsNode(after, l, p)
        ensures (l, p) in PathNodes(WalkedFrames(slot, faults))
      {
        if NodeAt(after, l, p) == NodeAt(t, l, p) {
          assert IsNode(t, l, p);
        } else {
          assert last.Low() in WalkedFrames(slot, faults);
          PathNode(WalkedFrames(slot, faults), last.Low(), l);
        }
      }
    }
  }

  lemma MorePaths(few: set<nat>, many: set<nat>)
    requires few <= many
    ensures PathNodes(few) <= PathNodes(many)
  {}

  lemma TranslationNeedsPath(t: Table, frame: nat)
    requires Translate(t, frame).Some?
    ensures forall level | 1 <= level <= 3 :: NodeAt(t, level, Prefix(frame, level)).Some?
  {
    assert NodeAt(t, 3, frame / ENTRIES).Some?;
    assert NodeAt(t, 2, frame / ENTRIES / ENTRIES).Some?;
    assert NodeAt(t, 1, frame / ENTRIES / ENTRIES / ENTRIES).Some?;
  }

  /**
   After mapping any addresses in any order, nr_tracked is the number of distinct values of
   gpa >> 39, gpa >> 30 and gpa >> 21 among their low 48 bits.  A walk that failed half-way may leave
   more pages behind, but none that no walked address needs.
  */
  lemma TablePageCount(root: nat, slot: Slot, faults: seq<Fault>)
    requires slot.Ok() && Possible(root, slot, faults)
    ensures var (tracked, mapped, walked) :=
        (|Run(root, slot, faults).tracked|, MappedFrames(root, slot, faults), WalkedFrames(slot, faults));
      && PageCount(mapped) <= tracked <= PageCount(walked)
      && (mapped == walked ==> tracked == PageCount(mapped))
  {
    hide Shape, FreePages, NodeAt, HandleViolation, PathNodes, Run, MappedFrames, WalkedFrames;
    var t := Run(root, slot, faults);
    var (mapped, walked) := (MappedFrames(root, slot, faults), WalkedFrames(slot, faults));
    RunRefinesMap(root, slot, faults);
    RunOnlyPaths(root, slot, faults);
    TrackedCount(t, walked);
    PathNodeCount(walked);
    PathNodeCount(mapped);
    SubsetSize(Present(t, PathNodes(walked)), PathNodes(walked));
    forall x | x in PathNodes(mapped)
      ensures x in Present(t, PathNodes(walked))
    {
      MappedPath(t, mapped, walked, x);
    }
    SubsetSize(PathNodes(mapped), Present(t, PathNodes(walked)));
  }

  lemma MappedPath(t: Table, mapped: set<nat>, walked: set<nat>, x: (nat, nat))
    requires FlatMap(t).Keys == mapped && x in PathNodes(mapped) && OnlyPaths(t, walked)
    ensures x in Present(t, PathNodes(walked))
  {
    hide NodeAt;
    var frame :| frame in mapped && x == (x.0, Prefix(frame, x.0)) && 1 <= x.0 <= 3;
    TranslationNeedsPath(t, frame);
    assert IsNode(t, x.0, x.1);
  }

  ghost function PageCount(frames: set<nat>): nat {
    |Shifted(frames, 0x80_0000_0000)| + |Shifted(frames, 0x4000_0000)| + |Shifted(frames, 0x20_0000)|
  }

  lemma {:induction false} SubsetSize<A>(s: set<A>, r: set<A>)
    requires s <= r
    ensures |s| <= |r|
  {
    if s != {} {
      var x :| x in s;
      SubsetSize(s - {x}, r - {x});
    }
  }

  predicate Lands(slot: Slot, g: nat, frame: nat) { slot.Covers(g * PAGE_SIZE) && g % FRAME_LIMIT == frame }

  /** The walk sees some address of the slot as this frame. */
  ghost predicate InSlot(slot: Slot, frame: nat) { exists g: nat :: Lands(slot, g, frame) }

  ghost function SlotFrames(slot: Slot): set<nat> { set frame: nat | frame < FRAME_LIMIT && InSlot(slot, frame) }

  /** A slot that needs at most 1024 table pages is never refused one while free pages last. */
  lemma SmallSlotNeverHitsLimit(root: nat, slot: Slot, faults: seq<Fault>, next: Fault)
    requires slot.Ok() && Possible(root, slot, faults + [next])
    requires PageCount(SlotFrames(slot)) <= 1024
    requires slot.Covers(next.Frame() * PAGE_SIZE)
    ensures var t := Run(root, slot, faults);
      Handle(t, slot, next).status == Mapped <==> Missing(t, 0, next.Low()) <= |next.supply|
  {
    hide Shape, FreePages, NodeAt, HandleViolation, PathNodes, Run, MappedFrames, Missing;
    hide WalkedFrames, SlotFrames, PageCount;
    assert (faults + [next])[..|faults|] == faults;
    var t := Run(root, slot, faults);
    var slots := SlotFrames(slot);
    RunRefinesMap(root, slot, faults);
    RunOnlyPaths(root, slot, faults);
    ViolationSucceeds(t, slot, next.gpa, next.supply);
    WalkedInSlot(slot, faults);
    SlotFrame(slot, next);
    MorePaths(WalkedFrames(slot, faults), slots);
    RoomForPath(t, slots, next.Low());
    PageCountIsPaths(slots);
  }

  lemma SlotFrame(slot: Slot, fault: Fault)
    requires slot.Covers(fault.Frame() * PAGE_SIZE)
    ensures fault.Low() in SlotFrames(slot)
  {
    assert Lands(slot, fault.Frame(), fault.Low());
  }

  lemma PageCountIsPaths(frames: set<nat>)
    ensures PageCount(frames) == |PathNodes(frames)|
  {
    PathNodeCount(frames);
  }

  lemma WalkedInSlot(slot: Slot, faults: seq<Fault>)
    ensures WalkedFrames(slot, faults) <= SlotFrames(slot)
  {
    forall frame | frame in WalkedFrames(slot, faults)
      ensures frame in SlotFrames(slot)
    {
      var i :| 0 <= i < |faults| && slot.Covers(faults[i].Frame() * PAGE_SIZE) && faults[i].Low() == frame;
      SlotFrame(slot, faults[i]);
    }
  }

  ghost function MissingNodes(t: Table, level: nat, frame: nat): set<(nat, nat)>
    requires level <= 3
    decreases 3 - level
  {
    if level == 3 then {}
    else
      var node := (level + 1, Prefix(frame, level + 1));
      (if NodeAt(t, node.0, node.1).None? then {node} else {}) + MissingNodes(t, level + 1, frame)
  }

  lemma {:induction false} MissingCount(t: Table, level: nat, frame: nat)
    requires level <= 3
    ensures |MissingNodes(t, level, frame)| == Missing(t, level, frame)
    ensures forall x | x in MissingNodes(t, level, frame) ::
      level < x.0 <= 3 && x.1 == Prefix(frame, x.0) && NodeAt(t, x.0, x.1).None?
    decreases 3 - level
  {
    if level < 3 { MissingCount(t, level + 1, frame); }
  }

  /** What is tracked and what a frame still misses fit together into the paths of the slot. */
  lemma RoomForPath(t: Table, frames: set<nat>, frame: nat)
    requires Shape(t) && OnlyPaths(t, frames) && frame in frames
    ensures |t.tracked| + Missing(t, 0, frame) <= |PathNodes(frames)|
  {
    hide Shape, NodeAt, PathNodes;
    TrackedCount(t, frames);
    var missing := MissingNodes(t, 0, frame);
    MissingCount(t, 0, frame);
    forall level | 1 <= level <= 3
      ensures (level, Prefix(frame, level)) in PathNodes(frames)
    {
      PathNode(frames, frame, level);
    }
    SubsetSize(Present(t, PathNodes(frames)) + missing, PathNodes(frames));
  }
}
