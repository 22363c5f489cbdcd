/**
 The single event slot of a vCPU, interrupt.c, and the run loop around it, vcpu.c: an
 external interrupt that was accepted is delivered exactly once, in order, or still held.

 The slot is the 32-bit interruption information: vector in bits 7:0, type in bits 10:8,
 valid in bit 31.  What the processor does is a script of exits.
*/
module EventSlot {
  import opened Arithmetic

  const VALID := 0x8000_0000            // INTR_INFO_VALID_MASK
  const EXT := 0                        // INTR_TYPE_EXT_INTR, as a type number
  const NMI := 2                        // INTR_TYPE_NMI_INTR

  function Info(kind: nat, vector: nat): nat { VALID + kind * 256 + vector }

  predicate IsValid(info: nat) { info / VALID % 2 == 1 }

  function Kind(info: nat): nat { info / 256 % 8 }

  function Vector(info: nat): nat { info % 256 }

  lemma InfoFields(kind: nat, vector: nat)
    requires kind < 8 && vector < 256
    ensures IsValid(Info(kind, vector)) && Kind(Info(kind, vector)) == kind && Vector(Info(kind, vector)) == vector
    ensures Info(kind, vector) == 0x8000_0000 + 256 * kind + vector
  {
    var info := Info(kind, vector);
    DivUnique(info, VALID, 1, 256 * kind + vector);
    DivUnique(info, 256, 0x80_0000 + kind, vector);
    DivUnique(0x80_0000 + kind, 8, 0x10_0000, kind);
  }

  /** The bit operations on the information word are the arithmetic used here. */
  lemma InfoBits(kind: bv64, vector: bv64, info: bv64)
    requires kind < 8 && vector < 256
    ensures 0x8000_0000 | (kind << 8) | vector == 0x8000_0000 + kind * 256 + vector
    ensures info & 0x8000_0000 != 0 <==> info / 0x8000_0000 % 2 == 1
    ensures (info >> 8) & 7 == info / 256 % 8 && info & 0xff == info % 256
  {
  }

  // ------------------------------------------------------------- the processor

  datatype Reason = ExternalInterrupt | Nmi | GuestException | Io(ok: bool) | EptViolation(ok: bool) | Cpuid
                  | Hlt | TripleFault | Other

  /** How one VM entry ends. */
  datatype Exit =
    | EntryFails                                        // VMLAUNCH/VMRESUME fails, or exit reason bit 31
    | Exits(idtv: nat, reason: Reason, nmiBlocked: bool)

  /** The IDT-vectoring information records an interrupted delivery of this very event. */
  predicate Interrupted(info: nat, idtv: nat) {
    IsValid(info) && IsValid(idtv) && Kind(idtv) == Kind(info) && Vector(idtv) == Vector(info)
  }

  /**
   Section 28.2.4 of the Intel SDM, volume 3C: IDT-vectoring information is valid exactly
   when the exit interrupted a delivery.  External interrupts only reach the guest by
   injection, so one being delivered is the one written at entry.
  */
  predicate Possible(info: nat, exit: Exit) {
    exit.Exits? && IsValid(exit.idtv) && Kind(exit.idtv) == EXT ==> Interrupted(info, exit.idtv)
  }

  // ------------------------------------------------------------------ the slot

  /** What became of an external interrupt that left the slot for good. */
  datatype Fate = Delivered(vector: nat) | Lost(vector: nat)

  /** The slot, with the external interrupts accepted so far and the fates of those gone. */
  datatype State = State(pending: nat, accepted: seq<nat>, fates: seq<Fate>)

  datatype Outcome = Accepted | Invalid | Busy

  /** mini_vcpu_inject_irq */
  function Inject(s: State, vector: int): (State, Outcome) {
    if vector < 0 || vector > 255 then (s, Invalid)
    else if vector < 32 then (s, Invalid)
    else if s.pending != 0 then (s, Busy)
    else (s.(pending := Info(EXT, vector), accepted := s.accepted + [vector]), Accepted)
  }

  /** mini_vcpu_complete_intr_info: what to put back after an exit. */
  function Complete(idtv: nat): nat {
    if IsValid(idtv) && Kind(idtv) == EXT then Info(EXT, Vector(idtv)) else 0
  }

  /** mini_vcpu_reinject_nmi */
  function ReinjectNmi(pending: nat, blocked: bool): nat {
    if blocked || pending != 0 then pending else Info(NMI, 2)
  }

  predicate Holds(info: nat) { info != 0 && Kind(info) == EXT }

  /** The fate, if any, of the event taken from the slot for an entry. */
  function FateOf(info: nat, exit: Exit): seq<Fate> {
    if !Holds(info) then []
    else if exit.EntryFails? then [Lost(Vector(info))]
    else if Interrupted(info, exit.idtv) then []
    else [Delivered(Vector(info))]
  }

  /** One turn of the run loop: take, enter, account for the exit. */
  function Turn(s: State, exit: Exit): State {
    var fates := s.fates + FateOf(s.pending, exit);
    match exit
    case EntryFails => s.(pending := 0, fates := fates)
    case Exits(idtv, reason, blocked) =>
      var kept := Complete(idtv);
      s.(pending := if reason == Nmi then ReinjectNmi(kept, blocked) else kept, fates := fates)
  }

  /** Does the loop go round again after this exit? */
  predicate Continues(exit: Exit) {
    && exit.Exits?
    && match exit.reason
       case ExternalInterrupt => true
       case Nmi => true
       case Io(ok) => ok
       case EptViolation(ok) => ok
       case Cpuid => true
       case _ => false
  }

  /** mini_vcpu_run_loop over a script of exits, up to the first that ends it. */
  function Run(s: State, script: seq<Exit>): State
    decreases script
  {
    if script == [] then s
    else
      var after := Turn(s, script[0]);
      if Continues(script[0]) then Run(after, script[1..]) else after
  }

  ghost predicate RunPossible(s: State, script: seq<Exit>)
    decreases script
  {
    script != [] ==>
      && Possible(s.pending, script[0])
      && (Continues(script[0]) ==> RunPossible(Turn(s, script[0]), script[1..]))
  }

  // ---------------------------------------------------------------- theorems

  function Vectors(fates: seq<Fate>): seq<nat> { seq(|fates|, i requires 0 <= i < |fates| => fates[i].vector) }

  function Held(pending: nat): (held: seq<nat>)
    ensures |held| <= 1
  {
    if Holds(pending) then [Vector(pending)] else []
  }

  predicate SlotOk(pending: nat) {
    pending == 0 || pending == Info(NMI, 2) || (Vector(pending) >= 32 && pending == Info(EXT, Vector(pending)))
  }

  /** Accepted interrupts are, in order, those gone followed by the one held. */
  ghost predicate Inv(s: State) {
    SlotOk(s.pending) && s.accepted == Vectors(s.fates) + Held(s.pending)
  }

  lemma InjectKeeps(s: State, vector: int)
    requires Inv(s)
    ensures var (after, r) := Inject(s, vector);
      && Inv(after) && after.fates == s.fates
      && (r == Accepted <==> 32 <= vector <= 255 && s.pending == 0)
      && (r == Busy <==> 32 <= vector <= 255 && s.pending != 0)
      && (r == Accepted ==> Held(after.pending) == [vector] && after.pending == 0x8000_0000 + vector)
      && (r != Accepted ==> after == s)
  {
    if 32 <= vector <= 255 && s.pending == 0 {
      InfoFields(EXT, vector);
      hide Info, IsValid, Kind, Vector;
      assert Held(0) == [];
      assert Held(Info(EXT, vector)) == [vector];
      assert s.accepted + [] == s.accepted;
    }
    hide Info, IsValid, Kind, Vector, SlotOk, Held;
  }

  /** A turn moves the held interrupt at most once, and never loses it unless the entry fails. */
  lemma TurnKeeps(s: State, exit: Exit)
    requires Inv(s) && Possible(s.pending, exit)
    ensures var after := Turn(s, exit);
      && Inv(after) && after.accepted == s.accepted
      && ((exists f :: f in FateOf(s.pending, exit) && f.Lost?) <==> exit.EntryFails? && Held(s.pending) != [])
      && (exit.Exits? && Interrupted(s.pending, exit.idtv) && Holds(s.pending) ==> after.pending == s.pending)
  {
    hide Info;
    InfoFields(NMI, 2);
    InfoFields(EXT, Vector(s.pending));
    if exit.EntryFails? && Held(s.pending) != [] {
      assert Lost(Vector(s.pending)) in FateOf(s.pending, exit);
    }
    if exit.Exits? { InfoFields(EXT, Vector(exit.idtv)); }
  }

  /** Some entry that the run gets to fails while it carries an external interrupt. */
  predicate Carried(s: State, script: seq<Exit>)
    decreases script
  {
    script != [] &&
      if script[0].EntryFails? then Holds(s.pending)
      else Continues(script[0]) && Carried(Turn(s, script[0]), script[1..])
  }

  /** A whole KVM_RUN: it loses an interrupt exactly when a failing entry carries one. */
  lemma {:induction false} RunKeeps(s: State, script: seq<Exit>)
    requires Inv(s) && RunPossible(s, script)
    ensures Inv(Run(s, script)) && Run(s, script).accepted == s.accepted
    ensures s.fates <= Run(s, script).fates
    ensures NoneLost(Run(s, script).fates) <==> NoneLost(s.fates) && !Carried(s, script)
    decreases script
  {
    hide Turn, FateOf, Inv, NoneLost;
    if script != [] {
      var after := Turn(s, script[0]);
      TurnKeeps(s, script[0]);
      TurnFates(s, script[0]);
      if Continues(script[0]) { RunKeeps(after, script[1..]); }
    }
  }

  lemma TurnFates(s: State, exit: Exit)
    ensures s.fates <= Turn(s, exit).fates
    ensures NoneLost(Turn(s, exit).fates) <==> NoneLost(s.fates) && !(exit.EntryFails? && Holds(s.pending))
  {
    var fate := FateOf(s.pending, exit);
    assert forall f :: f in s.fates + fate <==> f in s.fates || f in fate;
    if exit.EntryFails? && Holds(s.pending) { assert Lost(Vector(s.pending)) in fate; }
  }

  ghost predicate NoneLost(fates: seq<Fate>) { forall f | f in fates :: f.Delivered? }

  // ------------------------------------------------------- where a run ends

  /** Turns in order, wherever they lead. */
  function Turns(s: State, script: seq<Exit>): State {
    if script == [] then s else Turn(Turns(s, script[..|script| - 1]), script[|script| - 1])
  }

  lemma {:induction false} TurnsFirst(s: State, exit: Exit, script: seq<Exit>)
    ensures Turns(s, [exit] + script) == Turns(Turn(s, exit), script)
  {
    hide Turn;
    if script == [] {
      assert [exit] + script == [exit] && [exit][..0] == [];
    } else {
      var n := |script| - 1;
      assert ([exit] + script)[..n + 1] == [exit] + script[..n];
      TurnsFirst(s, exit, script[..n]);
    }
  }

  /**
   A run takes its turns up to the first exit that it does not handle: a failed entry, a guest
   exception, failed I/O, a failed EPT violation, HLT, a triple fault, or any other reason.
  */
  lemma {:induction false} RunStops(s: State, script: seq<Exit>) returns (n: nat)
    ensures n <= |script| && Run(s, script) == Turns(s, script[..n])
    ensures forall i | 0 <= i < n - 1 ::
      script[i].Exits? && script[i].reason in {ExternalInterrupt, Nmi, Io(true), EptViolation(true), Cpuid}
    ensures n < |script| ==> n > 0
    ensures n < |script| && script[n - 1].Exits? ==>
      script[n - 1].reason in {GuestException, Io(false), EptViolation(false), Hlt, TripleFault, Other}
    decreases script
  {
    hide Turn;
    if script == [] {
      n := 0;
    } else if Continues(script[0]) {
      var m := RunStops(Turn(s, script[0]), script[1..]);
      n := m + 1;
      TurnsFirst(s, script[0], script[1..][..m]);
      assert script[..n] == [script[0]] + script[1..][..m];
      assert forall i | 0 < i < n :: script[i] == script[1..][i - 1];
    } else {
      n := 1;
      assert script[..1] == [script[0]] && [script[0]][..0] == [];
    }
  }

  /**
   An interrupt whose delivery is cut short by exits that the run handles, as often as it may
   be, is delivered by the first entry of the same run after which the guest got that far.
  */
  lemma {:induction false} Redelivered(s: State, vector: nat, cut: seq<Exit>, last: Exit, rest: seq<Exit>)
    requires s.pending == Info(EXT, vector) && 32 <= vector <= 255
    requires forall i | 0 <= i < |cut| ::
      && cut[i].Exits? && cut[i].idtv == Info(EXT, vector)
      && cut[i].reason in {ExternalInterrupt, Nmi, Io(true), EptViolation(true), Cpuid}
    requires last.Exits? && last.idtv / VALID % 2 == 0
    ensures s.fates + [Delivered(vector)] <= Run(s, cut + [last] + rest).fates
    decreases cut
  {
    InfoFields(EXT, vector);
    var script := cut + [last] + rest;
    var after := Turn(s, script[0]);
    hide Info, Kind, Vector;
    if cut == [] {
      assert script[0] == last && script[1..] == rest;
      assert after.fates == s.fates + [Delivered(vector)];
      hide Turn;
      if Continues(last) { RunGrows(after, rest); }
    } else {
      assert script[0] == cut[0] && script[1..] == cut[1..] + [last] + rest;
      assert s.fates + [] == s.fates;
      assert after.pending == s.pending && after.fates == s.fates;
      hide Turn;
      Redelivered(after, vector, cut[1..], last, rest);
    }
  }

  lemma {:induction false} RunGrows(s: State, script: seq<Exit>)
    ensures s.fates <= Run(s, script).fates
    decreases script
  {
    if script != [] {
      TurnFates(s, script[0]);
      hide Turn;
      if Continues(script[0]) { RunGrows(Turn(s, script[0]), script[1..]); }
    }
  }

  // ------------------------------------------------------------- every run

  /** What user space does with the vCPU file. */
  datatype Op = InjectIoctl(vector: int) | RunIoctl(script: seq<Exit>)

  function After(ops: seq<Op>): State {
    if ops == [] then State(0, [], [])
    else
      var s := After(ops[..|ops| - 1]);
      match ops[|ops| - 1]
      case InjectIoctl(vector) => Inject(s, vector).0
      case RunIoctl(script) => Run(s, script)
  }

  ghost predicate OpsPossible(ops: seq<Op>) {
    ops != [] ==>
      && OpsPossible(ops[..|ops| - 1])
      && (ops[|ops| - 1].RunIoctl? ==> RunPossible(After(ops[..|ops| - 1]), ops[|ops| - 1].script))
  }

  /** Some failing entry of some run carried an external interrupt. */
  predicate CarriedBy(ops: seq<Op>) {
    ops != [] &&
      var (before, op) := (ops[..|ops| - 1], ops[|ops| - 1]);
      CarriedBy(before) || (op.RunIoctl? && Carried(After(before), op.script))
  }

  /**
   Over every sequence of injections and runs, the accepted interrupts are those delivered
   or lost, in order, followed by at most one still held.  Each is delivered exactly once and
   in order, none lost, exactly when no failing entry carried one.
  */
  lemma {:induction false} ExactlyOnce(ops: seq<Op>)
    requires OpsPossible(ops)
    ensures var s := After(ops);
      && Inv(s) && s.accepted == Vectors(s.fates) + Held(s.pending)
      && (NoneLost(s.fates) <==> !CarriedBy(ops))
  {
    hide Inject, Run, Inv, RunPossible, Carried;
    if ops == [] {
      EmptySlot();
    } else {
      var (before, op) := (ops[..|ops| - 1], ops[|ops| - 1]);
      ExactlyOnce(before);
      match op
      case InjectIoctl(vector) => InjectKeeps(After(before), vector);
      case RunIoctl(script) => RunKeeps(After(before), script);
    }
    InvMeans(After(ops));
  }

  lemma EmptySlot()
    ensures Inv(State(0, [], []))
  {}

  lemma InvMeans(s: State)
    requires Inv(s)
    ensures s.accepted == Vectors(s.fates) + Held(s.pending)
  {}

  /** Why failed entries are excluded: the event was already taken, and is gone. */
  lemma FailedEntryLosesInterrupt(vector: nat)
    requires 32 <= vector <= 255
    ensures var s := After([InjectIoctl(vector), RunIoctl([EntryFails])]);
      s.accepted == [vector] && s.fates == [Lost(vector)] && s.pending == 0
  {
    var ops := [InjectIoctl(vector), RunIoctl([EntryFails])];
    var one := ops[..1];
    assert one == [InjectIoctl(vector)] && one[..0] == [];
    InfoFields(EXT, vector);
    assert After([]) == State(0, [], []);
    var held := After(one);
    assert held == Inject(After(one[..0]), vector).0;
    assert held == State(Info(EXT, vector), [vector], []);
    assert Turn(held, EntryFails) == State(0, [vector], [Lost(vector)]);
  }

  /** An NMI exit that interrupted the delivery of an external interrupt does not displace it. */
  lemma NmiNeverDisplaces(s: State, exit: Exit)
    requires Inv(s) && exit.Exits? && exit.reason == Nmi && Possible(s.pending, exit)
    ensures var after := Turn(s, exit);
      if Holds(s.pending) && Interrupted(s.pending, exit.idtv) then after.pending == s.pending
      else after.pending == if exit.nmiBlocked then 0 else 0x8000_0202        // NMI, vector 2
  {
  }

  // ------------------------------------------------------------------ the code

  class Vcpu {
    var pendingIntrInfo: nat
    var entryIntrInfo: nat              // the VMCS field VM_ENTRY_INTR_INFO_FIELD
    ghost var accepted: seq<nat>
    ghost var fates: seq<Fate>

    ghost function View(): State
      reads this
    {
      State(pendingIntrInfo, accepted, fates)
    }

    constructor ()
      ensures View() == State(0, [], [])
    {
      pendingIntrInfo, entryIntrInfo, accepted, fates := 0, 0, [], [];
    }

    method InjectIrq(vector: int) returns (r: Outcome)
      modifies this`pendingIntrInfo, this`accepted
      ensures (View(), r) == Inject(old(View()), vector)
    {
      if vector < 0 || vector > 255 { return Invalid; }
      if vector < 32 { return Invalid; }
      if pendingIntrInfo != 0 { return Busy; }
      pendingIntrInfo := VALID + EXT * 256 + vector;
      accepted := accepted + [vector];
      return Accepted;
    }

    method TakeIntrInfo() returns (info: nat)
      modifies this`pendingIntrInfo
      ensures info == old(pendingIntrInfo) && pendingIntrInfo == 0
    {
      info := pendingIntrInfo;
      pendingIntrInfo := 0;
    }

    method CompleteIntrInfo(idtv: nat)
      modifies this`pendingIntrInfo
      ensures pendingIntrInfo == Complete(idtv)
    {
      pendingIntrInfo := 0;
      if idtv / VALID % 2 == 0 { return; }
      if idtv / 256 % 8 == EXT {
        pendingIntrInfo := VALID + EXT * 256 + idtv % 256;
      }
    }

    method Reinject(nmiBlocked: bool)
      modifies this`pendingIntrInfo
      ensures pendingIntrInfo == ReinjectNmi(old(pendingIntrInfo), nmiBlocked)
    {
      if nmiBlocked { return; }
      if pendingIntrInfo != 0 { return; }
      pendingIntrInfo := VALID + NMI * 256 + 2;
    }

    /** The loop of KVM_RUN, with the processor following the script. */
    method RunLoop(script: seq<Exit>)
      modifies this
      ensures View() == Run(old(View()), script)
    {
      var i := 0;
      while i < |script|
        invariant 0 <= i <= |script|
        invariant Run(View(), script[i..]) == Run(old(View()), script)
      {
        ghost var before := View();
        assert script[i..][1..] == script[i + 1..];
        var exit := script[i];
        i := i + 1;
        entryIntrInfo := TakeIntrInfo();
        fates := fates + FateOf(entryIntrInfo, exit);     // VM entry and exit
        if exit.EntryFails? { return; }
        CompleteIntrInfo(exit.idtv);
        if exit.reason == Nmi { Reinject(exit.nmiBlocked); }
        assert View() == Turn(before, exit);
        match exit.reason {
          case ExternalInterrupt => continue;
          case GuestException => return;
          case Nmi => continue;
          case Io(ok) => if !ok { return; }
          case EptViolation(ok) => if !ok { return; }
          case Cpuid => continue;
          case Hlt => return;
          case TripleFault => return;
          case Other => return;
        }
      }
    }
  }
}
