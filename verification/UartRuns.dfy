/**
 Whole runs of the UART: where every received byte goes, how transmit interrupts are
 acknowledged, and how a guest's interrupt handler drains it.
*/
module UartRuns {
  import opened Common
  import opened Uart

  datatype Access = Input(c: bv8) | WriteReg(reg: nat, val: bv8) | ReadReg(reg: nat)

  function Next(u: Port, a: Access): Port {
    match a
    case Input(c) => Received(u, c)
    case WriteReg(reg, val) => Write(u, reg, val)
    case ReadReg(reg) => Read(u, reg).1
  }

  /** What became of an accepted byte: read by the guest, or dropped by an FCR clear. */
  datatype Fate = ReadOut(b: bv8) | Cleared(b: bv8)

  /** The bytes offered to the receiver by an access, looped-back output included. */
  function Arrival(u: Port, a: Access): Option<bv8> {
    match a
    case Input(c) => Some(c)
    case WriteReg(reg, val) => if reg == 0 && !u.Dlab() && u.Loop() then Some(val) else None
    case ReadReg(_) => None
  }

  predicate Full(u: Port) { |u.rx| >= RX_CAPACITY }

  function Accepts(u: Port, a: Access): seq<bv8> {
    if Arrival(u, a).Some? && !Full(u) then [Arrival(u, a).value] else []
  }

  predicate Rejects(u: Port, a: Access) { Arrival(u, a).Some? && Full(u) }

  function AllCleared(bytes: seq<bv8>): (fates: seq<Fate>)
    ensures |fates| == |bytes| && forall i | 0 <= i < |bytes| :: fates[i] == Cleared(bytes[i])
  {
    seq(|bytes|, i requires 0 <= i < |bytes| => Cleared(bytes[i]))
  }

  /** The bytes an access takes out of the receiver; a read's byte is the value it returns. */
  function Takes(u: Port, a: Access): seq<Fate> {
    match a
    case Input(_) => []
    case WriteReg(reg, val) => if reg == 2 && ClearsReceiver(u, val) then AllCleared(u.rx) else []
    case ReadReg(reg) => if reg == 0 && !u.Dlab() && u.rx != [] then [ReadOut(Read(u, 0).0)] else []
  }

  /** Writes that raise "transmitter empty". */
  predicate Arms(u: Port, a: Access) {
    a.WriteReg? && (
      || (a.reg == 0 && !u.Dlab())
      || (a.reg == 1 && !u.Dlab() && a.val & IER_THRI != 0)
      || (a.reg == 2 && ClearsTransmitter(u, a.val)))
  }

  /** Reads of IIR that return the transmit interrupt. */
  predicate Acknowledges(u: Port, a: Access) { a.ReadReg? && a.reg == 2 && Read(u, 2).0 & IIR_ID == IIR_THRI }

  datatype Trace = Trace(u: Port, accepted: seq<bv8>, fates: seq<Fate>, lost: nat, arms: nat, acks: nat)

  /** `lost` counts the bytes rejected since LSR was last read. */
  function Step(t: Trace, a: Access): Trace {
    Trace(Next(t.u, a), t.accepted + Accepts(t.u, a), t.fates + Takes(t.u, a),
          if a.ReadReg? && a.reg == 5 then 0 else if Rejects(t.u, a) then t.lost + 1 else t.lost,
          if Arms(t.u, a) then t.arms + 1 else t.arms,
          if Acknowledges(t.u, a) then t.acks + 1 else t.acks)
  }

  function After(accesses: seq<Access>): Trace {
    if accesses == [] then Trace(RESET, [], [], 0, 0, 0)
    else Step(After(accesses[..|accesses| - 1]), accesses[|accesses| - 1])
  }

  function Byte(f: Fate): bv8 { f.b }

  function Bytes(fates: seq<Fate>): (bytes: seq<bv8>)
    ensures |bytes| == |fates| && forall i | 0 <= i < |fates| :: bytes[i] == fates[i].b
  {
    seq(|fates|, i requires 0 <= i < |fates| => fates[i].b)
  }

  /** Every accepted byte was read, in order, or dropped by a clear, or is still pending. */
  predicate BytesAccounted(t: Trace) {
    t.accepted == Bytes(t.fates) + t.u.rx && |t.u.rx| <= RX_CAPACITY
  }

  /** Exactly the runs with a rejection since the last read of LSR have OE set. */
  predicate LossMarked(t: Trace) { t.u.overrun <==> t.lost > 0 }

  /** Each acknowledgement answers an arming write of its own. */
  predicate AcksAnswered(t: Trace) { t.acks + (if t.u.thri then 1 else 0) <= t.arms }

  lemma BytesAppend(f: seq<Fate>, g: seq<Fate>)
    ensures Bytes(f + g) == Bytes(f) + Bytes(g)
  {
  }

  /** The accesses that do not reach the receiver: all but input and registers 0, 2 and 5. */
  lemma WriteElsewhere(u: Port, reg: nat, val: bv8)
    requires reg != 0 && reg != 2
    ensures Write(u, reg, val).rx == u.rx && Write(u, reg, val).overrun == u.overrun
  {
    WriteIerElsewhere(u, val);
    hide Port.Dlab, WriteThr, WriteFcr, WriteIer;
    match reg
    case 1 =>
    case 3 =>
    case 4 =>
    case 7 =>
    case _ =>
  }

  lemma WriteIerElsewhere(u: Port, val: bv8)
    ensures var v := WriteIer(u, val); v.rx == u.rx && v.overrun == u.overrun && v.msr == u.msr
  {
    hide Port.Dlab;
    if u.Dlab() {
    } else {
    }
  }

  lemma WriteThrElsewhere(u: Port, val: bv8)
    ensures WriteThr(u, val).msr == u.msr && WriteThr(u, val).thri == (u.thri || !u.Dlab())
  {
    hide Port.Dlab, Port.Loop;
    if u.Dlab() {
    } else if u.Loop() {
    } else {
    }
  }

  lemma WriteFcrElsewhere(u: Port, val: bv8)
    ensures WriteFcr(u, val).msr == u.msr
    ensures WriteFcr(u, val).thri == (u.thri || ClearsTransmitter(u, val))
  {
    hide ClearsReceiver, ClearsTransmitter;
  }

  lemma ReadElsewhere(u: Port, reg: nat)
    requires reg != 0 && reg != 5
    ensures Read(u, reg).1.rx == u.rx && Read(u, reg).1.overrun == u.overrun
  {
  }

  lemma ReceiveStep(u: Port, c: bv8)
    ensures Received(u, c).rx == u.rx + (if Full(u) then [] else [c])
    ensures Received(u, c).overrun == (u.overrun || Full(u))
  {
    if Full(u) {
      assert u.rx + [] == u.rx;
    } else {
    }
  }

  lemma ThrStep(u: Port, val: bv8)
    ensures var (v, loops) := (Write(u, 0, val), !u.Dlab() && u.Loop());
      && v.rx == u.rx + (if loops && !Full(u) then [val] else [])
      && v.overrun == (u.overrun || (loops && Full(u)))
  {
  }

  lemma ClearStep(u: Port, val: bv8)
    ensures var v := Write(u, 2, val); v.overrun == u.overrun && Bytes(Takes(u, WriteReg(2, val))) + v.rx == u.rx
  {
  }

  lemma ReadStep(u: Port)
    ensures var v := Read(u, 0).1; v.overrun == u.overrun && Bytes(Takes(u, ReadReg(0))) + v.rx == u.rx
  {
    hide Iir, Id, Lsr, LoopedMsr, FifoBits, Port.Dlab, Port.Loop, ReadIir, ReadMsr;
    assert Read(u, 0) == ReadRbr(u);
    hide Read;
  }

  lemma ReceiverStep(u: Port, a: Access)
    requires |u.rx| <= RX_CAPACITY
    ensures u.rx + Accepts(u, a) == Bytes(Takes(u, a)) + Next(u, a).rx
    ensures |Next(u, a).rx| <= RX_CAPACITY
    ensures Next(u, a).overrun == if a.ReadReg? && a.reg == 5 then false else u.overrun || Rejects(u, a)
  {
    hide Write, ClearsReceiver, Port.Dlab, Port.Loop, Received;
    match a
    case Input(c) => ReceiveStep(u, c);
    case WriteReg(reg, val) =>
      if reg == 0 {
        ThrStep(u, val);
      } else if reg == 2 {
        ClearStep(u, val);
      } else {
        WriteElsewhere(u, reg, val);
      }
    case ReadReg(reg) => ReceiverRead(u, reg);
  }

  lemma ReceiverRead(u: Port, reg: nat)
    ensures u.rx == Bytes(Takes(u, ReadReg(reg))) + Read(u, reg).1.rx
    ensures Read(u, reg).1.overrun == (u.overrun && reg != 5)
  {
    if reg == 0 {
      ReadStep(u);
    } else if reg == 5 {
      assert Read(u, 5).1 == u.(overrun := false);
    } else {
      ReadElsewhere(u, reg);
    }
    hide Read, Port.Dlab;
  }

  // ---------------------------------------------------------- transmit interrupts

  /** THRI is raised by exactly the arming writes, and withdrawn by exactly the acknowledgements. */
  lemma TransmitStep(u: Port, a: Access)
    ensures Next(u, a).thri <==> Arms(u, a) || (u.thri && !Acknowledges(u, a))
    ensures Acknowledges(u, a) ==> u.thri && !Arms(u, a)
  {
    hide Write, Read, ClearsTransmitter, Port.Dlab;
    match a
    case Input(c) =>
    case WriteReg(reg, val) => ThriWritten(u, reg, val);
    case ReadReg(reg) => ThriRead(u, reg);
  }

  lemma ThriWritten(u: Port, reg: nat, val: bv8)
    ensures Write(u, reg, val).thri <==> u.thri || Arms(u, WriteReg(reg, val))
  {
    WriteThrElsewhere(u, val);
    WriteFcrElsewhere(u, val);
    IerArms(u, val);
    hide WriteThr, WriteIer, WriteFcr, ClearsTransmitter, Port.Dlab;
    match reg
    case 0 =>
    case 1 =>
    case 2 =>
    case 3 =>
    case 4 =>
    case 7 =>
    case _ =>
  }

  lemma IerArms(u: Port, val: bv8)
    ensures WriteIer(u, val).thri <==> u.thri || (!u.Dlab() && val & IER_THRI != 0)
  {
    hide Port.Dlab;
    if u.Dlab() {
    } else {
    }
  }

  lemma ThriRead(u: Port, reg: nat)
    ensures Acknowledges(u, ReadReg(reg)) ==> u.thri
    ensures Read(u, reg).1.thri <==> u.thri && !Acknowledges(u, ReadReg(reg))
  {
    IirIs(u);
    hide Iir, Lsr, LoopedMsr, Port.Dlab, Port.Loop;
    if reg == 2 {
      assert Read(u, reg) == ReadIir(u);
    } else if reg == 0 {
      assert Read(u, reg) == ReadRbr(u);
    } else {
    }
  }

  // ------------------------------------------------------------------------ runs

  lemma Regroup(a: seq<bv8>, b: seq<bv8>, c: seq<bv8>)
    ensures (a + b) + c == a + (b + c)
  {
  }

  lemma BytesKept(t: Trace, a: Access)
    requires BytesAccounted(t)
    ensures BytesAccounted(Step(t, a))
  {
    ReceiverStep(t.u, a);
    BytesAppend(t.fates, Takes(t.u, a));
    Regroup(Bytes(t.fates), t.u.rx, Accepts(t.u, a));
    Regroup(Bytes(t.fates), Bytes(Takes(t.u, a)), Next(t.u, a).rx);
    var after := Step(t, a);
    assert after.accepted == t.accepted + Accepts(t.u, a) && after.fates == t.fates + Takes(t.u, a);
    assert after.u == Next(t.u, a);
    hide Next, Accepts, Takes, Bytes, Step;
  }

  lemma LossKept(t: Trace, a: Access)
    requires BytesAccounted(t) && LossMarked(t)
    ensures LossMarked(Step(t, a))
  {
    ReceiverStep(t.u, a);
    hide Next, Accepts, Takes, Rejects, Arms, Acknowledges, Bytes;
    if a.ReadReg? && a.reg == 5 {
    } else if Rejects(t.u, a) {
    } else {
    }
  }

  lemma AcksKept(t: Trace, a: Access)
    requires AcksAnswered(t)
    ensures AcksAnswered(Step(t, a))
  {
    TransmitStep(t.u, a);
    ArmsByWriting(t.u, a);
    hide Next, Accepts, Takes, Rejects, Arms, Acknowledges, Bytes;
    if Arms(t.u, a) {
    } else if Acknowledges(t.u, a) {
    } else {
    }
  }

  lemma ArmsByWriting(u: Port, a: Access)
    ensures !(Arms(u, a) && Acknowledges(u, a))
  {
  }

  /** No access raises a modem status delta. */
  lemma ModemSteady(u: Port, a: Access)
    requires u.msr == MSR_LINES
    ensures Next(u, a).msr == MSR_LINES
  {
    hide Write, Read, RESET;
    match a
    case Input(c) =>
    case WriteReg(reg, val) => ModemWritten(u, reg, val);
    case ReadReg(reg) => ModemRead(u, reg);
  }

  lemma ModemWritten(u: Port, reg: nat, val: bv8)
    ensures Write(u, reg, val).msr == u.msr
  {
    WriteThrElsewhere(u, val);
    WriteIerElsewhere(u, val);
    WriteFcrElsewhere(u, val);
    hide WriteThr, WriteIer, WriteFcr;
    match reg
    case 0 =>
    case 1 =>
    case 2 =>
    case 3 =>
    case 4 =>
    case 7 =>
    case _ =>
  }

  lemma ModemRead(u: Port, reg: nat)
    requires u.msr == MSR_LINES
    ensures Read(u, reg).1.msr == MSR_LINES
  {
    hide Iir, Id, Lsr, LoopedMsr, Port.Dlab, Port.Loop;
    if reg == 6 {
      assert Read(u, 6) == ReadMsr(u);
    } else if reg == 0 {
      assert Read(u, 0) == ReadRbr(u);
    } else {
      hide ReadMsr, ReadRbr;
    }
  }

  /** What LSR tells the guest. */
  lemma LsrSays(u: Port)
    ensures Lsr(u) & LSR_DR != 0 <==> u.rx != []
    ensures Lsr(u) & LSR_OE != 0 <==> u.overrun
  {
  }

  /**
   Over every run of accesses and inputs, the bytes accepted are those read, in order, or
   dropped by a clear, and then those pending; OE marks the runs with a loss since LSR was
   read; each transmit acknowledgement answers an arming write of its own; and the modem
   lines rest.
  */
  lemma {:induction false} RunKeeps(accesses: seq<Access>)
    ensures BytesAccounted(After(accesses)) && LossMarked(After(accesses)) && AcksAnswered(After(accesses))
    ensures After(accesses).u.msr == MSR_LINES
  {
    if accesses != [] {
      RunKeeps(accesses[..|accesses| - 1]);
      var (before, a) := (After(accesses[..|accesses| - 1]), accesses[|accesses| - 1]);
      BytesKept(before, a);
      LossKept(before, a);
      AcksKept(before, a);
      ModemSteady(before.u, a);
      assert Step(before, a).u == Next(before.u, a);
      hide Step, BytesAccounted, LossMarked, AcksAnswered;
    }
  }
}
