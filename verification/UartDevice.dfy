/** The serial port of minivmm.c, updating its registers, receive ring and interrupt line in place. */
module UartDevice {
  import opened Uart
  import Ring

  class Serial {
    var ier: bv8
    var fcr: bv8
    var lcr: bv8
    var mcr: bv8
    var scr: bv8
    var lsr: bv8
    var msr: bv8
    var iir: bv8
    var thrIpending: bool
    var divider: bv16
    const rxRing: array<bv8>
    var rxHead: Ring.Counter
    var rxTail: Ring.Counter
    var irqLevel: bool

    ghost var lines: seq<bool>          // levels given to KVM_IRQ_LINE, in order
    ghost var console: seq<bv8>         // bytes given to console_output, in order

    ghost function View(): Port
      requires rxRing.Length > 0
      reads `ier, `fcr, `lcr, `mcr, `scr, `msr, `lsr, `thrIpending, `divider, `rxHead, `rxTail, rxRing
    {
      Port(ier, fcr, lcr, mcr, scr, msr, DivLow(divider), DivHigh(divider),
           Ring.Pending(rxRing[..], rxHead, rxTail), Overrun(lsr), thrIpending)
    }

    /** Level changes strictly alternate, starting with high; the last one is the current level. */
    ghost predicate LinesAlternate()
      reads `lines, `irqLevel
    {
      (forall i | 0 <= i < |lines| :: lines[i] == (i % 2 == 0)) && irqLevel == (|lines| % 2 == 1)
    }

    /** Everything but what serial_update_irq_locked restores. */
    ghost predicate Settled()
      reads `ier, `fcr, `lcr, `mcr, `scr, `msr, `lsr, `thrIpending, `divider, `rxHead, `rxTail, rxRing
      reads `iir, `lines, `irqLevel
    {
      && rxRing.Length == RX_SIZE && Ring.Count(rxHead, rxTail) <= RX_CAPACITY
      && Agrees(View(), lsr, iir) && LinesAlternate()
    }

    /** The line is high exactly when a source is raised; LSR and IIR say what they must. */
    ghost predicate Valid()
      reads `ier, `fcr, `lcr, `mcr, `scr, `msr, `lsr, `thrIpending, `divider, `rxHead, `rxTail, rxRing
      reads `iir, `lines, `irqLevel
    {
      Settled() && Coherent(View(), lsr, iir, irqLevel)
    }

    lemma Regs()
      requires Settled()
      ensures rxRing.Length == RX_SIZE && View().ier == ier && View().fcr == fcr && View().lcr == lcr
      ensures View().mcr == mcr && View().scr == scr && View().msr == msr && View().thri == thrIpending
      ensures View().dll == DivLow(divider) && View().dlm == DivHigh(divider)
      ensures View().rx == Ring.Pending(rxRing[..], rxHead, rxTail) && (RxCount() == 0 <==> View().rx == [])
    {
    }

    constructor ()
      ensures Valid() && View() == RESET && lines == [] && console == []
    {
      ier, fcr, lcr, mcr, scr := 0, 0, 0, 0, 0;
      lsr, msr, iir := LSR_EMPTY, MSR_LINES, IIR_NO_INT;
      thrIpending, divider := false, 0;
      rxRing := new bv8[RX_SIZE](_ => 0);
      rxHead, rxTail, irqLevel := 0, 0, false;
      lines, console := [], [];
    }

    /** rx_count_locked */
    function RxCount(): (n: nat)
      reads `rxHead, `rxTail
      ensures n < Ring.WRAP
    {
      Ring.Count(rxHead, rxTail)
    }

    /** The first half of serial_update_irq_locked: which source to report. */
    method PickId() returns (tmp: bv8)
      ensures tmp == IdFrom(ier, lsr, msr, thrIpending)
    {
      var err := lsr & LSR_ERRORS;
      tmp := IIR_NO_INT;
      if ier & IER_RLSI != 0 && err != 0 {
        tmp := IIR_RLSI;
      } else if ier & IER_RDI != 0 && lsr & LSR_DR != 0 {
        tmp := IIR_RDI;
      } else if ier & IER_THRI != 0 && thrIpending {
        tmp := IIR_THRI;
      } else if ier & IER_MSI != 0 && msr & MSR_DELTAS != 0 {
        tmp := IIR_MSI;
      }
    }

    /** Its last part: give KVM the line only when it changes. */
    method DriveLine(level: bool)
      requires LinesAlternate()
      modifies `irqLevel, `lines
      ensures LinesAlternate() && irqLevel == level
      ensures lines == if level == old(irqLevel) then old(lines) else old(lines) + [level]
    {
      if level == irqLevel { return; }
      irqLevel := level;
      lines := lines + [level];
    }

    lemma IdToReport(id: bv8)
      requires Settled() && id == IdFrom(ier, lsr, msr, thrIpending)
      ensures id | (iir & IIR_FIFO) == Iir(View()) && Agrees(View(), lsr, Iir(View()))
      ensures id != IIR_NO_INT <==> !Quiet(View())
    {
    }

    /** serial_update_irq_locked */
    method UpdateIrq()
      requires Settled()
      modifies `iir, `irqLevel, `lines
      ensures Settled() && View() == old(View()) && iir == Iir(View()) && irqLevel == !Quiet(View())
      ensures lines == if irqLevel == old(irqLevel) then old(lines) else old(lines) + [irqLevel]
    {
      hide IdFrom, Agrees, Iir, Quiet, Ring.Count, LinesAlternate, View;
      var tmp := PickId();
      IdToReport(tmp);
      iir := tmp | (iir & IIR_FIFO);
      DriveLine(tmp != IIR_NO_INT);
    }

    /** serial_recv_locked */
    method Recv(c: bv8)
      requires Settled()
      modifies `rxHead, `lsr, `iir, `irqLevel, `lines, rxRing
      ensures Settled() && View() == Received(old(View()), c)
      ensures Full(lsr) == Full(old(lsr)) && iir == Iir(View()) && irqLevel == !Quiet(View())
    {
      hide Agrees, Ring.Pending, Ring.Count, Iir, Quiet, Overrun, DivLow, DivHigh, Full;
      ReceivedAgrees(View(), lsr, iir, c);
      if RxCount() >= RX_CAPACITY {
        lsr := lsr | LSR_OE;
      } else {
        Ring.Push(rxRing[..], rxHead, rxTail, c);
        Ring.CountStep(rxHead, rxTail);
        rxRing[rxHead % RX_SIZE] := c;
        rxHead := (rxHead + 1) % Ring.WRAP;
        lsr := lsr | LSR_DR;
      }
      assert View() == Received(old(View()), c);
      UpdateIrq();
    }

    /** One read of input_thread: every byte read from the terminal arrives. */
    method Input(bytes: seq<bv8>)
      requires Valid()
      modifies `rxHead, `lsr, `iir, `irqLevel, `lines, rxRing
      ensures Valid() && View() == ReceivedAll(old(View()), bytes)
    {
      hide View, Agrees, Iir, Quiet, Full, Received, LinesAlternate, Lsr, Ring.Count;
      var i := 0;
      while i < |bytes|
        invariant 0 <= i <= |bytes| && Valid() && View() == ReceivedAll(old(View()), bytes[..i])
      {
        FullWhenValid();
        assert bytes[..i + 1][..i] == bytes[..i];
        Recv(bytes[i]);
        FullWhenSettled();
        i := i + 1;
      }
      assert bytes[..i] == bytes;
    }

    // ------------------------------------------------------- writes, case by case

    method BeginTransmit()
      requires Settled()
      modifies `thrIpending, `lsr
      ensures Settled() && View() == old(View()).(thri := false)
    {
      hide Agrees, Ring.Pending, Ring.Count, Overrun, DivLow, DivHigh, LinesAlternate, Full;
      EmptyBits(View(), lsr, iir, false);
      thrIpending := false;
      lsr := lsr & !LSR_EMPTY;
      assert View() == old(View()).(thri := false);
    }

    method EndTransmit()
      requires Settled()
      modifies `thrIpending, `lsr, `iir, `irqLevel, `lines
      ensures Valid() && View() == old(View()).(thri := true)
    {
      hide Agrees, Ring.Pending, Ring.Count, Overrun, DivLow, DivHigh, LinesAlternate, Iir, Quiet, Lsr;
      EmptyBits(View(), lsr, iir, true);
      lsr := lsr | LSR_EMPTY;
      thrIpending := true;
      assert View() == old(View()).(thri := true);
      UpdateIrq();
    }

    method WriteDivLow(val: bv8)
      requires Valid()
      modifies `divider
      ensures Valid() && View() == old(View()).(dll := val)
    {
      hide Agrees, Ring.Pending, Ring.Count, Overrun, DivLow, DivHigh, WithLow, LinesAlternate, Coherent;
      DividerBytes(divider, val);
      divider := WithLow(divider, val);
      SameStatus(old(View()), View());
    }

    method WriteDivHigh(val: bv8)
      requires Valid()
      modifies `divider
      ensures Valid() && View() == old(View()).(dlm := val)
    {
      hide Agrees, Ring.Pending, Ring.Count, Overrun, DivLow, DivHigh, WithHigh, LinesAlternate, Coherent;
      DividerBytes(divider, val);
      divider := WithHigh(divider, val);
      SameStatus(old(View()), View());
    }

    /** serial_write_reg of THR, or of the divider's low byte. */
    method WriteThr(val: bv8)
      requires Valid()
      modifies this, rxRing
      ensures Valid() && View() == Uart.WriteThr(old(View()), val)
      ensures console == old(console) + Transmitted(old(View()), 0, val)
    {
      hide Settled, View, Coherent, Agrees;
      Regs();
      if lcr & LCR_DLAB != 0 {
        WriteDivLow(val);
        return;
      }
      BeginTransmit();
      if mcr & MCR_LOOP != 0 {
        Recv(val);
      } else {
        console := console + [val];
      }
      EndTransmit();
    }

    /** serial_write_reg of IER, or of the divider's high byte. */
    method WriteIer(val: bv8)
      requires Valid()
      modifies `ier, `thrIpending, `divider, `iir, `irqLevel, `lines
      ensures Valid() && View() == Uart.WriteIer(old(View()), val)
    {
      hide Agrees, Ring.Pending, Ring.Count, Overrun, DivLow, DivHigh, LinesAlternate, Quiet, Iir, Lsr;
      ghost var u := View();
      if lcr & LCR_DLAB != 0 {
        WriteDivHigh(val);
        return;
      }
      IerBits(u, val, lsr);
      ier := val & 0x0f;
      if ier & IER_THRI != 0 && lsr & LSR_THRE != 0 {
        thrIpending := true;
      }
      SameLine(u, View());
      UpdateIrq();
    }

    method ClearReceiver()
      requires Settled()
      modifies `rxHead, `rxTail, `lsr
      ensures Settled() && View() == old(View()).(rx := [])
      ensures Full(lsr) == Full(old(lsr))
    {
      hide Agrees, Ring.Pending, Overrun, DivLow, DivHigh, LinesAlternate, Full;
      EmptiedBits(View(), lsr, iir);
      rxHead, rxTail := 0, 0;
      lsr := lsr & !(LSR_DR | LSR_BI);
      assert View().rx == [];
    }

    method ClearTransmitter()
      requires Settled()
      modifies `lsr, `thrIpending
      ensures Settled() && View() == old(View()).(thri := true)
      ensures Full(old(lsr)) ==> lsr == old(lsr)
    {
      hide Agrees, Ring.Pending, Ring.Count, Overrun, DivLow, DivHigh, LinesAlternate, Full;
      EmptyBits(View(), lsr, iir, true);
      lsr := lsr | LSR_THRE;
      thrIpending := true;
    }

    /** serial_write_reg of FCR. */
    method WriteFcr(value: bv8)
      requires Valid()
      modifies `fcr, `rxHead, `rxTail, `lsr, `thrIpending, `iir, `irqLevel, `lines
      ensures Valid() && View() == Uart.WriteFcr(old(View()), value)
    {
      hide Agrees, Ring.Pending, Ring.Count, Overrun, DivLow, DivHigh, LinesAlternate, Quiet, Iir, Lsr, View, Full;
      ghost var u := View();
      Regs();
      var val := value;
      if (val ^ fcr) & FCR_ENABLE != 0 {
        val := val | (FCR_CLEAR_RCVR | FCR_CLEAR_XMIT);
      }
      FcrBits(u, value);
      LsrFull(u, lsr, iir);
      if val & FCR_CLEAR_RCVR != 0 { ClearReceiver(); }
      if val & FCR_CLEAR_XMIT != 0 { ClearTransmitter(); }
      SetFcr(val & FCR_KEPT);
    }

    method SetFcr(bits: bv8)
      requires Settled() && Full(lsr)
      modifies `fcr, `iir, `irqLevel, `lines
      ensures Valid() && View() == old(View()).(fcr := bits)
    {
      hide Agrees, Ring.Pending, Ring.Count, Overrun, DivLow, DivHigh, LinesAlternate, Quiet, Iir, Lsr, FifoSet, Full;
      FifoBitsSet(View(), lsr, iir, bits);
      fcr := bits;
      iir := FifoSet(iir, fcr);
      assert View() == old(View()).(fcr := bits);
      UpdateIrq();
    }

    method WriteControl(reg: nat, val: bv8)
      requires Valid() && reg in {3, 4, 7}
      modifies `lcr, `mcr, `scr
      ensures Valid() && View() == Write(old(View()), reg, val)
    {
      hide Agrees, Ring.Pending, Ring.Count, Overrun, DivLow, DivHigh, LinesAlternate, Coherent, Full;
      if reg == 3 {
        lcr := val;
      } else if reg == 4 {
        mcr := val;
      } else {
        scr := val;
      }
      SameStatus(old(View()), View());
    }

    /** serial_write_reg */
    method WriteReg(reg: nat, val: bv8)
      requires Valid()
      modifies this, rxRing
      ensures Valid() && View() == Write(old(View()), reg, val)
      ensures console == old(console) + Transmitted(old(View()), reg, val)
    {
      hide Settled, View, Coherent, Uart.WriteThr, Uart.WriteIer, Uart.WriteFcr;
      match reg
      case 0 => WriteThr(val);
      case 1 => WriteIer(val);
      case 2 => WriteFcr(val);
      case 3 => WriteControl(reg, val);
      case 4 => WriteControl(reg, val);
      case 7 => WriteControl(reg, val);
      case _ =>
    }

    // -------------------------------------------------------- reads, case by case

    /** As Settled, before DR is withdrawn from an emptied receiver. */
    ghost predicate SettledButDr()
      reads `ier, `fcr, `lcr, `mcr, `scr, `msr, `lsr, `thrIpending, `divider, `rxHead, `rxTail, rxRing
      reads `iir, `lines, `irqLevel
    {
      && rxRing.Length == RX_SIZE && Ring.Count(rxHead, rxTail) <= RX_CAPACITY
      && AgreesButDr(View(), lsr, iir) && LinesAlternate()
    }

    method TakeByte() returns (val: bv8)
      requires Settled() && View().rx != []
      modifies `rxTail
      ensures SettledButDr() && val == old(View()).rx[0] && View() == old(View()).(rx := old(View()).rx[1..])
    {
      hide Agrees, AgreesButDr, Ring.Pending, Ring.Count, Overrun, DivLow, DivHigh, LinesAlternate;
      TakenBits(View(), lsr, iir);
      Ring.Pop(rxRing[..], rxHead, rxTail);
      Ring.CountStep(rxHead, rxTail);
      val := rxRing[rxTail % RX_SIZE];
      rxTail := (rxTail + 1) % Ring.WRAP;
      assert View().rx == old(View()).rx[1..];
    }

    method ClearDataReady()
      requires SettledButDr() && View().rx == []
      modifies `lsr
      ensures Settled() && View() == old(View()) && Full(lsr) == Full(old(lsr))
    {
      hide Agrees, AgreesButDr, Ring.Pending, Ring.Count, Overrun, DivLow, DivHigh, LinesAlternate, Full;
      ButDrBits(View(), lsr, iir);
      lsr := lsr & !(LSR_DR | LSR_BI);
    }

    /** serial_read_reg of RBR, or of the divider's low byte. */
    method ReadRbr() returns (val: bv8)
      requires Valid()
      modifies `rxTail, `lsr, `iir, `irqLevel, `lines
      ensures Valid() && (val, View()) == Uart.ReadRbr(old(View()))
    {
      hide Settled, SettledButDr, View, Quiet, Iir, Lsr, Full, DivLow;
      Regs();
      if lcr & LCR_DLAB != 0 { return DivLow(divider); }
      val := ReadByte();
    }

    /** Its part for the receiver. */
    method ReadByte() returns (val: bv8)
      requires Valid()
      modifies `rxTail, `lsr, `iir, `irqLevel, `lines
      ensures Valid() && (val, View()) == FirstByte(old(View()))
    {
      hide Settled, SettledButDr, View, Quiet, Iir, Lsr, Full;
      FullWhenValid();
      Regs();
      if RxCount() != 0 {
        val := TakeByte();
      } else {
        val := 0;
        SettledIsMore();
      }
      RegsButDr();
      if RxCount() == 0 {
        ClearDataReady();
      } else {
        DrStays();
      }
      UpdateIrq();
      FullWhenSettled();
    }

    lemma FullWhenValid()
      requires Valid()
      ensures Full(lsr)
    {
    }

    lemma FullWhenSettled()
      requires Settled() && Full(lsr)
      ensures lsr == Lsr(View())
    {
    }

    lemma SettledIsMore()
      requires Settled()
      ensures SettledButDr()
    {
    }

    lemma RegsButDr()
      requires SettledButDr()
      ensures rxRing.Length == RX_SIZE && (RxCount() == 0 <==> View().rx == [])
    {
    }

    lemma DrStays()
      requires SettledButDr() && View().rx != []
      ensures Settled()
    {
    }

    /** serial_read_reg of IIR, which acknowledges a reported THRI. */
    method ReadIir() returns (val: bv8)
      requires Valid()
      modifies `thrIpending, `iir, `irqLevel, `lines
      ensures Valid() && (val, View()) == Uart.ReadIir(old(View()))
    {
      hide Agrees, Ring.Pending, Ring.Count, Overrun, DivLow, DivHigh, LinesAlternate, Quiet, Iir, Lsr, Id;
      ghost var u := View();
      IirIs(u);
      SameLine(u, u.(thri := false));
      val := iir;
      if val & IIR_ID == IIR_THRI {
        thrIpending := false;
        assert View() == u.(thri := false);
        UpdateIrq();
      }
    }

    method ClearErrors()
      requires Settled() && lsr == Lsr(View())
      modifies `lsr
      ensures Settled() && View() == old(View()).(overrun := false) && lsr == Lsr(View())
    {
      hide Agrees, Ring.Pending, Ring.Count, Overrun, DivLow, DivHigh, LinesAlternate, Lsr;
      OverrunBits(View(), lsr, iir);
      lsr := lsr & !(LSR_BI | LSR_OE);
    }

    lemma ErrorsSeen()
      requires Settled()
      ensures lsr & (LSR_BI | LSR_OE) != 0 <==> View().overrun
    {
    }

    /** serial_read_reg of LSR, which acknowledges an overrun. */
    method ReadLsr() returns (val: bv8)
      requires Valid()
      modifies `lsr, `iir, `irqLevel, `lines
      ensures Valid() && val == Lsr(old(View())) && View() == old(View()).(overrun := false)
    {
      hide Settled, View, Quiet, Iir, Lsr;
      ErrorsSeen();
      val := lsr;
      if val & (LSR_BI | LSR_OE) != 0 {
        ClearErrors();
        UpdateIrq();
      }
    }

    /** serial_read_reg of MSR. */
    method ReadMsr() returns (val: bv8)
      requires Valid()
      modifies `msr, `iir, `irqLevel, `lines
      ensures Valid() && (val, View()) == Uart.ReadMsr(old(View()))
    {
      hide Agrees, Ring.Pending, Ring.Count, Overrun, DivLow, DivHigh, LinesAlternate, Quiet, Iir, Lsr;
      ghost var u := View();
      if mcr & MCR_LOOP != 0 {
        return ((mcr & 0x0c) << 4) | ((mcr & 0x02) << 3) | ((mcr & 0x01) << 5);
      }
      SameLine(u, u.(msr := msr & 0xf0));
      val := msr;
      if val & MSR_DELTAS != 0 {
        msr := msr & 0xf0;
        assert View() == u.(msr := u.msr & 0xf0);
        UpdateIrq();
      }
    }

    /** serial_read_reg */
    method ReadReg(reg: nat) returns (val: bv8)
      requires Valid()
      modifies `rxTail, `thrIpending, `msr, `lsr, `iir, `irqLevel, `lines
      ensures Valid() && (val, View()) == Read(old(View()), reg)
    {
      hide Settled, View, Coherent, Uart.ReadRbr, Uart.ReadIir, Uart.ReadMsr, Iir, Lsr;
      Regs();
      match reg
      case 0 => val := ReadRbr();
      case 1 => val := if lcr & LCR_DLAB != 0 then DivHigh(divider) else ier;
      case 2 => val := ReadIir();
      case 3 => val := lcr;
      case 4 => val := mcr;
      case 5 => val := ReadLsr();
      case 6 => val := ReadMsr();
      case _ => val := scr;
    }
  }

  /** THRE and TEMT are set. */
  predicate Full(lsr: bv8) { lsr & LSR_EMPTY == LSR_EMPTY }

  predicate Overrun(lsr: bv8) { lsr & LSR_OE != 0 }

  function DivLow(d: bv16): bv8 { (d & 0x00ff) as bv8 }
  function DivHigh(d: bv16): bv8 { (d >> 8) as bv8 }

  function WithLow(d: bv16, v: bv8): bv16 { (d & 0xff00) | (v as bv16) }
  function WithHigh(d: bv16, v: bv8): bv16 { (d & 0x00ff) | ((v as bv16) << 8) }

  lemma DividerBytes(d: bv16, v: bv8)
    ensures DivLow(WithLow(d, v)) == v && DivHigh(WithLow(d, v)) == DivHigh(d)
    ensures DivLow(WithHigh(d, v)) == DivLow(d) && DivHigh(WithHigh(d, v)) == v
  {
  }

  lemma ReceivedAgrees(u: Port, lsr: bv8, iir: bv8, c: bv8)
    requires Agrees(u, lsr, iir)
    ensures |u.rx| >= RX_CAPACITY ==> Agrees(Received(u, c), lsr | LSR_OE, iir)
    ensures |u.rx| < RX_CAPACITY ==> Agrees(Received(u, c), lsr | LSR_DR, iir)
    ensures Full(lsr | LSR_OE) == Full(lsr) == Full(lsr | LSR_DR)
    ensures Overrun(lsr | LSR_OE) && (Overrun(lsr | LSR_DR) <==> u.overrun)
  {
  }

  /** LSR, MSR and the FIFO bits of IIR fit the state; only OE of the errors is ever set. */
  predicate Agrees(u: Port, lsr: bv8, iir: bv8) {
    && lsr & LSR_DR == (if u.rx != [] then LSR_DR else 0) && (Overrun(lsr) <==> u.overrun)
    && lsr & 0x9c == 0 && iir & IIR_FIFO == FifoBits(u)
  }

  /** Only DR and OE matter to the rest of the state. */
  lemma EmptyBits(u: Port, lsr: bv8, iir: bv8, t: bool)
    requires Agrees(u, lsr, iir)
    ensures var w := u.(thri := t);
      && Overrun(lsr & !LSR_EMPTY) == Overrun(lsr | LSR_EMPTY) == Overrun(lsr | LSR_THRE) == u.overrun
      && Agrees(w, lsr & !LSR_EMPTY, iir) && Agrees(w, lsr | LSR_EMPTY, iir)
      && Agrees(w, lsr | LSR_THRE, iir) && lsr | LSR_EMPTY == Lsr(w)
    ensures Full(lsr) ==> lsr | LSR_THRE == lsr
  {
  }

  lemma SameLine(u: Port, w: Port)
    requires u.fcr == w.fcr && u.rx == w.rx && u.overrun == w.overrun
    ensures Lsr(u) == Lsr(w) && forall lsr, iir :: Agrees(u, lsr, iir) <==> Agrees(w, lsr, iir)
  {
  }

  lemma IerBits(u: Port, val: bv8, lsr: bv8)
    ensures (val & 0x0f) & IER_THRI != 0 <==> val & IER_THRI != 0
    ensures Lsr(u) & LSR_THRE != 0
  {
  }

  lemma EmptiedBits(u: Port, lsr: bv8, iir: bv8)
    requires Agrees(u, lsr, iir)
    ensures Agrees(u.(rx := []), lsr & !(LSR_DR | LSR_BI), iir)
    ensures Overrun(lsr & !(LSR_DR | LSR_BI)) == u.overrun
    ensures Full(lsr & !(LSR_DR | LSR_BI)) == Full(lsr)
  {
  }

  /** As Agrees, but DR may linger after the last byte was taken. */
  predicate AgreesButDr(u: Port, lsr: bv8, iir: bv8) {
    && (u.rx != [] ==> lsr & LSR_DR == LSR_DR) && (Overrun(lsr) <==> u.overrun)
    && lsr & 0x9c == 0 && iir & IIR_FIFO == FifoBits(u)
  }

  lemma TakenBits(u: Port, lsr: bv8, iir: bv8)
    requires Agrees(u, lsr, iir) && u.rx != []
    ensures AgreesButDr(u.(rx := u.rx[1..]), lsr, iir)
  {
  }

  lemma ButDrBits(u: Port, lsr: bv8, iir: bv8)
    requires AgreesButDr(u, lsr, iir) && u.rx == []
    ensures Agrees(u, lsr & !(LSR_DR | LSR_BI), iir)
    ensures Overrun(lsr & !(LSR_DR | LSR_BI)) == u.overrun && Full(lsr & !(LSR_DR | LSR_BI)) == Full(lsr)
  {
  }

  lemma OverrunBits(u: Port, lsr: bv8, iir: bv8)
    requires Agrees(u, lsr, iir)
    ensures lsr & (LSR_BI | LSR_OE) != 0 <==> u.overrun
    ensures Agrees(u.(overrun := false), lsr & !(LSR_BI | LSR_OE), iir)
    ensures Overrun(lsr & !(LSR_BI | LSR_OE)) == false
    ensures lsr == Lsr(u) ==> lsr & !(LSR_BI | LSR_OE) == Lsr(u.(overrun := false))
  {
  }

  /** Turning the FIFO on or off clears both sides; the clear bits are not kept. */
  lemma FcrBits(u: Port, val: bv8)
    ensures var all := if (val ^ u.fcr) & FCR_ENABLE != 0 then val | (FCR_CLEAR_RCVR | FCR_CLEAR_XMIT) else val;
      && (all & FCR_CLEAR_RCVR != 0 <==> ClearsReceiver(u, val))
      && (all & FCR_CLEAR_XMIT != 0 <==> ClearsTransmitter(u, val)) && all & FCR_KEPT == val & FCR_KEPT
  {
  }

  /** IIR's FIFO bits follow FCR's enable bit. */
  function FifoSet(iir: bv8, fcr: bv8): bv8 {
    if fcr & FCR_ENABLE != 0 then iir | IIR_FIFO else iir & !IIR_FIFO
  }

  lemma FifoBitsSet(u: Port, lsr: bv8, iir: bv8, bits: bv8)
    requires Agrees(u, lsr, iir) && Full(lsr)
    ensures Agrees(u.(fcr := bits), lsr, FifoSet(iir, bits))
    ensures lsr == Lsr(u.(fcr := bits))
  {
  }

  lemma LsrFull(u: Port, lsr: bv8, iir: bv8)
    requires Agrees(u, lsr, iir)
    ensures Full(lsr) <==> lsr == Lsr(u)
  {
  }

  predicate Coherent(u: Port, lsr: bv8, iir: bv8, level: bool) {
    lsr == Lsr(u) && iir == Iir(u) && level == !Quiet(u)
  }

  /** What the status registers and the line do not depend on. */
  lemma SameStatus(u: Port, w: Port)
    requires u.ier == w.ier && u.fcr == w.fcr && u.rx == w.rx && u.overrun == w.overrun && u.thri == w.thri && u.msr == w.msr
    ensures forall lsr, iir, level :: Coherent(u, lsr, iir, level) <==> Coherent(w, lsr, iir, level)
    ensures forall lsr, iir :: Agrees(u, lsr, iir) <==> Agrees(w, lsr, iir)
  {
    SameIir(u, w);
    SameLine(u, w);
    hide Iir, Lsr, Quiet, Agrees;
  }

  lemma SameIir(u: Port, w: Port)
    requires u.ier == w.ier && u.fcr == w.fcr && u.rx == w.rx && u.overrun == w.overrun && u.thri == w.thri && u.msr == w.msr
    ensures Iir(u) == Iir(w) && (Quiet(u) <==> Quiet(w))
  {
    assert forall s :: Raised(u, s) <==> Raised(w, s);
  }

  /** The choice serial_update_irq_locked makes from the registers. */
  function IdFrom(ier: bv8, lsr: bv8, msr: bv8, thri: bool): bv8 {
    if ier & IER_RLSI != 0 && lsr & LSR_ERRORS != 0 then IIR_RLSI
    else if ier & IER_RDI != 0 && lsr & LSR_DR != 0 then IIR_RDI
    else if ier & IER_THRI != 0 && thri then IIR_THRI
    else if ier & IER_MSI != 0 && msr & MSR_DELTAS != 0 then IIR_MSI
    else IIR_NO_INT
  }
}
