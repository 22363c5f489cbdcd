/**
 What a 16550A driver relies on when it probes and uses the port, in the numbers of the data
 sheet: what written registers read back as, the loop-back test, the FIFO bits, the interrupt
 ids, and what each access leaves alone.
*/
module UartProbe {
  import opened Uart

  /** Line control, modem control and the scratch register read back as written. */
  lemma ReadsBack(u: Port, v: bv8)
    ensures Read(Write(u, 3, v), 3).0 == v && Read(Write(u, 4, v), 4).0 == v && Read(Write(u, 7, v), 7).0 == v
    ensures Write(u, 3, v) == u.(lcr := v) && Write(u, 4, v) == u.(mcr := v) && Write(u, 7, v) == u.(scr := v)
    ensures Write(u, 5, v) == u == Write(u, 6, v)
  {
    hide WriteThr, WriteIer, WriteFcr, ReadRbr, ReadIir, ReadMsr, Lsr;
  }

  /** Four enables read back, the fifth to eighth bit do not: so it is no XScale port. */
  lemma IerReadsBack(u: Port, v: bv8)
    requires u.lcr & 0x80 == 0
    ensures var w := Write(u, 1, v);
      && Read(w, 1) == (v & 0x0f, w)
      && w == u.(ier := v & 0x0f, thri := u.thri || v & 0x02 != 0)
  {
    hide WriteThr, WriteFcr, ReadRbr, ReadIir, ReadMsr, Lsr;
  }

  /** With the divisor latch selected, registers 0 and 1 are the divisor, and nothing else happens. */
  lemma DivisorReadsBack(u: Port, lo: bv8, hi: bv8)
    requires u.lcr & 0x80 != 0
    ensures var w := Write(Write(u, 0, lo), 1, hi);
      w == u.(dll := lo, dlm := hi) && Read(w, 0) == (lo, w) && Read(w, 1) == (hi, w)
    ensures Transmitted(u, 0, lo) == []
  {
    hide WriteFcr, ReadIir, ReadMsr, Lsr, Received, FirstByte, Port.Loop;
  }

  /** The loop-back test: OUT2, OUT1, DTR and RTS come back as DCD, RI, DSR and CTS. */
  lemma LoopTest(u: Port, v: bv8)
    requires v & 0x10 != 0
    ensures var w := Write(u, 4, v);
      var (msr, after) := Read(w, 6);
      && after == w && msr & 0x0f == 0
      && (msr & 0x80 != 0 <==> v & 0x08 != 0) && (msr & 0x40 != 0 <==> v & 0x04 != 0)
      && (msr & 0x20 != 0 <==> v & 0x01 != 0) && (msr & 0x10 != 0 <==> v & 0x02 != 0)
  {
    hide WriteThr, WriteIer, WriteFcr, ReadRbr, ReadIir, Lsr;
    var w := Write(u, 4, v);
    assert w == u.(mcr := v) && w.Loop();
    assert Read(w, 6) == ReadMsr(w) == (LoopedMsr(v), w);
    hide Read, Write, ReadMsr;
  }

  /** Otherwise the lines are shown, and reading them clears the deltas. */
  lemma ModemStatus(u: Port)
    requires u.mcr & 0x10 == 0
    ensures Read(u, 6) == (u.msr, u.(msr := u.msr & 0xf0))
  {
    hide ReadRbr, ReadIir, Lsr, LoopedMsr;
  }

  /** Enabling the FIFO shows in the top bits of IIR, and toggling it or asking for it clears. */
  lemma FifoControl(u: Port, v: bv8)
    ensures var w := Write(u, 2, v);
      var toggled := (v ^ u.fcr) & 0x01 != 0;
      && Read(w, 2).0 & 0xc0 == (if v & 0x01 != 0 then 0xc0 else 0)
      && w == u.(fcr := v & 0xc9, rx := if toggled || v & 0x02 != 0 then [] else u.rx,
                 thri := u.thri || toggled || v & 0x04 != 0)
  {
    hide WriteThr, WriteIer, ReadRbr, ReadMsr, Lsr;
    var w := Write(u, 2, v);
    assert w == WriteFcr(u, v);
    assert Read(w, 2) == ReadIir(w);
    hide Read, Write;
    FifoBit(w, v);
  }

  lemma FifoBit(w: Port, v: bv8)
    requires w.fcr == v & 0xc9
    ensures Iir(w) & 0xc0 == if v & 0x01 != 0 then 0xc0 else 0
  {
    hide Raised;
    if w.fcr & 0x01 != 0 {
    } else {
    }
  }

  /** The receiver holds 1023 bytes. */
  lemma Capacity(u: Port, c: bv8)
    ensures Received(u, c) == if |u.rx| < 1023 then u.(rx := u.rx + [c]) else u.(overrun := true)
  {
  }

  /** A byte sent leaves at once, or returns in loop-back; either way "transmitter empty" is raised. */
  lemma Sends(u: Port, v: bv8)
    requires u.lcr & 0x80 == 0
    ensures Transmitted(u, 0, v) == (if u.mcr & 0x10 != 0 then [] else [v])
    ensures Write(u, 0, v) ==
      if u.mcr & 0x10 == 0 then u.(thri := true)
      else if |u.rx| < 1023 then u.(rx := u.rx + [v], thri := true)
      else u.(overrun := true, thri := true)
  {
    hide WriteIer, WriteFcr;
    assert Write(u, 0, v) == WriteThr(u, v);
    hide Write;
  }

  /** The ids of the four sources, by priority, and 1 for none; only reporting THRI acknowledges it. */
  lemma Ids(u: Port)
    ensures var (iir, w) := Read(u, 2);
      var id := if u.ier & 0x04 != 0 && u.overrun then 6
                else if u.ier & 0x01 != 0 && u.rx != [] then 4
                else if u.ier & 0x02 != 0 && u.thri then 2
                else if u.ier & 0x08 != 0 && u.msr & 0x0f != 0 then 0
                else 1;
      iir & 0x3f == id && w == if id == 2 then u.(thri := false) else u
  {
    hide ReadRbr, ReadMsr, Lsr;
    assert Read(u, 2) == ReadIir(u);
    hide Read;
    if u.fcr & 0x01 != 0 {
    } else {
    }
  }

  /** LSR: data ready, overrun, and a transmitter that is always empty; reading it forgets the overrun. */
  lemma LineStatus(u: Port)
    ensures Read(u, 5) ==
      (0x60 + (if u.rx != [] then 0x01 else 0) + (if u.overrun then 0x02 else 0), u.(overrun := false))
  {
    hide ReadRbr, ReadMsr, ReadIir;
  }

  /** Register 0 takes the oldest byte; 0 if there is none. */
  lemma ReceiverBuffer(u: Port)
    requires u.lcr & 0x80 == 0
    ensures Read(u, 0) == if u.rx == [] then (0, u) else (u.rx[0], u.(rx := u.rx[1..]))
  {
    hide ReadMsr, ReadIir, Lsr;
  }

  /** At power-on: nothing enabled, received or raised; DCD, DSR and CTS are on. */
  lemma PowerOn()
    ensures RESET == Port(0, 0, 0, 0, 0, 0xb0, 0, 0, [], false, false) && Quiet(RESET)
  {
  }
}
