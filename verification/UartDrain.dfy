/**
 A guest's interrupt handler against the UART: read IIR, service the source it names, and
 again until IIR says there is none.
*/
module UartDrain {
  import opened Uart
  import UartRuns

  /** The access that services a source reported by IIR; reading IIR itself acknowledges THRI. */
  function Service(u: Port, id: bv8): Port {
    if id == IIR_RLSI then Read(u, 5).1
    else if id == IIR_RDI then Read(u, 0).1
    else if id == IIR_MSI then Read(u, 6).1
    else u
  }

  /** One round; nothing happens once IIR reports no interrupt. */
  function Round(u: Port): Port {
    var (iir, v) := Read(u, 2);
    Service(v, iir & !IIR_FIFO)
  }

  function Rounds(u: Port, n: nat): Port
    decreases n
  {
    if n == 0 then u else Rounds(Round(u), n - 1)
  }

  /** The enabled events waiting: the overrun, each pending byte, the transmit latch. */
  function Work(u: Port): nat {
    (if Raised(u, LineStatus) then 1 else 0) + (if Raised(u, Receive) then |u.rx| else 0)
    + (if Raised(u, Transmit) then 1 else 0)
  }

  /** No modem delta (none is ever raised), and the receive buffer is reachable if it must be read. */
  predicate Drainable(u: Port) {
    u.msr & MSR_DELTAS == 0 && (u.Dlab() ==> !Raised(u, Receive))
  }

  lemma NoWork(u: Port)
    requires u.msr & MSR_DELTAS == 0
    ensures Work(u) == 0 <==> Quiet(u)
    ensures Quiet(u) ==> Round(u) == u
  {
  }

  /** A round services the highest-priority raised source. */
  lemma RoundServices(u: Port)
    ensures Round(u) ==
      if Raised(u, LineStatus) then u.(overrun := false)
      else if Raised(u, Receive) then ReadRbr(u).1
      else if Raised(u, Transmit) then u.(thri := false)
      else if Raised(u, Modem) then ReadMsr(u).1
      else u
  {
  }

  lemma OverrunServed(u: Port)
    requires Drainable(u) && Raised(u, LineStatus)
    ensures var v := u.(overrun := false); Drainable(v) && Work(v) == Work(u) - 1
  {
  }

  lemma ByteServed(u: Port)
    requires Drainable(u) && Raised(u, Receive)
    ensures var v := ReadRbr(u).1; Drainable(v) && Work(v) == Work(u) - 1
  {
  }

  lemma TransmitServed(u: Port)
    requires Drainable(u) && Raised(u, Transmit)
    ensures var v := u.(thri := false); Drainable(v) && Work(v) == Work(u) - 1
  {
  }

  /** Each round does one piece of the work, and leaves a state that can still be drained. */
  lemma RoundWorks(u: Port)
    requires Drainable(u) && Work(u) > 0
    ensures Drainable(Round(u)) && Work(Round(u)) == Work(u) - 1
  {
    RoundServices(u);
    hide Round, Drainable, Raised;
    if Raised(u, LineStatus) {
      OverrunServed(u);
    } else if Raised(u, Receive) {
      ByteServed(u);
    } else {
      TransmitServed(u);
    }
  }

  /** The handler is done after exactly as many rounds as there were enabled events. */
  lemma {:induction false} DrainsExactly(u: Port, n: nat)
    requires Drainable(u)
    ensures Quiet(Rounds(u, n)) <==> n >= Work(u)
    decreases n
  {
    NoWork(u);
    if n > 0 {
      if Work(u) > 0 {
        RoundWorks(u);
      }
      hide Round, Quiet, Work, Drainable;
      DrainsExactly(Round(u), n - 1);
    }
  }

  lemma WorkBound(u: Port)
    ensures Work(u) <= (if u.overrun then 1 else 0) + |u.rx| + (if u.thri then 1 else 0)
  {
  }

  /** With DLAB set the handler reads the divider instead, and the byte stays for ever. */
  lemma {:induction false} StuckUnderDlab(u: Port, n: nat)
    requires u.Dlab() && Raised(u, Receive)
    ensures !Quiet(Rounds(u, n))
    decreases n
  {
    RoundServices(u);
    if n > 0 {
      hide Round;
      if Raised(u, LineStatus) {
        StuckUnderDlab(Round(u), n - 1);
      } else {
        StuckUnderDlab(Round(u), n - 1);
      }
    }
  }

  /** A guest that enables receive interrupts, gets a byte, and then selects the divider is stuck. */
  lemma DlabAfterInput(n: nat)
    ensures var run := [UartRuns.WriteReg(1, IER_RDI), UartRuns.Input(65), UartRuns.WriteReg(3, LCR_DLAB)];
      !Quiet(Rounds(UartRuns.After(run).u, n))
  {
    var run := [UartRuns.WriteReg(1, IER_RDI), UartRuns.Input(65), UartRuns.WriteReg(3, LCR_DLAB)];
    var enabled := Write(RESET, 1, IER_RDI);
    var received := Received(enabled, 65);
    assert run[..2][..1] == run[..1] && run[..1][..0] == [];
    assert UartRuns.After(run[..0]).u == RESET;
    assert UartRuns.After(run[..1]).u == enabled;
    assert UartRuns.After(run[..2]).u == received;
    var u := UartRuns.After(run).u;
    assert u == Write(received, 3, LCR_DLAB);
    assert u.ier == IER_RDI && u.rx == [65];
    StuckUnderDlab(u, n);
  }

  /** So the handler ever finishes exactly when the bytes it must read are reachable. */
  lemma DrainsIff(u: Port)
    requires u.msr & MSR_DELTAS == 0
    ensures (exists n :: Quiet(Rounds(u, n))) <==> (u.Dlab() ==> !Raised(u, Receive))
  {
    hide Quiet, Raised, Port.Dlab, Work;
    if u.Dlab() && Raised(u, Receive) {
      forall n: nat
        ensures !Quiet(Rounds(u, n))
      {
        StuckUnderDlab(u, n);
      }
    } else {
      DrainsExactly(u, Work(u));
    }
  }
}
