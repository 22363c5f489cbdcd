/**
 The 16550A of minivmm.c as a guest sees it: what each register access means, told without
 the ring buffer, the latched status registers or the interrupt line. The status registers
 and the line are functions of the state here; module UartDevice proves that the code, which
 stores and updates them piece by piece, agrees after every access.
*/
module Uart {
  const RX_SIZE := 1024
  const RX_CAPACITY := RX_SIZE - 1

  const IER_RDI: bv8 := 0x01
  const IER_THRI: bv8 := 0x02
  const IER_RLSI: bv8 := 0x04
  const IER_MSI: bv8 := 0x08
  const IIR_MSI: bv8 := 0x00
  const IIR_NO_INT: bv8 := 0x01
  const IIR_THRI: bv8 := 0x02
  const IIR_RDI: bv8 := 0x04
  const IIR_RLSI: bv8 := 0x06
  const IIR_ID: bv8 := 0x0e
  const IIR_FIFO: bv8 := 0xc0
  const FCR_ENABLE: bv8 := 0x01
  const FCR_CLEAR_RCVR: bv8 := 0x02
  const FCR_CLEAR_XMIT: bv8 := 0x04
  const FCR_KEPT: bv8 := 0xc9                // ENABLE_FIFO, DMA_SELECT, TRIGGER_MASK
  const LCR_DLAB: bv8 := 0x80
  const MCR_LOOP: bv8 := 0x10
  const LSR_DR: bv8 := 0x01
  const LSR_OE: bv8 := 0x02
  const LSR_BI: bv8 := 0x10
  const LSR_ERRORS: bv8 := 0x1e              // OE, PE, FE, BI
  const LSR_THRE: bv8 := 0x20
  const LSR_EMPTY: bv8 := 0x60               // THRE, TEMT
  const MSR_DELTAS: bv8 := 0x0f
  const MSR_LINES: bv8 := 0xb0               // DCD, DSR, CTS

  datatype Port = Port(
    ier: bv8, fcr: bv8, lcr: bv8, mcr: bv8, scr: bv8, msr: bv8, dll: bv8, dlm: bv8,
    rx: seq<bv8>,       // received and not yet read, oldest first
    overrun: bool,      // a byte was lost since LSR was last read
    thri: bool          // "transmitter empty" raised and not yet acknowledged
  ) {
    predicate Dlab() { lcr & LCR_DLAB != 0 }
    predicate Loop() { mcr & MCR_LOOP != 0 }
  }

  const RESET := Port(0, 0, 0, 0, 0, MSR_LINES, 0, 0, [], false, false)

  // ---------------------------------------------------------------- interrupts

  /** The interrupt sources, highest priority first. */
  datatype Source = LineStatus | Receive | Transmit | Modem

  predicate Raised(u: Port, s: Source) {
    match s
    case LineStatus => u.ier & IER_RLSI != 0 && u.overrun
    case Receive => u.ier & IER_RDI != 0 && u.rx != []
    case Transmit => u.ier & IER_THRI != 0 && u.thri
    case Modem => u.ier & IER_MSI != 0 && u.msr & MSR_DELTAS != 0
  }

  predicate Quiet(u: Port) { forall s :: !Raised(u, s) }

  function Rank(s: Source): nat {
    match s case LineStatus => 0 case Receive => 1 case Transmit => 2 case Modem => 3
  }

  function IdOf(s: Source): bv8 {
    match s case LineStatus => IIR_RLSI case Receive => IIR_RDI case Transmit => IIR_THRI case Modem => IIR_MSI
  }

  function FifoBits(u: Port): bv8 { if u.fcr & FCR_ENABLE != 0 then IIR_FIFO else 0 }

  /** IIR names the highest-priority raised source; its top bits say whether the FIFO is on. */
  predicate IsIir(u: Port, iir: bv8) {
    && iir & IIR_FIFO == FifoBits(u)
    && (Quiet(u) <==> iir & !IIR_FIFO == IIR_NO_INT)
    && forall s :: Raised(u, s) && (forall t :: Raised(u, t) ==> Rank(s) <= Rank(t)) ==> iir & !IIR_FIFO == IdOf(s)
  }

  /** The id of the highest-priority raised source. */
  function Id(u: Port): bv8 {
    if Raised(u, LineStatus) then IIR_RLSI
    else if Raised(u, Receive) then IIR_RDI
    else if Raised(u, Transmit) then IIR_THRI
    else if Raised(u, Modem) then IIR_MSI
    else IIR_NO_INT
  }

  function Iir(u: Port): bv8 { Id(u) | FifoBits(u) }

  lemma IirIs(u: Port)
    ensures IsIir(u, Iir(u))
    ensures Id(u) == IIR_NO_INT <==> Quiet(u)
    ensures Iir(u) & IIR_ID == IIR_THRI <==> Id(u) == IIR_THRI
  {
  }

  function Lsr(u: Port): bv8 {
    LSR_EMPTY | (if u.rx != [] then LSR_DR else 0) | (if u.overrun then LSR_OE else 0)
  }

  // ------------------------------------------------------------------ accesses

  /** A byte arrives: the FIFO holds 1023, the rest is lost and marked. */
  function Received(u: Port, c: bv8): Port {
    if |u.rx| >= RX_CAPACITY then u.(overrun := true) else u.(rx := u.rx + [c])
  }

  function ReceivedAll(u: Port, bytes: seq<bv8>): Port {
    if bytes == [] then u else Received(ReceivedAll(u, bytes[..|bytes| - 1]), bytes[|bytes| - 1])
  }

  predicate ClearsReceiver(u: Port, val: bv8) { (val ^ u.fcr) & FCR_ENABLE != 0 || val & FCR_CLEAR_RCVR != 0 }

  predicate ClearsTransmitter(u: Port, val: bv8) { (val ^ u.fcr) & FCR_ENABLE != 0 || val & FCR_CLEAR_XMIT != 0 }

  function WriteThr(u: Port, val: bv8): Port {
    if u.Dlab() then u.(dll := val)
    else if u.Loop() then Received(u.(thri := false), val).(thri := true)
    else u.(thri := true)
  }

  function WriteIer(u: Port, val: bv8): Port {
    if u.Dlab() then u.(dlm := val)
    else u.(ier := val & 0x0f, thri := u.thri || val & IER_THRI != 0)
  }

  function WriteFcr(u: Port, val: bv8): Port {
    u.(rx := if ClearsReceiver(u, val) then [] else u.rx,
       thri := u.thri || ClearsTransmitter(u, val), fcr := val & FCR_KEPT)
  }

  /** What an access sends to the console. */
  function Transmitted(u: Port, reg: nat, val: bv8): seq<bv8> {
    if reg == 0 && !u.Dlab() && !u.Loop() then [val] else []
  }

  function Write(u: Port, reg: nat, val: bv8): Port {
    match reg
    case 0 => WriteThr(u, val)
    case 1 => WriteIer(u, val)
    case 2 => WriteFcr(u, val)
    case 3 => u.(lcr := val)
    case 4 => u.(mcr := val)
    case 7 => u.(scr := val)
    case _ => u
  }

  /** In loop-back, the modem status shows the modem control outputs. */
  function LoopedMsr(mcr: bv8): bv8 {
    ((mcr & 0x0c) << 4) | ((mcr & 0x02) << 3) | ((mcr & 0x01) << 5)
  }

  /** The oldest byte, if there is one. */
  function FirstByte(u: Port): (bv8, Port) {
    if u.rx == [] then (0, u) else (u.rx[0], u.(rx := u.rx[1..]))
  }

  function ReadRbr(u: Port): (bv8, Port) {
    if u.Dlab() then (u.dll, u) else FirstByte(u)
  }

  /** In loop-back the deltas stay as they are; otherwise reading clears them. */
  function ReadMsr(u: Port): (bv8, Port) {
    if u.Loop() then (LoopedMsr(u.mcr), u) else (u.msr, u.(msr := u.msr & 0xf0))
  }

  function ReadIir(u: Port): (bv8, Port) {
    (Iir(u), if Id(u) == IIR_THRI then u.(thri := false) else u)
  }

  function Read(u: Port, reg: nat): (bv8, Port) {
    match reg
    case 0 => ReadRbr(u)
    case 1 => (if u.Dlab() then u.dlm else u.ier, u)
    case 2 => ReadIir(u)
    case 3 => (u.lcr, u)
    case 4 => (u.mcr, u)
    case 5 => (Lsr(u), u.(overrun := false))
    case 6 => ReadMsr(u)
    case _ => (u.scr, u)
  }
}
