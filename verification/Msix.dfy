/**
 The MSI-X table a pass-through device shows its guest in minivmm.c: a shadow of the table,
 the KVM interrupt routes rebuilt from it, and the vector control words passed on to the
 device.
*/
module Msix {
  import opened ScatterGather

  const MAX_VECTORS := 32
  const ENTRY := 16
  const SHADOW_SIZE := MAX_VECTORS * ENTRY
  const GSI_BASE := 24
  const IOAPIC_PINS := 24
  const PIC_PINS := 16

  datatype Chip = Ioapic | PicMaster | PicSlave

  datatype Route = Pin(gsi: nat, chip: Chip, pin: nat) | Msi(gsi: nat, addrLo: nat, addrHi: nat, data: nat)

  /** A little-endian 32-bit word. */
  function Word(s: seq<Byte>, i: nat): nat
    requires i + 4 <= |s|
  {
    s[i] as int + 0x100 * s[i + 1] as int + 0x1_0000 * s[i + 2] as int + 0x100_0000 * s[i + 3] as int
  }

  predicate IsShadow(s: seq<Byte>) { |s| == SHADOW_SIZE }

  /** A vector's shadow entry holds an address. */
  predicate Programmed(s: seq<Byte>, v: nat)
    requires IsShadow(s) && v < MAX_VECTORS
  {
    Word(s, v * ENTRY) != 0 || Word(s, v * ENTRY + 4) != 0
  }

  /** The route for a vector: its GSI, and its address and data as the shadow has them. */
  function RouteOf(s: seq<Byte>, v: nat): Route
    requires IsShadow(s) && v < MAX_VECTORS
  {
    Msi(GSI_BASE + v, Word(s, v * ENTRY), Word(s, v * ENTRY + 4), Word(s, v * ENTRY + 8))
  }

  function Control(s: seq<Byte>, v: nat): nat
    requires IsShadow(s) && v < MAX_VECTORS
  {
    Word(s, v * ENTRY + 12)
  }

  function PinRoute(i: nat): Route {
    if i < IOAPIC_PINS then Pin(i, Ioapic, i)
    else
      var g := i - IOAPIC_PINS;
      Pin(g, if g < 8 then PicMaster else PicSlave, if g < 8 then g else g - 8)
  }

  const PINS := IOAPIC_PINS + PIC_PINS

  /** The routes are the fixed pins and then, once each, the vectors that are programmed. */
  ghost predicate Agree(routes: seq<Route>, s: seq<Byte>, vectors: nat)
    requires IsShadow(s) && vectors <= MAX_VECTORS
  {
    && |routes| >= PINS
    && (forall i | 0 <= i < PINS :: routes[i] == PinRoute(i))
    && (forall i | PINS <= i < |routes| :: FromShadow(routes[i], s, vectors))
    && (forall v | 0 <= v < vectors && Programmed(s, v) :: RouteOf(s, v) in routes[PINS..])
    && (forall i, j | PINS <= i < j < |routes| :: routes[i].gsi != routes[j].gsi)
  }

  predicate FromShadow(r: Route, s: seq<Byte>, vectors: nat)
    requires IsShadow(s) && vectors <= MAX_VECTORS
  {
    && GSI_BASE <= r.gsi < GSI_BASE + vectors
    && Programmed(s, r.gsi - GSI_BASE) && r == RouteOf(s, r.gsi - GSI_BASE)
  }

  class Vfio {
    const vectors: nat                  // msix_nr
    const tableOff: nat                 // msix_table_off
    const shadow: array<Byte>           // msix_shadow
    var routingDone: bool
    var routes: seq<Route>              // the last KVM_SET_GSI_ROUTING
    var control: seq<nat>               // vector control words in the device's own table

    ghost predicate Valid()
      reads this, shadow
    {
      shadow.Length == SHADOW_SIZE && vectors <= MAX_VECTORS && |control| == vectors
    }

    /** What the guest programmed is what KVM routes. */
    ghost predicate Routed()
      requires Valid()
      reads this, shadow
    {
      routingDone ==> Agree(routes, shadow[..], vectors)
    }

    /** The device masks a vector exactly as the guest wrote it. */
    ghost predicate Synced(v: nat)
      requires Valid() && v < vectors
      reads this, shadow
    {
      control[v] == Control(shadow[..], v)
    }

    /** The first part of msix_update_routes: the pins of the IOAPIC and of the two PICs. */
    static method PinRoutes() returns (rt: seq<Route>)
      ensures |rt| == PINS && forall i | 0 <= i < PINS :: rt[i] == PinRoute(i)
    {
      rt := [];
      var g := 0;
      while g < IOAPIC_PINS
        invariant 0 <= g <= IOAPIC_PINS && |rt| == g && forall i | 0 <= i < g :: rt[i] == PinRoute(i)
      {
        rt := rt + [Pin(g, Ioapic, g)];
        g := g + 1;
      }
      g := 0;
      while g < PIC_PINS
        invariant 0 <= g <= PIC_PINS && |rt| == IOAPIC_PINS + g && forall i | 0 <= i < |rt| :: rt[i] == PinRoute(i)
      {
        rt := rt + [Pin(g, if g < 8 then PicMaster else PicSlave, if g < 8 then g else g - 8)];
        g := g + 1;
      }
    }

    /** The routing table msix_update_routes fills in, and the number of programmed vectors. */
    method BuildRoutes() returns (rt: seq<Route>, active: nat)
      requires Valid()
      ensures Agree(rt, shadow[..], vectors) && active == |rt| - PINS
    {
      hide Agree, Word, PinRoute;
      ghost var s := shadow[..];
      rt := PinRoutes();
      AgreeStart(rt, s);
      active := 0;
      var v := 0;
      while v < vectors
        invariant 0 <= v <= vectors && Agree(rt, s, v) && active == |rt| - PINS
      {
        var (lo, hi) := (Word(shadow[..], v * ENTRY), Word(shadow[..], v * ENTRY + 4));
        var data := Word(shadow[..], v * ENTRY + 8);
        AgreeNext(rt, s, v);
        if lo != 0 || hi != 0 {
          rt := rt + [Msi(GSI_BASE + v, lo, hi, data)];
          active := active + 1;
        }
        v := v + 1;
      }
    }

    /**
     msix_update_routes: -1 and the old routes when memory for the table cannot be had, else
     the number of programmed vectors; KVM keeps the old routes when it refuses the new ones.
    */
    method UpdateRoutes(allocOk: bool, setOk: bool) returns (active: int)
      requires Valid()
      modifies `routes
      ensures active == -1 <==> !allocOk
      ensures if allocOk && setOk then Agree(routes, shadow[..], vectors) && active == |routes| - PINS
              else routes == old(routes)
    {
      hide Agree;
      if !allocOk { return -1; }
      var rt;
      rt, active := BuildRoutes();
      if setOk { routes := rt; }
    }

    /**
     A guest write inside the table, the MSI-X part of handle_pt_mmio: the shadow takes it,
     a touched vector control word is passed on, and the routes are rebuilt unless the write
     starts in a control word.
    */
    method HandleTableWrite(pos: nat, data: seq<Byte>, allocOk: bool, setOk: bool)
      requires Valid() && 0 < |data| <= 8 && pos + |data| <= vectors * ENTRY
      modifies shadow, `routes, `control
      ensures Valid() && shadow[..] == Store(old(shadow[..]), pos, data)
      ensures old(Routed()) && (if pos % 16 < 12 then allocOk && setOk else pos % 16 + |data| <= 16) ==> Routed()
      ensures routingDone ==>
        Written(Table(old(shadow[..]), old(routes)), Access(pos, data, allocOk && setOk), Table(shadow[..], routes), vectors)
      ensures forall v | 0 <= v < vectors && old(Synced(v)) :: Synced(v)
      ensures pos % 16 + |data| > 12 ==> Synced(pos / 16)
      ensures if routingDone && pos % ENTRY < 12 && allocOk && setOk
              then Agree(routes, shadow[..], vectors) else routes == old(routes)
      ensures control == if pos % ENTRY + |data| > 12
                         then old(control)[pos / ENTRY := Control(shadow[..], pos / ENTRY)] else old(control)
    {
      forall i | 0 <= i < |data| {
        shadow[pos + i] := data[i];
      }
      assert shadow[..] == Store(old(shadow[..]), pos, data);
      hide Store, Agree, Word;
      var (vec, fld) := (pos / ENTRY, pos % ENTRY);
      if fld >= 12 || fld + |data| > 12 {
        control := control[vec := Word(shadow[..], vec * ENTRY + 12)];
      }
      ControlStays(old(shadow[..]), pos, data);
      if routingDone && fld < 12 {
        var active := UpdateRoutes(allocOk, setOk);
      } else if routingDone && !Crosses(pos, |data|) && Agree(routes, old(shadow[..]), vectors) {
        ControlWriteKeeps(routes, old(shadow[..]), vectors, pos, data);
      }
    }

    /** A guest read inside the table returns the shadow. */
    method HandleTableRead(pos: nat, len: nat) returns (data: seq<Byte>)
      requires Valid() && len <= 8 && pos + len <= vectors * ENTRY
      ensures data == shadow[..][pos..pos + len]
    {
      data := shadow[pos..pos + len];
    }

    /**
     A guest access to the BAR that holds the table: one that lies wholly inside the table is
     answered from the shadow, and any other, one that overlaps its ends included, is left to
     the device.
    */
    method HandleAccess(off: nat, isWrite: bool, data: seq<Byte>, allocOk: bool, setOk: bool)
      returns (handled: bool, reply: seq<Byte>)
      requires Valid() && 0 < |data| <= 8
      modifies shadow, `routes, `control
      ensures Valid() && handled == (tableOff <= off && off + |data| <= tableOff + vectors * ENTRY)
      ensures if handled && isWrite then shadow[..] == Store(old(shadow[..]), off - tableOff, data)
              else shadow[..] == old(shadow[..]) && routes == old(routes) && control == old(control)
      ensures handled && !isWrite ==> reply == shadow[..][off - tableOff..off - tableOff + |data|]
      ensures var pos := off - tableOff;
        old(Routed()) && (handled && isWrite ==> if pos % 16 < 12 then allocOk && setOk else pos % 16 + |data| <= 16)
        ==> Routed()
      ensures forall v | 0 <= v < vectors && old(Synced(v)) :: Synced(v)
    {
      hide Store, Agree, Control;
      reply := [];
      handled := off >= tableOff && off + |data| <= tableOff + vectors * ENTRY;
      if !handled { return; }
      if isWrite {
        HandleTableWrite(off - tableOff, data, allocOk, setOk);
      } else {
        reply := HandleTableRead(off - tableOff, |data|);
      }
    }

    /**
     msix_setup_irqs: build the routes, arm the vectors (which leaves arbitrary control words
     in the device), and pass on the control words of the programmed vectors.
    */
    method SetupIrqs(armed: seq<nat>, allocOk: bool, setOk: bool, armsOk: bool)
      requires Valid() && |armed| == vectors
      modifies `routes, `control, `routingDone
      ensures Valid() && routingDone == (armsOk || old(routingDone))
      ensures if allocOk && setOk then Agree(routes, shadow[..], vectors) else routes == old(routes)
      ensures armsOk ==> forall v | 0 <= v < vectors ::
                control[v] == if Programmed(shadow[..], v) then Control(shadow[..], v) else armed[v]
    {
      hide Agree, Word;
      var active := UpdateRoutes(allocOk, setOk);
      ghost var rebuilt := routes;
      if !armsOk { return; }
      control := armed;
      routingDone := true;
      var v := 0;
      while v < vectors
        invariant 0 <= v <= vectors && |control| == vectors && routes == rebuilt && routingDone
        invariant forall u | 0 <= u < vectors ::
                    control[u] == if u < v && Programmed(shadow[..], u) then Control(shadow[..], u) else armed[u]
      {
        if Word(shadow[..], v * ENTRY) != 0 || Word(shadow[..], v * ENTRY + 4) != 0 {
          control := control[v := Word(shadow[..], v * ENTRY + 12)];
        }
        v := v + 1;
      }
    }
  }

  /** The bytes of a 32-bit word as the device and the processor store it, least significant first. */
  function Digits(w: nat): seq<nat> { [w % 0x100, w / 0x100 % 0x100, w / 0x1_0000 % 0x100, w / 0x100_0000] }

  lemma WordDigits(s: seq<Byte>, i: nat)
    requires i + 4 <= |s|
    ensures Digits(Word(s, i)) == s[i..i + 4]
  {
    FourDigits(s[i], s[i + 1], s[i + 2], s[i + 3]);
    hide Digits;
    assert s[i..i + 4] == [s[i], s[i + 1], s[i + 2], s[i + 3]];
  }

  lemma FourDigits(a: nat, b: nat, c: nat, d: nat)
    requires a < 0x100 && b < 0x100 && c < 0x100 && d < 0x100
    ensures Digits(a + 0x100 * b + 0x1_0000 * c + 0x100_0000 * d) == [a, b, c, d]
  {
    var w := a + 0x100 * b + 0x1_0000 * c + 0x100_0000 * d;
    assert w / 0x100 == b + 0x100 * c + 0x1_0000 * d && w / 0x1_0000 == c + 0x100 * d;
  }

  /** The routes and a table of programmed vectors, byte by byte, as KVM and the PCI standard number them. */
  lemma EntryBytes(s: seq<Byte>, v: nat)
    requires |s| == 512 && v < 32
    ensures IsShadow(s) && v < MAX_VECTORS
    ensures Programmed(s, v) <==> exists i :: 16 * v <= i < 16 * v + 8 && s[i] != 0
    ensures var r := RouteOf(s, v);
      && r.Msi? && r.gsi == 24 + v
      && Digits(r.addrLo) == s[16 * v..16 * v + 4] && Digits(r.addrHi) == s[16 * v + 4..16 * v + 8]
      && Digits(r.data) == s[16 * v + 8..16 * v + 12] && Digits(Control(s, v)) == s[16 * v + 12..16 * v + 16]
  {
    WordDigits(s, 16 * v);
    WordDigits(s, 16 * v + 4);
    WordDigits(s, 16 * v + 8);
    WordDigits(s, 16 * v + 12);
    if Programmed(s, v) {
      if forall i | 16 * v <= i < 16 * v + 8 :: s[i] == 0 {
        assert false;
      }
    }
  }

  /** In agreement: 24 pins of the IOAPIC, 8 of each PIC, and for each vector its route iff it is programmed. */
  lemma AgreeMeans(routes: seq<Route>, s: seq<Byte>, vectors: nat, v: nat)
    requires |s| == 512 && v < vectors <= 32 && Agree(routes, s, vectors)
    ensures |routes| >= 40
    ensures forall g | 0 <= g < 24 :: routes[g] == Pin(g, Ioapic, g)
    ensures forall g | 0 <= g < 8 :: routes[24 + g] == Pin(g, PicMaster, g) && routes[32 + g] == Pin(8 + g, PicSlave, g)
    ensures forall i | 40 <= i < |routes| :: 24 <= routes[i].gsi < 24 + vectors
    ensures (exists i :: 40 <= i < |routes| && routes[i].gsi == 24 + v) <==>
      exists i :: 16 * v <= i < 16 * v + 8 && s[i] != 0
    ensures forall i | 40 <= i < |routes| && routes[i].gsi == 24 + v :: routes[i] == RouteOf(s, v)
  {
    EntryBytes(s, v);
    OnlyRoute(routes, s, vectors, v);
    hide Word, Programmed, RouteOf;
    assert forall i | 0 <= i < 40 :: routes[i] == PinRoute(i);
  }

  lemma AgreeStart(routes: seq<Route>, s: seq<Byte>)
    requires IsShadow(s) && |routes| == PINS && forall i | 0 <= i < PINS :: routes[i] == PinRoute(i)
    ensures Agree(routes, s, 0)
  {
  }

  /** A vector that is not programmed adds no route. */
  lemma AgreeSkip(routes: seq<Route>, s: seq<Byte>, v: nat)
    requires IsShadow(s) && v < MAX_VECTORS && Agree(routes, s, v) && !Programmed(s, v)
    ensures Agree(routes, s, v + 1)
  {
    hide Word, PinRoute, RouteOf, Programmed;
    assert forall i | PINS <= i < |routes| :: FromShadow(routes[i], s, v) && FromShadow(routes[i], s, v + 1);
  }

  lemma FromOlder(r: Route, s: seq<Byte>, v: nat)
    requires IsShadow(s) && v < MAX_VECTORS && FromShadow(r, s, v)
    ensures FromShadow(r, s, v + 1) && r.gsi != GSI_BASE + v
  {}

  lemma NextRoutes(routes: seq<Route>, r: Route, s: seq<Byte>, v: nat)
    requires IsShadow(s) && v < MAX_VECTORS && |routes| >= PINS && FromShadow(r, s, v + 1) && r.gsi == GSI_BASE + v
    requires forall i | PINS <= i < |routes| :: FromShadow(routes[i], s, v)
    requires forall i, j | PINS <= i < j < |routes| :: routes[i].gsi != routes[j].gsi
    ensures var more := routes + [r];
      && (forall i | PINS <= i < |more| :: FromShadow(more[i], s, v + 1))
      && (forall i, j | PINS <= i < j < |more| :: more[i].gsi != more[j].gsi)
  {
    hide FromShadow, IsShadow;
    var more := routes + [r];
    forall i | PINS <= i < |routes|
      ensures more[i] == routes[i] && FromShadow(routes[i], s, v + 1) && routes[i].gsi != r.gsi
    {
      FromOlder(routes[i], s, v);
    }
  }

  lemma NextIncluded(routes: seq<Route>, s: seq<Byte>, v: nat)
    requires IsShadow(s) && v < MAX_VECTORS && |routes| >= PINS
    requires forall u | 0 <= u < v && Programmed(s, u) :: RouteOf(s, u) in routes[PINS..]
    ensures forall u | 0 <= u < v + 1 && Programmed(s, u) :: RouteOf(s, u) in (routes + [RouteOf(s, v)])[PINS..]
  {
    hide Programmed, RouteOf, IsShadow;
    assert (routes + [RouteOf(s, v)])[PINS..] == routes[PINS..] + [RouteOf(s, v)];
  }

  lemma AgreeNext(routes: seq<Route>, s: seq<Byte>, v: nat)
    requires IsShadow(s) && v < MAX_VECTORS && Agree(routes, s, v)
    ensures Agree(if Programmed(s, v) then routes + [RouteOf(s, v)] else routes, s, v + 1)
  {
    if Programmed(s, v) {
      RouteGsi(s, v);
      NextRoutes(routes, RouteOf(s, v), s, v);
      NextIncluded(routes, s, v);
    } else {
      AgreeSkip(routes, s, v);
    }
    hide Word, PinRoute, RouteOf, Programmed, FromShadow;
  }

  lemma RouteGsi(s: seq<Byte>, v: nat)
    requires IsShadow(s) && v < MAX_VECTORS
    ensures RouteOf(s, v).gsi == GSI_BASE + v
  {}

  // ------------------------------------------------------ which writes are safe

  /** The write starts in a control word and reaches into the next entry. */
  predicate Crosses(pos: nat, len: nat) { pos % ENTRY >= 12 && pos % ENTRY + len > ENTRY }

  lemma EntryStays(s: seq<Byte>, pos: nat, data: seq<Byte>, v: nat)
    requires IsShadow(s) && pos + |data| <= |s| && v < MAX_VECTORS
    requires v * ENTRY + 12 <= pos || pos + |data| <= v * ENTRY
    ensures Programmed(Store(s, pos, data), v) == Programmed(s, v) && RouteOf(Store(s, pos, data), v) == RouteOf(s, v)
  {
  }

  /** A write of at most 8 bytes touches no control word but that of the entry it starts in. */
  lemma ControlStays(s: seq<Byte>, pos: nat, data: seq<Byte>)
    requires IsShadow(s) && pos + |data| <= |s| && |data| <= 8
    ensures forall v | 0 <= v < MAX_VECTORS && (v != pos / ENTRY || pos % ENTRY + |data| <= 12) ::
              Control(Store(s, pos, data), v) == Control(s, v)
  {
  }

  /** A write within one control word changes no address and no data. */
  lemma ControlWriteKeeps(routes: seq<Route>, s: seq<Byte>, vectors: nat, pos: nat, data: seq<Byte>)
    requires IsShadow(s) && vectors <= MAX_VECTORS && pos + |data| <= |s| && Agree(routes, s, vectors)
    requires pos % ENTRY >= 12 && !Crosses(pos, |data|)
    ensures Agree(routes, Store(s, pos, data), vectors)
  {
    var after := Store(s, pos, data);
    forall v | 0 <= v < vectors
      ensures Programmed(after, v) == Programmed(s, v) && RouteOf(after, v) == RouteOf(s, v)
    {
      EntryStays(s, pos, data, v);
    }
    hide Programmed, RouteOf, Store;
  }

  /** Some data for a crossing write leaves a route for an address that is no longer there. */
  lemma CrossingLosesAgreement(routes: seq<Route>, s: seq<Byte>, vectors: nat, pos: nat, len: nat) returns (data: seq<Byte>)
    requires IsShadow(s) && vectors <= MAX_VECTORS && Agree(routes, s, vectors)
    requires Crosses(pos, len) && pos + len <= vectors * ENTRY
    ensures |data| == len && !Agree(routes, Store(s, pos, data), vectors)
  {
    var v := pos / ENTRY + 1;
    var at := v * ENTRY;
    var other: Byte := if s[at] == 0 then 1 else 0;
    data := s[pos..pos + len][at - pos := other];
    var after := Store(s, pos, data);
    assert after == s[at := other];
    assert Word(after, at) != Word(s, at);
    if Agree(routes, after, vectors) {
      OnlyRoute(routes, s, vectors, v);
      OnlyRoute(routes, after, vectors, v);
    }
  }

  /** The routes tell a vector's address, if it has any. */
  lemma OnlyRoute(routes: seq<Route>, s: seq<Byte>, vectors: nat, v: nat)
    requires IsShadow(s) && v < vectors <= MAX_VECTORS && Agree(routes, s, vectors)
    ensures Programmed(s, v) <==> exists i :: PINS <= i < |routes| && routes[i].gsi == GSI_BASE + v
    ensures forall i | PINS <= i < |routes| && routes[i].gsi == GSI_BASE + v :: routes[i] == RouteOf(s, v)
  {
  }

  /**
   A write that starts in a control word, after which the routes are not rebuilt, keeps them
   in agreement with the shadow whatever it writes, exactly when it stays in its entry.
  */
  lemma KeepsIff(routes: seq<Route>, s: seq<Byte>, vectors: nat, pos: nat, len: nat)
    requires IsShadow(s) && vectors <= MAX_VECTORS && Agree(routes, s, vectors)
    requires pos + len <= vectors * ENTRY && pos % ENTRY >= 12
    ensures (forall data: seq<Byte> | |data| == len :: Agree(routes, Store(s, pos, data), vectors))
            <==> pos % ENTRY + len <= ENTRY
  {
    if Crosses(pos, len) {
      var data := CrossingLosesAgreement(routes, s, vectors, pos, len);
    } else {
      forall data: seq<Byte> | |data| == len
        ensures Agree(routes, Store(s, pos, data), vectors)
      {
        ControlWriteKeeps(routes, s, vectors, pos, data);
      }
    }
  }

  /** Naturally aligned accesses never cross. */
  lemma AlignedNeverCrosses(pos: nat, len: nat)
    requires len in {1, 2, 4, 8} && pos % len == 0
    ensures !Crosses(pos, len)
  {
    var (q, r) := (pos / ENTRY, pos % ENTRY);
    assert pos == ENTRY * q + r;
    if len == 2 {
      assert r == 2 * (pos / 2 - 8 * q);
    } else if len == 4 {
      assert r == 4 * (pos / 4 - 4 * q);
    } else if len == 8 {
      assert r == 8 * (pos / 8 - 2 * q);
    } else {
      assert r <= 15;
    }
  }

  // ------------------------------------------------------------------------ runs

  /** A guest write; `ok` when memory is there and KVM takes the routes. */
  datatype Access = Access(pos: nat, data: seq<Byte>, ok: bool) {
    predicate Rebuilds() { pos % ENTRY < 12 }

    predicate Aligned() { |data| in {1, 2, 4, 8} && pos % |data| == 0 }
  }

  datatype Table = Table(shadow: seq<Byte>, routes: seq<Route>)

  /** What HandleTableWrite does once routing is set up. */
  ghost predicate Written(t: Table, a: Access, after: Table, vectors: nat)
    requires vectors <= MAX_VECTORS && IsShadow(t.shadow) && a.pos + |a.data| <= vectors * ENTRY
  {
    && after.shadow == Store(t.shadow, a.pos, a.data)
    && if a.Rebuilds() && a.ok then Agree(after.routes, after.shadow, vectors) else after.routes == t.routes
  }

  ghost predicate Run(tables: seq<Table>, accesses: seq<Access>, vectors: nat) {
    && vectors <= MAX_VECTORS && |tables| == |accesses| + 1
    && (forall i | 0 <= i < |tables| :: IsShadow(tables[i].shadow))
    && (forall i | 0 <= i < |accesses| ::
         accesses[i].pos + |accesses[i].data| <= vectors * ENTRY && Written(tables[i], accesses[i], tables[i + 1], vectors))
  }

  /** The last rebuild of the run succeeded, or there was none and the routes agreed at the start. */
  predicate Rebuilt(agreed: bool, accesses: seq<Access>) {
    if accesses == [] then agreed
    else
      var a := accesses[|accesses| - 1];
      if a.Rebuilds() then a.ok else Rebuilt(agreed, accesses[..|accesses| - 1])
  }

  /**
   Over every run of naturally aligned writes, KVM routes exactly what the guest programmed,
   unless the last attempt to rebuild the routes failed.
  */
  lemma {:induction false} RunKeepsRoutes(tables: seq<Table>, accesses: seq<Access>, vectors: nat)
    requires Run(tables, accesses, vectors) && forall i | 0 <= i < |accesses| :: accesses[i].Aligned()
    requires Rebuilt(Agree(tables[0].routes, tables[0].shadow, vectors), accesses)
    ensures Agree(tables[|accesses|].routes, tables[|accesses|].shadow, vectors)
  {
    if accesses != [] {
      var n := |accesses| - 1;
      var (a, t) := (accesses[n], tables[n]);
      assert a.Aligned() && Written(t, a, tables[n + 1], vectors);
      AlignedNeverCrosses(a.pos, |a.data|);
      if !a.Rebuilds() {
        RunKeepsRoutes(tables[..n + 1], accesses[..n], vectors);
        hide Agree, Store, Run;
        ControlWriteKeeps(t.routes, t.shadow, vectors, a.pos, a.data);
      }
    }
  }

  /** The byte last written at a position, or the one there at the start. */
  function LastWritten(start: seq<Byte>, accesses: seq<Access>, i: nat): Byte
    requires i < |start|
  {
    if accesses == [] then start[i]
    else
      var a := accesses[|accesses| - 1];
      if a.pos <= i < a.pos + |a.data| then a.data[i - a.pos]
      else LastWritten(start, accesses[..|accesses| - 1], i)
  }

  /** After every run of writes, aligned or not, a read returns the byte last written at each position. */
  lemma {:induction false} ReadsLastWritten(tables: seq<Table>, accesses: seq<Access>, vectors: nat, i: nat)
    requires Run(tables, accesses, vectors) && i < vectors * ENTRY
    ensures tables[|accesses|].shadow[i] == LastWritten(tables[0].shadow, accesses, i)
  {
    if accesses != [] {
      var n := |accesses| - 1;
      assert Written(tables[n], accesses[n], tables[n + 1], vectors);
      ReadsLastWritten(tables[..n + 1], accesses[..n], vectors, i);
      hide Agree, Run;
    }
  }
}
