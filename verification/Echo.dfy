/**
 The echoing console of minivmm.c: what transmitting any number of chains sends, how it fills
 the echo buffer, and what the service of the receive queue from inside each transmit request
 delivers, as one function of the two queues and of memory.
*/
module Echo {
  import opened Descriptors
  import opened ScatterGather
  import opened Service
  import opened Virtqueue
  import Blk
  import Ring

  const CON_IN_SZ := 8192

  /** The console reads no request header. */
  const UNUSED: Stacks := _ => seq(16, _ => 0)

  // ------------------------------------------------------------- the receive queue

  /** Memory and echo buffer after the first n waiting receive chains, and their completions. */
  ghost function Fed(q: Vq, n: nat, io: Io): (r: (Io, seq<Used>))
    requires q.Ok() && q.num != 0 && |io.ram| <= RAM_LIMIT
    ensures |r.0.ram| == |io.ram|
  {
    OkUsed(q);
    Serve(Console, q, q.Heads(n), io, UNUSED)
  }

  /** From n on, the first number of chains after which nothing is pending or none waits. */
  ghost function StopAt(q: Vq, n: nat, io: Io): (m: nat)
    requires q.Ok() && q.num != 0 && |io.ram| <= RAM_LIMIT && n <= q.Waiting()
    ensures n <= m <= q.Waiting()
    decreases q.Waiting() - n
  {
    if n == q.Waiting() || Fed(q, n, io).0.fifo == [] then n else StopAt(q, n + 1, io)
  }

  /** Servicing the receive queue: memory and buffer, the number of chains taken, completions. */
  ghost function Deliver(q: Vq, io: Io): (r: (Io, nat, seq<Used>))
    requires q.Ok() && |io.ram| <= RAM_LIMIT
    ensures |r.0.ram| == |io.ram| && r.1 <= q.Waiting()
  {
    if q.Serviceable(|io.ram|) then
      var n := StopAt(q, 0, io);
      var (after, es) := Fed(q, n, io);
      (after, n, es)
    else (io, 0, [])
  }

  /** A service loop on the receive queue that stops as service_vq does delivers exactly that. */
  lemma DeliverIs(q: Vq, n: nat, io: Io, after: Io, es: seq<Used>)
    requires q.Ok() && |io.ram| <= RAM_LIMIT && n <= q.Waiting()
    requires ServedBy(Console, q, n, io, after, es, UNUSED)
    requires if q.Serviceable(|io.ram|) then after.fifo == [] || n == q.Waiting() else n == 0
    ensures Deliver(q, io) == (after, n, es)
  {
    hide Serve, Vq.Ok, Vq.AvailMapped, Vq.Heads, Plus;
    if q.Serviceable(|io.ram|) {
      OkUsed(q);
      NoneServed(Console, q, io, UNUSED);
      StopsAt(q, 0, n, io);
    }
  }

  lemma {:induction false} StopsAt(q: Vq, m: nat, n: nat, io: Io)
    requires q.Ok() && q.num != 0 && |io.ram| <= RAM_LIMIT && m <= n <= q.Waiting()
    requires forall j: nat | m <= j < n :: Fed(q, j, io).0.fifo != []
    requires Fed(q, n, io).0.fifo == [] || n == q.Waiting()
    ensures StopAt(q, m, io) == n
    decreases n - m
  {
    hide Fed, Vq.Ok;
    if m < n { StopsAt(q, m + 1, n, io); }
  }

  /** Delivery depends on the waiting entries and the table, not on the used ring. */
  lemma DeliverSame(q: Vq, r: Vq, io: Io)
    requires q.Ok() && r.Ok() && SameQueue(q, r) && q.lastAvail == r.lastAvail && |io.ram| <= RAM_LIMIT
    ensures Deliver(r, io) == Deliver(q, io)
  {
    hide Fed, Vq.Ok, InRam;
    if q.Serviceable(|io.ram|) {
      StopSame(q, r, 0, io);
      FedSame(q, r, StopAt(q, 0, io), io);
    }
  }

  lemma {:induction false} StopSame(q: Vq, r: Vq, n: nat, io: Io)
    requires q.Ok() && r.Ok() && SameQueue(q, r) && q.lastAvail == r.lastAvail && |io.ram| <= RAM_LIMIT
    requires q.num != 0 && n <= q.Waiting()
    ensures StopAt(r, n, io) == StopAt(q, n, io)
    decreases q.Waiting() - n
  {
    hide Fed, Vq.Ok;
    FedSame(q, r, n, io);
    if n < q.Waiting() { StopSame(q, r, n + 1, io); }
  }

  lemma FedSame(q: Vq, r: Vq, n: nat, io: Io)
    requires q.Ok() && r.Ok() && SameQueue(q, r) && q.lastAvail == r.lastAvail && |io.ram| <= RAM_LIMIT && q.num != 0
    ensures Fed(r, n, io) == Fed(q, n, io)
  {
    hide Serve, Vq.Ok;
    OkUsed(q);
    SameHeads(q, r, n);
    ServeSame(Console, q, r, q.Heads(n), io, UNUSED);
  }

  lemma {:induction false} SameHeads(q: Vq, r: Vq, n: nat)
    requires SameQueue(q, r) && q.lastAvail == r.lastAvail && q.num != 0 && |q.avail| == q.num
    ensures r.Heads(n) == q.Heads(n)
  {
    hide Plus;
    if n > 0 { SameHeads(q, r, n - 1); }
  }

  // ------------------------------------------------------------ the transmit queue

  /**
   What transmitting did: memory and echo buffer, the bytes sent, whether some push found the
   buffer full, and per queue the completions; `took` counts the receive chains.
  */
  datatype Transmission =
    Transmission(io: Io, sent: seq<Byte>, lost: bool, took: nat, delivered: seq<Used>, done: seq<Used>)

  /** The queue t entries further on. */
  function Later(q: Vq, t: nat): (p: Vq)
    ensures SameQueue(q, p) && (q.Ok() ==> p.Ok()) && p.lastAvail == Plus(q.lastAvail, t)
  {
    q.(lastAvail := Plus(q.lastAvail, t))
  }

  /** Sending `bytes` echoes them, and serves the receive queue, of which c.took chains are gone. */
  ghost function Send(q0: Vq, c: Transmission, head: nat, bytes: seq<Byte>): (r: Transmission)
    requires q0.Ok() && |c.io.ram| <= RAM_LIMIT
    ensures |r.io.ram| == |c.io.ram|
  {
    var pushed := c.io.(fifo := Ring.PushedAll(c.io.fifo, CON_IN_SZ, bytes));
    var (io, k, es) := Deliver(Later(q0, c.took), pushed);
    Transmission(io, c.sent + bytes, c.lost || |c.io.fifo| + |bytes| > CON_IN_SZ,
                 c.took + k, c.delivered + es, c.done + [Used(head, 0)])
  }

  /** Transmitting the first n waiting chains of q1, each echoed and delivered to q0 at once. */
  ghost function Transmitted(q0: Vq, q1: Vq, n: nat, start: Io): (r: Transmission)
    requires q0.Ok() && q1.Ok() && q1.num != 0 && |start.ram| <= RAM_LIMIT
    ensures |r.io.ram| == |start.ram|
  {
    if n == 0 then Transmission(start, [], false, 0, [], [])
    else
      OkUsed(q1);
      var c := Transmitted(q0, q1, n - 1, start);
      var head := q1.HeadAt(n - 1);
      if q1.Gathers(|start.ram|, head) then
        ChainInRam(q1, c.io.ram, head);
        Send(q0, c, head, Flat(c.io.ram, ChainOf(q1, |start.ram|, head)))
      else c
  }

  /** Sending `bytes` from one request: they join the echo buffer, and n receive chains are served. */
  ghost predicate Echoed(q: Vq, n: nat, before: Io, after: Io, bytes: seq<Byte>, lost: bool, lost': bool, es: seq<Used>) {
    && q.Ok() && |before.ram| <= RAM_LIMIT
    && lost' == (lost || |before.fifo| + |bytes| > CON_IN_SZ)
    && (after, n, es) == Deliver(q, before.(fifo := Ring.PushedAll(before.fifo, CON_IN_SZ, bytes)))
  }

  /** Taking one entry of the transmit queue, while n entries of the receive queue are taken. */
  ghost predicate OneEcho(q0: Vq, q1: Vq, before: Io, after: Io, sent: seq<Byte>, sent': seq<Byte>,
                          lost: bool, lost': bool, n: nat, es0: seq<Used>, es1: seq<Used>)
  {
    && q1.Ok() && q1.num != 0 && |before.ram| <= RAM_LIMIT
    && var head := q1.HeadAt(0);
       if q1.Gathers(|before.ram|, head) then
         ChainInRam(q1, before.ram, head);
         var bytes := Flat(before.ram, ChainOf(q1, |before.ram|, head));
         sent' == sent + bytes && es1 == [Used(head, 0)] && Echoed(q0, n, before, after, bytes, lost, lost', es0)
       else after == before && sent' == sent && lost' == lost && n == 0 && es0 == [] && es1 == []
  }

  /** Taking n entries of the transmit queue q1 did all that, on top of what was sent and lost before. */
  ghost predicate Echoes(q0: Vq, q1: Vq, n: nat, before: Io, after: Io, sent: seq<Byte>, sent': seq<Byte>,
                         lost: bool, lost': bool, k: nat, es0: seq<Used>, es1: seq<Used>)
  {
    if n == 0 then after == before && sent' == sent && lost' == lost && k == 0 && es0 == [] && es1 == []
    else
      && q0.Ok() && q1.Ok() && q1.num != 0 && |before.ram| <= RAM_LIMIT
      && var c := Transmitted(q0, q1, n, before);
         c == Transmission(after, c.sent, c.lost, k, es0, es1) && sent' == sent + c.sent && lost' == (lost || c.lost)
  }

  /** The effect of a turn composes with that of the turns before it, on both queues. */
  lemma EchoesNext(q0: Vq, q1: Vq, p0: Vq, p1: Vq, n: nat, a: Io, b: Io, c: Io,
                   s: seq<Byte>, t: seq<Byte>, u: seq<Byte>, l: bool, m: bool, o: bool,
                   j: nat, es0: seq<Used>, es1: seq<Used>, k: nat, fs0: seq<Used>, fs1: seq<Used>)
    requires q0.Ok() && q1.Ok() && p0.Ok() && p1.Ok() && |a.ram| == |b.ram|
    requires SameQueue(q0, p0) && p0.lastAvail == Plus(q0.lastAvail, j)
    requires SameQueue(q1, p1) && p1.lastAvail == Plus(q1.lastAvail, n)
    requires Echoes(q0, q1, n, a, b, s, t, l, m, j, es0, es1) && OneEcho(p0, p1, b, c, t, u, m, o, k, fs0, fs1)
    ensures Echoes(q0, q1, n + 1, a, c, s, u, l, o, j + k, es0 + fs0, es1 + fs1)
  {
    hide Complete, InRam, Vq.Ok, Flat, Deliver, Ring.PushedAll, Plus, Vq.Heads;
    OkUsed(q1);
    NextHead(q1, p1, n);
    var head := p1.HeadAt(0);
    var before := Transmitted(q0, q1, n, a);
    assert before.io == b && t == s + before.sent;
    if p1.Gathers(|b.ram|, head) {
      SameChainOf(q1, p1, |b.ram|, head);
      ChainInRam(p1, b.ram, head);
      var bytes := Flat(b.ram, ChainOf(p1, |b.ram|, head));
      LaterSame(q0, p0, j, b.(fifo := Ring.PushedAll(b.fifo, CON_IN_SZ, bytes)));
      Regroup(s, before.sent, bytes);
      assert Transmitted(q0, q1, n + 1, a) == Send(q0, before, head, bytes);
    } else {
      assert Transmitted(q0, q1, n + 1, a) == before;
      assert es0 + [] == es0 && es1 + [] == es1;
    }
  }

  lemma LaterSame(q: Vq, p: Vq, t: nat, io: Io)
    requires q.Ok() && p.Ok() && SameQueue(q, p) && p.lastAvail == Plus(q.lastAvail, t) && |io.ram| <= RAM_LIMIT
    ensures Deliver(p, io) == Deliver(Later(q, t), io)
  {
    hide Deliver;
    DeliverSame(p, Later(q, t), io);
  }

  lemma SameChainOf(q: Vq, p: Vq, memSize: nat, head: nat)
    requires SameQueue(q, p) && p.Gathers(memSize, head)
    ensures q.Gathers(memSize, head) && ChainOf(p, memSize, head) == ChainOf(q, memSize, head)
  {
    assert Complete(q.dt, memSize, head);
  }

  // ------------------------------------------------- either queue of either device

  /**
   What a call of service_vq on queue qi did to memory, file, echo buffer and output, having
   taken took[j] entries and pushed pushed[j] on each queue j.
  */
  ghost predicate Effect(id: DeviceId, qi: nat, q: seq<Vq>, took: seq<nat>, pushed: seq<seq<Used>>, before: Io, after: Io,
                         sent: seq<Byte>, sent': seq<Byte>, lost: bool, lost': bool, stacks: Stacks)
  {
    && qi < |q| == |took| == |pushed|
    && if qi == 0 then sent' == sent && lost' == lost && ServedBy(id, q[0], took[0], before, after, pushed[0], stacks)
       else qi == 1 && Echoes(q[0], q[1], took[1], before, after, sent, sent', lost, lost', took[0], pushed[0], pushed[1])
  }

  /** The same of one entry, whose own completion is es. */
  ghost predicate OneEffect(id: DeviceId, qi: nat, q: seq<Vq>, took: seq<nat>, pushed: seq<seq<Used>>, es: seq<Used>,
                            before: Io, after: Io, sent: seq<Byte>, sent': seq<Byte>, lost: bool, lost': bool,
                            stack: Blk.Stack)
  {
    && qi < |q| == |took| == |pushed|
    && if qi == 0 then sent' == sent && lost' == lost && ServedOne(id, q[0], before, after, es, stack)
       else qi == 1 && OneEcho(q[0], q[1], before, after, sent, sent', lost, lost', took[0], pushed[0], es)
  }


  lemma NoEffect(id: DeviceId, qi: nat, q: seq<Vq>, io: Io, sent: seq<Byte>, lost: bool, stacks: Stacks)
    requires qi < |q| <= 2
    ensures Effect(id, qi, q, Zeros(|q|), Nothing(|q|), io, io, sent, sent, lost, lost, stacks)
  {}

  lemma EffectNext(id: DeviceId, qi: nat, q: seq<Vq>, r: seq<Vq>, memSize: nat,
                   m: seq<nat>, es: seq<seq<Used>>, n: seq<nat>, fs: seq<seq<Used>>, a: Io, b: Io, c: Io,
                   s: seq<Byte>, t: seq<Byte>, u: seq<Byte>, l: bool, k: bool, o: bool, stacks: Stacks)
    requires (forall j | 0 <= j < |q| :: q[j].Ok()) && forall j | 0 <= j < |r| :: r[j].Ok()
    requires Progress(q, r, memSize, m, es) && |n| == |fs| == |q| && qi < |q| && n[qi] == 1 && |a.ram| == |b.ram|
    requires Effect(id, qi, q, m, es, a, b, s, t, l, k, stacks)
    requires OneEffect(id, qi, r, n, fs, fs[qi], b, c, t, u, k, o, stacks(m[qi]))
    ensures Effect(id, qi, q, Sum(m, n), Joined(es, fs), a, c, s, u, l, o, stacks)
  {
    hide Advanced, Vq.Ok, Echoes, OneEcho, ServedBy, ServedOne, Plus;
    ProgressGet(q, r, memSize, m, es, qi);
    ProgressGet(q, r, memSize, m, es, 0);
    AdvancedKeeps(q[qi], r[qi], memSize, m[qi], es[qi]);
    AdvancedKeeps(q[0], r[0], memSize, m[0], es[0]);
    if qi == 0 {
      ServedNext(id, q[0], r[0], m[0], a, b, c, es[0], fs[0], stacks);
    } else {
      EchoesNext(q[0], q[1], r[0], r[1], m[1], a, b, c, s, t, u, l, k, o, m[0], es[0], es[1], n[0], fs[0], fs[1]);
    }
  }
}
