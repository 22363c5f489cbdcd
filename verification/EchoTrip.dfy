/**
 The echo from end to end: if the guest's waiting buffers do not overlap and what it transmits
 fits beside what is pending, then what it reads back from its receive buffers, followed by
 what is still pending, is what was pending followed by what it transmitted.
*/
module EchoTrip {
  import opened Descriptors
  import opened ScatterGather
  import opened Service
  import opened Virtqueue
  import opened Echo
  import Blk
  import Ring

  // --------------------------------------------------------------- the buffers

  ghost predicate ChainsApart(p: Vq, g: nat, q: Vq, h: nat, memSize: nat) {
    p.Gathers(memSize, g) && q.Gathers(memSize, h) ==>
      forall s, t | s in ChainOf(p, memSize, g) && t in ChainOf(q, memSize, h) :: Apart(s, t)
  }

  /** No waiting buffer of q0 overlaps one of q1. */
  ghost predicate BuffersApart(q0: Vq, q1: Vq, memSize: nat)
    requires q0.num != 0 && q1.num != 0 && |q0.avail| == q0.num && |q1.avail| == q1.num
  {
    forall j: nat, k: nat | j < q0.Waiting() && k < q1.Waiting() ::
      ChainsApart(q0, q0.HeadAt(j), q1, q1.HeadAt(k), memSize)
  }

  ghost predicate ChainDisjoint(q: Vq, memSize: nat, head: nat) {
    q.Gathers(memSize, head) ==> Disjoint(ChainOf(q, memSize, head))
  }

  /** No two waiting buffers of q overlap. */
  ghost predicate OwnApart(q: Vq, memSize: nat)
    requires q.num != 0 && |q.avail| == q.num
  {
    && (forall j: nat | j < q.Waiting() :: ChainDisjoint(q, memSize, q.HeadAt(j)))
    && forall i: nat, j: nat | i < j < q.Waiting() :: ChainsApart(q, q.HeadAt(i), q, q.HeadAt(j), memSize)
  }

  /** The buffers of a head hold what they held. */
  ghost predicate SameChain(q: Vq, head: nat, ram: Ram, after: Ram)
    requires q.Ok() && |after| == |ram| <= RAM_LIMIT
  {
    if q.Gathers(|ram|, head) then
      ChainInRam(q, ram, head);
      ChainInRam(q, after, head);
      Flat(after, ChainOf(q, |ram|, head)) == Flat(ram, ChainOf(q, |ram|, head))
    else true
  }

  lemma {:induction false} FlatSame(ram: Ram, after: Ram, segs: seq<Seg>)
    requires Within(ram, segs) && |after| == |ram|
    requires forall s | s in segs :: after[s.addr..s.addr + s.len] == ram[s.addr..s.addr + s.len]
    ensures Flat(after, segs) == Flat(ram, segs)
  {
    if segs != [] {
      assert segs[0] in segs;
      FlatSame(ram, after, segs[1..]);
      FlatStep(ram, segs);
      FlatStep(after, segs);
      hide Flat;
    }
  }

  /** Serving one receive chain leaves the chains apart from it alone. */
  lemma ServeHeadFrame(q: Vq, g: nat, p: Vq, h: nat, io: Io, stack: Blk.Stack)
    requires q.Ok() && p.Ok() && |io.ram| <= RAM_LIMIT
    requires ChainsApart(q, g, p, h, |io.ram|) || ChainsApart(p, h, q, g, |io.ram|)
    ensures SameChain(p, h, io.ram, ServeHead(Console, q, g, io, stack).0.ram)
  {
    hide Complete, InRam, Vq.Ok, Flat, Scatter;
    if q.Gathers(|io.ram|, g) && p.Gathers(|io.ram|, h) {
      var (mine, other) := (ChainOf(q, |io.ram|, g), ChainOf(p, |io.ram|, h));
      ChainInRam(q, io.ram, g);
      ChainInRam(p, io.ram, h);
      var after := Scatter(io.ram, mine, io.fifo);
      forall s | s in other
        ensures after[s.addr..s.addr + s.len] == io.ram[s.addr..s.addr + s.len]
      {
        assert forall t | t in mine :: Apart(s, t);
        ScatterFrame(io.ram, mine, io.fifo, s);
      }
      FlatSame(io.ram, after, other);
    }
  }

  // --------------------------------------------------------- the receive queue

  /** What a completion says was received into the chain of its head. */
  ghost function Part(q: Vq, ram: Ram, e: Used): seq<Byte>
    requires q.Ok() && |ram| <= RAM_LIMIT
  {
    if q.Gathers(|ram|, e.id) then
      ChainInRam(q, ram, e.id);
      var bytes := Flat(ram, ChainOf(q, |ram|, e.id));
      bytes[..Min(e.len, |bytes|)]
    else []
  }

  /** What the guest reads back: the received bytes of each completion, in order. */
  ghost function Received(q: Vq, ram: Ram, es: seq<Used>): seq<Byte>
    requires q.Ok() && |ram| <= RAM_LIMIT
  {
    if es == [] then [] else Received(q, ram, es[..|es| - 1]) + Part(q, ram, es[|es| - 1])
  }

  lemma {:induction false} ReceivedSame(q: Vq, ram: Ram, after: Ram, es: seq<Used>)
    requires q.Ok() && |after| == |ram| <= RAM_LIMIT
    requires forall e | e in es :: SameChain(q, e.id, ram, after)
    ensures Received(q, after, es) == Received(q, ram, es)
  {
    hide Complete, InRam, Vq.Ok, Flat;
    if es != [] {
      assert es[|es| - 1] in es;
      ReceivedSame(q, ram, after, es[..|es| - 1]);
    }
  }

  /**
   After the first t receive chains, with completions es: what was received, and then what is
   pending, is `all`.
  */
  ghost predicate Trip(q: Vq, t: nat, io: Io, es: seq<Used>, all: seq<Byte>)
    requires q.Ok() && q.num != 0 && |io.ram| <= RAM_LIMIT
  {
    OkUsed(q);
    (forall e | e in es :: e.id in q.Heads(t)) && Received(q, io.ram, es) + io.fifo == all
  }

  /** Serving the next receive chain moves bytes from the buffer to what was received. */
  lemma HeadTrip(q: Vq, t: nat, io: Io, es: seq<Used>, all: seq<Byte>, stack: Blk.Stack)
    requires q.Ok() && q.num != 0 && |q.avail| == q.num && |io.ram| <= RAM_LIMIT
    requires OwnApart(q, |io.ram|) && t < q.Waiting() && Trip(q, t, io, es, all)
    ensures var (after, one) := ServeHead(Console, q, q.HeadAt(t), io, stack); Trip(q, t + 1, after, es + one, all)
  {
    hide ServeHead, Complete, InRam, Vq.Ok, Received;
    var head := q.HeadAt(t);
    var (after, one) := ServeHead(Console, q, head, io, stack);
    forall e | e in es
      ensures SameChain(q, e.id, io.ram, after.ram)
    {
      var j := PlaceOf(q, t, e.id);
      ServeHeadFrame(q, head, q, e.id, io, stack);
    }
    ReceivedSame(q, io.ram, after.ram, es);
    ServedPart(q, head, io, stack);
    ReceivedMore(q, after.ram, es, one);
    if one != [] {
      Regroup(Received(q, io.ram, es), Part(q, after.ram, one[0]), after.fifo);
    }
  }

  lemma {:induction false} PlaceOf(q: Vq, t: nat, h: nat) returns (j: nat)
    requires q.num != 0 && |q.avail| == q.num && h in q.Heads(t)
    ensures j < t && q.HeadAt(j) == h
  {
    hide Plus;
    if h == q.HeadAt(t - 1) { j := t - 1; } else { j := PlaceOf(q, t - 1, h); }
  }

  lemma ReceivedMore(q: Vq, ram: Ram, es: seq<Used>, one: seq<Used>)
    requires q.Ok() && |ram| <= RAM_LIMIT && |one| <= 1
    ensures Received(q, ram, es + one) == Received(q, ram, es) + if one == [] then [] else Part(q, ram, one[0])
  {
    hide Complete, InRam, Vq.Ok, Part;
    if one == [] {
      assert es + one == es;
    } else {
      assert (es + one)[..|es|] == es;
    }
  }

  /** The oldest pending bytes are what the completion of a served chain reads back. */
  lemma ServedPart(q: Vq, head: nat, io: Io, stack: Blk.Stack)
    requires q.Ok() && |io.ram| <= RAM_LIMIT && ChainDisjoint(q, |io.ram|, head)
    ensures var (after, one) := ServeHead(Console, q, head, io, stack);
      && |one| <= 1 && (forall e | e in one :: e.id == head)
      && io.fifo == (if one == [] then [] else Part(q, after.ram, one[0])) + after.fifo
  {
    hide Complete, InRam, Vq.Ok, Flat, Scatter, Total;
    if q.Gathers(|io.ram|, head) {
      var segs := ChainOf(q, |io.ram|, head);
      ChainInRam(q, io.ram, head);
      var n := Min(Total(segs), |io.fifo|);
      ScatterPrefix(io.ram, segs, io.fifo);
      ScatterReadsBack(io.ram, segs, io.fifo[..n]);
    }
  }

  /** Only the bytes that have room are stored. */
  lemma {:induction false} ScatterPrefix(ram: Ram, segs: seq<Seg>, data: seq<Byte>)
    requires Within(ram, segs)
    ensures Scatter(ram, segs, data) == Scatter(ram, segs, data[..Min(Total(segs), |data|)])
    decreases segs
  {
    hide Store;
    if segs != [] {
      var (all, n) := (Min(Total(segs), |data|), Min(segs[0].len, |data|));
      ScatterPrefix(Store(ram, segs[0].addr, data[..n]), segs[1..], data[n..]);
      assert data[..all][..n] == data[..n] && data[..all][n..] == data[n..][..all - n];
    }
  }

  /** So it is for any number of chains served, from the t-th on. */
  lemma {:induction false} FedTrip(q: Vq, t: nat, n: nat, io: Io, es: seq<Used>, all: seq<Byte>)
    requires q.Ok() && q.num != 0 && |q.avail| == q.num && |io.ram| <= RAM_LIMIT
    requires OwnApart(q, |io.ram|) && t + n <= q.Waiting() && Trip(q, t, io, es, all)
    ensures var (after, fs) := Fed(Later(q, t), n, io); Trip(q, t + n, after, es + fs, all)
  {
    hide Trip, OwnApart, ServeHead, Vq.Ok, Serve, Plus;
    if n == 0 {
      NoneServed(Console, Later(q, t), io, UNUSED);
      assert es + [] == es;
    } else {
      FedTrip(q, t, n - 1, io, es, all);
      FedNext(q, t, n - 1, io);
      var (before, fs) := Fed(Later(q, t), n - 1, io);
      HeadTrip(q, t + n - 1, before, es + fs, all, UNUSED(n - 1));
      Regroup(es, fs, ServeHead(Console, q, q.HeadAt(t + n - 1), before, UNUSED(n - 1)).1);
    }
  }

  /** Serving one more receive chain. */
  lemma FedNext(q: Vq, t: nat, n: nat, io: Io)
    requires q.Ok() && q.num != 0 && |q.avail| == q.num && |io.ram| <= RAM_LIMIT
    ensures var (before, es) := Fed(Later(q, t), n, io);
      var (after, one) := ServeHead(Console, q, q.HeadAt(t + n), before, UNUSED(n));
      Fed(Later(q, t), n + 1, io) == (after, es + one)
  {
    hide ServeHead, Vq.Ok, Serve, Later, Plus;
    var (p, r) := (Later(q, t), Later(Later(q, t), n));
    OkUsed(p);
    PlusPlus(q.lastAvail, t, n);
    NextHead(q, r, t + n);
    ServeNext(Console, p, r, n, io, UNUSED);
    ServeHeadSame(Console, q, r, q.HeadAt(t + n), Fed(p, n, io).0, UNUSED(n));
  }

  /** Nor does it touch the waiting chains of a queue apart. */
  lemma {:induction false} FedFrame(q0: Vq, q1: Vq, t: nat, n: nat, io: Io, k: nat)
    requires q0.Ok() && q1.Ok() && |io.ram| <= RAM_LIMIT && q0.num != 0 && q1.num != 0
    requires |q0.avail| == q0.num && |q1.avail| == q1.num
    requires BuffersApart(q0, q1, |io.ram|) && t + n <= q0.Waiting() && k < q1.Waiting()
    ensures SameChain(q1, q1.HeadAt(k), io.ram, Fed(Later(q0, t), n, io).0.ram)
  {
    hide ServeHead, Vq.Ok, Serve, Plus, Complete, InRam, Flat, ChainsApart;
    if n == 0 {
      NoneServed(Console, Later(q0, t), io, UNUSED);
    } else {
      FedFrame(q0, q1, t, n - 1, io, k);
      FedNext(q0, t, n - 1, io);
      var before := Fed(Later(q0, t), n - 1, io).0;
      ServeHeadFrame(q0, q0.HeadAt(t + (n - 1)), q1, q1.HeadAt(k), before, UNUSED(n - 1));
    }
  }

  // -------------------------------------------------------- the transmit queue

  /** The bytes of the first n waiting chains that gather, in order. */
  ghost function SentBytes(q: Vq, ram: Ram, n: nat): seq<Byte>
    requires q.Ok() && q.num != 0 && |ram| <= RAM_LIMIT
  {
    if n == 0 then []
    else
      OkUsed(q);
      var head := q.HeadAt(n - 1);
      SentBytes(q, ram, n - 1) +
      if q.Gathers(|ram|, head) then
        ChainInRam(q, ram, head);
        Flat(ram, ChainOf(q, |ram|, head))
      else []
  }

  /** The losses of any number of transmit chains, and how much is pending without one. */
  lemma {:induction false} TransmittedFits(q0: Vq, q1: Vq, n: nat, start: Io)
    requires q0.Ok() && q1.Ok() && q1.num != 0 && |start.ram| <= RAM_LIMIT
    ensures var c := Transmitted(q0, q1, n, start);
      && c.took <= q0.Waiting()
      && (c.lost ==> |start.fifo| + |c.sent| > CON_IN_SZ)
      && (!c.lost ==> |c.io.fifo| <= |start.fifo| + |c.sent|)
  {
    hide Vq.Ok, Complete, InRam, Flat, Deliver, Plus, Send;
    if n > 0 {
      OkUsed(q1);
      TransmittedFits(q0, q1, n - 1, start);
      var c := Transmitted(q0, q1, n - 1, start);
      var head := q1.HeadAt(n - 1);
      if q1.Gathers(|start.ram|, head) {
        ChainInRam(q1, c.io.ram, head);
        SendFits(q0, c, head, Flat(c.io.ram, ChainOf(q1, |start.ram|, head)));
      }
    }
  }

  lemma SendFits(q0: Vq, c: Transmission, head: nat, bytes: seq<Byte>)
    requires q0.Ok() && |c.io.ram| <= RAM_LIMIT && c.took <= q0.Waiting()
    ensures var r := Send(q0, c, head, bytes);
      && r.took <= q0.Waiting() && r.sent == c.sent + bytes && (c.lost ==> r.lost)
      && (r.lost ==> c.lost || |c.io.fifo| + |bytes| > CON_IN_SZ)
      && (!r.lost ==> |r.io.fifo| <= |c.io.fifo| + |bytes|)
  {
    hide Vq.Ok, Vq.AvailMapped, Ring.PushedAll, Fed, StopAt;
    var p := Later(q0, c.took);
    WaitingLess(q0, p, c.took);
    if |c.io.fifo| + |bytes| <= CON_IN_SZ { Ring.PushedAllFits(c.io.fifo, CON_IN_SZ, bytes); }
    var pushed := c.io.(fifo := Ring.PushedAll(c.io.fifo, CON_IN_SZ, bytes));
    if p.Serviceable(|c.io.ram|) { FedShrinks(p, StopAt(p, 0, pushed), pushed); }
  }

  lemma FedShrinks(q: Vq, n: nat, io: Io)
    requires q.Ok() && q.num != 0 && |io.ram| <= RAM_LIMIT
    ensures |Fed(q, n, io).0.fifo| <= |io.fifo|
  {
    OkUsed(q);
    ServeShrinks(q, q.Heads(n), io);
  }

  /** Serving receive chains never lengthens the echo buffer. */
  lemma {:induction false} ServeShrinks(q: Vq, heads: seq<nat>, io: Io)
    requires q.Ok() && |io.ram| <= RAM_LIMIT
    ensures |Serve(Console, q, heads, io, UNUSED).0.fifo| <= |io.fifo|
    decreases heads
  {
    hide Complete, InRam, Vq.Ok;
    if heads != [] { ServeShrinks(q, heads[..|heads| - 1], io); }
  }

  /** If no waiting buffers of the two queues overlap, chains are sent as they were at the start. */
  lemma {:induction false} TransmittedAsWere(q0: Vq, q1: Vq, n: nat, start: Io)
    requires q0.Ok() && q1.Ok() && q0.num != 0 && q1.num != 0 && |start.ram| <= RAM_LIMIT
    requires |q0.avail| == q0.num && |q1.avail| == q1.num
    requires BuffersApart(q0, q1, |start.ram|) && n <= q1.Waiting()
    ensures var c := Transmitted(q0, q1, n, start);
      && c.sent == SentBytes(q1, start.ram, n)
      && forall k: nat | k < q1.Waiting() :: SameChain(q1, q1.HeadAt(k), start.ram, c.io.ram)
  {
    hide Vq.Ok, Complete, InRam, Flat, Send, BuffersApart, SameChain;
    if n == 0 {
      forall k: nat | k < q1.Waiting()
        ensures SameChain(q1, q1.HeadAt(k), start.ram, start.ram)
      {
        SameSelf(q1, q1.HeadAt(k), start.ram);
      }
    } else {
      TransmittedAsWere(q0, q1, n - 1, start);
      TransmittedFits(q0, q1, n - 1, start);
      var c := Transmitted(q0, q1, n - 1, start);
      var head := q1.HeadAt(n - 1);
      if q1.Gathers(|start.ram|, head) {
        ChainInRam(q1, c.io.ram, head);
        SameFlat(q1, head, start.ram, c.io.ram);
        SendAsWere(q0, q1, c, start.ram, head, Flat(c.io.ram, ChainOf(q1, |start.ram|, head)));
      }
    }
  }

  lemma SameSelf(q: Vq, head: nat, ram: Ram)
    requires q.Ok() && |ram| <= RAM_LIMIT
    ensures SameChain(q, head, ram, ram)
  {}

  lemma SameFlat(q: Vq, head: nat, ram: Ram, after: Ram)
    requires q.Ok() && |after| == |ram| <= RAM_LIMIT && q.Gathers(|ram|, head) && SameChain(q, head, ram, after)
    ensures Within(ram, ChainOf(q, |ram|, head)) && Within(after, ChainOf(q, |ram|, head))
    ensures Flat(after, ChainOf(q, |ram|, head)) == Flat(ram, ChainOf(q, |ram|, head))
  {
    hide Complete, InRam, Flat, Vq.Ok;
    ChainInRam(q, ram, head);
    ChainInRam(q, after, head);
  }

  lemma SameTransitive(q: Vq, head: nat, a: Ram, b: Ram, c: Ram)
    requires q.Ok() && |a| == |b| == |c| <= RAM_LIMIT && SameChain(q, head, a, b) && SameChain(q, head, b, c)
    ensures SameChain(q, head, a, c)
  {
    hide Complete, InRam, Flat, Vq.Ok;
  }

  lemma SendAsWere(q0: Vq, q1: Vq, c: Transmission, start: Ram, head: nat, bytes: seq<Byte>)
    requires q0.Ok() && q1.Ok() && q0.num != 0 && q1.num != 0 && |c.io.ram| == |start| <= RAM_LIMIT
    requires |q0.avail| == q0.num && |q1.avail| == q1.num
    requires BuffersApart(q0, q1, |start|) && c.took <= q0.Waiting()
    requires forall k: nat | k < q1.Waiting() :: SameChain(q1, q1.HeadAt(k), start, c.io.ram)
    ensures var r := Send(q0, c, head, bytes);
      && r.sent == c.sent + bytes
      && forall k: nat | k < q1.Waiting() :: SameChain(q1, q1.HeadAt(k), start, r.io.ram)
  {
    hide Vq.Ok, Vq.AvailMapped, Ring.PushedAll, Fed, StopAt, BuffersApart, SameChain, Plus;
    var p := Later(q0, c.took);
    WaitingLess(q0, p, c.took);
    var r := Send(q0, c, head, bytes);
    var pushed := c.io.(fifo := Ring.PushedAll(c.io.fifo, CON_IN_SZ, bytes));
    forall k: nat | k < q1.Waiting()
      ensures SameChain(q1, q1.HeadAt(k), start, r.io.ram)
    {
      if p.Serviceable(|start|) {
        FedFrame(q0, q1, c.took, StopAt(p, 0, pushed), pushed, k);
        SameTransitive(q1, q1.HeadAt(k), start, c.io.ram, r.io.ram);
      }
    }
  }

  /**
   Without a loss, and if no receive buffers overlap: what was received, in order of completion,
   followed by what is pending, is what was pending followed by what was sent.
  */
  lemma {:induction false} TransmittedTrip(q0: Vq, q1: Vq, n: nat, start: Io)
    requires q0.Ok() && q1.Ok() && q0.num != 0 && q1.num != 0 && |start.ram| <= RAM_LIMIT
    requires |q0.avail| == q0.num && OwnApart(q0, |start.ram|) && !Transmitted(q0, q1, n, start).lost
    ensures var c := Transmitted(q0, q1, n, start); Trip(q0, c.took, c.io, c.delivered, start.fifo + c.sent)
  {
    hide Vq.Ok, Complete, InRam, Flat, Send, OwnApart, Trip;
    if n == 0 {
      NoTrip(q0, start);
    } else {
      OkUsed(q1);
      TransmittedFits(q0, q1, n - 1, start);
      var c := Transmitted(q0, q1, n - 1, start);
      var head := q1.HeadAt(n - 1);
      if q1.Gathers(|start.ram|, head) {
        ChainInRam(q1, c.io.ram, head);
        var bytes := Flat(c.io.ram, ChainOf(q1, |start.ram|, head));
        SendFits(q0, c, head, bytes);
        TransmittedTrip(q0, q1, n - 1, start);
        Regroup(start.fifo, c.sent, bytes);
        SendTrip(q0, c, head, bytes, start.fifo + c.sent);
      } else {
        TransmittedTrip(q0, q1, n - 1, start);
      }
    }
  }

  lemma NoTrip(q: Vq, io: Io)
    requires q.Ok() && q.num != 0 && |io.ram| <= RAM_LIMIT
    ensures Trip(q, 0, io, [], io.fifo + [])
  {}

  lemma SendTrip(q0: Vq, c: Transmission, head: nat, bytes: seq<Byte>, all: seq<Byte>)
    requires q0.Ok() && q0.num != 0 && |q0.avail| == q0.num && |c.io.ram| <= RAM_LIMIT
    requires OwnApart(q0, |c.io.ram|) && c.took <= q0.Waiting() && Trip(q0, c.took, c.io, c.delivered, all)
    requires !Send(q0, c, head, bytes).lost
    ensures var r := Send(q0, c, head, bytes); Trip(q0, r.took, r.io, r.delivered, all + bytes)
  {
    hide Vq.Ok, Vq.AvailMapped, Ring.PushedAll, Fed, StopAt, OwnApart, Trip, Plus;
    var p := Later(q0, c.took);
    WaitingLess(q0, p, c.took);
    Ring.PushedAllFits(c.io.fifo, CON_IN_SZ, bytes);
    var pushed := c.io.(fifo := Ring.PushedAll(c.io.fifo, CON_IN_SZ, bytes));
    MoreTrip(q0, c.took, c.io, c.delivered, all, bytes);
    if p.Serviceable(|c.io.ram|) {
      FedTrip(q0, c.took, StopAt(p, 0, pushed), pushed, c.delivered, all + bytes);
    } else {
      assert c.delivered + [] == c.delivered;
    }
  }

  lemma MoreTrip(q: Vq, t: nat, io: Io, es: seq<Used>, all: seq<Byte>, bytes: seq<Byte>)
    requires q.Ok() && q.num != 0 && |io.ram| <= RAM_LIMIT && Trip(q, t, io, es, all)
    ensures Trip(q, t, io.(fifo := io.fifo + bytes), es, all + bytes)
  {
    Regroup(Received(q, io.ram, es), io.fifo, bytes);
  }

  /**
   The echo is exact.  If no waiting buffers overlap, and the waiting chains fit beside what is
   pending, then after any number of transmit chains nothing was lost, the chains were sent as
   they were at the start, and the guest reads them back in order.
  */
  lemma EchoIsExact(q0: Vq, q1: Vq, n: nat, start: Io)
    requires q0.Ok() && q1.Ok() && q0.num != 0 && q1.num != 0 && |start.ram| <= RAM_LIMIT
    requires |q0.avail| == q0.num && |q1.avail| == q1.num && n <= q1.Waiting()
    requires BuffersApart(q0, q1, |start.ram|) && OwnApart(q0, |start.ram|)
    requires |start.fifo| + |SentBytes(q1, start.ram, n)| <= CON_IN_SZ
    ensures var c := Transmitted(q0, q1, n, start);
      && !c.lost && c.sent == SentBytes(q1, start.ram, n)
      && Received(q0, c.io.ram, c.delivered) + c.io.fifo == start.fifo + SentBytes(q1, start.ram, n)
  {
    hide Vq.Ok, Transmitted, Received, SentBytes, BuffersApart, OwnApart;
    TransmittedAsWere(q0, q1, n, start);
    TransmittedFits(q0, q1, n, start);
    TransmittedTrip(q0, q1, n, start);
  }

  /** The same of a call of service_vq on the transmit queue that took `took[1]` entries. */
  lemma CallIsExact(q: seq<Vq>, took: seq<nat>, pushed: seq<seq<Used>>, before: Io, after: Io,
                    sent: seq<Byte>, sent': seq<Byte>, lost: bool, lost': bool, stacks: Stacks)
    requires Effect(Console, 1, q, took, pushed, before, after, sent, sent', lost, lost', stacks)
    requires q[0].Ok() && q[1].Ok() && q[0].num != 0 && q[1].num != 0 && |before.ram| <= RAM_LIMIT
    requires |q[0].avail| == q[0].num && |q[1].avail| == q[1].num && took[1] <= q[1].Waiting()
    requires BuffersApart(q[0], q[1], |before.ram|) && OwnApart(q[0], |before.ram|)
    requires |before.fifo| + |SentBytes(q[1], before.ram, took[1])| <= CON_IN_SZ
    ensures |after.ram| == |before.ram| && lost' == lost && sent' == sent + SentBytes(q[1], before.ram, took[1])
    ensures Received(q[0], after.ram, pushed[0]) + after.fifo == before.fifo + SentBytes(q[1], before.ram, took[1])
  {
    hide Vq.Ok, Transmitted, BuffersApart, OwnApart, Part;
    EchoIsExact(q[0], q[1], took[1], before);
  }

  // ------------------------------------------------------------------ overflow

  /** A queue of one entry, whose chain is one buffer of one byte at address 0. */
  function OneByteQueue(): Vq {
    Vq(1, true, 16, 32, 48, 0, [Desc(0, 1, 0, 0)], 1, [0], 0, [Used(0, 0)])
  }

  /** No queue set up. */
  function NoQueue(): Vq { Vq(0, false, 0, 0, 0, 0, [], 0, [], 0, []) }

  /** 8192 zero bytes pending, and a 1 transmitted: a zero is gone, and the 1 will be read twice. */
  lemma OverflowShowsTwice(ram: Ram, file: seq<Byte>)
    requires |ram| == 64 && ram[0] == 1
    ensures NoQueue().Ok() && OneByteQueue().Ok() && OneByteQueue().Waiting() == 1
    ensures var zeros := seq(CON_IN_SZ, _ => 0 as Byte);
      var c := Transmitted(NoQueue(), OneByteQueue(), 1, Io(ram, file, zeros));
      c.lost && c.sent == [1] && c.io.fifo == [1] + zeros[1..] + [1]
  {
    hide Deliver, Ring.PushedAll, Flat, Complete, Vq.Ok, InRam;
    var (q0, q1, zeros) := (NoQueue(), OneByteQueue(), seq(CON_IN_SZ, _ => 0 as Byte));
    var start := Io(ram, file, zeros);
    QueuesOk();
    OneByteChain(ram);
    PushedOneMore(zeros, 1);
    NotServed(Later(q0, 0), start.(fifo := [1] + zeros[1..] + [1]));
    assert Transmitted(q0, q1, 0, start) == Transmission(start, [], false, 0, [], []);
    assert Transmitted(q0, q1, 1, start) == Send(q0, Transmitted(q0, q1, 0, start), 0, [1]);
  }

  lemma QueuesOk()
    ensures NoQueue().Ok() && OneByteQueue().Ok()
  {}

  lemma OneByteChain(ram: Ram)
    requires |ram| == 64 && ram[0] == 1
    ensures var q := OneByteQueue();
      && q.HeadAt(0) == 0 && q.Gathers(64, 0)
      && Within(ram, ChainOf(q, 64, 0)) && Flat(ram, ChainOf(q, 64, 0)) == [1]
  {
    var q := OneByteQueue();
    assert EndsAt(q.dt, 64, 0, 0);
    IsComplete(q.dt, 64, 0, 0);
    assert Segs(q.dt, 0, 1) == [Seg(0, 1, false)];
    ChainIs(q, 64, 0, [Seg(0, 1, false)]);
    assert Flat(ram, [Seg(0, 1, false)]) == [1];
  }

  lemma PushedOneMore(q: seq<Byte>, b: Byte)
    requires 0 < |q| < Ring.WRAP - 1
    ensures Ring.PushedAll(q, |q|, [b]) == [b] + q[1..] + [b]
  {
    Ring.PushedOnFull(q, b);
    assert [b][..0] == [];
    hide Ring.Pushed;
    assert Ring.PushedAll(q, |q|, [b][..0]) == q;
  }

  lemma NotServed(q: Vq, io: Io)
    requires q.Ok() && !q.ready && |io.ram| <= RAM_LIMIT
    ensures Deliver(q, io) == (io, 0, [])
  {}
}
