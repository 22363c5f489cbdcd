/**
 What serving queue 0 does to guest RAM, the backing file and the echo buffer, as a function
 of the chains taken: block requests for the block device, echoed input for the console.
*/
module Service {
  import opened Descriptors
  import opened ScatterGather
  import opened Virtqueue
  import Blk

  /** What handlers read and write. */
  datatype Io = Io(ram: Ram, file: seq<Byte>, fifo: seq<Byte>)

  datatype DeviceId = Console | Block

  /** What the stack holds at each request of a call. */
  type Stacks = nat -> Blk.Stack

  /** The buffers of a complete chain, as many as gather_chain keeps. */
  ghost function ChainOf(q: Vq, memSize: nat, head: nat): seq<Seg>
    requires Complete(q.dt, memSize, head)
  {
    var k: nat :| EndsAt(q.dt, memSize, head, k);
    Segs(q.dt, head, Kept(k))
  }

  lemma ChainIs(q: Vq, memSize: nat, head: nat, segs: seq<Seg>)
    requires Complete(q.dt, memSize, head)
    requires forall k: nat | EndsAt(q.dt, memSize, head, k) :: segs == Segs(q.dt, head, Kept(k))
    ensures segs == ChainOf(q, memSize, head)
  {
  }

  lemma ChainInRam(q: Vq, ram: Ram, head: nat)
    requires q.Ok() && |ram| <= RAM_LIMIT && Complete(q.dt, |ram|, head)
    ensures Within(ram, ChainOf(q, |ram|, head))
  {
    var k: nat :| EndsAt(q.dt, |ram|, head, k) && ChainOf(q, |ram|, head) == Segs(q.dt, head, Kept(k));
    SegsInRam(q.dt, |ram|, head, Kept(k));
  }

  /**
   A block request writes its status byte to the last buffer kept.  That is the buffer of the
   chain's last descriptor exactly if the chain has at most 64 descriptors.
  */
  lemma StatusInLastBufferIff(q: Vq, memSize: nat, head: nat, k: nat)
    requires EndsAt(q.dt, memSize, head, k)
    ensures var segs := ChainOf(q, memSize, head);
      var last := Nth(q.dt, head, Kept(k) - 1);
      && last < |q.dt| && segs != [] && segs[|segs| - 1] == SegOf(q.dt[last])
      && (last == Nth(q.dt, head, k) <==> k + 1 <= MAX_SEGS)
  {
    IsComplete(q.dt, memSize, head, k);
    LastKeptIff(q.dt, memSize, head, k);
    assert ChainOf(q, memSize, head) == Segs(q.dt, head, Kept(k));
  }

  /** 65 descriptors in a row: the status byte goes to the 64th buffer. */
  lemma LongChainMisplacesStatus(q: Vq)
    requires q.dt == seq(65, i requires 0 <= i < 65 => Desc(i, 1, if i < 64 then 1 else 0, i + 1))
    ensures Complete(q.dt, 65, 0)
    ensures var segs := ChainOf(q, 65, 0); segs != [] && segs[|segs| - 1].addr == 63 && q.dt[64].addr == 64
  {
    forall i: nat | i <= 64
      ensures Nth(q.dt, 0, i) == i
    {
      InARow(q.dt, i);
    }
    assert EndsAt(q.dt, 65, 0, 64);
    StatusInLastBufferIff(q, 65, 0, 64);
  }

  lemma {:induction false} InARow(dt: seq<Desc>, i: nat)
    requires i <= |dt| && forall j | 0 <= j < i :: dt[j].next == j + 1
    ensures Nth(dt, 0, i) == i
  {
    if i > 0 { InARow(dt, i - 1); }
  }

  /** One chain of queue 0: the effect, and the used length. */
  function ServeChain(id: DeviceId, io: Io, segs: seq<Seg>, stack: Blk.Stack): (r: (Io, nat))
    requires Within(io.ram, segs)
    ensures |r.0.ram| == |io.ram|
  {
    if id == Block then
      var r := Blk.Handle(io.ram, io.file, segs, stack);
      (Io(r.ram, r.file, io.fifo), r.used)
    else
      var n := Min(Total(segs), |io.fifo|);
      (Io(Scatter(io.ram, segs, io.fifo), io.file, io.fifo[n..]), n)
  }

  /** The chain of one head, and its completion; one that does not gather is skipped. */
  ghost function ServeHead(id: DeviceId, q: Vq, head: nat, io: Io, stack: Blk.Stack): (r: (Io, seq<Used>))
    requires q.Ok() && |io.ram| <= RAM_LIMIT
    ensures |r.0.ram| == |io.ram|
  {
    if q.Gathers(|io.ram|, head) then
      ChainInRam(q, io.ram, head);
      var (after, used) := ServeChain(id, io, ChainOf(q, |io.ram|, head), stack);
      (after, [Used(head, used)])
    else (io, [])
  }

  /** The chains of the heads, in order. */
  ghost function Serve(id: DeviceId, q: Vq, heads: seq<nat>, io: Io, stacks: Stacks): (r: (Io, seq<Used>))
    requires q.Ok() && |io.ram| <= RAM_LIMIT
    ensures |r.0.ram| == |io.ram|
    decreases heads
  {
    if heads == [] then (io, [])
    else
      var n := |heads| - 1;
      var (before, es) := Serve(id, q, heads[..n], io, stacks);
      var (after, one) := ServeHead(id, q, heads[n], before, stacks(n));
      (after, es + one)
  }

  /** Progress leaves the table alone, so the same chain is served. */
  lemma ServeHeadSame(id: DeviceId, q: Vq, r: Vq, head: nat, io: Io, stack: Blk.Stack)
    requires q.Ok() && r.Ok() && SameQueue(q, r) && |io.ram| <= RAM_LIMIT
    ensures ServeHead(id, r, head, io, stack) == ServeHead(id, q, head, io, stack)
  {
    hide ServeChain, Complete, Vq.Ok, InRam;
    if q.Gathers(|io.ram|, head) {
      assert ChainOf(r, |io.ram|, head) == ChainOf(q, |io.ram|, head);
    }
  }

  lemma {:induction false} ServeSame(id: DeviceId, q: Vq, r: Vq, heads: seq<nat>, io: Io, stacks: Stacks)
    requires q.Ok() && r.Ok() && SameQueue(q, r) && |io.ram| <= RAM_LIMIT
    ensures Serve(id, r, heads, io, stacks) == Serve(id, q, heads, io, stacks)
    decreases heads
  {
    hide ServeHead, Vq.Ok;
    if heads != [] {
      var n := |heads| - 1;
      ServeSame(id, q, r, heads[..n], io, stacks);
      ServeHeadSame(id, q, r, heads[n], Serve(id, q, heads[..n], io, stacks).0, stacks(n));
    }
  }

  lemma NextHead(q: Vq, r: Vq, n: nat)
    requires q.num != 0 && |q.avail| == q.num && SameQueue(q, r) && r.lastAvail == Plus(q.lastAvail, n)
    ensures r.HeadAt(0) == q.HeadAt(n) && q.Heads(n + 1) == q.Heads(n) + [r.HeadAt(0)]
  {
    PlusPlus(q.lastAvail, n, 0);
  }

  /** Serving one more entry after n. */
  lemma ServeNext(id: DeviceId, q: Vq, r: Vq, n: nat, start: Io, stacks: Stacks)
    requires q.Ok() && r.Ok() && q.num != 0 && |start.ram| <= RAM_LIMIT
    requires SameQueue(q, r) && r.lastAvail == Plus(q.lastAvail, n) && |q.avail| == q.num
    ensures var (io, es) := Serve(id, q, q.Heads(n), start, stacks);
      var (after, one) := ServeHead(id, r, r.HeadAt(0), io, stacks(n));
      Serve(id, q, q.Heads(n + 1), start, stacks) == (after, es + one)
  {
    hide ServeHead, Vq.Ok, Plus;
    NextHead(q, r, n);
    assert q.Heads(n + 1)[..n] == q.Heads(n);
    ServeHeadSame(id, q, r, r.HeadAt(0), Serve(id, q, q.Heads(n), start, stacks).0, stacks(n));
  }

  /** dev_can_consume held at each of the first n entries: the console had input to deliver. */
  ghost predicate Consumed(id: DeviceId, q: Vq, n: nat, before: Io, stacks: Stacks)
    requires q.Ok() && q.num != 0 && |before.ram| <= RAM_LIMIT && |q.avail| == q.num
  {
    id == Console ==> forall j: nat | j < n :: Serve(id, q, q.Heads(j), before, stacks).0.fifo != []
  }

  /** Taking n entries of queue 0 turned `before` into `after` and pushed es. */
  ghost predicate ServedBy(id: DeviceId, q: Vq, n: nat, before: Io, after: Io, es: seq<Used>, stacks: Stacks) {
    if n == 0 then after == before && es == []
    else
      && q.Ok() && q.num != 0 && |before.ram| <= RAM_LIMIT
      && (after, es) == Serve(id, q, q.Heads(n), before, stacks)
      && Consumed(id, q, n, before, stacks)
  }

  /** Taking the next entry of queue 0. */
  ghost predicate ServedOne(id: DeviceId, q: Vq, before: Io, after: Io, es: seq<Used>, stack: Blk.Stack) {
    && q.Ok() && q.num != 0 && |before.ram| <= RAM_LIMIT
    && (id == Console ==> before.fifo != [])
    && (after, es) == ServeHead(id, q, q.HeadAt(0), before, stack)
  }

  lemma ServedNext(id: DeviceId, q: Vq, r: Vq, n: nat, a: Io, b: Io, c: Io, es: seq<Used>, fs: seq<Used>, stacks: Stacks)
    requires q.Ok() && r.Ok() && SameQueue(q, r) && r.lastAvail == Plus(q.lastAvail, n) && |a.ram| == |b.ram|
    requires ServedBy(id, q, n, a, b, es, stacks) && ServedOne(id, r, b, c, fs, stacks(n))
    ensures ServedBy(id, q, n + 1, a, c, es + fs, stacks)
  {
    hide ServeHead, Vq.Ok, Vq.Heads, Plus;
    OkUsed(q);
    NoneServed(id, q, a, stacks);
    ServeNext(id, q, r, n, a, stacks);
    hide Serve;
  }

  lemma NoneServed(id: DeviceId, q: Vq, io: Io, stacks: Stacks)
    requires q.Ok() && q.num != 0 && |q.avail| == q.num && |io.ram| <= RAM_LIMIT
    ensures Serve(id, q, q.Heads(0), io, stacks) == (io, [])
  {}
}
