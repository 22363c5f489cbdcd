/**
 The virtio device of minivmm.c: service_vq, the console with its echo buffer and its
 re-entrant call, and the block backend, over guest RAM that they update in place.

 Guest rings, the descriptor table and data buffers are taken to be disjoint, so the rings
 are kept in `vq` and the buffers in `ram`.
*/
module VirtioDev {
  import opened Common
  import opened Descriptors
  import opened ScatterGather
  import opened Service
  import opened Echo
  import opened Virtqueue
  import Ring
  import Blk

  const RECEIVE := 0
  const TRANSMIT := 1

  class Device {
    const deviceId: DeviceId
    var vq: seq<Vq>
    var ram: Ram
    var intStatus: bool                 // VMMIO_INT_VRING
    var file: seq<Byte>                 // the block backend's file
    const conBuf: array<Byte>           // con_in
    var conHead: Ring.Counter
    var conTail: Ring.Counter

    ghost var sent: seq<Byte>           // everything fwritten by transmit
    ghost var delivered: seq<Byte>      // everything stored by receive
    ghost var overflowed: bool          // some byte was pushed on a full con_in

    ghost predicate Valid()
      reads this, conBuf
    {
      && |ram| <= RAM_LIMIT
      && |vq| == (if deviceId == Console then 2 else 1)
      && (forall j | 0 <= j < |vq| :: vq[j].Ok())
      && conBuf.Length == CON_IN_SZ
      && (!overflowed ==> Ring.Count(conHead, conTail) <= CON_IN_SZ && sent == delivered + Fifo())
    }

    /** The bytes waiting to be echoed. */
    ghost function Fifo(): (q: seq<Byte>)
      requires conBuf.Length > 0
      reads `conHead, `conTail, conBuf
      ensures |q| == Ring.Count(conHead, conTail)
    {
      Ring.Pending(conBuf[..], conHead, conTail)
    }

    ghost function View(): Io
      requires conBuf.Length > 0
      reads `ram, `file, `conHead, `conTail, conBuf
    {
      Io(ram, file, Fifo())
    }

    constructor (id: DeviceId, vq: seq<Vq>, ram: Ram, file: seq<Byte>)
      requires |ram| <= RAM_LIMIT && |vq| == (if id == Console then 2 else 1)
      requires forall j | 0 <= j < |vq| :: vq[j].Ok()
      ensures Valid() && deviceId == id && this.vq == vq && this.ram == ram && this.file == file
      ensures !overflowed && sent == delivered == [] && !intStatus && fresh(conBuf)
    {
      deviceId := id;
      this.vq, this.ram, this.file, intStatus := vq, ram, file, false;
      conBuf := new Byte[CON_IN_SZ](_ => 0);
      conHead, conTail := 0, 0;
      sent, delivered, overflowed := [], [], false;
    }

    // ---------------------------------------------------------------- con_in

    /** con_in_push of one byte. */
    method ConPush(b: Byte)
      requires conBuf.Length == CON_IN_SZ
      modifies this`conHead, this`overflowed, conBuf
      ensures overflowed == (old(overflowed) || |old(Fifo())| >= CON_IN_SZ)
      ensures Fifo() == Ring.Pushed(old(Fifo()), CON_IN_SZ, b)
    {
      overflowed := overflowed || Ring.Count(conHead, conTail) >= CON_IN_SZ;
      ConSize();
      Ring.PushedIs(conBuf[..], conHead, conTail, b);
      conBuf[conHead % CON_IN_SZ] := b;
      conHead := (conHead + 1) % Ring.WRAP;
    }

    /** con_in_push: the pending bytes afterwards, and that some were lost exactly when they do not fit. */
    method ConPushAll(bytes: seq<Byte>)
      requires conBuf.Length == CON_IN_SZ && (!overflowed ==> |Fifo()| <= CON_IN_SZ)
      modifies this`conHead, this`overflowed, conBuf
      ensures overflowed == (old(overflowed) || |old(Fifo())| + |bytes| > CON_IN_SZ)
      ensures Fifo() == Ring.PushedAll(old(Fifo()), CON_IN_SZ, bytes)
    {
      var i := 0;
      while i < |bytes|
        invariant 0 <= i <= |bytes|
        invariant overflowed == (old(overflowed) || |old(Fifo())| + i > CON_IN_SZ)
        invariant Fifo() == Ring.PushedAll(old(Fifo()), CON_IN_SZ, bytes[..i])
      {
        if !overflowed { Ring.PushedAllFits(old(Fifo()), CON_IN_SZ, bytes[..i]); }
        assert bytes[..i + 1][..i] == bytes[..i];
        ConPush(bytes[i]);
        i := i + 1;
      }
      assert bytes[..i] == bytes;
    }

    /** con_in_pop */
    method ConPop() returns (b: Option<Byte>)
      requires conBuf.Length == CON_IN_SZ
      modifies this`conTail
      ensures b.None? <==> old(Fifo()) == []
      ensures b.None? ==> Fifo() == []
      ensures b.Some? ==> old(Fifo()) == [b.value] + Fifo()
    {
      if conTail == conHead { return None; }
      Ring.Pop(conBuf[..], conHead, conTail);
      b := Some(conBuf[conTail % CON_IN_SZ]);
      conTail := (conTail + 1) % Ring.WRAP;
    }

    // --------------------------------------------------------------- receive

    /** The inner receive loop: fill one segment from con_in until either runs out. */
    method FillSegment(s: Seg) returns (n: nat)
      requires Valid() && s.addr + s.len <= |ram|
      modifies this`ram, this`conTail, this`delivered
      ensures Valid() && n == Min(s.len, |old(Fifo())|)
      ensures ram == Store(old(ram), s.addr, old(Fifo())[..n])
      ensures Fifo() == old(Fifo())[n..] && delivered == old(delivered) + old(Fifo())[..n]
    {
      hide Store, Fifo, Vq.Ok, Ring.Count, Ring.Pending;
      n := 0;
      ghost var all := Fifo();
      StoreNothing(ram, s.addr);
      while n < s.len
        invariant 0 <= n <= s.len && n <= |all|
        invariant Fifo() == all[n..] && delivered == old(delivered) + all[..n]
        invariant |ram| == |old(ram)| && ram == Store(old(ram), s.addr, all[..n])
      {
        var b := ConPop();
        if b.None? { break; }
        PopOne(old(delivered), all, n, b.value, Fifo());
        StoreOneMore(old(ram), s.addr, all, n);
        ram := ram[s.addr + n := b.value];
        delivered := delivered + [b.value];
        n := n + 1;
      }
      MoveOver(old(delivered), all, n);
    }

    /** console_handle on the receive queue. */
    method Receive(segs: seq<Seg>) returns (written: nat)
      requires Valid() && Within(ram, segs)
      modifies this`ram, this`conTail, this`delivered
      ensures Valid() && written == Min(Total(segs), |old(Fifo())|)
      ensures ram == Scatter(old(ram), segs, old(Fifo()))
      ensures Fifo() == old(Fifo())[written..]
      ensures delivered == old(delivered) + old(Fifo())[..written]
    {
      hide Store, Flat, Fifo, Vq.Ok, Scatter, Total, Ring.Count, Ring.Pending, Receiving;
      ghost var all := Fifo();
      written := 0;
      var i := 0;
      ReceivingStart(ram, segs, all);
      while i < |segs|
        invariant 0 <= i <= |segs| && 0 <= written <= |all| && Valid()
        invariant |ram| == |old(ram)|
        invariant Fifo() == all[written..] && delivered == old(delivered) + all[..written]
        invariant Receiving(old(ram), ram, segs, i, all, written)
      {
        ghost var before := ram;
        var n := FillSegment(segs[i]);
        ReceivingNext(old(ram), before, ram, segs, i, all, written, n);
        SplitPrefix(old(delivered), all, written, n);
        written := written + n;
        if n < segs[i].len { break; }
        i := i + 1;
      }
      ReceivingEnd(old(ram), ram, segs, if i < |segs| then i + 1 else i, all, written);
    }

    // -------------------------------------------------------------- transmit

    /** The transmit loop of console_handle: print and echo every segment. */
    method Transmit(segs: seq<Seg>)
      requires Valid() && Within(ram, segs)
      modifies this`sent, this`conHead, this`overflowed, conBuf
      ensures Valid() && sent == old(sent) + Flat(ram, segs)
      ensures overflowed == (old(overflowed) || |old(Fifo())| + Total(segs) > CON_IN_SZ)
      ensures Fifo() == Ring.PushedAll(old(Fifo()), CON_IN_SZ, Flat(ram, segs))
    {
      hide Flat, Total, Fifo, Vq.Ok, Ring.PushedAll;
      ghost var (all, fifo) := (Flat(ram, segs), Fifo());
      ghost var done: seq<Byte> := [];
      NothingPushed(fifo);
      var i := 0;
      while i < |segs|
        invariant 0 <= i <= |segs|
        invariant done + Flat(ram, segs[i..]) == all && sent == old(sent) + done
        invariant overflowed == (old(overflowed) || |fifo| + |done| > CON_IN_SZ)
        invariant Fifo() == Ring.PushedAll(fifo, CON_IN_SZ, done)
      {
        var bytes := ram[segs[i].addr..segs[i].addr + segs[i].len];
        NextSegment(ram, segs, i, done);
        if !overflowed { Ring.PushedAllFits(fifo, CON_IN_SZ, done); }
        Ring.PushedAllConcat(fifo, CON_IN_SZ, done, bytes);
        Regroup(old(sent), done, bytes);
        sent := sent + bytes;
        ConPushAll(bytes);
        done := done + bytes;
        i := i + 1;
      }
      assert done + Flat(ram, segs[i..]) == done by { NoFlat(ram, segs[i..]); }
      if !overflowed { Ring.PushedAllFits(fifo, CON_IN_SZ, done); }
      Regroup(delivered, fifo, done);
    }

    // --------------------------------------------------------------- service

    /** push_used */
    method PushUsed(qi: nat, head: nat, len: nat)
      requires Valid() && qi < |vq| && vq[qi].num != 0
      modifies this`vq
      ensures vq == old(vq)[qi := Push(old(vq)[qi], |ram|, Used(head, len))]
      ensures var (was, now) := (old(vq)[qi], vq[qi]);
        if was.usedGpa + 4 + 8 * was.num <= |ram| then
          && now == was.(used := was.used[was.usedIdx % was.num := Used(head, len)], usedIdx := now.usedIdx)
          && now.usedIdx == (was.usedIdx + 1) % 0x1_0000
        else was.usedGpa < U64 - 4 ==> now == was
    {
      hide Ring.Count, Fifo;
      var q := vq[qi];
      RingTests(|ram|, q.usedGpa, 8 * q.num);
      hide Vq.Ok, InRam;
      if !InRam(|ram|, (q.usedGpa + 2) % U64, 2) || !InRam(|ram|, (q.usedGpa + 4) % U64, 8 * q.num) { return; }
      var u := q.usedIdx;
      q := q.(used := q.used[u % q.num := Used(head, len)]);
      q := q.(usedIdx := (u + 1) % IDX);
      vq := vq[qi := q];
    }

    /** dev_can_consume */
    predicate CanConsume(qi: nat)
      reads this
    {
      if deviceId == Console && qi == RECEIVE then Ring.Count(conHead, conTail) > 0 else true
    }

    /** console_handle: transmit echoes and serves the receive queue at once. */
    method ConsoleHandle(qi: nat, segs: seq<Seg>) returns (used: nat, ghost took: seq<nat>, ghost pushed: seq<seq<Used>>)
      requires Valid() && deviceId == Console && qi < 2 && Within(ram, segs)
      modifies this, conBuf
      ensures Valid() && |ram| == |old(ram)| && file == old(file)
      ensures Progress(old(vq), vq, |ram|, took, pushed) && took[qi] == 0
      ensures qi == RECEIVE ==> vq == old(vq) && took == Zeros(|vq|) && overflowed == old(overflowed)
      ensures qi == TRANSMIT ==> used == 0 && sent == old(sent) + Flat(old(ram), segs)
      ensures qi == TRANSMIT ==>
        Echoed(old(vq)[0], took[0], old(View()), View(), Flat(old(ram), segs), old(overflowed), overflowed, pushed[0])
      ensures qi == RECEIVE ==> used == Min(Total(segs), |old(Fifo())|)
      ensures qi == RECEIVE ==> ram == Scatter(old(ram), segs, old(Fifo())) && Fifo() == old(Fifo())[used..]
      ensures qi == RECEIVE ==> sent == old(sent) && delivered == old(delivered) + old(Fifo())[..used]
      ensures intStatus == (old(intStatus) || AnyPushed(pushed))
      decreases qi, 0
    {
      hide Advanced, Vq.Ok, Flat, Total, Scatter, Ring.Count, Ring.Pending, Fifo, Ring.PushedAll, Effect, Deliver;
      hide Progress, AnyPushed, Vq.AvailMapped;
      if qi == TRANSMIT {
        Transmit(segs);
        ghost var (start, io, bytes, lost) := (vq, View(), sent, overflowed);
        took, pushed := ServiceVq(RECEIVE, UNUSED);
        Delivered(start, vq, |ram|, took, pushed, io, View(), bytes, sent, lost, overflowed);
        return 0, took, pushed;
      }
      used := Receive(segs);
      took, pushed := Zeros(|vq|), Nothing(|vq|);
      NoProgress(vq, |ram|);
      NonePushed(|vq|);
    }

    method DevHandle(qi: nat, segs: seq<Seg>, stack: Blk.Stack)
      returns (used: nat, ghost took: seq<nat>, ghost pushed: seq<seq<Used>>)
      requires Valid() && qi < |vq| && Within(ram, segs)
      modifies this, conBuf
      ensures Valid() && |ram| == |old(ram)|
      ensures Progress(old(vq), vq, |ram|, took, pushed) && took[qi] == 0
      ensures qi == RECEIVE ==> vq == old(vq) && took == Zeros(|vq|) && overflowed == old(overflowed)
      ensures qi == RECEIVE ==> sent == old(sent) && (View(), used) == ServeChain(deviceId, old(View()), segs, stack)
      ensures qi == TRANSMIT ==> used == 0 && sent == old(sent) + Flat(old(ram), segs)
      ensures qi == TRANSMIT ==>
        Echoed(old(vq)[0], took[0], old(View()), View(), Flat(old(ram), segs), old(overflowed), overflowed, pushed[0])
      ensures deviceId == Console ==> file == old(file)
      ensures intStatus == (old(intStatus) || AnyPushed(pushed))
      decreases qi, 1
    {
      hide Advanced, Vq.Ok, Flat, Total, Scatter, Ring.Count, Ring.Pending, Fifo, Echoed;
      if deviceId == Console {
        used, took, pushed := ConsoleHandle(qi, segs);
      } else {
        used := BlkHandle(segs, stack);
        took, pushed := Zeros(|vq|), Nothing(|vq|);
        NoProgress(vq, |ram|);
        NonePushed(|vq|);
      }
    }

    /**
     service_vq: take the waiting entries in order and complete those whose chain gathers.
     stacks(j) is what the stack holds at the j-th request.  Returns, per queue, how many
     entries were taken and what was pushed to the used ring.
    */
    method ServiceVq(qi: int, stacks: Stacks) returns (ghost took: seq<nat>, ghost pushed: seq<seq<Used>>)
      requires Valid()
      modifies this, conBuf
      ensures Valid() && |ram| == |old(ram)|
      ensures Progress(old(vq), vq, |ram|, took, pushed) && UsedRings(old(vq), vq, |ram|, pushed)
      ensures !(0 <= qi < |vq|) || !old(vq)[qi].Serviceable(|ram|) ==>
        vq == old(vq) && View() == old(View()) && sent == old(sent) && overflowed == old(overflowed) && took == Zeros(|vq|)
      ensures 0 <= qi < |vq| && old(vq)[qi].availGpa < U64 - 4 && old(vq)[qi].availGpa + 4 + 2 * old(vq)[qi].num > |ram| ==>
        vq == old(vq)
      ensures 0 <= qi < |vq| ==> Effect(deviceId, qi, old(vq), took, pushed, old(View()), View(),
                                        old(sent), sent, old(overflowed), overflowed, stacks)
      ensures 0 <= qi < |vq| && vq[qi].Serviceable(|ram|) ==>
        vq[qi].Waiting() == 0 || (deviceId == Console && qi == RECEIVE && Fifo() == [])
      ensures 0 <= qi < |vq| && vq[qi].ready && vq[qi].num != 0 && vq[qi].availGpa + 4 + 2 * vq[qi].num <= |ram| ==>
        vq[qi].lastAvail == vq[qi].availIdx || (deviceId == Console && qi == RECEIVE && Fifo() == [])
      ensures qi == RECEIVE ==> forall j | 0 < j < |took| :: took[j] == 0
      ensures intStatus == (old(intStatus) || AnyPushed(pushed))
      ensures deviceId == Console ==> file == old(file)
      decreases if qi == TRANSMIT then 1 else 0, 5
    {
      hide Advanced, Vq.Ok, Complete, Ring.Count, Ring.Pending, Fifo, Effect, OneEffect;
      hide Progress, AnyPushed, InRam, Plus, UsedRings;
      took, pushed := Zeros(|vq|), Nothing(|vq|);
      NoProgress(vq, |ram|);
      NonePushed(|vq|);
      UsedRingsAfter(vq, vq, |ram|, took, pushed);
      if qi < 0 || qi >= |vq| { return; }
      NoEffect(deviceId, qi, vq, View(), sent, overflowed, stacks);
      if !vq[qi].ready || vq[qi].num == 0 { return; }
      TestsMean(vq[qi], |ram|);
      if !InRam(|ram|, (vq[qi].availGpa + 2) % U64, 2) || !InRam(|ram|, (vq[qi].availGpa + 4) % U64, 2 * vq[qi].num) {
        return;
      }
      ghost var start := vq;
      hide Vq.AvailMapped;
      took, pushed := ServeWaiting(qi, stacks);
      UsedRingsAfter(start, vq, |ram|, took, pushed);
    }

    /** The loop of service_vq. */
    method ServeWaiting(qi: nat, stacks: Stacks) returns (ghost took: seq<nat>, ghost pushed: seq<seq<Used>>)
      requires Valid() && qi < |vq| && vq[qi].Serviceable(|ram|)
      modifies this, conBuf
      ensures Valid() && |ram| == |old(ram)|
      ensures Progress(old(vq), vq, |ram|, took, pushed) && |vq| == |old(vq)|
      ensures Effect(deviceId, qi, old(vq), took, pushed, old(View()), View(),
                     old(sent), sent, old(overflowed), overflowed, stacks)
      ensures vq[qi].Serviceable(|ram|) && vq[qi].availGpa == old(vq)[qi].availGpa && vq[qi].num == old(vq)[qi].num
      ensures vq[qi].lastAvail == vq[qi].availIdx || (deviceId == Console && qi == RECEIVE && Fifo() == [])
      ensures qi == RECEIVE ==> forall j | 0 < j < |took| :: took[j] == 0
      ensures intStatus == (old(intStatus) || AnyPushed(pushed))
      ensures deviceId == Console ==> file == old(file)
      decreases if qi == TRANSMIT then 1 else 0, 4
    {
      hide Advanced, Vq.Ok, Complete, Ring.Count, Ring.Pending, Fifo, Effect, OneEffect;
      hide Progress, AnyPushed, InRam, Vq.AvailMapped, Plus, Joined, SameQueue, Vq.Heads;
      took, pushed := Zeros(|vq|), Nothing(|vq|);
      NoProgress(vq, |ram|);
      NonePushed(|vq|);
      NoEffect(deviceId, qi, vq, View(), sent, overflowed, stacks);
      ghost var start := vq;
      var idx := vq[qi].availIdx;
      var did := false;
      var turn: nat := 0;
      while vq[qi].lastAvail != idx
        invariant Valid() && |ram| == |old(ram)| && |vq| == |start| == |took| == |pushed|
        invariant Progress(start, vq, |ram|, took, pushed) && turn == took[qi]
        invariant vq[qi].availIdx == idx && vq[qi].num == start[qi].num && vq[qi].availGpa == start[qi].availGpa
        invariant vq[qi].Serviceable(|ram|)
        invariant Effect(deviceId, qi, start, took, pushed, old(View()), View(),
                         old(sent), sent, old(overflowed), overflowed, stacks)
        invariant qi == RECEIVE ==> forall j | 0 < j < |took| :: took[j] == 0
        invariant (intStatus || did) == (old(intStatus) || AnyPushed(pushed))
        invariant deviceId == Console ==> file == old(file)
        decreases vq[qi].Waiting()
      {
        if !CanConsume(qi) { break; }
        ghost var (before, io, bytes, lost) := (vq, View(), sent, overflowed);
        ghost var m, es;
        var gathered;
        m, es, gathered := ServeOne(qi, stacks(turn));
        did := did || gathered;
        TurnComposes(deviceId, qi, start, before, vq, |ram|, took, pushed, m, es, old(View()), io, View(),
                     old(sent), bytes, sent, old(overflowed), lost, overflowed, stacks);
        took, pushed := Sum(took, m), Joined(pushed, es);
        turn := turn + 1;
      }
      if did { intStatus := true; }
    }

    /** One turn of the service loop. */
    method ServeOne(qi: nat, stack: Blk.Stack) returns (ghost took: seq<nat>, ghost pushed: seq<seq<Used>>, did: bool)
      requires Valid() && qi < |vq| && vq[qi].num != 0 && vq[qi].Waiting() > 0 && CanConsume(qi)
      modifies this, conBuf
      ensures Valid() && |ram| == |old(ram)|
      ensures Progress(old(vq), vq, |ram|, took, pushed) && |took| == |pushed| == |vq| && took[qi] == 1
      ensures (intStatus || did) == (old(intStatus) || AnyPushed(pushed))
      ensures OneEffect(deviceId, qi, old(vq), took, pushed, pushed[qi], old(View()), View(),
                        old(sent), sent, old(overflowed), overflowed, stack)
      ensures qi == RECEIVE ==> forall j | 0 < j < |took| :: took[j] == 0
      ensures deviceId == Console ==> file == old(file)
      decreases qi, 3
    {
      hide Advanced, Complete, Vq.Ok, Ring.Count, Ring.Pending, Fifo, Push, Plus;
      hide ServedOne, OneEcho, Progress, AnyPushed;
      ghost var start := vq;
      var head, used := 0, 0;
      head, used, did, took, pushed := HandleNext(qi, stack);
      ghost var (mid, es) := (vq, if did then [Used(head, used)] else []);
      OkUsed(start[qi]);
      TurnDone(start, vq, |ram|, took, pushed, qi, used);
      if did { PushUsed(qi, head, used); }
      StepOver(qi);
      assert vq == mid[qi := Stepped(start[qi], |ram|, es)];
      took, pushed := took[qi := 1], pushed[qi := es];
    }

    /** The next waiting entry, up to its completion: gather its chain and hand it to the device. */
    method HandleNext(qi: nat, stack: Blk.Stack)
      returns (head: nat, used: nat, did: bool, ghost took: seq<nat>, ghost pushed: seq<seq<Used>>)
      requires Valid() && qi < |vq| && vq[qi].num != 0 && CanConsume(qi)
      modifies this, conBuf
      ensures Valid() && |ram| == |old(ram)|
      ensures |old(vq)[qi].avail| == old(vq)[qi].num && head == old(vq)[qi].HeadAt(0)
      ensures did == old(vq)[qi].Gathers(|ram|, head)
      ensures Progress(old(vq), vq, |ram|, took, pushed)
      ensures |took| == |pushed| == |vq| == |old(vq)| && took[qi] == 0 && vq[qi] == old(vq)[qi] && pushed[qi] == []
      ensures intStatus == (old(intStatus) || AnyPushed(pushed))
      ensures OneEffect(deviceId, qi, old(vq), took, pushed, if did then [Used(head, used)] else [], old(View()), View(),
                        old(sent), sent, old(overflowed), overflowed, stack)
      ensures qi == RECEIVE ==> forall j | 0 < j < |took| :: took[j] == 0
      ensures deviceId == Console ==> file == old(file)
      decreases qi, 2
    {
      hide Advanced, Complete, Vq.Ok, Ring.Count, Ring.Pending, Fifo, Push, Plus;
      hide ServeChain, Flat, Echoed, Progress, AnyPushed;
      ghost var start := vq;
      ghost var (io, bytes, lost) := (View(), sent, overflowed);
      var segs: Option<seq<Seg>>;
      head, segs := GatherHead(qi);
      used, did := 0, segs.Some?;
      if segs.None? {
        took, pushed := Zeros(|vq|), Nothing(|vq|);
        NoProgress(vq, |ram|);
        NonePushed(|vq|);
        return;
      }
      used, took, pushed := DevHandle(qi, segs.value, stack);
      ProgressGet(start, vq, |ram|, took, pushed, qi);
      AdvancedKeeps(start[qi], vq[qi], |ram|, took[qi], pushed[qi]);
    }

    /** The head of the next waiting entry, and its chain if it gathers. */
    method GatherHead(qi: nat) returns (head: nat, segs: Option<seq<Seg>>)
      requires Valid() && qi < |vq| && vq[qi].num != 0
      ensures |vq[qi].avail| == vq[qi].num && head == vq[qi].HeadAt(0)
      ensures segs.Some? <==> vq[qi].Gathers(|ram|, head)
      ensures segs.Some? ==> Within(ram, segs.value) && segs.value == ChainOf(vq[qi], |ram|, head)
    {
      hide Complete, Vq.Ok, Ring.Count, Ring.Pending, Fifo, InRam, Segs, EndsAt, Plus;
      var q := vq[qi];
      OkUsed(q);
      PlusZero(q.lastAvail);
      head := q.avail[q.lastAvail % q.num];
      SmallTable(q, |ram|);
      segs := GatherChain(q.dt, q.descGpa, |ram|, head);
      if segs.Some? {
        ChainIs(q, |ram|, head, segs.value);
        ChainInRam(q, ram, head);
      }
    }

    /** vq->last_avail_idx++ */
    method StepOver(qi: nat)
      requires qi < |vq|
      modifies this`vq
      ensures vq == old(vq)[qi := old(vq)[qi].(lastAvail := Plus(old(vq)[qi].lastAvail, 1))]
    {
      vq := vq[qi := vq[qi].(lastAvail := (vq[qi].lastAvail + 1) % IDX)];
    }

    // ----------------------------------------------------------------- block

    /** blk_handle: the status byte, then one pread or pwrite per data segment. */
    method BlkHandle(segs: seq<Seg>, stack: Blk.Stack) returns (used: nat)
      requires Valid() && Within(ram, segs)
      modifies this`ram, this`file
      ensures Valid()
      ensures Blk.Request(ram, file, used) == Blk.Handle(old(ram), old(file), segs, stack)
    {
      hide Blk.PRead, Blk.PWrite, Blk.SetByte, Blk.Le, ChainSlice;
      if |segs| < 2 { return 0; }
      var hdr := new Byte[Blk.HDR_LEN](j requires 0 <= j < Blk.HDR_LEN => stack[j]);
      assert hdr[..] == stack;
      ChainRead(ram, segs, 0, hdr);
      ghost var header := Blk.Header(ram, segs, stack);
      assert hdr[..] == header;

      var kind := Blk.Le(hdr[..4]);
      var off := Blk.Le(hdr[8..]) * 512 % U64;
      assert hdr[..4] == header[..4] && hdr[8..] == header[8..];
      var last := |segs| - 1;
      var status := segs[last].addr;
      ram := Blk.SetByte(ram, status, Blk.S_OK);

      if kind == Blk.T_IN {
        ghost var whole := Blk.ReadInto(ram, file, Blk.DataSegs(segs), off);
        var total, failed := ReadSegments(segs, off);
        if failed { ram := Blk.SetByte(ram, status, Blk.S_IOERR); }
        return (total % U32 + 1) % U32;
      }
      if kind == Blk.T_OUT {
        var failed := WriteSegments(segs, off);
        if failed { ram := Blk.SetByte(ram, status, Blk.S_IOERR); }
        return 1;
      }
      if kind == Blk.T_FLUSH { return 1; }
      ram := Blk.SetByte(ram, status, Blk.S_UNSUPP);
      return 1;
    }

    method ReadSegments(segs: seq<Seg>, start: nat) returns (total: nat, failed: bool)
      requires Within(ram, segs) && |segs| >= 2
      modifies this`ram
      ensures Blk.InResult(ram, total, failed) == Blk.ReadInto(old(ram), file, Blk.DataSegs(segs), start)
    {
      hide Blk.PRead, Store;
      total, failed := 0, false;
      var off: nat := start;
      var last := |segs| - 1;
      var i := 1;
      ghost var data := Blk.DataSegs(segs);
      while i < last
        invariant 1 <= i <= last && |ram| == |old(ram)|
        invariant var (rest, whole) :=
            (Blk.ReadInto(ram, file, data[i - 1..], off), Blk.ReadInto(old(ram), file, data, start));
          whole.ram == rest.ram && whole.total == total + rest.total && whole.failed == rest.failed
      {
        assert data[i - 1..][1..] == data[i..] && data[i - 1] == segs[i];
        var r := Blk.PRead(file, off, segs[i].len);
        if r.None? { return total, true; }
        ReadFits(file, off, segs[i].len);
        ram := Store(ram, segs[i].addr, r.value);
        off := off + |r.value|;
        total := total + |r.value|;
        if |r.value| < segs[i].len { return; }
        i := i + 1;
      }
    }

    method WriteSegments(segs: seq<Seg>, start: nat) returns (failed: bool)
      requires Within(ram, segs) && |segs| >= 2
      modifies this`file
      ensures Blk.OutResult(file, failed) == Blk.WriteFrom(ram, old(file), Blk.DataSegs(segs), start)
    {
      hide Blk.PWrite;
      var off: nat := start;
      var last := |segs| - 1;
      var i := 1;
      ghost var data := Blk.DataSegs(segs);
      while i < last
        invariant 1 <= i <= last
        invariant Blk.WriteFrom(ram, file, data[i - 1..], off) == Blk.WriteFrom(ram, old(file), data, start)
      {
        assert data[i - 1..][1..] == data[i..] && data[i - 1] == segs[i];
        var n := Min(segs[i].len, Blk.MAX_RW);
        var w := Blk.PWrite(file, off, ram[segs[i].addr..segs[i].addr + n]);
        if w.None? { return true; }
        file := w.value;
        off := off + n;
        if n < segs[i].len { return false; }
        i := i + 1;
      }
      return false;
    }
  }

  /** The queue after its next entry was completed, if its chain gathers, and stepped over. */
  function Stepped(q: Vq, memSize: nat, es: seq<Used>): Vq
    requires q.num != 0 && |q.used| == q.num
  {
    (if es == [] then q else Push(q, memSize, es[0])).(lastAvail := Plus(q.lastAvail, 1))
  }

  lemma TurnDone(start: seq<Vq>, mid: seq<Vq>, memSize: nat, took: seq<nat>, pushed: seq<seq<Used>>, qi: nat, used: nat)
    requires Progress(start, mid, memSize, took, pushed) && qi < |start| && start[qi].Ok() && start[qi].num != 0
    requires mid[qi] == start[qi] && pushed[qi] == [] && start[qi].Waiting() > 0
    ensures |start[qi].avail| == start[qi].num
    ensures var head := start[qi].HeadAt(0);
      var es := if start[qi].Gathers(memSize, head) then [Used(head, used)] else [];
      var next := Stepped(start[qi], memSize, es);
      && next.Ok() && Progress(start, mid[qi := next], memSize, took[qi := 1], pushed[qi := es])
      && (AnyPushed(pushed[qi := es]) <==> AnyPushed(pushed) || es != [])
  {
    hide Advanced, Complete, InRam, Push;
    var q := start[qi];
    TakeOne(q, memSize, used);
    OkUsed(q);
    var head := q.HeadAt(0);
    var es := if q.Gathers(memSize, head) then [Used(head, used)] else [];
    var next := Stepped(q, memSize, es);
    StillOk(q, next);
    assert Advanced(q, next, memSize, 1, es);
    ProgressAt(start, mid, memSize, took, pushed, qi, next, 1, es);
    AnyPushedAt(pushed, qi, es);
  }

  /** A turn of the service loop, after the turns before it. */
  lemma TurnComposes(id: DeviceId, qi: nat, start: seq<Vq>, mid: seq<Vq>, end: seq<Vq>, memSize: nat,
                     took: seq<nat>, pushed: seq<seq<Used>>, m: seq<nat>, es: seq<seq<Used>>, a: Io, b: Io, c: Io,
                     s: seq<Byte>, t: seq<Byte>, u: seq<Byte>, l: bool, k: bool, o: bool, stacks: Stacks)
    requires qi < |start| && |a.ram| == |b.ram| && (forall j | 0 <= j < |start| :: start[j].Ok())
    requires forall j | 0 <= j < |mid| :: mid[j].Ok()
    requires Progress(start, mid, memSize, took, pushed) && Progress(mid, end, memSize, m, es)
    requires |m| == |es| == |took| == |start| && m[qi] == 1
    requires Effect(id, qi, start, took, pushed, a, b, s, t, l, k, stacks)
    requires OneEffect(id, qi, mid, m, es, es[qi], b, c, t, u, k, o, stacks(took[qi]))
    ensures |start| == |end| == |took| == |m| == |pushed| == |es|
    ensures Progress(start, end, memSize, Sum(took, m), Joined(pushed, es))
    ensures |Sum(took, m)| == |Joined(pushed, es)| == |start| && Sum(took, m)[qi] == took[qi] + 1
    ensures end[qi].availIdx == mid[qi].availIdx && end[qi].num == mid[qi].num && end[qi].availGpa == mid[qi].availGpa
    ensures end[qi].Serviceable(memSize) == mid[qi].Serviceable(memSize) && end[qi].Waiting() == mid[qi].Waiting() - 1
    ensures Effect(id, qi, start, Sum(took, m), Joined(pushed, es), a, c, s, u, l, o, stacks)
    ensures AnyPushed(Joined(pushed, es)) <==> AnyPushed(pushed) || AnyPushed(es)
  {
    hide Advanced, Vq.Ok, Effect, OneEffect, AnyPushed, InRam, Plus;
    ProgressGet(mid, end, memSize, m, es, qi);
    ProgressGet(start, mid, memSize, took, pushed, qi);
    AdvancedKeeps(mid[qi], end[qi], memSize, m[qi], es[qi]);
    ProgressTransitive(start, mid, end, memSize, took, pushed, m, es);
    AnyPushedJoined(pushed, es);
    EffectNext(id, qi, start, mid, memSize, took, pushed, m, es, a, b, c, s, t, u, l, k, o, stacks);
  }

  /** Serving the receive queue until the loop stops is the delivery function. */
  lemma Delivered(start: seq<Vq>, end: seq<Vq>, memSize: nat, took: seq<nat>, pushed: seq<seq<Used>>,
                  io: Io, after: Io, sent: seq<Byte>, sent': seq<Byte>, lost: bool, lost': bool)
    requires |start| == 2 && start[0].Ok() && |io.ram| == memSize <= RAM_LIMIT && Progress(start, end, memSize, took, pushed)
    requires Effect(Console, RECEIVE, start, took, pushed, io, after, sent, sent', lost, lost', UNUSED)
    requires start[0].Serviceable(memSize) || took == Zeros(2)
    requires end[0].Serviceable(memSize) ==> end[0].Waiting() == 0 || after.fifo == []
    ensures sent' == sent && lost' == lost && |took| == |pushed| == 2 && Deliver(start[0], io) == (after, took[0], pushed[0])
  {
    hide Advanced, Vq.Ok, ServedBy, Deliver, Vq.AvailMapped;
    ProgressGet(start, end, memSize, took, pushed, 0);
    AdvancedKeeps(start[0], end[0], memSize, took[0], pushed[0]);
    DeliverIs(start[0], took[0], io, after, pushed[0]);
  }

  /** The tests of the available ring, in plain arithmetic. */
  lemma TestsMean(q: Vq, memSize: nat)
    requires q.Ok() && memSize <= RAM_LIMIT
    ensures q.AvailMapped(memSize) <==>
              InRam(memSize, (q.availGpa + 2) % U64, 2) && InRam(memSize, (q.availGpa + 4) % U64, 2 * q.num)
    ensures q.availGpa + 4 + 2 * q.num <= memSize ==> q.AvailMapped(memSize)
    ensures q.availGpa < U64 - 4 && q.availGpa + 4 + 2 * q.num > memSize ==> !q.AvailMapped(memSize)
  {
    RingTests(memSize, q.availGpa, 2 * q.num);
    hide InRam;
  }

  /** A table in RAM is short. */
  lemma SmallTable(q: Vq, memSize: nat)
    requires q.Ok() && memSize <= RAM_LIMIT
    ensures |q.dt| < U32 - 1 || !InRam(memSize, q.descGpa, 16 * |q.dt|)
    ensures q.DescMapped(memSize) <==> InRam(memSize, q.descGpa, 16 * |q.dt|)
  {
    InRamExactly(memSize, q.descGpa, 16 * |q.dt|);
  }

  lemma ReadFits(file: seq<Byte>, off: nat, len: nat)
    ensures Blk.PRead(file, off, len).Some? ==> |Blk.PRead(file, off, len).value| <= len
  {}

  lemma PopOne(before: seq<Byte>, all: seq<Byte>, n: nat, b: Byte, rest: seq<Byte>)
    requires n <= |all| && all[n..] == [b] + rest
    ensures n < |all| && b == all[n] && rest == all[n + 1..]
    ensures before + all[..n] + [b] == before + all[..n + 1]
  {
    assert all[n..][0] == b;
    assert all[n..][1..] == rest;
  }

  /** Moving bytes from the buffer to the receiver keeps the total. */
  lemma MoveOver(delivered: seq<Byte>, fifo: seq<Byte>, n: nat)
    requires n <= |fifo|
    ensures delivered + fifo[..n] + fifo[n..] == delivered + fifo
  {}

  lemma NothingPushed(fifo: seq<Byte>)
    ensures Ring.PushedAll(fifo, CON_IN_SZ, []) == fifo
  {}

  lemma NextSegment(ram: Ram, segs: seq<Seg>, i: nat, done: seq<Byte>)
    requires i < |segs| && Within(ram, segs)
    ensures var bytes := ram[segs[i].addr..segs[i].addr + segs[i].len];
      (done + bytes) + Flat(ram, segs[i + 1..]) == done + Flat(ram, segs[i..])
  {
    hide Flat;
    assert segs[i..][1..] == segs[i + 1..];
    FlatStep(ram, segs[i..]);
    Regroup(done, ram[segs[i].addr..segs[i].addr + segs[i].len], Flat(ram, segs[i + 1..]));
  }

  lemma NoFlat(ram: Ram, segs: seq<Seg>)
    requires segs == []
    ensures Flat(ram, segs) == []
  {}

  /** `written` bytes went into the first i segments, and the rest would go into the others. */
  ghost predicate Receiving(start: Ram, ram: Ram, segs: seq<Seg>, i: nat, all: seq<Byte>, written: nat) {
    && i <= |segs| && written <= |all| && Within(start, segs) && |ram| == |start|
    && Scatter(ram, segs[i..], all[written..]) == Scatter(start, segs, all)
    && written + Min(Total(segs[i..]), |all| - written) == Min(Total(segs), |all|)
  }

  lemma ReceivingStart(ram: Ram, segs: seq<Seg>, all: seq<Byte>)
    requires Within(ram, segs)
    ensures Receiving(ram, ram, segs, 0, all, 0)
  {
  }

  lemma ReceivingNext(start: Ram, before: Ram, ram: Ram, segs: seq<Seg>, i: nat, all: seq<Byte>, m: nat, n: nat)
    requires Receiving(start, before, segs, i, all, m) && i < |segs|
    requires n == Min(segs[i].len, |all| - m)
    requires ram == Store(before, segs[i].addr, all[m..][..n])
    ensures Receiving(start, ram, segs, i + 1, all, m + n)
  {
  }

  lemma ReceivingEnd(start: Ram, ram: Ram, segs: seq<Seg>, i: nat, all: seq<Byte>, written: nat)
    requires Receiving(start, ram, segs, i, all, written) && (i == |segs| || written == |all|)
    ensures ram == Scatter(start, segs, all) && written == Min(Total(segs), |all|)
  {
    if i < |segs| { Blk.ScatterNothing(ram, segs[i..]); }
  }

  lemma SplitPrefix<T>(before: seq<T>, all: seq<T>, m: nat, n: nat)
    requires m + n <= |all|
    ensures all[m..][..n] == all[m..m + n] && all[m..][n..] == all[m + n..]
    ensures before + all[..m] + all[m..m + n] == before + all[..m + n]
  {}

  lemma ConSize()
    ensures Ring.Size(CON_IN_SZ)
  {}

  lemma StoreNothing(ram: Ram, addr: nat)
    requires addr <= |ram|
    ensures Store(ram, addr, []) == ram
  {}

  lemma StoreOneMore(ram: Ram, addr: nat, bytes: seq<Byte>, n: nat)
    requires n < |bytes| && addr + n < |ram|
    ensures Store(ram, addr, bytes[..n + 1]) == Store(ram, addr, bytes[..n])[addr + n := bytes[n]]
  {}
}
