/**
 A split virtqueue seen from the device: entries taken from the available ring in order,
 completions pushed to the used ring.  Ring indices count freely and wrap at 2^16.
*/
module Virtqueue {
  import opened Arithmetic
  import opened Descriptors

  const IDX := 0x1_0000

  type Index = i: nat | i < IDX

  /** Free-running index arithmetic. */
  function Plus(i: Index, n: nat): Index { (i + n) % IDX }

  lemma PlusPlus(i: Index, m: nat, n: nat)
    ensures Plus(Plus(i, m), n) == Plus(i, m + n)
  {
  }

  /**
   A ring's elements, `size` bytes after a header of 4, lie in RAM.  An address in the last two
   bytes of the address space wraps, and is accepted if what comes after the wrap fits.
  */
  predicate RingInRam(memSize: nat, gpa: nat, size: nat) {
    gpa + 4 + size <= memSize || (gpa >= U64 - 2 && gpa + 4 - U64 + size <= memSize)
  }

  /** An element of the used ring. */
  datatype Used = Used(id: nat, len: nat)

  /**
   struct vq together with the guest-resident parts it points at: the descriptor table, the
   available ring and its index, the used ring and its index.
  */
  datatype Vq = Vq(num: nat, ready: bool, descGpa: nat, availGpa: nat, usedGpa: nat, lastAvail: Index,
                   dt: seq<Desc>, availIdx: Index, avail: seq<nat>, usedIdx: Index, used: seq<Used>)
  {
    ghost predicate Ok() {
      && num < U32 && |dt| == |avail| == |used| == num
      && descGpa < U64 && availGpa < U64 && usedGpa < U64
      && forall i | 0 <= i < num :: dt[i].Ok()
    }

    predicate DescMapped(memSize: nat) { descGpa + 16 * num <= memSize }

    predicate AvailMapped(memSize: nat) { RingInRam(memSize, availGpa, 2 * num) }

    predicate UsedMapped(memSize: nat) { RingInRam(memSize, usedGpa, 8 * num) }

    /** service_vq gets past its early returns. */
    predicate Serviceable(memSize: nat) { ready && num != 0 && AvailMapped(memSize) }

    /** Entries made available and not yet taken. */
    function Waiting(): nat {
      if availIdx >= lastAvail then availIdx - lastAvail else availIdx + IDX - lastAvail
    }

    /** The head in the k-th waiting entry. */
    function HeadAt(k: nat): nat
      requires num != 0 && |avail| == num
    {
      avail[Plus(lastAvail, k) % num]
    }

    function Heads(n: nat): (heads: seq<nat>)
      requires num != 0 && |avail| == num
      ensures |heads| == n
    {
      if n == 0 then [] else Heads(n - 1) + [HeadAt(n - 1)]
    }

    ghost predicate Gathers(memSize: nat, head: nat) { DescMapped(memSize) && Complete(dt, memSize, head) }
  }

  /** The code's two tests of a ring. */
  lemma RingTests(memSize: nat, gpa: nat, size: nat)
    requires memSize < U64 && gpa < U64 && size < U64
    ensures InRam(memSize, (gpa + 2) % U64, 2) && InRam(memSize, (gpa + 4) % U64, size) <==> RingInRam(memSize, gpa, size)
  {
    InRamExactly(memSize, (gpa + 2) % U64, 2);
    InRamExactly(memSize, (gpa + 4) % U64, size);
    hide InRam;
  }

  /**
   Progress on the used ring, said of its bytes: the completions counted in its index if the ring
   lies in RAM, and nothing otherwise.
  */
  lemma UsedRingAfter(q: Vq, r: Vq, memSize: nat, n: nat, es: seq<Used>)
    requires q.Ok() && memSize <= RAM_LIMIT && Advanced(q, r, memSize, n, es)
    ensures q.usedGpa + 4 + 8 * q.num <= memSize ==> r.usedIdx == (q.usedIdx + |es|) % 0x1_0000
    ensures q.usedGpa < U64 - 4 && q.usedGpa + 4 + 8 * q.num > memSize ==> r.usedIdx == q.usedIdx && r.used == q.used
  {
    hide Gathered, Ids;
    if n > 0 {
      if q.UsedMapped(memSize) {
        PushAllIndex(q, memSize, es);
      } else {
        PushAllUnmapped(q, memSize, es);
      }
    }
  }

  /** The used rings after a call that pushed `pushed`: completions are counted where the ring lies in RAM. */
  ghost predicate UsedRings(before: seq<Vq>, after: seq<Vq>, memSize: nat, pushed: seq<seq<Used>>) {
    && |before| == |after| == |pushed|
    && forall j | 0 <= j < |before| ::
         if before[j].usedGpa + 4 + 8 * before[j].num <= memSize
         then after[j].usedIdx == (before[j].usedIdx + |pushed[j]|) % 0x1_0000
         else before[j].usedGpa < U64 - 4 ==> after[j].usedIdx == before[j].usedIdx && after[j].used == before[j].used
  }

  lemma UsedRingsAfter(before: seq<Vq>, after: seq<Vq>, memSize: nat, took: seq<nat>, pushed: seq<seq<Used>>)
    requires memSize <= RAM_LIMIT && (forall j | 0 <= j < |before| :: before[j].Ok())
    requires Progress(before, after, memSize, took, pushed)
    ensures UsedRings(before, after, memSize, pushed)
  {
    hide Advanced, Vq.Ok;
    forall j | 0 <= j < |before|
      ensures before[j].usedGpa + 4 + 8 * before[j].num <= memSize ==>
                after[j].usedIdx == (before[j].usedIdx + |pushed[j]|) % 0x1_0000
      ensures before[j].usedGpa < U64 - 4 && before[j].usedGpa + 4 + 8 * before[j].num > memSize ==>
                after[j].usedIdx == before[j].usedIdx && after[j].used == before[j].used
    {
      UsedRingAfter(before[j], after[j], memSize, took[j], pushed[j]);
    }
  }

  lemma {:induction false} PushAllUnmapped(q: Vq, memSize: nat, es: seq<Used>)
    requires q.num != 0 && |q.used| == q.num && !q.UsedMapped(memSize)
    ensures PushAll(q, memSize, es) == q
  {
    if es != [] { PushAllUnmapped(q, memSize, es[..|es| - 1]); }
  }

  /** A gathered chain only has segments in RAM. */
  lemma {:induction false} SegsInRam(dt: seq<Desc>, memSize: nat, head: nat, n: nat)
    requires memSize <= RAM_LIMIT && forall i | 0 <= i < |dt| :: dt[i].Ok()
    requires forall j | 0 <= j < n :: Nth(dt, head, j) < |dt| && Usable(dt, memSize, Nth(dt, head, j))
    ensures forall i | 0 <= i < n :: Segs(dt, head, n)[i].addr + Segs(dt, head, n)[i].len <= memSize
  {
    if n > 0 {
      SegsInRam(dt, memSize, head, n - 1);
      var d := dt[Nth(dt, head, n - 1)];
      InRamExactly(memSize, d.addr, d.len);
    }
  }

  // ---------------------------------------------------------------- used ring

  /** push_used */
  function Push(q: Vq, memSize: nat, e: Used): (r: Vq)
    requires q.num != 0 && |q.used| == q.num
    ensures r == q.(used := r.used, usedIdx := r.usedIdx) && |r.used| == q.num
  {
    if q.UsedMapped(memSize) then q.(used := q.used[q.usedIdx % q.num := e], usedIdx := Plus(q.usedIdx, 1)) else q
  }

  function PushAll(q: Vq, memSize: nat, es: seq<Used>): (r: Vq)
    requires q.num != 0 && |q.used| == q.num
    ensures r == q.(used := r.used, usedIdx := r.usedIdx) && |r.used| == q.num
  {
    if es == [] then q else Push(PushAll(q, memSize, es[..|es| - 1]), memSize, es[|es| - 1])
  }

  /** The ring slot of the j-th entry after index i. */
  function Slot(i: Index, j: nat, num: nat): (slot: nat)
    requires num != 0
    ensures slot < num
  {
    Plus(i, j) % num
  }

  /** A completion stands in the ring unless a later one was written to its slot. */
  lemma {:induction false} PushAllStands(q: Vq, memSize: nat, es: seq<Used>, j: nat)
    requires q.num != 0 && |q.used| == q.num && q.UsedMapped(memSize) && j < |es|
    requires forall k | j < k < |es| :: Slot(q.usedIdx, k, q.num) != Slot(q.usedIdx, j, q.num)
    ensures PushAll(q, memSize, es).usedIdx == Plus(q.usedIdx, |es|)
    ensures PushAll(q, memSize, es).used[Slot(q.usedIdx, j, q.num)] == es[j]
  {
    hide Slot, Plus, InRam;
    var n := |es| - 1;
    var before := PushAll(q, memSize, es[..n]);
    PushAllIndex(q, memSize, es[..n]);
    PushAllIndex(q, memSize, es);
    LastSlot(q, memSize, es);
    if j < n {
      PushAllStands(q, memSize, es[..n], j);
      assert Slot(q.usedIdx, n, q.num) != Slot(q.usedIdx, j, q.num);
    }
  }

  lemma LastSlot(q: Vq, memSize: nat, es: seq<Used>)
    requires q.num != 0 && |q.used| == q.num && q.UsedMapped(memSize) && es != []
    ensures var (n, before) := (|es| - 1, PushAll(q, memSize, es[..|es| - 1]));
      PushAll(q, memSize, es).used == before.used[Slot(q.usedIdx, n, q.num) := es[n]]
  {
    var (n, before) := (|es| - 1, PushAll(q, memSize, es[..|es| - 1]));
    assert PushAll(q, memSize, es) == Push(before, memSize, es[n]);
    PushAllIndex(q, memSize, es[..n]);
    hide InRam, Plus, PushAll;
    assert before.UsedMapped(memSize) && before.num == q.num;
  }

  lemma {:induction false} PushAllIndex(q: Vq, memSize: nat, es: seq<Used>)
    requires q.num != 0 && |q.used| == q.num && q.UsedMapped(memSize)
    ensures PushAll(q, memSize, es).usedIdx == Plus(q.usedIdx, |es|)
  {
    hide InRam, Plus;
    if es == [] {
      PlusZero(q.usedIdx);
    } else {
      PushAllIndex(q, memSize, es[..|es| - 1]);
      PlusPlus(q.usedIdx, |es| - 1, 1);
    }
  }

  /** With a queue size that divides 2^16 the last `num` completions all stand. */
  lemma PushAllFillsRing(q: Vq, memSize: nat, es: seq<Used>)
    requires q.num != 0 && |q.used| == q.num && q.UsedMapped(memSize) && Divides(q.num, IDX)
    ensures var r := PushAll(q, memSize, es);
      && r.usedIdx == Plus(q.usedIdx, |es|)
      && forall j | 0 <= j < |es| && |es| <= j + q.num :: r.used[Plus(q.usedIdx, j) % q.num] == es[j]
  {
    PushAllIndex(q, memSize, es);
    hide InRam;
    forall j | 0 <= j < |es| && |es| <= j + q.num
      ensures PushAll(q, memSize, es).used[Plus(q.usedIdx, j) % q.num] == es[j]
    {
      forall k | j < k < |es|
        ensures Slot(q.usedIdx, k, q.num) != Slot(q.usedIdx, j, q.num)
      {
        SlotsDiffer(q.usedIdx, j, k, q.num);
      }
      PushAllStands(q, memSize, es, j);
    }
  }

  lemma PlusZero(i: Index)
    ensures Plus(i, 0) == i
  {}

  lemma SlotsDiffer(i: Index, j: nat, k: nat, num: nat)
    requires Divides(num, IDX) && j < k < j + num
    ensures Slot(i, j, num) != Slot(i, k, num)
  {
    WrapKeepsRemainder(i + j, IDX, num);
    WrapKeepsRemainder(i + k, IDX, num);
    CloseRemaindersDiffer(i + j, i + k, num);
  }

  lemma {:induction false} PushAllConcat(q: Vq, memSize: nat, a: seq<Used>, b: seq<Used>)
    requires q.num != 0 && |q.used| == q.num
    ensures PushAll(q, memSize, a + b) == PushAll(PushAll(q, memSize, a), memSize, b)
  {
    if b == [] {
      assert a + b == a;
    } else {
      assert (a + b)[..|a + b| - 1] == a + b[..|b| - 1];
      PushAllConcat(q, memSize, a, b[..|b| - 1]);
    }
  }

  lemma {:induction false} PushAllKeepsCursor(q: Vq, memSize: nat, es: seq<Used>, last: Index)
    requires q.num != 0 && |q.used| == q.num
    ensures PushAll(q.(lastAvail := last), memSize, es) == PushAll(q, memSize, es).(lastAvail := last)
  {
    if es != [] { PushAllKeepsCursor(q, memSize, es[..|es| - 1], last); }
  }

  // ----------------------------------------------------- progress of the device

  function Ids(es: seq<Used>): seq<nat> {
    if es == [] then [] else Ids(es[..|es| - 1]) + [es[|es| - 1].id]
  }

  /** The heads whose chain gathers, in order. */
  ghost function Gathered(q: Vq, memSize: nat, heads: seq<nat>): seq<nat> {
    if heads == [] then []
    else
      var (before, last) := (heads[..|heads| - 1], heads[|heads| - 1]);
      Gathered(q, memSize, before) + if q.Gathers(memSize, last) then [last] else []
  }

  /**
   The device went from q to r by taking the first n waiting entries, in order, and pushing
   the completions es, one for each of their chains that gathers, in that order.
  */
  ghost predicate Advanced(q: Vq, r: Vq, memSize: nat, n: nat, es: seq<Used>) {
    if n == 0 then r == q && es == []
    else
      && q.num != 0 && |q.used| == |q.avail| == q.num
      && n <= q.Waiting()
      && r == PushAll(q, memSize, es).(lastAvail := Plus(q.lastAvail, n))
      && Ids(es) == Gathered(q, memSize, q.Heads(n))
  }

  lemma {:induction false} HeadsConcat(q: Vq, r: Vq, m: nat, n: nat)
    requires q.num != 0 && |q.avail| == q.num
    requires r.num == q.num && r.avail == q.avail && r.lastAvail == Plus(q.lastAvail, m)
    ensures q.Heads(m + n) == q.Heads(m) + r.Heads(n)
  {
    hide Plus;
    if n > 0 {
      HeadsConcat(q, r, m, n - 1);
      PlusPlus(q.lastAvail, m, n - 1);
    }
  }

  lemma {:induction false} GatheredConcat(q: Vq, memSize: nat, a: seq<nat>, b: seq<nat>)
    ensures Gathered(q, memSize, a + b) == Gathered(q, memSize, a) + Gathered(q, memSize, b)
  {
    if b == [] {
      assert a + b == a;
    } else {
      assert (a + b)[..|a + b| - 1] == a + b[..|b| - 1];
      GatheredConcat(q, memSize, a, b[..|b| - 1]);
    }
  }

  lemma {:induction false} SameTableSameGathered(q: Vq, r: Vq, memSize: nat, heads: seq<nat>)
    requires r.dt == q.dt && r.descGpa == q.descGpa && r.num == q.num
    ensures Gathered(r, memSize, heads) == Gathered(q, memSize, heads)
  {
    if heads != [] { SameTableSameGathered(q, r, memSize, heads[..|heads| - 1]); }
  }

  lemma {:induction false} IdsConcat(a: seq<Used>, b: seq<Used>)
    ensures Ids(a + b) == Ids(a) + Ids(b)
  {
    if b == [] {
      assert a + b == a;
    } else {
      assert (a + b)[..|a + b| - 1] == a + b[..|b| - 1];
      IdsConcat(a, b[..|b| - 1]);
    }
  }

  /** Progress composes: what is done in two goes is done in one. */
  lemma AdvancedTransitive(q: Vq, r: Vq, s: Vq, memSize: nat, m: nat, es: seq<Used>, n: nat, fs: seq<Used>)
    requires q.Ok() && Advanced(q, r, memSize, m, es) && Advanced(r, s, memSize, n, fs)
    ensures Advanced(q, s, memSize, m + n, es + fs)
  {
    hide Gathered, Plus, PushAll, Ids;
    if m == 0 {
      assert es + fs == fs;
    } else if n == 0 {
      assert es + fs == es;
    } else {
      IdsConcat(es, fs);
      HeadsConcat(q, r, m, n);
      GatheredConcat(q, memSize, q.Heads(m), r.Heads(n));
      SameTableSameGathered(q, r, memSize, r.Heads(n));
      PushAllConcat(q, memSize, es, fs);
      PushAllKeepsCursor(PushAll(q, memSize, es), memSize, fs, r.lastAvail);
      PlusPlus(q.lastAvail, m, n);
      WaitingLess(q, r, m);
    }
  }

  lemma WaitingLess(q: Vq, r: Vq, n: nat)
    requires n <= q.Waiting() && r.availIdx == q.availIdx && r.lastAvail == Plus(q.lastAvail, n)
    ensures r.Waiting() == q.Waiting() - n
  {
  }

  /**
   Device and driver both count modulo 2^16 and so agree on every slot.  But entries less
   than num apart have slots of their own, across the wrap too, exactly when num divides 2^16:
   otherwise two entries that are pending together can share a slot.
  */
  lemma SlotsDistinctIff(num: nat)
    requires num != 0
    ensures (forall i: Index, k: nat | 0 < k < num :: Plus(i, k) % num != i % num) <==> Divides(num, IDX)
  {
    if Divides(num, IDX) {
      forall i: Index, k: nat | 0 < k < num
        ensures Plus(i, k) % num != i % num
      {
        SlotsDiffer(i, 0, k, num);
        PlusZero(i);
      }
    } else {
      SlotsCollide(num);
    }
  }

  /** The first entry after the wrap, and an earlier one less than num before it. */
  lemma SlotsCollide(num: nat)
    requires num != 0 && !Divides(num, IDX)
    ensures exists i: Index, k: nat :: 0 < k < num && Plus(i, k) % num == i % num
  {
    var r := IDX % num;
    if num > IDX {
      var i: Index := 0;
      assert Plus(i, IDX) == 0 && Plus(i, IDX) % num == i % num;
    } else {
      var i: Index := IDX - r;
      assert IDX == num * (IDX / num) + r;
      DivUnique(i, num, IDX / num, 0);
      assert Plus(i, r) == 0 && 0 < r < num;
      assert Plus(i, r) % num == 0 % num;
      assert i % num == 0;
    }
  }

  // ------------------------------------------------------------ several queues

  ghost predicate Progress(before: seq<Vq>, after: seq<Vq>, memSize: nat, took: seq<nat>, pushed: seq<seq<Used>>) {
    && |before| == |after| == |took| == |pushed|
    && forall j | 0 <= j < |before| :: Advanced(before[j], after[j], memSize, took[j], pushed[j])
  }

  function Zeros(n: nat): seq<nat> { seq(n, _ => 0) }

  function Nothing(n: nat): seq<seq<Used>> { seq(n, _ => []) }

  lemma NoProgress(qs: seq<Vq>, memSize: nat)
    ensures Progress(qs, qs, memSize, Zeros(|qs|), Nothing(|qs|))
  {}

  ghost function Sum(a: seq<nat>, b: seq<nat>): seq<nat>
    requires |a| == |b|
  {
    seq(|a|, j requires 0 <= j < |a| => a[j] + b[j])
  }

  ghost function Joined(a: seq<seq<Used>>, b: seq<seq<Used>>): seq<seq<Used>>
    requires |a| == |b|
  {
    seq(|a|, j requires 0 <= j < |a| => a[j] + b[j])
  }

  ghost predicate AnyPushed(pushed: seq<seq<Used>>) { exists j | 0 <= j < |pushed| :: pushed[j] != [] }

  lemma AnyPushedJoined(a: seq<seq<Used>>, b: seq<seq<Used>>)
    requires |a| == |b|
    ensures AnyPushed(Joined(a, b)) <==> AnyPushed(a) || AnyPushed(b)
    ensures !AnyPushed(Nothing(|a|))
  {
    assert forall j | 0 <= j < |a| :: Joined(a, b)[j] != [] <==> a[j] != [] || b[j] != [];
  }

  lemma StillOk(q: Vq, r: Vq)
    requires q.Ok() && r == q.(used := r.used, usedIdx := r.usedIdx, lastAvail := r.lastAvail) && |r.used| == q.num
    ensures r.Ok()
  {}

  lemma OkUsed(q: Vq)
    requires q.Ok()
    ensures |q.used| == |q.avail| == |q.dt| == q.num < U32 && q.descGpa < U64
  {}

  lemma NonePushed(n: nat)
    ensures !AnyPushed(Nothing(n))
  {}

  lemma AnyPushedAt(pushed: seq<seq<Used>>, i: nat, es: seq<Used>)
    requires i < |pushed| && pushed[i] == []
    ensures AnyPushed(pushed[i := es]) <==> AnyPushed(pushed) || es != []
  {
    assert pushed[i := es][i] == es;
    assert forall j | 0 <= j < |pushed| && j != i :: pushed[i := es][j] == pushed[j];
  }

  lemma ProgressAt(qs: seq<Vq>, rs: seq<Vq>, memSize: nat, m: seq<nat>, es: seq<seq<Used>>,
                   i: nat, r: Vq, n: nat, fs: seq<Used>)
    requires Progress(qs, rs, memSize, m, es) && i < |qs| && Advanced(qs[i], r, memSize, n, fs)
    ensures Progress(qs, rs[i := r], memSize, m[i := n], es[i := fs])
  {
    hide Advanced;
  }

  predicate SameQueue(q: Vq, r: Vq) {
    r == q.(used := r.used, usedIdx := r.usedIdx, lastAvail := r.lastAvail)
  }

  /** What progress leaves alone. */
  lemma AdvancedKeeps(q: Vq, r: Vq, memSize: nat, n: nat, es: seq<Used>)
    requires Advanced(q, r, memSize, n, es)
    ensures r.Waiting() + n == q.Waiting() && SameQueue(q, r) && r.lastAvail == Plus(q.lastAvail, n)
    ensures r.Serviceable(memSize) == q.Serviceable(memSize)
    ensures n == 0 ==> r == q && es == []
  {
    hide PushAll, Gathered, InRam;
    if n > 0 { WaitingLess(q, r, n); } else { PlusZero(q.lastAvail); }
  }

  lemma ProgressTransitive(a: seq<Vq>, b: seq<Vq>, c: seq<Vq>, memSize: nat,
                           m: seq<nat>, es: seq<seq<Used>>, n: seq<nat>, fs: seq<seq<Used>>)
    requires forall j | 0 <= j < |a| :: a[j].Ok()
    requires Progress(a, b, memSize, m, es) && Progress(b, c, memSize, n, fs)
    ensures Progress(a, c, memSize, Sum(m, n), Joined(es, fs))
  {
    hide Advanced, Vq.Ok;
    forall j | 0 <= j < |a|
      ensures Advanced(a[j], c[j], memSize, Sum(m, n)[j], Joined(es, fs)[j])
    {
      AdvancedTransitive(a[j], b[j], c[j], memSize, m[j], es[j], n[j], fs[j]);
    }
  }

  lemma ProgressGet(a: seq<Vq>, b: seq<Vq>, memSize: nat, m: seq<nat>, es: seq<seq<Used>>, i: nat)
    requires Progress(a, b, memSize, m, es)
    ensures |a| == |b| == |m| == |es|
    ensures i < |a| ==> Advanced(a[i], b[i], memSize, m[i], es[i])
  {}

  /** Taking one waiting entry, and completing it if its chain gathers. */
  lemma TakeOne(q: Vq, memSize: nat, len: nat)
    requires q.Ok() && q.num != 0 && q.Waiting() > 0
    ensures var head := q.HeadAt(0);
      var moved := q.(lastAvail := Plus(q.lastAvail, 1));
      && moved.Ok() && head == q.avail[q.lastAvail % q.num]
      && (!q.Gathers(memSize, head) ==> Advanced(q, moved, memSize, 1, []))
      && (q.Gathers(memSize, head) ==>
          Advanced(q, Push(q, memSize, Used(head, len)).(lastAvail := Plus(q.lastAvail, 1)), memSize, 1, [Used(head, len)]))
  {
  }
}
