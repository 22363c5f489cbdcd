/**
 Split-virtqueue descriptor chains of minivmm.c: gpa2hva and gather_chain.

 A queue's descriptor table is the sequence of its `num` descriptors.
*/
module Descriptors {
  import opened Common

  const MAX_SEGS := 64                  // VQ_MAX_SEGS
  const U32 := 0x1_0000_0000
  const U64 := 0x1_0000_0000_0000_0000
  const RAM_LIMIT := 0xd000_0000        // the virtio windows start here, outside RAM

  /** struct vring_desc */
  datatype Desc = Desc(addr: nat, len: nat, flags: nat, next: nat) {
    predicate Next() { flags % 2 == 1 }
    predicate Write() { flags / 2 % 2 == 1 }
    predicate Ok() { addr < U64 && len < U32 && next < 0x1_0000 }
  }

  /** The two flags are bits 0 and 1. */
  lemma FlagBits(d: Desc, rest: nat, bits: nat)
    requires d.flags == 4 * rest + bits && bits < 4
    ensures d.Next() <==> bits in {1, 3}
    ensures d.Write() <==> bits in {2, 3}
  {
  }

  /** struct seg, with the guest-physical address standing for the host pointer. */
  datatype Seg = Seg(addr: nat, len: nat, writable: bool)

  /** gpa2hva succeeds: the bounds test on 64-bit words. */
  predicate InRam(memSize: nat, gpa: nat, len: nat) {
    !((gpa + len) % U64 < gpa || (gpa + len) % U64 > memSize)
  }

  lemma InRamExactly(memSize: nat, gpa: nat, len: nat)
    requires memSize < U64 && gpa < U64 && len < U64
    ensures InRam(memSize, gpa, len) <==> gpa + len <= memSize
  {
  }

  // ------------------------------------------------------------------- chains

  /** The index of the i-th descriptor of the chain that starts at `head`. */
  function Nth(dt: seq<Desc>, head: nat, i: nat): nat {
    if i == 0 then head
    else
      var before := Nth(dt, head, i - 1);
      if before < |dt| then dt[before].next else before
  }

  /** A usable descriptor: its index and its buffer are in bounds. */
  predicate Usable(dt: seq<Desc>, memSize: nat, idx: nat) {
    idx < |dt| && InRam(memSize, dt[idx].addr, dt[idx].len)
  }

  /** The first i descriptors are usable and each has a successor. */
  ghost predicate Runs(dt: seq<Desc>, memSize: nat, head: nat, i: nat) {
    forall j | 0 <= j < i :: Usable(dt, memSize, Nth(dt, head, j)) && dt[Nth(dt, head, j)].Next()
  }

  /** The chain from `head` ends, within bounds, at its descriptor number k. */
  ghost predicate EndsAt(dt: seq<Desc>, memSize: nat, head: nat, k: nat) {
    && Runs(dt, memSize, head, k)
    && Usable(dt, memSize, Nth(dt, head, k)) && !dt[Nth(dt, head, k)].Next()
  }

  /** The chain from `head` is complete: it ends, with everything in bounds. */
  ghost predicate Complete(dt: seq<Desc>, memSize: nat, head: nat) {
    exists k: nat :: EndsAt(dt, memSize, head, k)
  }

  function SegOf(d: Desc): Seg { Seg(d.addr, d.len, d.Write()) }

  /** The buffers of the first n descriptors. */
  ghost function Segs(dt: seq<Desc>, head: nat, n: nat): (segs: seq<Seg>)
    requires forall j | 0 <= j < n :: Nth(dt, head, j) < |dt|
    ensures |segs| == n
  {
    if n == 0 then [] else Segs(dt, head, n - 1) + [SegOf(dt[Nth(dt, head, n - 1)])]
  }

  lemma {:induction false} SamePlaceSameRest(dt: seq<Desc>, head: nat, i: nat, j: nat, d: nat)
    requires Nth(dt, head, i) == Nth(dt, head, j)
    ensures Nth(dt, head, i + d) == Nth(dt, head, j + d)
  {
    if d > 0 { SamePlaceSameRest(dt, head, i, j, d - 1); }
  }

  /** A chain that ends visits no descriptor twice. */
  lemma NoRepeat(dt: seq<Desc>, memSize: nat, head: nat, k: nat, i: nat, j: nat)
    requires EndsAt(dt, memSize, head, k) && i < j <= k
    ensures Nth(dt, head, i) != Nth(dt, head, j)
  {
    if Nth(dt, head, i) == Nth(dt, head, j) {
      SamePlaceSameRest(dt, head, i, j, k - j);
    }
  }

  /** Distinct numbers below n are at most n: the pigeonhole principle. */
  lemma {:induction false} Pigeonhole(s: seq<nat>, n: nat)
    requires forall i | 0 <= i < |s| :: s[i] < n
    requires forall i, j | 0 <= i < j < |s| :: s[i] != s[j]
    ensures |s| <= n
  {
    if s != [] {
      assert s[0] < n;
      if m :| 0 <= m < |s| && s[m] == n - 1 {
        Pigeonhole(s[..m] + s[m + 1..], n - 1);
      } else {
        Pigeonhole(s, n - 1);
      }
    }
  }

  /** So it is no longer than the table. */
  lemma ChainFitsTable(dt: seq<Desc>, memSize: nat, head: nat, k: nat)
    requires EndsAt(dt, memSize, head, k)
    ensures k < |dt|
  {
    var visited := seq(k + 1, i requires 0 <= i => Nth(dt, head, i));
    forall i, j | 0 <= i < j < |visited|
      ensures visited[i] != visited[j]
    {
      NoRepeat(dt, memSize, head, k, i, j);
    }
    Pigeonhole(visited, |dt|);
  }

  /** A chain that runs past the table, or into something unusable, never ends in bounds. */
  lemma NotComplete(dt: seq<Desc>, memSize: nat, head: nat, i: nat)
    requires Runs(dt, memSize, head, i)
    requires i > |dt| || !Usable(dt, memSize, Nth(dt, head, i))
    ensures !Complete(dt, memSize, head)
  {
    hide InRam;
    forall k: nat | EndsAt(dt, memSize, head, k)
      ensures false
    {
      ChainFitsTable(dt, memSize, head, k);
    }
  }

  lemma IsComplete(dt: seq<Desc>, memSize: nat, head: nat, k: nat)
    requires EndsAt(dt, memSize, head, k)
    ensures Complete(dt, memSize, head)
    ensures forall m: nat | EndsAt(dt, memSize, head, m) :: m == k
  {
  }

  /** How many buffers of a chain that ends at descriptor k are kept. */
  function Kept(k: nat): nat { if k + 1 < MAX_SEGS then k + 1 else MAX_SEGS }

  /** The last buffer kept belongs to the chain's last descriptor exactly if all are kept. */
  lemma LastKeptIff(dt: seq<Desc>, memSize: nat, head: nat, k: nat)
    requires EndsAt(dt, memSize, head, k)
    ensures Nth(dt, head, Kept(k) - 1) == Nth(dt, head, k) <==> k + 1 <= MAX_SEGS
  {
    if k + 1 > MAX_SEGS { NoRepeat(dt, memSize, head, k, MAX_SEGS - 1, k); }
  }

  /**
   gather_chain: collect the chain from `head` of the table at descGpa.  Terminates on every
   table and succeeds exactly on complete chains, keeping the first MAX_SEGS buffers.  Only a
   table of 2^32 - 1 descriptors in RAM is excluded: there the 32-bit guard ends no cycle.
  */
  method GatherChain(dt: seq<Desc>, descGpa: nat, memSize: nat, head: nat) returns (r: Option<seq<Seg>>)
    requires |dt| < U32 && descGpa < U64 && memSize < U64
    requires |dt| < U32 - 1 || !InRam(memSize, descGpa, 16 * |dt|)
    ensures r.Some? <==> InRam(memSize, descGpa, 16 * |dt|) && Complete(dt, memSize, head)
    ensures forall k: nat | r.Some? && EndsAt(dt, memSize, head, k) :: r.value == Segs(dt, head, Kept(k))
  {
    InRamExactly(memSize, descGpa, 16 * |dt|);
    hide InRam, Complete;
    var num := |dt|;
    var segs: seq<Seg> := [];
    var guard := 0;
    var idx := head;
    if !InRam(memSize, descGpa, 16 * num) { return None; }
    while true
      invariant 0 <= guard <= num + 1 && idx == Nth(dt, head, guard)
      invariant Runs(dt, memSize, head, guard)
      invariant segs == Segs(dt, head, if guard < MAX_SEGS then guard else MAX_SEGS)
      decreases num + 1 - guard
    {
      if idx >= num || guard > num {
        NotComplete(dt, memSize, head, guard);
        return None;
      }
      ghost var at := guard;
      guard := (guard + 1) % U32;
      var d := dt[idx];
      if !InRam(memSize, d.addr, d.len) {
        NotComplete(dt, memSize, head, at);
        return None;
      }
      if |segs| < MAX_SEGS {
        segs := segs + [Seg(d.addr, d.len, d.Write())];
      }
      if !d.Next() {
        IsComplete(dt, memSize, head, at);
        return Some(segs);
      }
      idx := d.next;
    }
  }
}
