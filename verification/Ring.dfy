/**
 Byte rings with free-running 32-bit counters, as used by the UART receive buffer and the
 console's echo buffer of minivmm.c: `head` and `tail` only ever count up, wrapping at 2^32,
 and are reduced modulo the buffer size at each access.
*/
module Ring {
  import opened Arithmetic

  const WRAP := 0x1_0000_0000

  type Counter = c: nat | c < WRAP

  /** head - tail on unsigned 32-bit counters. */
  function Count(head: Counter, tail: Counter): nat {
    if head >= tail then head - tail else head + WRAP - tail
  }

  /** The buffer index of the i-th pending byte. */
  function Slot(tail: nat, i: nat, size: nat): (s: nat)
    requires size > 0
    ensures s < size
  {
    (tail + i) % WRAP % size
  }

  /** What is in the ring, oldest first. */
  function Pending<T>(buf: seq<T>, head: Counter, tail: Counter): (q: seq<T>)
    requires |buf| > 0
    ensures |q| == Count(head, tail)
  {
    seq(Count(head, tail), i requires 0 <= i => buf[Slot(tail, i, |buf|)])
  }

  /** The sizes for which wrapping the counters does not disturb the slots. */
  predicate Size(n: nat) { Divides(n, WRAP) && n < WRAP }

  lemma CountStep(head: Counter, tail: Counter)
    ensures Count(head, tail) < WRAP - 1 ==> Count((head + 1) % WRAP, tail) == Count(head, tail) + 1
    ensures Count(head, tail) > 0 ==> Count(head, (tail + 1) % WRAP) == Count(head, tail) - 1
    ensures (tail + Count(head, tail)) % WRAP == head
  {
  }

  lemma SlotsDiffer(tail: nat, i: nat, j: nat, n: nat)
    requires Size(n) && i < j < n
    ensures Slot(tail, i, n) != Slot(tail, j, n)
  {
    WrapKeepsRemainder(tail + i, WRAP, n);
    WrapKeepsRemainder(tail + j, WRAP, n);
    CloseRemaindersDiffer(tail + i, tail + j, n);
  }

  /** A ring that is not full grows by the byte written at head. */
  lemma Push<T>(buf: seq<T>, head: Counter, tail: Counter, b: T)
    requires Size(|buf|) && Count(head, tail) < |buf|
    ensures Pending(buf[head % |buf| := b], (head + 1) % WRAP, tail) == Pending(buf, head, tail) + [b]
  {
    hide Slot;
    var (n, c) := (|buf|, Count(head, tail));
    CountStep(head, tail);
    SlotAtHead(head, tail, n);
    forall i | 0 <= i < c
      ensures Slot(tail, i, n) != head % n
    {
      SlotsDiffer(tail, i, c, n);
    }
  }

  lemma SlotAtHead(head: Counter, tail: Counter, n: nat)
    requires n > 0
    ensures Slot(tail, Count(head, tail), n) == head % n && Slot(tail, 0, n) == tail % n
  {
  }

  /** The byte read at tail is the oldest, and the rest stays. */
  lemma Pop<T>(buf: seq<T>, head: Counter, tail: Counter)
    requires |buf| > 0 && Count(head, tail) > 0
    ensures Pending(buf, head, tail) == [buf[tail % |buf|]] + Pending(buf, head, (tail + 1) % WRAP)
  {
    hide Slot;
    CountStep(head, tail);
    SlotAtHead(head, tail, |buf|);
    var next := (tail + 1) % WRAP;
    forall i | 0 <= i < Count(head, tail) - 1
      ensures Slot(next, i, |buf|) == Slot(tail, i + 1, |buf|)
    {
      SlotShift(tail, i, |buf|);
    }
  }

  lemma SlotShift(tail: nat, i: nat, n: nat)
    requires n > 0
    ensures Slot((tail + 1) % WRAP, i, n) == Slot(tail, i + 1, n)
  {
    assert ((tail + 1) % WRAP + i) % WRAP == (tail + 1 + i) % WRAP;
  }

  /** The i-th and the j-th pending byte share a slot of a ring of n. */
  predicate Shares(i: nat, j: nat, n: nat)
    requires n > 0 && i <= j
  {
    (j - i) % n == 0
  }

  /**
   What a write does to the pending bytes of a ring of n, however full it is: it is appended,
   overwrites every pending byte that shares its slot, and makes 2^32 - 1 pending bytes vanish.
  */
  function Pushed<T>(q: seq<T>, n: nat, b: T): (r: seq<T>)
    requires n > 0
    ensures |r| == if |q| == WRAP - 1 then 0 else |q| + 1
  {
    if |q| == WRAP - 1 then []
    else seq(|q| + 1, i requires 0 <= i <= |q| => if i == |q| || Shares(i, |q|, n) then b else q[i])
  }

  function PushedAll<T>(q: seq<T>, n: nat, bytes: seq<T>): (r: seq<T>)
    requires n > 0
  {
    if bytes == [] then q else Pushed(PushedAll(q, n, bytes[..|bytes| - 1]), n, bytes[|bytes| - 1])
  }

  lemma PushedIs<T>(buf: seq<T>, head: Counter, tail: Counter, b: T)
    requires Size(|buf|)
    ensures Pending(buf[head % |buf| := b], (head + 1) % WRAP, tail) == Pushed(Pending(buf, head, tail), |buf|, b)
  {
    hide Slot;
    var (n, c) := (|buf|, Count(head, tail));
    CountStep(head, tail);
    SlotAtHead(head, tail, n);
    if c < WRAP - 1 {
      forall i | 0 <= i <= c
        ensures Slot(tail, i, n) == head % n <==> Shares(i, c, n)
      {
        SameSlotIff(tail, i, c, n);
      }
    } else {
      CountFull(head, tail);
    }
  }

  lemma CountFull(head: Counter, tail: Counter)
    requires Count(head, tail) == WRAP - 1
    ensures (head + 1) % WRAP == tail
  {
  }

  lemma SameSlotIff(tail: nat, i: nat, j: nat, n: nat)
    requires Size(n) && i <= j
    ensures Slot(tail, i, n) == Slot(tail, j, n) <==> Shares(i, j, n)
  {
    WrapKeepsRemainder(tail + i, WRAP, n);
    WrapKeepsRemainder(tail + j, WRAP, n);
    SameRemainderIff(tail + i, tail + j, n);
  }

  lemma SameRemainderIff(x: nat, y: nat, n: nat)
    requires n > 0 && x <= y
    ensures x % n == y % n <==> (y - x) % n == 0
  {
    var d := (y - x) % n;
    assert y == n * ((y - x) / n) + (x + d);
    DivPlusMultiple((y - x) / n, x + d, n);
    if d != 0 { CloseRemaindersDiffer(x, x + d, n); }
  }

  /** A write that fits is appended and nothing else. */
  lemma PushedFits<T>(q: seq<T>, n: nat, b: T)
    requires |q| < n < WRAP
    ensures Pushed(q, n, b) == q + [b]
  {
    forall i | 0 <= i < |q|
      ensures !Shares(i, |q|, n)
    {
      SmallRemainder(|q| - i, n);
    }
    hide Shares;
  }

  lemma SmallRemainder(d: nat, n: nat)
    requires 0 < d < n
    ensures d % n != 0
  {
  }

  /** A full ring loses its oldest byte to the write, and shows the new one twice. */
  lemma PushedOnFull<T>(q: seq<T>, b: T)
    requires 0 < |q| < WRAP - 1
    ensures Pushed(q, |q|, b) == [b] + q[1..] + [b]
  {
    forall i | 0 < i < |q|
      ensures !Shares(i, |q|, |q|)
    {
      SmallRemainder(|q| - i, |q|);
    }
    assert Shares(0, |q|, |q|);
    hide Shares;
  }

  lemma {:induction false} PushedAllFits<T>(q: seq<T>, n: nat, bytes: seq<T>)
    requires |q| + |bytes| <= n < WRAP && n > 0
    ensures PushedAll(q, n, bytes) == q + bytes
  {
    if bytes != [] {
      PushedAllFits(q, n, bytes[..|bytes| - 1]);
      PushedFits(q + bytes[..|bytes| - 1], n, bytes[|bytes| - 1]);
    }
  }

  lemma {:induction false} PushedAllConcat<T>(q: seq<T>, n: nat, a: seq<T>, b: seq<T>)
    requires n > 0
    ensures PushedAll(q, n, a + b) == PushedAll(PushedAll(q, n, a), n, b)
  {
    if b == [] {
      assert a + b == a;
    } else {
      assert (a + b)[..|a + b| - 1] == a + b[..|b| - 1];
      PushedAllConcat(q, n, a, b[..|b| - 1]);
    }
  }

  // ------------------------------------------------------- when bytes are lost

  lemma {:induction false} PushedAllLength<T>(q: seq<T>, n: nat, bytes: seq<T>)
    requires n > 0 && |q| + |bytes| < WRAP
    ensures |PushedAll(q, n, bytes)| == |q| + |bytes|
  {
    if bytes != [] { PushedAllLength(q, n, bytes[..|bytes| - 1]); }
  }

  /** m pending x, and k bytes of which those from the first that does not fit are y. */
  function Filling<T>(n: nat, m: nat, k: nat, x: T, y: T): (bytes: seq<T>)
    ensures |bytes| == k
  {
    seq(k, i requires 0 <= i < k => if m + i < n then x else y)
  }

  /** The first byte that does not fit takes the place of the oldest. */
  lemma {:induction false} OldestGone<T>(n: nat, m: nat, k: nat, x: T, y: T)
    requires 0 < n < WRAP && m <= n < m + k < WRAP
    ensures var r := PushedAll(seq(m, _ => x), n, Filling(n, m, k, x, y)); |r| == m + k && r[0] == y
  {
    var (q, bytes, shorter) := (seq(m, _ => x), Filling(n, m, k, x, y), Filling(n, m, k - 1, x, y));
    PushedAllLength(q, n, bytes);
    PushedAllLength(q, n, shorter);
    assert bytes[..k - 1] == shorter && bytes[k - 1] == y;
    if n < m + (k - 1) {
      OldestGone(n, m, k - 1, x, y);
    } else {
      assert Shares(0, n, n);
    }
  }

  /**
   m pending bytes and k more are all in the ring afterwards, whatever they are, exactly when
   they fit.
  */
  lemma PushedAllKeepsIff<T(!new)>(n: nat, m: nat, k: nat, x: T, y: T)
    requires 0 < n < WRAP && m <= n && m + k < WRAP && x != y
    ensures (forall q: seq<T>, bytes: seq<T> | |q| == m && |bytes| == k :: PushedAll(q, n, bytes) == q + bytes)
            <==> m + k <= n
  {
    if m + k <= n {
      forall q: seq<T>, bytes: seq<T> | |q| == m && |bytes| == k
        ensures PushedAll(q, n, bytes) == q + bytes
      {
        PushedAllFits(q, n, bytes);
      }
    } else {
      var (q, bytes) := (seq(m, _ => x), Filling(n, m, k, x, y));
      OldestGone(n, m, k, x, y);
      assert (q + bytes)[0] == x;
      assert PushedAll(q, n, bytes) != q + bytes;
    }
  }
}
