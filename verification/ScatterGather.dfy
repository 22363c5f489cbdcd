/**
 Guest buffers as lists of segments of guest RAM: reading them in order gives one byte
 string, and a byte string can be stored across them.
*/
module ScatterGather {
  import opened Descriptors

  type Byte = b: nat | b < 256
  type Ram = seq<Byte>

  /** Every segment lies in RAM, as gather_chain guarantees. */
  ghost predicate Within(ram: Ram, segs: seq<Seg>) {
    forall i | 0 <= i < |segs| :: segs[i].addr + segs[i].len <= |ram|
  }

  /** The bytes of the segments, in order. */
  function Flat(ram: Ram, segs: seq<Seg>): (bytes: seq<Byte>)
    requires Within(ram, segs)
    ensures |bytes| == Total(segs)
  {
    if segs == [] then [] else ram[segs[0].addr..segs[0].addr + segs[0].len] + Flat(ram, segs[1..])
  }

  function Total(segs: seq<Seg>): nat {
    if segs == [] then 0 else segs[0].len + Total(segs[1..])
  }

  /** memcpy into RAM. */
  function Store(ram: Ram, addr: nat, bytes: seq<Byte>): (after: Ram)
    requires addr + |bytes| <= |ram|
    ensures |after| == |ram|
  {
    ram[..addr] + bytes + ram[addr + |bytes|..]
  }

  /** Store bytes across the segments, in order, until either runs out. */
  function Scatter(ram: Ram, segs: seq<Seg>, data: seq<Byte>): (after: Ram)
    requires Within(ram, segs)
    ensures |after| == |ram|
    decreases segs
  {
    if segs == [] then ram
    else
      var n := if segs[0].len < |data| then segs[0].len else |data|;
      Scatter(Store(ram, segs[0].addr, data[..n]), segs[1..], data[n..])
  }

  predicate Apart(s: Seg, t: Seg) { s.addr + s.len <= t.addr || t.addr + t.len <= s.addr }

  ghost predicate Disjoint(segs: seq<Seg>) {
    forall i, j | 0 <= i < j < |segs| :: Apart(segs[i], segs[j])
  }

  lemma StoreFrame(ram: Ram, addr: nat, bytes: seq<Byte>, lo: nat, hi: nat)
    requires addr + |bytes| <= |ram| && lo <= hi <= |ram|
    requires hi <= addr || addr + |bytes| <= lo
    ensures Store(ram, addr, bytes)[lo..hi] == ram[lo..hi]
  {
  }

  /** What lies apart from every segment is not touched. */
  lemma {:induction false} ScatterFrame(ram: Ram, segs: seq<Seg>, data: seq<Byte>, s: Seg)
    requires Within(ram, segs) && s.addr + s.len <= |ram|
    requires forall i | 0 <= i < |segs| :: Apart(s, segs[i])
    ensures Scatter(ram, segs, data)[s.addr..s.addr + s.len] == ram[s.addr..s.addr + s.len]
    decreases segs
  {
    if segs != [] {
      var n := if segs[0].len < |data| then segs[0].len else |data|;
      var stored := Store(ram, segs[0].addr, data[..n]);
      assert Apart(s, segs[0]);
      StoreFrame(ram, segs[0].addr, data[..n], s.addr, s.addr + s.len);
      ScatterFrame(stored, segs[1..], data[n..], s);
    }
  }

  lemma StoreReadsBack(ram: Ram, addr: nat, bytes: seq<Byte>, len: nat)
    requires |bytes| <= len && addr + len <= |ram|
    ensures Store(ram, addr, bytes)[addr..addr + len][..|bytes|] == bytes
  {
    var read := Store(ram, addr, bytes)[addr..addr + len][..|bytes|];
    forall k | 0 <= k < |bytes|
      ensures read[k] == bytes[k]
    {
      assert Store(ram, addr, bytes)[addr + k] == bytes[k];
    }
  }

  /** Stored across disjoint segments, the data reads back. */
  lemma {:induction false} ScatterReadsBack(ram: Ram, segs: seq<Seg>, data: seq<Byte>)
    requires Within(ram, segs) && Disjoint(segs) && |data| <= Total(segs)
    ensures Flat(Scatter(ram, segs, data), segs)[..|data|] == data
    decreases segs
  {
    hide Store, Flat, Scatter, Total;
    if segs == [] {
      NoSegments(ram, data);
    } else {
      var (s, rest) := (segs[0], segs[1..]);
      var n := if s.len < |data| then s.len else |data|;
      var stored := Store(ram, s.addr, data[..n]);
      var after := Scatter(stored, rest, data[n..]);
      ScatterStep(ram, segs, data, after);
      assert Disjoint(rest);
      ScatterReadsBack(stored, rest, data[n..]);
      ScatterFrame(stored, rest, data[n..], s);
      StoreReadsBack(ram, s.addr, data[..n], s.len);
      var first := after[s.addr..s.addr + s.len];
      assert first[..n] == data[..n];
      PrefixOfConcat(first, Flat(after, rest), data, n);
    }
  }

  lemma NoSegments(ram: Ram, data: seq<Byte>)
    requires |data| <= Total([])
    ensures Flat(Scatter(ram, [], data), [])[..|data|] == data
  {}

  lemma FlatStep(ram: Ram, segs: seq<Seg>)
    requires Within(ram, segs) && segs != []
    ensures Flat(ram, segs) == ram[segs[0].addr..segs[0].addr + segs[0].len] + Flat(ram, segs[1..])
  {}

  lemma ScatterStep(ram: Ram, segs: seq<Seg>, data: seq<Byte>, after: Ram)
    requires Within(ram, segs) && segs != [] && |after| == |ram|
    ensures var n := if segs[0].len < |data| then segs[0].len else |data|;
      Scatter(ram, segs, data) == Scatter(Store(ram, segs[0].addr, data[..n]), segs[1..], data[n..])
    ensures Flat(after, segs) == after[segs[0].addr..segs[0].addr + segs[0].len] + Flat(after, segs[1..])
    ensures Total(segs) == segs[0].len + Total(segs[1..])
  {}

  lemma PrefixOfConcat<T>(a: seq<T>, b: seq<T>, data: seq<T>, n: nat)
    requires n == (if |a| < |data| then |a| else |data|) && |data| <= |a| + |b|
    requires a[..n] == data[..n] && b[..|data| - n] == data[n..]
    ensures (a + b)[..|data|] == data
  {
  }

  lemma Regroup<T>(a: seq<T>, b: seq<T>, c: seq<T>)
    ensures (a + b) + c == a + (b + c)
  {}

  function Min(a: nat, b: nat): nat { if a < b then a else b }

  /** The bytes of [off, off + len) that exist. */
  function Cut<T>(all: seq<T>, off: nat, len: nat): (slice: seq<T>)
    ensures |slice| <= len
  {
    if off >= |all| then [] else all[off..Min(off + len, |all|)]
  }

  lemma SliceOfSlice<T>(s: seq<T>, a: nat, b: nat, i: nat, j: nat)
    requires i <= j && a + j <= b <= |s|
    ensures s[a..b][i..j] == s[a + i..a + j]
  {
    var (x, y) := (s[a..b][i..j], s[a + i..a + j]);
    assert |x| == |y| && forall k | 0 <= k < |x| :: x[k] == y[k];
  }

  lemma CutConcat<T>(a: seq<T>, b: seq<T>, skip: nat, len: nat)
    ensures Cut(a + b, skip, len) ==
      if skip >= |a| then Cut(b, skip - |a|, len)
      else
        var take := Min(|a| - skip, len);
        a[skip..skip + take] + Cut(b, 0, len - take)
  {
  }

  /** The slice of the segments' bytes that chain_read(off, len) copies. */
  function ChainSlice(ram: Ram, segs: seq<Seg>, off: nat, len: nat): (slice: seq<Byte>)
    requires Within(ram, segs)
    ensures |slice| <= len
  {
    Cut(Flat(ram, segs), off, len)
  }

  lemma ChainSliceStep(ram: Ram, segs: seq<Seg>, skip: nat, len: nat)
    requires Within(ram, segs) && segs != []
    ensures var (s, rest) := (segs[0], segs[1..]);
      ChainSlice(ram, segs, skip, len) ==
        if skip >= s.len then ChainSlice(ram, rest, skip - s.len, len)
        else
          var take := Min(s.len - skip, len);
          ram[s.addr + skip..s.addr + skip + take] + ChainSlice(ram, rest, 0, len - take)
  {
    hide Cut, Flat, Total;
    var (s, rest) := (segs[0], segs[1..]);
    var (whole, others) := (ram[s.addr..s.addr + s.len], Flat(ram, rest));
    FlatStep(ram, segs);
    assert ChainSlice(ram, segs, skip, len) == Cut(whole + others, skip, len);
    assert forall a: nat, n: nat :: ChainSlice(ram, rest, a, n) == Cut(others, a, n);
    hide ChainSlice;
    CutConcat(whole, others, skip, len);
    if skip < s.len { SliceOfSlice(ram, s.addr, s.addr + s.len, skip, skip + Min(s.len - skip, len)); }
  }

  /** `copied`, and then what the segments from the i-th on have from skip on, is what is to be copied. */
  ghost predicate Copying(ram: Ram, segs: seq<Seg>, off: nat, len: nat, i: nat, skip: nat, copied: seq<Byte>) {
    && Within(ram, segs) && i <= |segs| && |copied| <= len
    && copied + ChainSlice(ram, segs[i..], skip, len - |copied|) == ChainSlice(ram, segs, off, len)
  }

  lemma CopyingSkip(ram: Ram, segs: seq<Seg>, off: nat, len: nat, i: nat, skip: nat, copied: seq<Byte>)
    requires Copying(ram, segs, off, len, i, skip, copied) && i < |segs| && skip >= segs[i].len
    ensures Copying(ram, segs, off, len, i + 1, skip - segs[i].len, copied)
  {
    hide ChainSlice;
    assert segs[i..][1..] == segs[i + 1..];
    ChainSliceStep(ram, segs[i..], skip, len - |copied|);
  }

  lemma CopyingMore(ram: Ram, segs: seq<Seg>, off: nat, len: nat, i: nat, skip: nat, copied: seq<Byte>, more: seq<Byte>)
    requires Copying(ram, segs, off, len, i, skip, copied) && i < |segs| && skip < segs[i].len
    requires var from := segs[i].addr + skip;
      var take := Min(segs[i].len - skip, len - |copied|);
      from + take <= |ram| && more == ram[from..from + take]
    ensures Copying(ram, segs, off, len, i + 1, 0, copied + more)
  {
    hide ChainSlice;
    var left := len - |copied|;
    assert segs[i..][1..] == segs[i + 1..];
    ChainSliceStep(ram, segs[i..], skip, left);
    var rest := ChainSlice(ram, segs[i + 1..], 0, left - |more|);
    assert ChainSlice(ram, segs[i..], skip, left) == more + rest;
    hide Within;
    Regroup(copied, more, rest);
  }

  lemma CopyingStart(ram: Ram, segs: seq<Seg>, off: nat, len: nat)
    requires Within(ram, segs)
    ensures Copying(ram, segs, off, len, 0, off, [])
  {
    hide ChainSlice;
    assert segs[0..] == segs;
  }

  lemma CopyingEnd(ram: Ram, segs: seq<Seg>, off: nat, len: nat, i: nat, skip: nat, copied: seq<Byte>)
    requires Copying(ram, segs, off, len, i, skip, copied) && (i == |segs| || |copied| == len)
    ensures copied == ChainSlice(ram, segs, off, len)
  {
    assert ChainSlice(ram, segs[i..], skip, len - |copied|) == [];
  }

  /** chain_read: copy [off, off + dst.Length) of the concatenated segments to dst. */
  method ChainRead(ram: Ram, segs: seq<Seg>, off: nat, dst: array<Byte>)
    requires Within(ram, segs)
    modifies dst
    ensures var slice := ChainSlice(ram, segs, off, dst.Length);
      |slice| <= dst.Length && dst[..] == slice + old(dst[|slice|..])
  {
    hide ChainSlice, Copying;
    var skip := off;
    var done := 0;
    var i := 0;
    CopyingStart(ram, segs, off, dst.Length);
    assert dst[..0] == [];
    while i < |segs| && done < dst.Length
      invariant 0 <= i <= |segs| && 0 <= done <= dst.Length && skip >= 0
      invariant Copying(ram, segs, off, dst.Length, i, skip, dst[..done])
      invariant forall k | done <= k < dst.Length :: dst[k] == old(dst[k])
    {
      if skip >= segs[i].len {
        CopyingSkip(ram, segs, off, dst.Length, i, skip, dst[..done]);
        skip := skip - segs[i].len;
      } else {
        var take := segs[i].len - skip;
        if take > dst.Length - done { take := dst.Length - done; }
        ghost var from := segs[i].addr + skip;
        CopyingMore(ram, segs, off, dst.Length, i, skip, dst[..done], ram[from..from + take]);
        CopyOut(ram, segs[i].addr + skip, dst, done, take);
        done := done + take;
        skip := 0;
      }
      i := i + 1;
    }
    CopyingEnd(ram, segs, off, dst.Length, i, skip, dst[..done]);
    assert dst[..] == dst[..done] + old(dst[done..]);
  }

  /** memcpy out of RAM. */
  method CopyOut(ram: Ram, addr: nat, dst: array<Byte>, at: nat, n: nat)
    requires addr + n <= |ram| && at + n <= dst.Length
    modifies dst
    ensures dst[..at + n] == old(dst[..at]) + ram[addr..addr + n]
    ensures forall k | at + n <= k < dst.Length :: dst[k] == old(dst[k])
  {
    forall j | 0 <= j < n { dst[at + j] := ram[addr + j]; }
  }
}
