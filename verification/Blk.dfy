/**
 The block backend of minivmm.c as a function of guest RAM and the backing file, and what
 it promises: a write through one list of segments reads back through any other.
*/
module Blk {
  import opened Common
  import opened Descriptors
  import opened ScatterGather

  const T_IN := 0
  const T_OUT := 1
  const T_FLUSH := 4
  const S_OK: Byte := 0
  const S_IOERR: Byte := 1
  const S_UNSUPP: Byte := 2
  const OFF_MAX := 0x8000_0000_0000_0000        // off_t is signed
  const HDR_LEN := 16
  const MAX_RW := 0x7fff_f000                   // Linux moves no more in one pread or pwrite

  /** What the uninitialised request header on the stack holds. */
  type Stack = s: seq<Byte> | |s| == HDR_LEN witness seq(HDR_LEN, _ => 0)

  /** pread: nothing at a negative offset, else the bytes up to the end of the file or the limit. */
  function PRead(file: seq<Byte>, off: nat, len: nat): Option<seq<Byte>> {
    if off >= OFF_MAX then None else Some(Cut(file, off, Min(len, MAX_RW)))
  }

  function Pad(file: seq<Byte>, size: nat): seq<Byte> {
    if size <= |file| then file else file + seq(size - |file|, _ => 0 as Byte)
  }

  /** Writing bytes to the file: nothing at a negative offset, else growing it as needed. */
  function PWrite(file: seq<Byte>, off: nat, data: seq<Byte>): Option<seq<Byte>> {
    if off >= OFF_MAX then None
    else if data == [] then Some(file)
    else
      var end := off + |data|;
      Some(Pad(file, end)[..off] + data + Pad(file, end)[end..])
  }

  /** Little-endian fields of the request header. */
  function Le(bytes: seq<Byte>): nat {
    if bytes == [] then 0 else bytes[0] + 256 * Le(bytes[1..])
  }

  datatype InResult = InResult(ram: Ram, total: nat, failed: bool)

  /** The T_IN loop: read each segment in turn, stopping at an error or a short read. */
  function ReadInto(ram: Ram, file: seq<Byte>, segs: seq<Seg>, off: nat): (r: InResult)
    requires Within(ram, segs)
    ensures |r.ram| == |ram|
    decreases segs
  {
    if segs == [] then InResult(ram, 0, false)
    else
      match PRead(file, off, segs[0].len)
      case None => InResult(ram, 0, true)
      case Some(bytes) =>
        var stored := Store(ram, segs[0].addr, bytes);
        if |bytes| < segs[0].len then InResult(stored, |bytes|, false)
        else
          var rest := ReadInto(stored, file, segs[1..], off + |bytes|);
          rest.(total := |bytes| + rest.total)
  }

  datatype OutResult = OutResult(file: seq<Byte>, failed: bool)

  /** The T_OUT loop: write each segment in turn, stopping at an error or a short write. */
  function WriteFrom(ram: Ram, file: seq<Byte>, segs: seq<Seg>, off: nat): OutResult
    requires Within(ram, segs)
    decreases segs
  {
    if segs == [] then OutResult(file, false)
    else
      var n := Min(segs[0].len, MAX_RW);
      match PWrite(file, off, ram[segs[0].addr..segs[0].addr + n])
      case None => OutResult(file, true)
      case Some(written) =>
        if n < segs[0].len then OutResult(written, false) else WriteFrom(ram, written, segs[1..], off + n)
  }

  datatype Request = Request(ram: Ram, file: seq<Byte>, used: nat)

  /** *status = b; a status address at the end of RAM is not part of this model. */
  function SetByte(ram: Ram, addr: nat, b: Byte): (after: Ram)
    ensures |after| == |ram|
  {
    if addr < |ram| then ram[addr := b] else ram
  }

  /** The header as chain_read leaves it, over whatever the stack held. */
  function Header(ram: Ram, segs: seq<Seg>, stack: Stack): (h: seq<Byte>)
    requires Within(ram, segs)
    ensures |h| == HDR_LEN
  {
    var slice := ChainSlice(ram, segs, 0, HDR_LEN);
    slice + stack[|slice|..]
  }

  function DataSegs(segs: seq<Seg>): seq<Seg>
    requires |segs| >= 2
  {
    segs[1..|segs| - 1]
  }

  /** blk_handle */
  function Handle(ram: Ram, file: seq<Byte>, segs: seq<Seg>, stack: Stack): (r: Request)
    requires Within(ram, segs)
    ensures |r.ram| == |ram|
  {
    if |segs| < 2 then Request(ram, file, 0)
    else
      var hdr := Header(ram, segs, stack);
      var kind := Le(hdr[..4]);
      var off := Le(hdr[8..]) * 512 % U64;
      var status := segs[|segs| - 1].addr;
      var ok := SetByte(ram, status, S_OK);
      if kind == T_IN then
        var r := ReadInto(ok, file, DataSegs(segs), off);
        Request(if r.failed then SetByte(r.ram, status, S_IOERR) else r.ram, file, (r.total % U32 + 1) % U32)
      else if kind == T_OUT then
        var w := WriteFrom(ok, file, DataSegs(segs), off);
        Request(if w.failed then SetByte(ok, status, S_IOERR) else ok, w.file, 1)
      else if kind == T_FLUSH then Request(ok, file, 1)
      else Request(SetByte(ok, status, S_UNSUPP), file, 1)
  }

  // --------------------------------------------- independence of segmentation

  /** How many bytes a request moves: all, or up to the limit in the first segment that exceeds it. */
  function Moved(segs: seq<Seg>): (n: nat)
    ensures n <= Total(segs)
  {
    if segs == [] then 0 else if segs[0].len > MAX_RW then MAX_RW else segs[0].len + Moved(segs[1..])
  }

  lemma {:induction false} MovedAllIff(segs: seq<Seg>)
    ensures Moved(segs) == Total(segs) <==> forall i | 0 <= i < |segs| :: segs[i].len <= 0x7fff_f000
  {
    if segs != [] {
      MovedAllIff(segs[1..]);
      assert (forall i | 0 <= i < |segs| :: segs[i].len <= MAX_RW) <==>
        segs[0].len <= MAX_RW && forall i | 0 <= i < |segs[1..]| :: segs[1..][i].len <= MAX_RW;
    }
  }

  /** A segment of one byte more than the limit, which guest memory has room for. */
  lemma LongSegmentCutShort()
    ensures var segs := [Seg(0, MAX_RW + 1, false)];
      segs[0].addr + segs[0].len <= RAM_LIMIT && Moved(segs) == MAX_RW == Total(segs) - 1
  {
  }

  lemma PWriteBytes(file: seq<Byte>, off: nat, data: seq<Byte>)
    requires off < OFF_MAX && data != []
    ensures var (w, end) := (PWrite(file, off, data).value, off + |data|);
      && PWrite(file, off, data).Some?
      && |w| == (if end <= |file| then |file| else end)
      && forall k | 0 <= k < |w| ::
           w[k] == if off <= k < end then data[k - off] else if k < |file| then file[k] else 0
  {
  }

  lemma PWriteTwice(file: seq<Byte>, off: nat, a: seq<Byte>, b: seq<Byte>)
    requires off + |a| < OFF_MAX
    ensures PWrite(file, off, a + b) == PWrite(PWrite(file, off, a).value, off + |a|, b)
  {
    if a == [] {
      assert a + b == b;
    } else if b == [] {
      assert a + b == a;
    } else {
      PWriteBothBytes(file, off, a, b);
    }
  }

  lemma PWriteBothBytes(file: seq<Byte>, off: nat, a: seq<Byte>, b: seq<Byte>)
    requires off + |a| < OFF_MAX && a != [] && b != []
    ensures PWrite(file, off, a + b) == PWrite(PWrite(file, off, a).value, off + |a|, b)
  {
    hide PWrite, Pad;
    PWriteBytes(file, off, a);
    PWriteBytes(file, off, a + b);
    var first := PWrite(file, off, a).value;
    PWriteBytes(first, off + |a|, b);
    var (once, twice) := (PWrite(file, off, a + b).value, PWrite(first, off + |a|, b).value);
    assert |once| == |twice|;
    forall k | 0 <= k < |once|
      ensures once[k] == twice[k]
    {
      assert off <= k < off + |a| ==> (a + b)[k - off] == a[k - off];
    }
    assert once == twice;
  }

  /** A block write puts the concatenated bytes that it moves at the offset, however they are segmented. */
  lemma {:induction false} WriteIsFlat(ram: Ram, file: seq<Byte>, segs: seq<Seg>, off: nat)
    requires Within(ram, segs) && off + Total(segs) < OFF_MAX
    ensures !WriteFrom(ram, file, segs, off).failed
    ensures PWrite(file, off, Flat(ram, segs)[..Moved(segs)]) == Some(WriteFrom(ram, file, segs, off).file)
    decreases segs
  {
    hide PWrite;
    if segs == [] {
      WriteNothing(file, off);
    } else {
      var n := Min(segs[0].len, MAX_RW);
      var bytes := ram[segs[0].addr..segs[0].addr + n];
      WriteSucceeds(file, off, bytes);
      FlatMoved(ram, segs);
      if n == segs[0].len {
        PWriteTwice(file, off, bytes, Flat(ram, segs[1..])[..Moved(segs[1..])]);
        WriteIsFlat(ram, PWrite(file, off, bytes).value, segs[1..], off + n);
      }
    }
  }

  lemma FlatMoved(ram: Ram, segs: seq<Seg>)
    requires Within(ram, segs) && segs != []
    ensures var first := ram[segs[0].addr..segs[0].addr + Min(segs[0].len, MAX_RW)];
      Flat(ram, segs)[..Moved(segs)] ==
        if segs[0].len > MAX_RW then first else first + Flat(ram, segs[1..])[..Moved(segs[1..])]
  {
    var (s, moved) := (segs[0], Moved(segs));
    FlatStep(ram, segs);
    hide Flat;
    TakeConcat(ram[s.addr..s.addr + s.len], Flat(ram, segs[1..]), moved);
    if s.len > MAX_RW { SliceOfSlice(ram, s.addr, s.addr + s.len, 0, MAX_RW); }
  }

  lemma TakeConcat<T>(a: seq<T>, b: seq<T>, n: nat)
    requires n <= |a| + |b|
    ensures (a + b)[..n] == if n < |a| then a[..n] else a + b[..n - |a|]
  {
    if n >= |a| {
      var (x, y) := ((a + b)[..n], a + b[..n - |a|]);
      assert |x| == |y| && forall k | 0 <= k < n :: x[k] == y[k];
    }
  }

  lemma WriteNothing(file: seq<Byte>, off: nat)
    requires off < OFF_MAX
    ensures PWrite(file, off, []) == Some(file)
  {}

  lemma WriteSucceeds(file: seq<Byte>, off: nat, data: seq<Byte>)
    requires off < OFF_MAX
    ensures PWrite(file, off, data).Some?
    ensures Cut(PWrite(file, off, data).value, off, |data|) == data
  {}

  /** A block read stores the bytes of the file that it moves across the segments. */
  lemma {:induction false} ReadIsScatter(ram: Ram, file: seq<Byte>, segs: seq<Seg>, off: nat)
    requires Within(ram, segs) && off + Total(segs) < OFF_MAX
    ensures var (r, bytes) := (ReadInto(ram, file, segs, off), Cut(file, off, Moved(segs)));
      !r.failed && r.total == |bytes| && r.ram == Scatter(ram, segs, bytes)
    decreases segs
  {
    hide Store, Cut;
    if segs != [] {
      var bytes := Cut(file, off, Moved(segs));
      var first := Cut(file, off, Min(segs[0].len, MAX_RW));
      var stored := Store(ram, segs[0].addr, first);
      if segs[0].len <= MAX_RW {
        CutSplits(file, off, segs[0].len, Moved(segs[1..]));
      } else {
        assert bytes[..|first|] == first;
      }
      assert Scatter(ram, segs, bytes) == Scatter(stored, segs[1..], bytes[|first|..]);
      if |first| == segs[0].len {
        ReadIsScatter(stored, file, segs[1..], off + |first|);
      } else {
        assert bytes[|first|..] == [];
        ScatterNothing(stored, segs[1..]);
      }
    }
  }

  lemma CutSplits(file: seq<Byte>, off: nat, m: nat, n: nat)
    ensures var (all, first) := (Cut(file, off, m + n), Cut(file, off, m));
      && |first| <= |all| && |first| == Min(m, |all|) && all[..|first|] == first
      && (|first| == m ==> all[m..] == Cut(file, off + m, n))
      && (|first| < m ==> all == first)
  {
  }

  lemma {:induction false} ScatterNothing(ram: Ram, segs: seq<Seg>)
    requires Within(ram, segs)
    ensures Scatter(ram, segs, []) == ram
    decreases segs
  {
    if segs != [] {
      assert Store(ram, segs[0].addr, []) == ram;
      var none: seq<Byte> := [];
      assert none[..0] == none && none[0..] == none;
      ScatterNothing(ram, segs[1..]);
    }
  }

  /** A request of the given kind and sector whose first segment is a 16-byte header. */
  ghost predicate IsRequest(ram: Ram, segs: seq<Seg>, kind: nat, sector: nat) {
    && Within(ram, segs) && |segs| >= 2 && segs[0].len == HDR_LEN
    && var hdr := ram[segs[0].addr..segs[0].addr + HDR_LEN];
       Le(hdr[..4]) == kind && Le(hdr[8..]) == sector
  }

  /** The status byte is its own: one byte, apart from the header and the data. */
  ghost predicate StatusApart(ram: Ram, segs: seq<Seg>)
    requires |segs| >= 2
  {
    var status := Seg(segs[|segs| - 1].addr, 1, true);
    status.addr < |ram| && forall i | 0 <= i < |segs| - 1 :: Apart(status, segs[i])
  }

  lemma HeaderIsFirstSegment(ram: Ram, segs: seq<Seg>, stack: Stack)
    requires Within(ram, segs) && segs != [] && segs[0].len == HDR_LEN
    ensures Header(ram, segs, stack) == ram[segs[0].addr..segs[0].addr + HDR_LEN]
  {
  }

  lemma {:induction false} StatusLeavesData(ram: Ram, segs: seq<Seg>, addr: nat, b: Byte)
    requires Within(ram, segs) && addr < |ram|
    requires forall i | 0 <= i < |segs| :: Apart(Seg(addr, 1, true), segs[i])
    ensures Flat(SetByte(ram, addr, b), segs) == Flat(ram, segs)
  {
    if segs != [] {
      var s := segs[0];
      assert Apart(Seg(addr, 1, true), s);
      assert SetByte(ram, addr, b)[s.addr..s.addr + s.len] == ram[s.addr..s.addr + s.len];
      StatusLeavesData(ram, segs[1..], addr, b);
    }
  }

  /** Type and sector of a request, in the bytes of its header: least significant first. */
  lemma HeaderBytes(ram: Ram, segs: seq<Seg>, kind: nat, sector: nat)
    requires Within(ram, segs) && |segs| >= 2 && segs[0].len == 16
    ensures IsRequest(ram, segs, kind, sector) <==>
      var h: seq<nat> := ram[segs[0].addr..segs[0].addr + 16];
      && kind == h[0] + 0x100 * h[1] + 0x1_0000 * h[2] + 0x100_0000 * h[3]
      && sector == h[8] + 0x100 * h[9] + 0x1_0000 * h[10] + 0x100_0000 * h[11]
           + 0x1_0000_0000 * h[12] + 0x100_0000_0000 * h[13] + 0x1_0000_0000_0000 * h[14] + 0x100_0000_0000_0000 * h[15]
  {
    var h := ram[segs[0].addr..segs[0].addr + 16];
    FourBytes(h[..4]);
    FourBytes(h[8..][..4]);
    FourBytes(h[8..][4..]);
    EightBytes(h[8..]);
    hide Le;
  }

  lemma FourBytes(b: seq<Byte>)
    requires |b| == 4
    ensures Le(b) == b[0] as nat + 0x100 * b[1] as nat + 0x1_0000 * b[2] as nat + 0x100_0000 * b[3] as nat
  {
    assert b[1..][1..] == b[2..] && b[2..][1..] == b[3..] && b[3..][1..] == [];
    assert Le(b[3..]) == b[3];
    assert Le(b[2..]) == b[2] + 256 * Le(b[3..]);
    assert Le(b[1..]) == b[1] + 256 * Le(b[2..]);
  }

  lemma EightBytes(b: seq<Byte>)
    requires |b| == 8
    ensures Le(b) == Le(b[..4]) + 0x1_0000_0000 * Le(b[4..])
  {
    LeSplit(b[..4], b[4..]);
    assert b == b[..4] + b[4..];
  }

  function Power(n: nat): nat { if n == 0 then 1 else 256 * Power(n - 1) }

  lemma {:induction false} LeSplit(a: seq<Byte>, b: seq<Byte>)
    ensures Le(a + b) == Le(a) + Power(|a|) * Le(b)
  {
    if a == [] {
      assert a + b == b;
    } else {
      assert (a + b)[1..] == a[1..] + b;
      LeSplit(a[1..], b);
      assert 256 * (Power(|a| - 1) * Le(b)) == Power(|a|) * Le(b);
    }
  }

  /** Requests that move no data: too short, a flush, or of an unknown type. */
  lemma OtherRequests(ram: Ram, segs: seq<Seg>, stack: Stack, file: seq<Byte>, kind: nat, sector: nat)
    requires Within(ram, segs)
    requires |segs| >= 2 ==> IsRequest(ram, segs, kind, sector) && segs[|segs| - 1].addr < |ram| && kind !in {0, 1}
    ensures Handle(ram, file, segs, stack) ==
      if |segs| < 2 then Request(ram, file, 0)
      else Request(ram[segs[|segs| - 1].addr := if kind == 4 then 0 else 2], file, 1)
  {
    hide ReadInto, WriteFrom, Le, ChainSlice, Header;
    if |segs| >= 2 {
      HeaderIsFirstSegment(ram, segs, stack);
      var a := segs[|segs| - 1].addr;
      assert ram[a := S_OK][a := S_UNSUPP] == ram[a := S_UNSUPP];
    }
  }

  /** A request for data at a byte offset that is negative as an off_t moves none and reports an I/O error. */
  lemma NegativeOffset(ram: Ram, segs: seq<Seg>, stack: Stack, file: seq<Byte>, kind: nat, sector: nat)
    requires IsRequest(ram, segs, kind, sector) && kind in {0, 1} && |segs| > 2 && segs[|segs| - 1].addr < |ram|
    requires sector * 512 % 0x1_0000_0000_0000_0000 >= 0x8000_0000_0000_0000
    ensures Handle(ram, file, segs, stack) == Request(ram[segs[|segs| - 1].addr := 1], file, 1)
  {
    hide Le, ChainSlice, Header;
    HeaderIsFirstSegment(ram, segs, stack);
    var a := segs[|segs| - 1].addr;
    assert ram[a := S_OK][a := S_IOERR] == ram[a := S_IOERR];
  }

  /** A write request changes the file by the data it moves, and RAM by the status byte. */
  lemma WriteRequest(ram: Ram, segs: seq<Seg>, stack: Stack, file: seq<Byte>, sector: nat)
    requires IsRequest(ram, segs, 1, sector) && StatusApart(ram, segs)
    requires sector * 512 + Total(DataSegs(segs)) < OFF_MAX
    ensures var w := Handle(ram, file, segs, stack);
      && Some(w.file) == PWrite(file, sector * 512, Flat(ram, DataSegs(segs))[..Moved(DataSegs(segs))])
      && w.ram == ram[segs[|segs| - 1].addr := 0] && w.used == 1
  {
    hide ReadInto, WriteFrom, PWrite, Flat, Total, Header, Le, ChainSlice, Moved;
    var (data, status) := (DataSegs(segs), segs[|segs| - 1].addr);
    HeaderIsFirstSegment(ram, segs, stack);
    StatusLeavesData(ram, data, status, S_OK);
    WriteIsFlat(SetByte(ram, status, S_OK), file, data, sector * 512);
  }

  /** A read request returns the file's bytes it moves, up to the end, and counts them and the status byte. */
  lemma ReadRequest(ram: Ram, segs: seq<Seg>, stack: Stack, file: seq<Byte>, sector: nat)
    requires IsRequest(ram, segs, 0, sector) && StatusApart(ram, segs)
    requires Disjoint(DataSegs(segs))
    requires sector * 512 + Total(DataSegs(segs)) < OFF_MAX
    ensures var (r, bytes) := (Handle(ram, file, segs, stack), Cut(file, sector * 512, Moved(DataSegs(segs))));
      && Flat(r.ram, DataSegs(segs))[..|bytes|] == bytes
      && r.ram[segs[|segs| - 1].addr] == 0 && r.file == file
      && r.used == (|bytes| + 1) % 0x1_0000_0000
  {
    hide ReadInto, WriteFrom, PWrite, Flat, Total, Header, Le, ChainSlice, Cut, Scatter, Moved;
    var (data, status) := (DataSegs(segs), segs[|segs| - 1].addr);
    HeaderIsFirstSegment(ram, segs, stack);
    var ok := SetByte(ram, status, S_OK);
    var bytes := Cut(file, sector * 512, Moved(data));
    ReadIsScatter(ok, file, data, sector * 512);
    ScatterReadsBack(ok, data, bytes);
    StatusKept(ok, segs, bytes);
  }

  /**
   What a guest writes at a sector under one list of segments, a later read of the sector
   returns under any other list of the same total length, as far as both requests move bytes:
   all of them when no segment exceeds the limit.  Status is OK, and the used length is the
   number of bytes read plus the status byte.
  */
  lemma WriteThenRead(out: Ram, outSegs: seq<Seg>, stack: Stack, file: seq<Byte>,
                      in_: Ram, inSegs: seq<Seg>, stack': Stack, sector: nat)
    requires IsRequest(out, outSegs, 1, sector) && IsRequest(in_, inSegs, 0, sector)
    requires StatusApart(out, outSegs) && StatusApart(in_, inSegs) && Disjoint(DataSegs(inSegs))
    requires Total(DataSegs(outSegs)) == Total(DataSegs(inSegs))
    requires sector * 512 + Total(DataSegs(outSegs)) < OFF_MAX
    ensures var w := Handle(out, file, outSegs, stack);
      var r := Handle(in_, w.file, inSegs, stack');
      var (o, i) := (Moved(DataSegs(outSegs)), Moved(DataSegs(inSegs)));
      && Flat(r.ram, DataSegs(inSegs))[..Min(o, i)] == Flat(out, DataSegs(outSegs))[..Min(o, i)]
      && (i <= o ==> r.used == (i + 1) % 0x1_0000_0000)
      && ((forall s | s in DataSegs(outSegs) + DataSegs(inSegs) :: s.len <= MAX_RW) ==>
           && Flat(r.ram, DataSegs(inSegs)) == Flat(out, DataSegs(outSegs))
           && r.used == (Total(DataSegs(inSegs)) + 1) % 0x1_0000_0000)
      && w.ram[outSegs[|outSegs| - 1].addr] == 0 == r.ram[inSegs[|inSegs| - 1].addr]
  {
    hide Handle, PWrite, Flat, Total, Cut, Le, Moved;
    var w := Handle(out, file, outSegs, stack);
    var (data, o, i) := (Flat(out, DataSegs(outSegs)), Moved(DataSegs(outSegs)), Moved(DataSegs(inSegs)));
    WriteRequest(out, outSegs, stack, file, sector);
    WriteSucceeds(file, sector * 512, data[..o]);
    ReadRequest(in_, inSegs, stack', w.file, sector);
    CutsAgree(w.file, sector * 512, i, o);
    if forall s | s in DataSegs(outSegs) + DataSegs(inSegs) :: s.len <= MAX_RW {
      MovedAll(DataSegs(outSegs), DataSegs(inSegs));
      MovedAll(DataSegs(inSegs), DataSegs(outSegs));
    }
  }

  lemma MovedAll(segs: seq<Seg>, others: seq<Seg>)
    requires (forall s | s in segs + others :: s.len <= MAX_RW) || (forall s | s in others + segs :: s.len <= MAX_RW)
    ensures Moved(segs) == Total(segs)
  {
    MovedAllIff(segs);
    assert forall i | 0 <= i < |segs| :: segs[i] in segs + others && segs[i] in others + segs;
  }

  lemma CutsAgree(file: seq<Byte>, off: nat, i: nat, o: nat)
    requires |Cut(file, off, o)| == o
    ensures |Cut(file, off, i)| >= Min(o, i) && (i <= o ==> |Cut(file, off, i)| == i)
    ensures Cut(file, off, i)[..Min(o, i)] == Cut(file, off, o)[..Min(o, i)]
  {
    if o > 0 && i > 0 {
      assert off + o <= |file|;
      assert Cut(file, off, i)[..Min(o, i)] == file[off..off + Min(o, i)];
      assert Cut(file, off, o)[..Min(o, i)] == file[off..off + Min(o, i)];
    }
  }

  lemma StatusKept(ram: Ram, segs: seq<Seg>, data: seq<Byte>)
    requires Within(ram, segs) && |segs| >= 2 && StatusApart(ram, segs)
    ensures var a := segs[|segs| - 1].addr; Scatter(ram, DataSegs(segs), data)[a] == ram[a]
  {
    var s := Seg(segs[|segs| - 1].addr, 1, true);
    ScatterFrame(ram, DataSegs(segs), data, s);
    var after := Scatter(ram, DataSegs(segs), data);
    assert after[s.addr..s.addr + 1][0] == ram[s.addr..s.addr + 1][0];
  }
}
