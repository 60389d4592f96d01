/** The scatter-gather DMA channel: splitting a request into a ring of in-memory
    descriptors, launching it, and adding up what the engine reports back. */
module Dma {
  import opened Bits
  import opened Numbers

  datatype Error =
    | NotHalted | Unaligned | CyclicReceive | DivisionByZero
    | CannotWait | NotStarted | DescriptorFailed
    | InternalError | SlaveError | DecodeError | SgInternalError | SgSlaveError | SgDecodeError

  datatype Result = Done | Failed(error: Error)

  /** A contiguous buffer: its physical address and its size in bytes. */
  datatype Buffer = Buffer(physicalAddress: nat, nbytes: nat)

  /** What the engine reads from a 16-word descriptor. */
  datatype Desc = Desc(next: nat, address: nat, length: nat, first: bool, last: bool)

  const WORD: nat := 0x1_0000_0000
  const ADDRESSES: nat := 0x1_0000_0000_0000_0000
  const LENGTH_MASK: nat := 0x03FF_FFFF
  const ERROR_MASK: nat := 0x3000_0000
  const DESC_BYTES: nat := 64

  // ---------------------------------------------------------------- words

  function Lo(x: nat): nat { And(x, 0xFFFF_FFFF) }

  function Hi(x: nat): nat { And(Shr(x, 32), 0xFFFF_FFFF) }

  lemma WordOf(x: nat)
    ensures Lo(x) == x % WORD && Shr(x, 32) == x / WORD
  {
    Pow2Words();
    SplitAt(x, 32);
    ShlIsMul(Shr(x, 32), 32);
  }

  /** A 64-bit address survives being stored as two words. */
  lemma Halves(x: nat)
    ensures Lo(x) < WORD && Hi(x) < WORD
    ensures x < ADDRESSES ==> Lo(x) + WORD * Hi(x) == x
  {
    WordOf(x);
    WordOf(Shr(x, 32));
  }

  /** The control word: length in bits 0 to 25, end of frame in bit 26, start of frame in bit 27. */
  function Control(length: nat, first: bool, last: bool): nat {
    var w := if first then Or(length, Shl(1, 27)) else length;
    if last then Or(w, Shl(1, 26)) else w
  }

  lemma ShlOneBit(k: nat, i: nat)
    ensures Bit(Shl(1, k), i) == (i == k)
  {
    BitShl(1, k, i);
    if i >= k { BitOne(i - k); }
  }

  /** The flags and the length do not disturb each other. */
  lemma ControlParts(length: nat, first: bool, last: bool)
    requires length <= LENGTH_MASK
    ensures And(Control(length, first, last), LENGTH_MASK) == length
    ensures Bit(Control(length, first, last), 27) == first
    ensures Bit(Control(length, first, last), 26) == last
    ensures Control(length, first, last) < 0x1000_0000
  {
    Pow2Words();
    var c := Control(length, first, last);
    forall i: nat ensures Bit(c, i) == (Bit(length, i) || (first && i == 27) || (last && i == 26)) {
      ShlOneBit(27, i);
      ShlOneBit(26, i);
      BitOr(length, Shl(1, 27), i);
      BitOr(if first then Or(length, Shl(1, 27)) else length, Shl(1, 26), i);
    }
    forall i: nat ensures Bit(And(c, LENGTH_MASK), i) == Bit(length, i) {
      BitAnd(c, LENGTH_MASK, i);
      BitMask(26, i);
      if i >= 26 { SmallBits(length, 26, i); }
    }
    SameBits(And(c, LENGTH_MASK), length);
    forall i: nat | i >= 28 ensures !Bit(c, i) { SmallBits(length, 26, i); }
    FitsBits(c, 28);
    SmallBits(length, 26, 26);
    SmallBits(length, 26, 27);
  }

  // ---------------------------------------------------------------- splitting a request

  /** The largest multiple of the alignment that is no larger than the maximum. */
  function LargestBlock(maxSize: nat, align: nat): (b: nat)
    requires align > 0
    ensures b % align == 0 && b <= maxSize < b + align
  {
    AlignedDown(maxSize, align);
    maxSize - maxSize % align
  }

  /** The block size: the largest aligned block, or an aligned half when that exceeds the request. */
  function BlockSize(maxSize: nat, align: nat, nbytes: nat): (b: nat)
    requires align > 0
    ensures b % align == 0 && b <= maxSize
    ensures if nbytes >= LargestBlock(maxSize, align) then b == LargestBlock(maxSize, align)
            else b <= nbytes / 2 < b + align
  {
    var b := LargestBlock(maxSize, align);
    AlignedDown(nbytes / 2, align);
    if b > nbytes then nbytes / 2 - (nbytes / 2) % align else b
  }

  lemma AlignedDown(x: nat, align: nat)
    requires align > 0
    ensures (x - x % align) % align == 0 && 0 <= x - x % align <= x && x < x - x % align + align
  {
    assert x - x % align == align * (x / align);
    MulMod(align, x / align);
  }

  lemma MulMod(a: nat, k: nat)
    requires a > 0
    ensures a * k % a == 0
  {
    DivUnique(a * k, a, k, 0);
  }

  lemma OneMore(k: nat, n: nat)
    ensures (k + 1) * n == k * n + n && 1 * n == n && 0 * n == 0
  {
  }

  function NumDescr(nbytes: nat, blk: nat): nat
    requires blk > 0
  {
    (nbytes + (blk - 1)) / blk
  }

  /** NumDescr rounds up. */
  lemma CeilingDivision(nbytes: nat, blk: nat)
    requires blk > 0
    ensures var n := NumDescr(nbytes, blk);
      nbytes <= n * blk && (n > 0 ==> (n - 1) * blk < nbytes) && (nbytes > 0 ==> n > 0)
  {
    var s := nbytes + (blk - 1);
    var n := s / blk;
    assert s == n * blk + s % blk;
    if n > 0 { OneMore(n - 1, blk); } else { OneMore(0, blk); }
  }

  function Min(a: int, b: int): int { if a < b then a else b }

  /** The ring for nbytes at address, in blocks of blk, with the descriptors themselves at ring. */
  function Descriptors(ring: nat, address: nat, nbytes: nat, blk: nat): (ds: seq<Desc>)
    requires blk > 0
    ensures |ds| == NumDescr(nbytes, blk)
  {
    var n := NumDescr(nbytes, blk);
    CeilingDivision(nbytes, blk);
    seq(n, i requires 0 <= i < n =>
      FullBlocks(nbytes, blk, i);
      Desc(ring + (i + 1) % n * DESC_BYTES, address + i * blk, Min(blk, nbytes - i * blk), i == 0, i == n - 1))
  }

  lemma FullBlocks(nbytes: nat, blk: nat, i: nat)
    requires blk > 0 && i < NumDescr(nbytes, blk)
    ensures 0 <= i * blk < nbytes
    ensures i == NumDescr(nbytes, blk) - 1 <==> nbytes - i * blk <= blk
  {
    CeilingDivision(nbytes, blk);
    var n := NumDescr(nbytes, blk);
    assert i * blk <= (n - 1) * blk by { MulMono(i, n - 1, blk); }
    if i < n - 1 {
      MulMono(i + 1, n - 1, blk);
      assert (i + 1) * blk == i * blk + blk;
    } else {
      assert n * blk == (n - 1) * blk + blk;
    }
  }

  // ---------------------------------------------------------------- the ring tiles the request

  /** Consecutive descriptors cover the request end to end, in aligned pieces of 1 to blk bytes;
      the one that holds its first byte starts the frame, the one that holds its last byte ends it. */
  lemma Tiles(ring: nat, address: nat, nbytes: nat, blk: nat, align: nat)
    requires blk > 0 && nbytes > 0 && align > 0 && blk % align == 0
    ensures var ds := Descriptors(ring, address, nbytes, blk);
      && |ds| > 0 && ds[0].address == address
      && (forall i :: 0 <= i < |ds| ==> 1 <= ds[i].length <= blk)
      && (forall i :: 0 <= i < |ds| - 1 ==> ds[i].address + ds[i].length == ds[i + 1].address)
      && ds[|ds| - 1].address + ds[|ds| - 1].length == address + nbytes
      && (address % align == 0 ==> forall i :: 0 <= i < |ds| ==> ds[i].address % align == 0)
      && (forall i :: 0 <= i < |ds| ==> (ds[i].first <==> ds[i].address == address))
      && (forall i :: 0 <= i < |ds| ==> (ds[i].last <==> ds[i].address + ds[i].length == address + nbytes))
  {
    CeilingDivision(nbytes, blk);
    var ds := Descriptors(ring, address, nbytes, blk);
    forall i | 0 <= i < |ds|
      ensures 1 <= ds[i].length <= blk
      ensures i < |ds| - 1 ==> ds[i].length == blk
      ensures i == |ds| - 1 ==> ds[i].length == nbytes - i * blk
      ensures ds[i].first <==> ds[i].address == address
      ensures ds[i].last <==> ds[i].address + ds[i].length == address + nbytes
      ensures address % align == 0 ==> ds[i].address % align == 0
    {
      FullBlocks(nbytes, blk, i);
      if address % align == 0 { AlignedSum(address, i, blk, align); }
      if i > 0 { MulMono(1, i, blk); }
    }
    forall i | 0 <= i < |ds| - 1 ensures ds[i].address + blk == ds[i + 1].address {
      assert (i + 1) * blk == i * blk + blk;
    }
  }

  lemma {:induction false} AlignedSum(a: nat, i: nat, blk: nat, align: nat)
    requires align > 0 && a % align == 0 && blk % align == 0
    ensures (a + i * blk) % align == 0
    decreases i
  {
    if i > 0 {
      AlignedSum(a, i - 1, blk, align);
      assert a + i * blk == (a + (i - 1) * blk) + blk;
      AddMod(a + (i - 1) * blk, blk, align);
    }
  }

  lemma AddMod(x: nat, y: nat, align: nat)
    requires align > 0 && x % align == 0 && y % align == 0
    ensures (x + y) % align == 0
  {
    var p, q := x / align, y / align;
    assert x == align * p && y == align * q;
    assert x + y == align * (p + q);
    MulMod(align, p + q);
  }

  /** Every byte of the request lies in exactly one descriptor's interval, no other byte in any. */
  lemma EachByteOnce(ring: nat, address: nat, nbytes: nat, blk: nat, b: nat, i: nat)
    requires blk > 0 && i < NumDescr(nbytes, blk)
    ensures var d := Descriptors(ring, address, nbytes, blk)[i];
      d.address <= b < d.address + d.length <==> address <= b < address + nbytes && i == (b - address) / blk
  {
    FullBlocks(nbytes, blk, i);
    if b >= address { Bucket(b - address, blk, i); }
  }

  lemma Bucket(k: nat, blk: nat, i: nat)
    requires blk > 0
    ensures i * blk <= k < i * blk + blk <==> i == k / blk
  {
    if i * blk <= k < i * blk + blk { DivUnique(k, blk, i, k - i * blk); }
    else { assert k == (k / blk) * blk + k % blk; }
  }

  lemma BlockOf(nbytes: nat, blk: nat, k: nat) returns (i: nat)
    requires blk > 0 && k < nbytes
    ensures i == k / blk && i < NumDescr(nbytes, blk)
  {
    i := k / blk;
    CeilingDivision(nbytes, blk);
    if i >= NumDescr(nbytes, blk) {
      MulMono(NumDescr(nbytes, blk), i, blk);
      DivMod(k, blk);
    }
  }

  /** When the halved block comes out as zero: the request is below the largest block and below
      two alignment units.  Otherwise the block is a positive multiple of the alignment. */
  lemma BlockIsZero(maxSize: nat, align: nat, nbytes: nat)
    requires 0 < align <= maxSize
    ensures BlockSize(maxSize, align, nbytes) == 0 <==> nbytes < LargestBlock(maxSize, align) && nbytes < 2 * align
  {
    AlignedDown(maxSize, align);
    var h := nbytes / 2;
    if LargestBlock(maxSize, align) > nbytes {
      AlignedDown(h, align);
      if h < align { SmallMod(h, align); }
    }
  }

  lemma SmallMod(x: nat, a: nat)
    requires x < a
    ensures x % a == x
  {
  }

  /** At least two descriptors are needed - and there are, exactly unless the request is one
      largest block; a halved block gives two to four. */
  lemma HowMany(maxSize: nat, align: nat, nbytes: nat)
    requires 0 < align <= maxSize && BlockSize(maxSize, align, nbytes) > 0
    ensures var big, blk := LargestBlock(maxSize, align), BlockSize(maxSize, align, nbytes);
      var n := NumDescr(nbytes, blk);
      && n >= 1
      && (n >= 2 <==> nbytes != big)
      && (nbytes < big ==> 2 <= n <= 4)
  {
    AlignedDown(maxSize, align);
    var big, blk := LargestBlock(maxSize, align), BlockSize(maxSize, align, nbytes);
    var n := NumDescr(nbytes, blk);
    CeilingDivision(nbytes, blk);
    OneMore(n, blk);
    if big > nbytes {
      var h := nbytes / 2;
      AlignedDown(h, align);
      assert blk <= h;
      MultipleAtLeast(blk, align);
      assert nbytes <= 2 * h + 1 && h < blk + align && align <= blk;
      assert nbytes <= 4 * blk;
      if n > 4 { MulMono(4, n - 1, blk); }
    } else if n > 1 && nbytes == big {
      MulMono(1, n - 1, blk);
    }
  }

  lemma MultipleAtLeast(x: nat, a: nat)
    requires 0 < a && 0 < x && x % a == 0
    ensures a <= x
  {
    if x < a { SmallMod(x, a); }
  }

  // ---------------------------------------------------------------- the ring is one cycle

  /** The descriptor whose address is p. */
  function At(ring: nat, p: int): int { (p - ring) / DESC_BYTES }

  /** The address reached from the first descriptor after k next pointers. */
  function Follow(ring: nat, ds: seq<Desc>, k: nat): int {
    if k == 0 then ring
    else
      var i := At(ring, Follow(ring, ds, k - 1));
      if 0 <= i < |ds| then ds[i].next else -1
  }

  /** Following next pointers goes round all descriptors in order, for ever. */
  lemma {:induction false} OneCycle(ring: nat, address: nat, nbytes: nat, blk: nat, k: nat)
    requires blk > 0 && nbytes > 0
    ensures var n := NumDescr(nbytes, blk);
      n > 0 && Follow(ring, Descriptors(ring, address, nbytes, blk), k) == ring + k % n * DESC_BYTES
  {
    CeilingDivision(nbytes, blk);
    var n := NumDescr(nbytes, blk);
    if k > 0 {
      OneCycle(ring, address, nbytes, blk, k - 1);
      var i := (k - 1) % n;
      assert At(ring, ring + i * DESC_BYTES) == i;
      NextMod(k - 1, n);
    } else {
      assert 0 % n == 0;
    }
  }

  lemma NextMod(k: nat, n: nat)
    requires n > 0
    ensures (k % n + 1) % n == (k + 1) % n
  {
    var q, i := k / n, k % n;
    DivMod(k, n);
    OneMore(q, n);
    if i + 1 < n { DivUnique(k + 1, n, q, i + 1); SmallMod(i + 1, n); }
    else { DivUnique(k + 1, n, q + 1, 0); DivUnique(n, n, 1, 0); }
  }

  /** What the tail pointer names: the last descriptor, or in cyclic mode the first address past the ring. */
  function Tail(ring: nat, n: nat, cyclic: bool): nat
    requires n > 0
  {
    if cyclic then ring + n * DESC_BYTES else ring + (n - 1) * DESC_BYTES
  }

  /** From the first descriptor up to the tail the engine fetches every descriptor once, in order. */
  lemma FetchesAll(ring: nat, address: nat, nbytes: nat, blk: nat, k: nat)
    requires blk > 0 && nbytes > 0 && k < NumDescr(nbytes, blk)
    ensures var n := NumDescr(nbytes, blk);
      var p := Follow(ring, Descriptors(ring, address, nbytes, blk), k);
      && p == ring + k * DESC_BYTES && (p == Tail(ring, n, false) <==> k == n - 1)
  {
    OneCycle(ring, address, nbytes, blk, k);
    SmallMod(k, NumDescr(nbytes, blk));
  }

  /** The tail pointer is a ring member - the one reached last - exactly in normal mode. */
  lemma TailInRing(ring: nat, address: nat, nbytes: nat, blk: nat, cyclic: bool)
    requires blk > 0 && nbytes > 0
    ensures NumDescr(nbytes, blk) > 0
    ensures var n := NumDescr(nbytes, blk);
      var ds := Descriptors(ring, address, nbytes, blk);
      && (!cyclic ==> Follow(ring, ds, n - 1) == Tail(ring, n, cyclic) && Follow(ring, ds, n) == ring)
      && (cyclic ==> forall k: nat :: Follow(ring, ds, k) != Tail(ring, n, cyclic))
  {
    OneCycle(ring, address, nbytes, blk, 0);
    var n := NumDescr(nbytes, blk);
    var ds := Descriptors(ring, address, nbytes, blk);
    OneCycle(ring, address, nbytes, blk, n - 1);
    OneCycle(ring, address, nbytes, blk, n);
    SmallMod(n - 1, n);
    DivUnique(n, n, 1, 0);
    forall k: nat | cyclic ensures Follow(ring, ds, k) != Tail(ring, n, cyclic) {
      OneCycle(ring, address, nbytes, blk, k);
    }
  }

  // ---------------------------------------------------------------- accounting

  /** The bytes a list of status words reports. */
  function Reported(status: seq<nat>): nat {
    if status == [] then 0 else Reported(status[..|status| - 1]) + And(status[|status| - 1], LENGTH_MASK)
  }

  function Lengths(ds: seq<Desc>): nat {
    if ds == [] then 0 else Lengths(ds[..|ds| - 1]) + ds[|ds| - 1].length
  }

  /** The first k blocks end where block k begins. */
  lemma {:induction false} LengthsUpTo(ring: nat, address: nat, nbytes: nat, blk: nat, k: nat)
    requires blk > 0 && nbytes > 0 && k <= NumDescr(nbytes, blk)
    ensures var ds := Descriptors(ring, address, nbytes, blk);
      Lengths(ds[..k]) == if k == |ds| then nbytes else k * blk
  {
    hide Descriptors, NumDescr;
    CeilingDivision(nbytes, blk);
    if k > 0 {
      LengthsUpTo(ring, address, nbytes, blk, k - 1);
      PrefixPrefix(Descriptors(ring, address, nbytes, blk), k);
      LengthAt(ring, address, nbytes, blk, k - 1);
      FullBlocks(nbytes, blk, k - 1);
      OneMore(k - 1, blk);
    } else {
      OneMore(0, blk);
    }
  }

  lemma LengthAt(ring: nat, address: nat, nbytes: nat, blk: nat, i: nat)
    requires blk > 0 && i < NumDescr(nbytes, blk)
    ensures Descriptors(ring, address, nbytes, blk)[i].length == Min(blk, nbytes - i * blk)
  {
  }

  lemma PrefixPrefix(ds: seq<Desc>, k: nat)
    requires 0 < k <= |ds|
    ensures ds[..k][..k - 1] == ds[..k - 1]
  {
  }

  lemma {:induction false} ReportedBound(status: seq<nat>, ds: seq<Desc>)
    requires |status| == |ds|
    requires forall i :: 0 <= i < |ds| ==> And(status[i], LENGTH_MASK) <= ds[i].length
    ensures Reported(status) <= Lengths(ds)
    ensures Reported(status) == Lengths(ds) <==> forall i :: 0 <= i < |ds| ==>
      And(status[i], LENGTH_MASK) == ds[i].length
  {
    if ds != [] {
      var k := |ds| - 1;
      ReportedBound(status[..k], ds[..k]);
      if forall i :: 0 <= i < k ==> And(status[..k][i], LENGTH_MASK) == ds[..k][i].length {
        forall i | 0 <= i < k ensures And(status[i], LENGTH_MASK) == ds[i].length {
          assert And(status[..k][i], LENGTH_MASK) == ds[..k][i].length;
        }
      }
    }
  }

  /** If no descriptor reports more than its length, the total is at most the request, and equal
      to it exactly if every descriptor reports its full length. */
  lemma Accounting(ring: nat, address: nat, nbytes: nat, blk: nat, status: seq<nat>)
    requires blk > 0 && nbytes > 0 && |status| == NumDescr(nbytes, blk)
    requires var ds := Descriptors(ring, address, nbytes, blk);
      forall i :: 0 <= i < |ds| ==> And(status[i], LENGTH_MASK) <= ds[i].length
    ensures Reported(status) <= nbytes
    ensures var ds := Descriptors(ring, address, nbytes, blk);
      Reported(status) == nbytes <==> forall i :: 0 <= i < |ds| ==> And(status[i], LENGTH_MASK) == ds[i].length
  {
    var ds := Descriptors(ring, address, nbytes, blk);
    LengthsUpTo(ring, address, nbytes, blk, |ds|);
    assert ds[..|ds|] == ds;
    ReportedBound(status, ds);
  }

  /** The i-th descriptor, and that its words hold it. */
  lemma DescriptorAt(ring: nat, address: nat, nbytes: nat, blk: nat, i: nat)
    requires 0 < blk <= LENGTH_MASK && i < NumDescr(nbytes, blk)
    requires ring + NumDescr(nbytes, blk) * DESC_BYTES <= ADDRESSES && address + nbytes <= ADDRESSES
    ensures 0 < nbytes - i * blk
    ensures var last := i == NumDescr(nbytes, blk) - 1;
      var next := ring + (i + 1) % NumDescr(nbytes, blk) * DESC_BYTES;
      var addr, len := address + i * blk, Min(blk, nbytes - i * blk);
      && Descriptors(ring, address, nbytes, blk)[i] == Desc(next, addr, len, i == 0, last)
      && Lo(next) + WORD * Hi(next) == next && Lo(next) < WORD && Hi(next) < WORD
      && Lo(addr) + WORD * Hi(addr) == addr && Lo(addr) < WORD && Hi(addr) < WORD
      && And(Control(len, i == 0, last), LENGTH_MASK) == len
      && Bit(Control(len, i == 0, last), 27) == (i == 0) && Bit(Control(len, i == 0, last), 26) == last
      && Control(len, i == 0, last) < WORD
      && (last <==> nbytes - i * blk <= blk)
  {
    hide Control, Lo, Hi, And, Bit, NumDescr;
    FullBlocks(nbytes, blk, i);
    Halves(ring + (i + 1) % NumDescr(nbytes, blk) * DESC_BYTES);
    Halves(address + i * blk);
    ControlParts(Min(blk, nbytes - i * blk), i == 0, i == NumDescr(nbytes, blk) - 1);
  }

  // ---------------------------------------------------------------- the channel

  function StopWrites(offset: nat, cyclic: bool): seq<(nat, nat)> {
    [(offset, 0)] + if cyclic then [(0, 0x0004), (0, 0x0000)] else []
  }

  function ControlWord(cyclic: bool, interrupt: bool): nat {
    (if interrupt then 0x1001 else 0x0001) + (if cyclic then 0x0010 else 0)
  }

  /** What transfer writes to the idled engine, in order: name the first descriptor, start the
      engine, and only then name the tail, which sets it going. */
  function LaunchWrites(offset: nat, ring: nat, n: nat, cyclic: bool, interrupt: bool): seq<(nat, nat)>
    requires n > 0
  {
    var tail := Tail(ring, n, cyclic);
    [(offset + 0x08, Lo(ring)), (offset + 0x0C, Hi(ring)),
     (offset, ControlWord(cyclic, interrupt)),
     (offset + 0x10, Lo(tail)), (offset + 0x14, Hi(tail))]
  }

  /** What the engine makes of the writes it has seen: where its descriptors start and end, whether
      it runs, and whether it fetches, which naming the tail of a running engine sets off. */
  datatype Engine = Engine(first: nat, tail: nat, running: bool, cyclic: bool, fetching: bool)

  function LowHalf(x: nat, low: nat): nat { x - x % WORD + low }

  function HighHalf(x: nat, high: nat): nat { x % WORD + WORD * high }

  function See(e: Engine, offset: nat, at: nat, value: nat): Engine {
    if at == offset then Engine(e.first, e.tail, Bit(value, 0), Bit(value, 4), e.fetching && Bit(value, 0))
    else if at == offset + 0x08 then e.(first := LowHalf(e.first, value))
    else if at == offset + 0x0C then e.(first := HighHalf(e.first, value))
    else if at == offset + 0x10 then e.(tail := LowHalf(e.tail, value))
    else if at == offset + 0x14 then e.(tail := HighHalf(e.tail, value), fetching := e.running)
    else e
  }

  function Seen(offset: nat, writes: seq<(nat, nat)>): Engine {
    if writes == [] then Engine(0, 0, false, false, false)
    else
      var w := writes[|writes| - 1];
      See(Seen(offset, writes[..|writes| - 1]), offset, w.0, w.1)
  }

  lemma SeeOne(offset: nat, writes: seq<(nat, nat)>, at: nat, value: nat)
    ensures Seen(offset, writes + [(at, value)]) == See(Seen(offset, writes), offset, at, value)
  {
    assert (writes + [(at, value)])[..|writes|] == writes;
  }

  /** The writes of a stop leave the engine stopped. */
  lemma StopSeen(offset: nat, before: seq<(nat, nat)>, cyclic: bool)
    ensures var e := Seen(offset, before + StopWrites(offset, cyclic)); !e.running && !e.fetching
  {
    var s1 := before + [(offset, 0)];
    var s2 := s1 + [(0, 0x0004)];
    BitZero(0);
    SeeOne(offset, before, offset, 0);
    SeeOne(offset, s1, 0, 0x0004);
    SeeOne(offset, s2, 0, 0x0000);
    assert before + StopWrites(offset, cyclic) == if cyclic then s2 + [(0, 0x0000)] else s1;
  }

  lemma BothHalves(x: nat, was: nat)
    requires x < ADDRESSES
    ensures HighHalf(LowHalf(was, Lo(x)), Hi(x)) == x
  {
    Halves(x);
  }

  lemma StartBits(cyclic: bool, interrupt: bool)
    ensures Bit(ControlWord(cyclic, interrupt), 0) && Bit(ControlWord(cyclic, interrupt), 4) == cyclic
    ensures Bit(ControlWord(cyclic, interrupt), 12) == interrupt
  {
    assert Bit(0x1011, 4) && Bit(0x0011, 4) && !Bit(0x1001, 4) && !Bit(0x0001, 4);
    assert Bit(0x1011, 12) && Bit(0x1001, 12) && !Bit(0x0011, 12) && !Bit(0x0001, 12);
  }

  /** The writes of a launch make the engine fetch, from the first descriptor up to the tail. */
  lemma LaunchSeen(offset: nat, before: seq<(nat, nat)>, ring: nat, n: nat, cyclic: bool, interrupt: bool)
    requires n > 0 && ring < ADDRESSES
    ensures var e := Seen(offset, before + LaunchWrites(offset, ring, n, cyclic, interrupt));
      && e.running && e.fetching && e.cyclic == cyclic && e.first == ring
      && (Tail(ring, n, cyclic) < ADDRESSES ==> e.tail == Tail(ring, n, cyclic))
  {
    hide Lo, Hi, Bit, ControlWord, Tail, LowHalf, HighHalf, Seen;
    var tail, control := Tail(ring, n, cyclic), ControlWord(cyclic, interrupt);
    var s1 := before + [(offset + 0x08, Lo(ring))];
    var s2 := s1 + [(offset + 0x0C, Hi(ring))];
    var s3 := s2 + [(offset, control)];
    var s4 := s3 + [(offset + 0x10, Lo(tail))];
    assert before + LaunchWrites(offset, ring, n, cyclic, interrupt) == s4 + [(offset + 0x14, Hi(tail))];
    SeeOne(offset, before, offset + 0x08, Lo(ring));
    SeeOne(offset, s1, offset + 0x0C, Hi(ring));
    SeeOne(offset, s2, offset, control);
    SeeOne(offset, s3, offset + 0x10, Lo(tail));
    SeeOne(offset, s4, offset + 0x14, Hi(tail));
    StartBits(cyclic, interrupt);
    BothHalves(ring, Seen(offset, before).first);
    if tail < ADDRESSES { BothHalves(tail, Seen(offset, s3).tail); }
  }

  /** What the status register says is wrong, in the order the bits are looked at. */
  function EngineError(status: nat): Result {
    if Bit(status, 4) then Failed(InternalError)
    else if Bit(status, 5) then Failed(SlaveError)
    else if Bit(status, 6) then Failed(DecodeError)
    else if Bit(status, 8) then Failed(SgInternalError)
    else if Bit(status, 9) then Failed(SgSlaveError)
    else if Bit(status, 10) then Failed(SgDecodeError)
    else Done
  }

  lemma AnEngineError(status: nat)
    ensures EngineError(status) != Failed(DescriptorFailed)
  {
  }

  /** Those are the bits of the mask that tells whether there is an error at all. */
  lemma ErrorBits(status: nat)
    ensures EngineError(status).Done? <==> And(status, 0x770) == 0
  {
    forall i: nat ensures Bit(And(status, 0x770), i) == (Bit(status, i) && (4 <= i <= 6 || 8 <= i <= 10)) {
      BitAnd(status, 0x770, i);
      MaskBits(i);
    }
    if EngineError(status).Done? {
      forall i: nat ensures Bit(And(status, 0x770), i) == Bit(0, i) { BitZero(i); }
      SameBits(And(status, 0x770), 0);
    } else {
      BitZero(4); BitZero(5); BitZero(6); BitZero(8); BitZero(9); BitZero(10);
    }
  }

  lemma MaskBits(i: nat)
    ensures Bit(0x770, i) <==> 4 <= i <= 6 || 8 <= i <= 10
  {
    hide *;
    MaskIs();
    BitOr(Shl(7, 4), Shl(7, 8), i);
    BitShl(7, 4, i);
    BitShl(7, 8, i);
    if i >= 4 { BitMask(3, i - 4); }
    if i >= 8 { BitMask(3, i - 8); }
  }

  lemma MaskIs()
    ensures Or(Shl(7, 4), Shl(7, 8)) == 0x770 && Pow2(3) - 1 == 7
  {
    assert Shl(7, 4) == 0x70 && Shl(7, 8) == 0x700;
  }

  /** Polling ends at a status word that has an error, or says idle or halted. */
  predicate EndsPolling(status: nat) {
    EngineError(status).Failed? || Bit(status, 1) || Bit(status, 0)
  }

  /** The status word polling ends at. */
  function Settled(polls: seq<nat>): (status: nat)
    requires exists i :: 0 <= i < |polls| && EndsPolling(polls[i])
    ensures EndsPolling(status)
  {
    if EndsPolling(polls[0]) then polls[0] else
      assert exists i :: 0 <= i < |polls[1..]| && EndsPolling(polls[1..][i]) by {
        var i :| 0 <= i < |polls| && EndsPolling(polls[i]);
        assert polls[1..][i - 1] == polls[i];
      }
      Settled(polls[1..])
  }

  /** At turn i the status word says idle or halted, and no word up to it tells of an error or of
      either before. */
  predicate Finished(polls: seq<nat>, i: nat)
    requires i < |polls|
  {
    && (forall j :: 0 <= j <= i ==> And(polls[j], 0x770) == 0)
    && (forall j :: 0 <= j < i ==> !Bit(polls[j], 0) && !Bit(polls[j], 1))
    && (Bit(polls[i], 0) || Bit(polls[i], 1))
  }

  lemma {:induction false} SettledFirst(polls: seq<nat>) returns (i: nat)
    requires exists i :: 0 <= i < |polls| && EndsPolling(polls[i])
    ensures i < |polls| && polls[i] == Settled(polls) && forall j :: 0 <= j < i ==> !EndsPolling(polls[j])
  {
    i := 0;
    if !EndsPolling(polls[0]) {
      var k :| 0 <= k < |polls| && EndsPolling(polls[k]);
      assert polls[1..][k - 1] == polls[k];
      i := SettledFirst(polls[1..]);
      forall j | 0 < j < i + 1 ensures !EndsPolling(polls[j]) { assert polls[1..][j - 1] == polls[j]; }
      i := i + 1;
    }
  }

  lemma SettledFinished(polls: seq<nat>)
    requires exists i :: 0 <= i < |polls| && EndsPolling(polls[i])
    requires EngineError(Settled(polls)).Done?
    ensures exists i: nat :: i < |polls| && Finished(polls, i)
  {
    var i := SettledFirst(polls);
    hide And, Bit, EngineError;
    forall j | 0 <= j <= i ensures And(polls[j], 0x770) == 0 { ErrorBits(polls[j]); }
    assert Finished(polls, i);
  }

  /** What a transfer was asked to move, and in which blocks. */
  datatype Request = Request(address: nat, nbytes: nat, blk: nat)

  /** The bytes to move: everything after start when the caller passes 0. */
  function Requested(buf: Buffer, start: nat, nbytes: nat): nat
    requires nbytes == 0 ==> start <= buf.nbytes
  {
    if nbytes == 0 then buf.nbytes - start else nbytes
  }

  class SgChannel {
    const maxSize: nat
    const align: nat
    const transmit: bool
    const dre: bool
    const interrupt: bool
    var cyclic: bool
    var transferStarted: bool
    var transferred: nat
    var numDescr: nat
    var descr: array2?<nat>
    var ring: nat                     // the physical address of descr
    var writes: seq<(nat, nat)>       // every register write so far
    ghost var request: Request        // what descr was made for

    constructor (maxSize: nat, align: nat, transmit: bool, dre: bool, interrupt: bool)
      requires 0 < align <= maxSize <= LENGTH_MASK
      ensures Valid() && !transferStarted && !cyclic
      ensures this.maxSize == maxSize && this.align == align && this.transmit == transmit && this.dre == dre
      ensures writes == StopWrites(Offset(), false)
    {
      this.maxSize, this.align, this.transmit, this.dre, this.interrupt := maxSize, align, transmit, dre, interrupt;
      cyclic, transferStarted, transferred, numDescr, descr, ring := false, false, 0, 0, null, 0;
      writes, request := [], Request(0, 0, 0);
      new;
      Stop();
    }

    function Offset(): nat { if transmit then 0 else 0x30 }

    ghost predicate Valid()
      reads this
    {
      && 0 < align <= maxSize <= LENGTH_MASK
      && (transferStarted ==> descr != null && descr.Length0 == numDescr && descr.Length1 == 16)
    }

    method Write(offset: nat, value: nat)
      modifies `writes
      ensures writes == old(writes) + [(offset, value)]
    {
      writes := writes + [(offset, value)];
    }

    method Stop()
      requires 0 < align <= maxSize <= LENGTH_MASK
      modifies `writes, `transferStarted
      ensures Valid() && !transferStarted && writes == old(writes) + StopWrites(Offset(), cyclic)
    {
      Write(Offset(), 0x0000);
      if cyclic {
        Write(0x0, 0x0004);
        Write(0x0, 0x0000);
      }
      transferStarted := false;
    }

    method Start()
      modifies `writes, `transferStarted
      ensures transferStarted && writes == old(writes) + [(Offset(), ControlWord(cyclic, interrupt))]
    {
      if !cyclic {
        if interrupt { Write(Offset(), 0x1001); } else { Write(Offset(), 0x0001); }
      } else {
        if interrupt { Write(Offset(), 0x1011); } else { Write(Offset(), 0x0011); }
      }
      transferStarted := true;
    }

    /** The descriptor in row i, as the engine reads it. */
    function Decode(d: array2<nat>, i: nat): Desc
      requires i < d.Length0 && d.Length1 == 16
      reads d
    {
      Desc(d[i, 0] + WORD * d[i, 1], d[i, 2] + WORD * d[i, 3],
           And(d[i, 6], LENGTH_MASK), Bit(d[i, 6], 27), Bit(d[i, 6], 26))
    }

    /** The words of row i that the driver writes are 32-bit words. */
    predicate FitsWords(d: array2<nat>, i: nat)
      requires i < d.Length0 && d.Length1 == 16
      reads d
    {
      d[i, 0] < WORD && d[i, 1] < WORD && d[i, 2] < WORD && d[i, 3] < WORD && d[i, 6] < WORD
    }

    /** The descriptors in memory are those of the request. */
    ghost predicate RingHolds()
      reads this, descr
    {
      && descr != null && descr.Length0 == numDescr && descr.Length1 == 16
      && request.blk > 0 && request.nbytes > 0 && numDescr == NumDescr(request.nbytes, request.blk)
      && forall i :: 0 <= i < numDescr ==>
           Decode(descr, i) == Descriptors(ring, request.address, request.nbytes, request.blk)[i]
    }

    /** Row i of the ring moves byte b of memory. */
    ghost predicate Moves(i: nat, b: nat)
      requires descr != null && i < descr.Length0 && descr.Length1 == 16
      reads this, descr
    {
      Decode(descr, i).address <= b < Decode(descr, i).address + Decode(descr, i).length
    }

    ghost predicate Moved(b: nat)
      requires descr != null && descr.Length0 == numDescr && descr.Length1 == 16
      reads this, descr
    {
      exists i: nat :: i < numDescr && Moves(i, b)
    }

    /** The rows move exactly the bytes from lo up to hi, end to end. */
    ghost predicate Covers(lo: nat, hi: nat)
      requires descr != null && descr.Length0 == numDescr && descr.Length1 == 16
      reads this, descr
    {
      && (forall b: nat :: lo <= b < hi <==> Moved(b))
      && (forall i :: 0 <= i < numDescr - 1 ==>
            Decode(descr, i).address + Decode(descr, i).length == Decode(descr, i + 1).address)
    }

    lemma RingCovers()
      requires RingHolds()
      ensures Covers(request.address, request.address + request.nbytes)
    {
      hide *;
      RingIs();
      forall b: nat ensures request.address <= b < request.address + request.nbytes <==> Moved(b) { RingMoves(b); }
      EndToEnd();
    }

    lemma RingIs()
      requires RingHolds()
      ensures descr != null && descr.Length0 == numDescr && descr.Length1 == 16
      ensures forall lo: nat, hi: nat :: Covers(lo, hi) <==>
        && (forall b: nat :: lo <= b < hi <==> Moved(b))
        && (forall i :: 0 <= i < numDescr - 1 ==>
              Decode(descr, i).address + Decode(descr, i).length == Decode(descr, i + 1).address)
    {
    }

    lemma EndToEnd()
      requires RingHolds()
      ensures forall i :: 0 <= i < numDescr - 1 ==>
        Decode(descr, i).address + Decode(descr, i).length == Decode(descr, i + 1).address
    {
      hide Descriptors, NumDescr, And, Bit;
      Tiles(ring, request.address, request.nbytes, request.blk, 1);
    }

    lemma RingMoves(b: nat)
      requires RingHolds()
      ensures request.address <= b < request.address + request.nbytes <==> Moved(b)
    {
      hide Descriptors, NumDescr, And, Bit;
      var lo, nbytes, blk := request.address, request.nbytes, request.blk;
      if lo <= b < lo + nbytes {
        var i := BlockOf(nbytes, blk, b - lo);
        EachByteOnce(ring, lo, nbytes, blk, b, i);
        assert Moves(i, b);
      }
      if i: nat :| i < numDescr && Moves(i, b) { EachByteOnce(ring, lo, nbytes, blk, b, i); }
    }

    /** No descriptor reports an error, or more than its length. */
    ghost predicate NoneOver()
      requires descr != null && descr.Length0 == numDescr && descr.Length1 == 16
      reads this, descr
    {
      forall i :: 0 <= i < numDescr ==>
        And(descr[i, 7], ERROR_MASK) == 0 && And(descr[i, 7], LENGTH_MASK) <= Decode(descr, i).length
    }

    /** Every descriptor reports its own length. */
    ghost predicate AllReported()
      requires descr != null && descr.Length0 == numDescr && descr.Length1 == 16
      reads this, descr
    {
      forall i :: 0 <= i < numDescr ==> And(descr[i, 7], LENGTH_MASK) == Decode(descr, i).length
    }

    /** The status words of the first k descriptors. */
    ghost function Status(d: array2<nat>, k: nat): seq<nat>
      requires k <= d.Length0 && d.Length1 == 16
      reads d
    {
      seq(k, i requires 0 <= i < k reads d => d[i, 7])
    }

    /** The engine's status reports, in word 7 of a row, do not touch the request's ring. */
    twostate lemma StatusKeepsRing()
      requires old(RingHolds()) && unchanged(this)
      requires forall i, k :: 0 <= i < descr.Length0 && 0 <= k < 16 && k != 7 ==> descr[i, k] == old(descr[i, k])
      ensures RingHolds()
    {
      forall i | 0 <= i < numDescr ensures Decode(descr, i) == old(Decode(descr, i)) {}
    }

    /** What the ring reports is at most the request, and all of it iff every descriptor is full. */
    lemma RingAccounting()
      requires RingHolds() && NoneOver()
      ensures Reported(Status(descr, numDescr)) <= request.nbytes
      ensures Reported(Status(descr, numDescr)) == request.nbytes <==> AllReported()
    {
      var ds := Descriptors(ring, request.address, request.nbytes, request.blk);
      var status := Status(descr, numDescr);
      forall i | 0 <= i < |ds| ensures And(status[i], LENGTH_MASK) <= ds[i].length { assert Decode(descr, i) == ds[i]; }
      Accounting(ring, request.address, request.nbytes, request.blk, status);
      forall i | 0 <= i < numDescr ensures Decode(descr, i).length == ds[i].length && status[i] == descr[i, 7] {}
    }

    lemma NoneFails()
      requires descr != null && descr.Length0 == numDescr && descr.Length1 == 16 && NoneOver()
      ensures NoRowFails(descr, numDescr)
    {
    }

    /** Point row i at the next row, the last one back at the first. */
    method SetNext(d: array2<nat>, i: nat)
      requires i < d.Length0 == numDescr && d.Length1 == 16
      modifies d
      ensures forall j, k :: 0 <= j < d.Length0 && 0 <= k < 16 && (j != i || k > 1) ==> d[j, k] == old(d[j, k])
      ensures d[i, 0] == Lo(ring + (i + 1) % numDescr * DESC_BYTES)
      ensures d[i, 1] == Hi(ring + (i + 1) % numDescr * DESC_BYTES)
    {
      if cyclic && i == numDescr - 1 {
        DivUnique(i + 1, numDescr, 1, 0);
        d[i, 0] := Lo(ring);
        d[i, 1] := Hi(ring);
      } else {
        d[i, 0] := Lo(ring + (i + 1) % numDescr * 16 * 4);
        d[i, 1] := Hi(ring + (i + 1) % numDescr * 16 * 4);
      }
    }

    /** Give row i its block of the request. */
    method SetBlock(d: array2<nat>, i: nat, address: nat, remain: nat, blk: nat) returns (left: nat)
      requires i < d.Length0 == numDescr && d.Length1 == 16
      requires 0 < blk <= LENGTH_MASK && remain > 0
      modifies d
      ensures left == remain - Min(blk, remain)
      ensures forall j, k :: 0 <= j < d.Length0 && 0 <= k < 16 && (j != i || k < 2 || k == 7) ==>
        d[j, k] == old(d[j, k])
      ensures d[i, 2] == Lo(address + i * blk) && d[i, 3] == Hi(address + i * blk)
      ensures d[i, 6] == Control(Min(blk, remain), i == 0, left == 0)
    {
      var dLen := if remain > blk then blk else remain;
      d[i, 6] := dLen;
      left := remain - dLen;
      d[i, 2] := Lo(address + i * blk);
      d[i, 3] := Hi(address + i * blk);
      if i == 0 { d[i, 6] := Or(d[i, 6], Shl(1, 27)); }
      if left == 0 { d[i, 6] := Or(d[i, 6], Shl(1, 26)); }
    }

    /** The loop over the whole ring. */
    method FillRing(d: array2<nat>, address: nat, nbytes: nat, blk: nat)
      requires 0 < blk <= LENGTH_MASK && nbytes > 0
      requires d.Length0 == numDescr == NumDescr(nbytes, blk) && d.Length1 == 16
      requires ring + numDescr * DESC_BYTES <= ADDRESSES && address + nbytes <= ADDRESSES
      modifies d
      ensures forall i :: 0 <= i < numDescr ==>
        Decode(d, i) == Descriptors(ring, address, nbytes, blk)[i] && FitsWords(d, i)
    {
      hide *;
      var remain := nbytes;
      CeilingDivision(nbytes, blk);
      OneMore(0, blk);
      for i := 0 to numDescr
        invariant remain == if i == numDescr then 0 else nbytes - i * blk
        invariant forall j :: 0 <= j < i ==>
          Decode(d, j) == Descriptors(ring, address, nbytes, blk)[j] && FitsWords(d, j)
      {
        FullBlocks(nbytes, blk, i);
        OneMore(i, blk);
        remain := FillRow(d, i, address, nbytes, blk, remain);
      }
    }

    /** One turn of it. */
    method FillRow(d: array2<nat>, i: nat, address: nat, ghost nbytes: nat, blk: nat, remain: nat) returns (left: nat)
      requires 0 < blk <= LENGTH_MASK && i < d.Length0 == numDescr == NumDescr(nbytes, blk) && d.Length1 == 16
      requires ring + numDescr * DESC_BYTES <= ADDRESSES && address + nbytes <= ADDRESSES
      requires remain == nbytes - i * blk > 0
      modifies d
      ensures left == if i == numDescr - 1 then 0 else remain - blk
      ensures Decode(d, i) == Descriptors(ring, address, nbytes, blk)[i] && FitsWords(d, i)
      ensures forall j :: 0 <= j < numDescr && j != i ==>
        Decode(d, j) == old(Decode(d, j)) && FitsWords(d, j) == old(FitsWords(d, j))
    {
      hide Descriptors, NumDescr, Control, Lo, Hi, And, Bit;
      SetNext(d, i);
      left := SetBlock(d, i, address, remain, blk);
      DescriptorAt(ring, address, nbytes, blk, i);
    }

    /** How a call of transfer ends: the checks in the order they are made. */
    function Outcome(address: nat, nbytes: nat, cyc: bool, halted: bool): Result
      requires 0 < align
    {
      if !halted then Failed(NotHalted)
      else if !dre && address % align != 0 then Failed(Unaligned)
      else if cyc && !transmit then Failed(CyclicReceive)
      else if BlockSize(maxSize, align, nbytes) == 0 then Failed(DivisionByZero)
      else Done
    }

    /** The largest block that is aligned, halved if there must be two descriptors. */
    method ChooseBlock(remain: nat) returns (blk: nat)
      requires 0 < align
      ensures blk == BlockSize(maxSize, align, remain)
    {
      blk := maxSize - maxSize % align;
      if blk > remain {
        blk := remain / 2;
        blk := blk - blk % align;
      }
    }

    /** Transfer memory.  halted is what the status register says; alloc is where the
        descriptors get allocated. */
    method Transfer(buf: Buffer, start: nat, nbytes: nat, cyc: bool, halted: bool, alloc: nat) returns (r: Result)
      requires Valid() && (nbytes == 0 ==> start <= buf.nbytes)
      requires buf.physicalAddress + start + Requested(buf, start, nbytes) <= ADDRESSES
      requires var blk := BlockSize(maxSize, align, Requested(buf, start, nbytes));
        blk > 0 ==> alloc + NumDescr(Requested(buf, start, nbytes), blk) * DESC_BYTES <= ADDRESSES
      modifies this
      ensures Valid()
      ensures r == Outcome(buf.physicalAddress + start, Requested(buf, start, nbytes), cyc, halted)
      ensures var n := if nbytes == 0 then buf.nbytes - start else nbytes;
        r.Done? <==>
          && halted && (dre || (buf.physicalAddress + start) % align == 0) && (cyc ==> transmit)
          && (n >= 2 * align || n >= LargestBlock(maxSize, align))
      ensures r.Failed? ==>
        && unchanged(`transferStarted, `transferred, `numDescr, `descr, `ring, `writes, `request)
        && cyclic == (if r.error in {CyclicReceive, DivisionByZero} then cyc else old(cyclic))
      ensures r.Done? ==>
        var n, blk := Requested(buf, start, nbytes), BlockSize(maxSize, align, Requested(buf, start, nbytes));
        && blk > 0 && cyclic == cyc && ring == alloc && request == Request(buf.physicalAddress + start, n, blk)
        && RingHolds() && fresh(descr) && (forall i :: 0 <= i < numDescr ==> FitsWords(descr, i))
        && Covers(buf.physicalAddress + start, buf.physicalAddress + if nbytes == 0 then buf.nbytes else start + nbytes)
        && transferStarted && transferred == 0 && numDescr > 0
        && writes == old(writes) + StopWrites(Offset(), cyc) + LaunchWrites(Offset(), alloc, numDescr, cyc, interrupt)
      ensures r.Done? ==>
        var e, tail := Seen(Offset(), writes), alloc + (if cyc then numDescr else numDescr - 1) * DESC_BYTES;
        e.running && e.fetching && e.cyclic == cyc && e.first == alloc && (tail < ADDRESSES ==> e.tail == tail)
    {
      BlockIsZero(maxSize, align, Requested(buf, start, nbytes));
      if !halted { return Failed(NotHalted); }
      var remain := if nbytes == 0 then buf.nbytes - start else nbytes;
      var address := buf.physicalAddress + start;
      if !dre && address % align != 0 { return Failed(Unaligned); }
      cyclic := cyc;
      if cyclic && !transmit { return Failed(CyclicReceive); }
      var blk := ChooseBlock(remain);
      if blk == 0 { return Failed(DivisionByZero); }
      hide NumDescr, RingHolds, Covers, LaunchWrites, StopWrites, Seen, BlockSize, And, Bit, Lo, Hi;
      Submit(address, remain, blk, alloc);
      RingCovers();
      LaunchSeen(Offset(), old(writes) + StopWrites(Offset(), cyc), alloc, numDescr, cyc, interrupt);
      r := Done;
    }

    /** The descriptors for a request in blocks of blk, and the launch. */
    method Submit(address: nat, remain: nat, blk: nat, alloc: nat)
      requires Valid() && blk > 0 && blk == BlockSize(maxSize, align, remain)
      requires address + remain <= ADDRESSES && alloc + NumDescr(remain, blk) * DESC_BYTES <= ADDRESSES
      modifies this
      ensures Valid() && cyclic == old(cyclic) && ring == alloc && request == Request(address, remain, blk)
      ensures RingHolds() && fresh(descr) && (forall i :: 0 <= i < numDescr ==> FitsWords(descr, i))
      ensures transferStarted && transferred == 0 && numDescr > 0
      ensures writes ==
        old(writes) + StopWrites(Offset(), cyclic) + LaunchWrites(Offset(), alloc, numDescr, cyclic, interrupt)
    {
      BlockIsZero(maxSize, align, remain);
      CeilingDivision(remain, blk);
      AlignedDown(maxSize, align);
      hide Descriptors, BlockSize;
      numDescr := (remain + (blk - 1)) / blk;
      var d := new nat[numDescr, 16]((i, j) => 0);
      descr, ring := d, alloc;
      request := Request(address, remain, blk);
      Stop();
      FillRing(d, address, remain, blk);
      Launch();
    }

    /** The register writes that set the engine going. */
    method Launch()
      requires numDescr > 0
      modifies `writes, `transferStarted, `transferred
      ensures transferStarted && transferred == 0
      ensures writes == old(writes) + LaunchWrites(Offset(), ring, numDescr, cyclic, interrupt)
    {
      Write(Offset() + 0x08, Lo(ring));
      Write(Offset() + 0x0C, Hi(ring));
      transferred := 0;
      Start();
      var tail := if cyclic then ring + numDescr * 16 * 4 else ring + (numDescr - 1) * 16 * 4;
      Write(Offset() + 0x10, Lo(tail));
      Write(Offset() + 0x14, Hi(tail));
    }

    /** Poll the status register until the engine has failed, is idle or halted - polls is what the
        register says, turn by turn - and add up what the descriptors report, up to the first one
        in error. */
    method Wait(polls: seq<nat>) returns (r: Result)
      requires Valid()
      requires exists i :: 0 <= i < |polls| && EndsPolling(polls[i])
      modifies this
      ensures Valid()
      ensures old(cyclic) ==> r == Failed(CannotWait) && unchanged(this)
      ensures !old(cyclic) && !old(transferStarted) ==> r == Failed(NotStarted) && unchanged(this)
      ensures !old(cyclic) && old(transferStarted) && EngineError(Settled(polls)).Failed? ==>
        r == EngineError(Settled(polls)) && unchanged(this)
      ensures !old(cyclic) && old(transferStarted) && EngineError(Settled(polls)).Done? ==>
        var d := old(descr);
        if NoRowFails(d, old(numDescr)) then
          && r == Done && transferred == Reported(Status(d, old(numDescr)))
          && !transferStarted && descr == null && writes == old(writes) + StopWrites(Offset(), false)
        else
          && r == Failed(DescriptorFailed) && unchanged(`transferStarted, `numDescr, `descr, `ring, `writes, `cyclic)
          && exists k :: 0 <= k < old(numDescr) && And(d[k, 7], ERROR_MASK) != 0
               && NoRowFails(d, k) && transferred == Reported(Status(d, k))
      ensures r == Done || r == Failed(DescriptorFailed) ==> exists i: nat :: i < |polls| && Finished(polls, i)
      ensures old(!cyclic && transferStarted && RingHolds() && NoneOver()) && EngineError(Settled(polls)).Done? ==>
        r == Done && transferred <= old(request.nbytes) && (transferred == old(request.nbytes) <==> old(AllReported()))
    {
      if cyclic { return Failed(CannotWait); }
      if !transferStarted { return Failed(NotStarted); }
      hide *;
      var status := Poll(polls);
      if EngineError(status).Failed? {
        AnEngineError(status);
        return EngineError(status);
      }
      SettledFinished(polls);
      r := Collect();
    }

    /** What is left to do once the engine has settled without an error. */
    method Collect() returns (r: Result)
      requires Valid() && !cyclic && transferStarted
      modifies this
      ensures Valid()
      ensures old(NoRowFails(descr, numDescr)) ==>
        && r == Done && transferred == old(Reported(Status(descr, numDescr)))
        && !transferStarted && descr == null && writes == old(writes) + StopWrites(Offset(), false)
      ensures old(!NoRowFails(descr, numDescr)) ==>
        && r == Failed(DescriptorFailed) && unchanged(`transferStarted, `numDescr, `descr, `ring, `writes, `cyclic)
        && exists k :: 0 <= k < numDescr && And(descr[k, 7], ERROR_MASK) != 0
             && NoRowFails(descr, k) && transferred == Reported(Status(descr, k))
      ensures old(RingHolds() && NoneOver()) ==>
        r == Done && transferred <= old(request.nbytes) && (transferred == old(request.nbytes) <==> old(AllReported()))
    {
      hide Reported, RingHolds, NoneOver, AllReported, NoRowFails, StopWrites;
      if RingHolds() && NoneOver() {
        RingAccounting();
        NoneFails();
      }
      r := AddUp();
      if r.Failed? { return r; }
      Stop();
      descr := null;
    }

    ghost predicate NoRowFails(d: array2<nat>, n: nat)
      requires n <= d.Length0 && d.Length1 == 16
      reads d
    {
      forall i :: 0 <= i < n ==> And(d[i, 7], ERROR_MASK) == 0
    }

    /** Add up what the descriptors report, up to the first one in error. */
    method AddUp() returns (r: Result)
      requires descr != null && descr.Length0 == numDescr && descr.Length1 == 16
      modifies `transferred
      ensures NoRowFails(descr, numDescr) ==> r == Done && transferred == Reported(Status(descr, numDescr))
      ensures !NoRowFails(descr, numDescr) ==>
        && r == Failed(DescriptorFailed)
        && exists k :: 0 <= k < numDescr && And(descr[k, 7], ERROR_MASK) != 0
             && NoRowFails(descr, k) && transferred == Reported(Status(descr, k))
    {
      transferred := 0;
      for i := 0 to numDescr
        invariant NoRowFails(descr, i) && transferred == Reported(Status(descr, i))
      {
        if And(descr[i, 7], ERROR_MASK) != 0 { return Failed(DescriptorFailed); }
        assert Status(descr, i + 1)[..i] == Status(descr, i);
        transferred := transferred + And(descr[i, 7], LENGTH_MASK);
      }
      r := Done;
    }

    /** The polling loop. */
    method Poll(polls: seq<nat>) returns (status: nat)
      requires exists i :: 0 <= i < |polls| && EndsPolling(polls[i])
      ensures status == Settled(polls)
    {
      var turn := 0;
      assert polls[0..] == polls;
      while !EndsPolling(polls[turn])
        invariant turn < |polls| && exists i :: 0 <= i < |polls[turn..]| && EndsPolling(polls[turn..][i])
        invariant Settled(polls[turn..]) == Settled(polls)
        decreases |polls| - turn
      {
        var i :| 0 <= i < |polls[turn..]| && EndsPolling(polls[turn..][i]);
        assert polls[turn..][1..] == polls[turn + 1..];
        assert polls[turn + 1..][i - 1] == polls[turn..][i];
        turn := turn + 1;
      }
      status := polls[turn];
    }
  }
}
