/** The ring buffer of compat/kfifo.c. The object refines a bounded byte queue: Contents is
    what a reader will get, whatever the values of the free-running 32-bit indices. */
module Kfifo {
  import opened Bits
  import opened Words

  function Min(a: nat, b: nat): nat { if a < b then a else b }

  // ---------------------------------------------------------------- rings of bytes

  /** An index at most one lap ahead, brought back into the ring. */
  function Wrap(x: nat, n: nat): nat { if x < n then x else x - n }

  /** The n bytes of the ring from position start on. */
  function Ring(d: seq<byte>, start: nat, n: nat): (r: seq<byte>)
    requires start < |d| && n <= |d|
    ensures |r| == n
  {
    seq(n, i requires 0 <= i < n => d[Wrap(start + i, |d|)])
  }

  /** How far position j lies ahead of start. */
  function Ahead(j: nat, start: nat, n: nat): nat
    requires j < n && start < n
  {
    if j >= start then j - start else j + n - start
  }

  /** The ring after src has been written from position start on. */
  function Put(d: seq<byte>, start: nat, src: seq<byte>): (r: seq<byte>)
    requires start < |d| && |src| <= |d|
    ensures |r| == |d|
  {
    seq(|d|, j requires 0 <= j < |d| => if Ahead(j, start, |d|) < |src| then src[Ahead(j, start, |d|)] else d[j])
  }

  /** Writing behind the used part appends. */
  lemma RingPut(d: seq<byte>, start: nat, n: nat, src: seq<byte>)
    requires start < |d| && n + |src| <= |d| && Wrap(start + n, |d|) < |d|
    ensures Ring(Put(d, Wrap(start + n, |d|), src), start, n + |src|) == Ring(d, start, n) + src
  {
    var d' := Put(d, Wrap(start + n, |d|), src);
    forall i | 0 <= i < n + |src|
      ensures Ring(d', start, n + |src|)[i] == (Ring(d, start, n) + src)[i]
    {
      var j := Wrap(start + i, |d|);
      assert Ahead(j, Wrap(start + n, |d|), |d|) == if i >= n then i - n else i + |d| - n;
    }
  }

  /** Reading from further ahead drops a prefix. */
  lemma RingDrop(d: seq<byte>, start: nat, n: nat, m: nat)
    requires start < |d| && n <= |d| && m <= n && Wrap(start + m, |d|) < |d|
    ensures Ring(d, Wrap(start + m, |d|), n - m) == Ring(d, start, n)[m..]
  {
    forall i | 0 <= i < n - m ensures Ring(d, Wrap(start + m, |d|), n - m)[i] == Ring(d, start, n)[m..][i] {
      assert Wrap(Wrap(start + m, |d|) + i, |d|) == Wrap(start + (m + i), |d|);
    }
  }

  lemma RingTake(d: seq<byte>, start: nat, n: nat, m: nat)
    requires start < |d| && n <= |d| && m <= n
    ensures Ring(d, start, m) == Ring(d, start, n)[..m]
  {}

  /** Two writes in a row are one. */
  lemma PutPut(d: seq<byte>, start: nat, a: seq<byte>, b: seq<byte>)
    requires start < |d| && |a| + |b| <= |d| && Wrap(start + |a|, |d|) < |d|
    ensures Put(Put(d, start, a), Wrap(start + |a|, |d|), b) == Put(d, start, a + b)
  {}

  // ---------------------------------------------------------------- 32-bit indices

  /** The number of elements between two free-running indices. */
  function Used(inIdx: u32, outIdx: u32): u32 { (inIdx - outIdx) % TWO32 }

  function Advance(idx: u32, n: nat): u32 { (idx + n) % TWO32 }

  /** Since the size divides 2^32, wrapping the index does not disturb the slot. */
  lemma SlotAdvance(idx: u32, n: nat, order: nat)
    requires order <= 32 && n < TWO32
    ensures Advance(idx, n) % Pow2(order) == (idx % Pow2(order) + n) % Pow2(order)
  {
    var size := Pow2(order);
    WrapSlot(idx + n, order);
    AddMod(idx, n, size);
  }

  lemma WrapSlot(x: nat, order: nat)
    requires order <= 32 && x < 2 * TWO32
    ensures x % TWO32 % Pow2(order) == x % Pow2(order)
  {
    hide Pow2;
    PowersDivide(order, 32);
    PowOf32();
    if x >= TWO32 {
      assert x % TWO32 == x - TWO32;
      ModShift(x - TWO32, Pow2(order), Pow2(32 - order));
    }
  }

  lemma AddMod(x: nat, n: nat, m: nat)
    requires m >= 1
    ensures (x + n) % m == (x % m + n) % m
  {
    var q := x / m;
    assert x == m * q + x % m;
    assert m * q == q * m;
    ModShift(x % m + n, m, q);
  }

  /** One lap at most: reduction is Wrap. */
  lemma WrapIsMod(r: nat, n: nat, m: nat)
    requires r < m && n <= m
    ensures (r + n) % m == Wrap(r + n, m) < m
  {
    if r + n >= m { ModShift(r + n - m, m, 1); }
  }

  lemma PowOf32()
    ensures Pow2(32) == TWO32
  {
    assert Pow2(8) == 256;
    PowersDivide(8, 16);
    PowersDivide(16, 32);
  }

  lemma AdvanceUsed(inIdx: u32, outIdx: u32)
    ensures Advance(outIdx, Used(inIdx, outIdx)) == inIdx
  {}

  lemma UsedAdvance(inIdx: u32, outIdx: u32, n: nat)
    requires n < TWO32
    ensures Used(inIdx, outIdx) + n < TWO32 ==> Used(Advance(inIdx, n), outIdx) == Used(inIdx, outIdx) + n
    ensures n <= Used(inIdx, outIdx) ==> Used(inIdx, Advance(outIdx, n)) == Used(inIdx, outIdx) - n
  {}

  // ---------------------------------------------------------------- element size

  lemma Scale(a: nat, b: nat, e: nat)
    requires a <= b
    ensures a * e <= b * e
    ensures (b - a) * e == b * e - a * e
    ensures a < b && e >= 1 ==> a * e < b * e
  {}

  lemma ScaleWrap(r: nat, n: nat, m: nat, e: nat)
    requires r < m && n <= m && e >= 1
    ensures Wrap(r + n, m) * e == Wrap(r * e + n * e, m * e) < m * e
  {
    assert (r + n) * e == r * e + n * e;
    WrapIsMod(r, n, m);
    Scale(Wrap(r + n, m), m, e);
    if r + n < m { Scale(r + n, m, e); } else { Scale(m, r + n, e); }
  }

  /** rounddown_pow_of_two, as the exponent. */
  function RoundDown(n: nat): (k: nat)
    requires n >= 1
    ensures Pow2(k) <= n < 2 * Pow2(k)
  {
    if n == 1 then 0 else 1 + RoundDown(n / 2)
  }

  lemma {:induction false} Pow2Mono(j: nat, k: nat)
    requires j <= k
    ensures Pow2(j) <= Pow2(k)
    decreases k
  {
    if j < k { Pow2Mono(j, k - 1); }
  }

  // ---------------------------------------------------------------- records

  /** The length field of a record, least significant byte first. */
  function Header(len: nat, recsize: nat): (h: seq<byte>)
    requires recsize == 1 || recsize == 2
    ensures |h| == recsize
  {
    if recsize == 1 then [len % 256] else [len % 256, len / 256 % 256]
  }

  function MaxLen(recsize: nat): nat { if recsize == 1 then 255 else 65535 }

  function Decode(h: seq<byte>): nat
    requires |h| == 1 || |h| == 2
  {
    if |h| == 1 then h[0] as int else h[0] as int + 256 * h[1] as int
  }

  /** Where the bytes of the length stand: the lowest eight bits come first. */
  lemma HeaderBytes(len: nat)
    ensures Header(len, 1)[0] == len % 256
    ensures Header(len, 2)[0] == len % 256 && Header(len, 2)[0] + 256 * Header(len, 2)[1] as int == len % 65536
  {}

  /** The field tells the length back exactly when the length fits it. */
  lemma LengthFieldExact(len: nat, recsize: nat)
    requires recsize == 1 || recsize == 2
    ensures Decode(Header(len, recsize)) == len <==> len <= MaxLen(recsize)
  {}

  predicate RecordsOk(rs: seq<seq<byte>>, recsize: nat) {
    forall i :: 0 <= i < |rs| ==> |rs[i]| <= MaxLen(recsize)
  }

  /** The bytes of a queue of records. */
  function Encode(rs: seq<seq<byte>>, recsize: nat): seq<byte>
    requires recsize == 1 || recsize == 2
  {
    if rs == [] then [] else Header(|rs[0]|, recsize) + rs[0] + Encode(rs[1..], recsize)
  }

  lemma {:induction false} EncodeSnoc(rs: seq<seq<byte>>, r: seq<byte>, recsize: nat)
    requires recsize == 1 || recsize == 2
    ensures Encode(rs + [r], recsize) == Encode(rs, recsize) + (Header(|r|, recsize) + r)
  {
    if rs == [] {
      assert rs + [r] == [r];
      assert Encode([r], recsize) == Header(|r|, recsize) + r + Encode([], recsize);
    } else {
      EncodeSnoc(rs[1..], r, recsize);
      assert (rs + [r])[1..] == rs[1..] + [r];
    }
  }

  lemma RecordsSnoc(rs: seq<seq<byte>>, r: seq<byte>, recsize: nat)
    ensures RecordsOk(rs, recsize) ==> (RecordsOk(rs + [r], recsize) <==> |r| <= MaxLen(recsize))
  {
    assert (rs + [r])[|rs|] == r;
  }

  /** The record that the bytes start with, as its length field has it, and what follows it. */
  function FirstOf(e: seq<byte>, recsize: nat): (seq<byte>, seq<byte>)
    requires 1 <= recsize <= 2
  {
    if |e| < recsize then (e, [])
    else
      var rest := e[recsize..];
      var n := Min(Decode(e[..recsize]), |rest|);
      (rest[..n], rest[n..])
  }

  /** What __kfifo_in_r stores is read back as the same record iff its length fits the field. */
  lemma ReadsBack(buf: seq<byte>, recsize: nat, rest: seq<byte>)
    requires recsize == 1 || recsize == 2
    ensures FirstOf(Header(|buf|, recsize) + buf + rest, recsize) == (buf, rest) <==> |buf| <= MaxLen(recsize)
  {
    var h := Header(|buf|, recsize);
    var e := h + buf + rest;
    assert e[..recsize] == h && e[recsize..] == buf + rest;
    LengthFieldExact(|buf|, recsize);
    assert (buf + rest)[..|buf|] == buf && (buf + rest)[|buf|..] == rest;
  }

  lemma FirstOfQueue(rs: seq<seq<byte>>, recsize: nat)
    requires recsize == 1 || recsize == 2
    requires RecordsOk(rs, recsize) && rs != []
    ensures FirstOf(Encode(rs, recsize), recsize) == (rs[0], Encode(rs[1..], recsize))
  {
    ReadsBack(rs[0], recsize, Encode(rs[1..], recsize));
  }

  /** The parse is unique: two queues of records with the same bytes are the same queue. */
  lemma {:induction false} EncodeInjective(rs: seq<seq<byte>>, qs: seq<seq<byte>>, recsize: nat)
    requires recsize == 1 || recsize == 2
    requires RecordsOk(rs, recsize) && RecordsOk(qs, recsize)
    requires Encode(rs, recsize) == Encode(qs, recsize)
    ensures rs == qs
  {
    var e := Encode(rs, recsize);
    if rs != [] && qs != [] {
      FirstRecord(rs, recsize);
      FirstRecord(qs, recsize);
      assert e[recsize..recsize + |rs[0]|] == rs[0] && e[recsize..recsize + |qs[0]|] == qs[0];
      EncodeInjective(rs[1..], qs[1..], recsize);
      assert rs == [rs[0]] + rs[1..] && qs == [qs[0]] + qs[1..];
    }
  }

  /** The bytes start with the first record and go on with the others. */
  lemma FirstRecord(rs: seq<seq<byte>>, recsize: nat)
    requires recsize == 1 || recsize == 2
    requires RecordsOk(rs, recsize) && rs != []
    ensures var e := Encode(rs, recsize);
      && recsize + |rs[0]| <= |e|
      && Decode(e[..recsize]) == |rs[0]|
      && e[recsize..recsize + |rs[0]|] == rs[0]
      && e[recsize + |rs[0]|..] == Encode(rs[1..], recsize)
  {
    var e, h := Encode(rs, recsize), Header(|rs[0]|, recsize);
    assert e[..recsize] == h;
    LengthFieldExact(|rs[0]|, recsize);
  }

  /** kfifo_avail. */
  function Avail(unused: nat, recsize: nat): nat
    requires recsize <= 2
  {
    if recsize == 0 then unused
    else if unused <= recsize then 0
    else Min(unused - recsize, MaxLen(recsize))
  }

  /** kfifo_avail is the largest record that fits and whose length can be told back. */
  lemma AvailExact(unused: nat, recsize: nat, len: nat)
    requires (recsize == 1 || recsize == 2) && len >= 1
    ensures len <= Avail(unused, recsize) <==> len + recsize <= unused && Decode(Header(len, recsize)) == len
  {
    LengthFieldExact(len, recsize);
  }

  // ---------------------------------------------------------------- the object

  /** struct __kfifo. size * esize fits 32 bits, as the code computes it in unsigned int. */
  class Fifo {
    var inIdx: u32
    var outIdx: u32
    var mask: u32
    var esize: nat
    var data: array<byte>
    ghost var order: nat

    ghost predicate Geometry()
      reads this`mask, this`esize, this`order, this`data
    {
      && 1 <= order <= 31 && mask + 1 == Pow2(order) && esize >= 1
      && (mask + 1) * esize <= data.Length && (mask + 1) * esize < TWO32
    }

    ghost predicate Valid()
      reads this
    {
      Geometry() && Used(inIdx, outIdx) <= mask + 1
    }

    ghost function Cells(): seq<byte>
      requires Geometry()
      reads this`mask, this`esize, this`order, this`data, data
    {
      data[..(mask + 1) * esize]
    }

    /** The byte position of a free-running index. */
    ghost function Slot(idx: nat): (p: nat)
      requires Geometry()
      reads this`mask, this`esize, this`order, this`data
      ensures p < (mask + 1) * esize
    {
      Scale(idx % (mask + 1), mask + 1, esize);
      idx % (mask + 1) * esize
    }

    ghost function Contents(): (c: seq<byte>)
      requires Valid()
      reads this, data
      ensures |c| == Used(inIdx, outIdx) * esize
    {
      Scale(Used(inIdx, outIdx), mask + 1, esize);
      Ring(Cells(), Slot(outIdx), Used(inIdx, outIdx) * esize)
    }

    /** __kfifo_init over a caller's buffer of size bytes. (A size below one element makes
        the C code shift by minus one; such a call has no defined meaning.) */
    constructor Init(buffer: array<byte>, size: u32, elementSize: nat)
      requires elementSize >= 1 && size <= buffer.Length && size / elementSize >= 1
      ensures data == buffer && esize == elementSize && inIdx == outIdx == 0
      ensures size / elementSize < 2 <==> mask == 0
      ensures size / elementSize >= 2 ==> Valid() && Contents() == [] && mask + 1 <= size / elementSize < 2 * (mask + 1)
    {
      var n := size / elementSize;
      DivMul(size, elementSize);
      var k := RoundDown(n);
      inIdx, outIdx, esize, data := 0, 0, elementSize, buffer;
      order := k;
      if n < 2 {
        mask := 0;
      } else {
        InitBounds(n, k, elementSize, size);
        OneUp(k);
        mask := Pow2(k) - 1;
      }
    }

    /** Where a copy of len elements at off starts, and how much of it lies before the end. */
    method Split(len: nat, off: nat) returns (o: nat, size: nat, l: nat)
      requires Geometry() && len <= mask + 1
      ensures size == (mask + 1) * esize && o == Slot(off) && l == Min(len * esize, size - o)
      ensures len * esize <= size && o < size
    {
      hide And, Pow2;
      AndMask(off, order);
      Scale(len, mask + 1, esize);
      size := (mask + 1) * esize;
      var a := And(off, mask);
      assert a == off % (mask + 1);
      o := a * esize;
      l := Min(len * esize, size - o);
    }

    /** kfifo_copy_in. */
    method CopyIn(src: seq<byte>, len: nat, off: nat)
      requires Geometry() && len <= mask + 1 && |src| == len * esize
      modifies data
      ensures |src| <= (mask + 1) * esize
      ensures Cells() == Put(old(Cells()), Slot(off), src)
      ensures forall i :: (mask + 1) * esize <= i < data.Length ==> data[i] == old(data[i])
    {
      var o, size, l := Split(len, off);
      forall i | 0 <= i < l { data[o + i] := src[i]; }
      forall i | 0 <= i < len * esize - l { data[i] := src[l + i]; }
    }

    /** kfifo_copy_out. */
    method CopyOut(len: nat, off: nat) returns (dst: seq<byte>)
      requires Geometry() && len <= mask + 1
      ensures len * esize <= (mask + 1) * esize
      ensures dst == Ring(Cells(), Slot(off), len * esize)
    {
      var o, size, l := Split(len, off);
      dst := data[o..o + l] + data[..len * esize - l];
      RingSplit(Cells(), o, len * esize);
    }
  
    // -------------------------------------------------------------- plain mode

    /** Bytes placed right behind the contents extend them. */
    lemma Extend(cells: seq<byte>, n: nat, src: seq<byte>)
      requires Valid() && |cells| == (mask + 1) * esize
      requires Used(inIdx, outIdx) + n <= mask + 1 && |src| == n * esize
      ensures Slot(outIdx) < |cells| && (Used(inIdx, outIdx) + n) * esize <= |cells|
      ensures Ring(Put(cells, Slot(inIdx), src), Slot(outIdx), (Used(inIdx, outIdx) + n) * esize)
           == Ring(cells, Slot(outIdx), Used(inIdx, outIdx) * esize) + src
    {
      var u, o := Used(inIdx, outIdx), outIdx % (mask + 1);
      InSlot(u);
      Scale(u + n, mask + 1, esize);
      Scale(u, u + n, esize);
      ScaleWrap(o, u, mask + 1, esize);
      hide Used, Pow2;
      RingPut(cells, Slot(outIdx), u * esize, src);
    }

    /** The write slot is the read slot plus the used elements, around the ring. */
    lemma InSlot(u: nat)
      requires Valid() && u == Used(inIdx, outIdx)
      ensures inIdx % (mask + 1) == Wrap(outIdx % (mask + 1) + u, mask + 1)
    {
      hide Pow2, Used, Advance;
      AdvanceUsed(inIdx, outIdx);
      SlotAdvance(outIdx, u, order);
      WrapIsMod(outIdx % (mask + 1), u, mask + 1);
    }

    /** Reading from n elements further on. */
    lemma Skip(cells: seq<byte>, n: nat)
      requires Valid() && |cells| == (mask + 1) * esize && n <= Used(inIdx, outIdx)
      ensures Slot(outIdx) < |cells| && Slot(Advance(outIdx, n)) < |cells|
      ensures n * esize <= Used(inIdx, outIdx) * esize <= |cells|
      ensures 0 <= (Used(inIdx, outIdx) - n) * esize <= |cells|
      ensures Ring(cells, Slot(Advance(outIdx, n)), (Used(inIdx, outIdx) - n) * esize)
           == Ring(cells, Slot(outIdx), Used(inIdx, outIdx) * esize)[n * esize..]
    {
      var u, o := Used(inIdx, outIdx), outIdx % (mask + 1);
      hide Used, Pow2;
      SlotAdvance(outIdx, n, order);
      WrapIsMod(o, n, mask + 1);
      ScaleWrap(o, n, mask + 1, esize);
      Scale(n, u, esize);
      Scale(u, mask + 1, esize);
      RingDrop(cells, Slot(outIdx), u * esize, n * esize);
    }

    /** Copy n elements behind the contents, then publish them. */
    method Store(chunk: seq<byte>, n: nat)
      requires Valid() && |chunk| == n * esize && n <= mask + 1 - Used(inIdx, outIdx)
      modifies this`inIdx, data
      ensures Valid() && inIdx == Advance(old(inIdx), n)
      ensures Contents() == old(Contents()) + chunk
    {
      hide Slot, Pow2, Ring, Used, Advance, Put;
      Extend(Cells(), n, chunk);
      CopyIn(chunk, n, inIdx);
      UsedAdvance(inIdx, outIdx, n);
      inIdx := Advance(inIdx, n);
    }

    /** __kfifo_in: appends as many of the len elements as fit. */
    method In(buf: seq<byte>, len: u32) returns (n: u32)
      requires Valid() && |buf| == len * esize
      modifies this`inIdx, data
      ensures Valid() && n == Min(len, mask + 1 - Used(old(inIdx), outIdx)) && inIdx == Advance(old(inIdx), n)
      ensures n * esize <= |buf| && Contents() == old(Contents()) + buf[..n * esize]
    {
      hide Slot, Pow2, Ring, Used, Advance, Contents, Cells;
      n := Min(len, mask + 1 - Used(inIdx, outIdx));
      Scale(n, len, esize);
      Store(buf[..n * esize], n);
    }

    /** __kfifo_out_peek. */
    method OutPeek(len: u32) returns (n: u32, buf: seq<byte>)
      requires Valid()
      ensures n == Min(len, Used(inIdx, outIdx)) && n * esize <= |Contents()| && buf == Contents()[..n * esize]
    {
      hide Slot, Pow2;
      n := Min(len, Used(inIdx, outIdx));
      Scale(n, Used(inIdx, outIdx), esize);
      Scale(Used(inIdx, outIdx), mask + 1, esize);
      buf := CopyOut(n, outIdx);
      RingTake(Cells(), Slot(outIdx), Used(inIdx, outIdx) * esize, n * esize);
    }

    /** __kfifo_out: removes the clamped prefix and hands it over. */
    method Out(len: u32) returns (n: u32, buf: seq<byte>)
      requires Valid()
      modifies this`outIdx
      ensures Valid() && n == Min(len, Used(inIdx, old(outIdx))) && outIdx == Advance(old(outIdx), n)
      ensures old(Contents()) == buf + Contents() && |buf| == n * esize
    {
      hide Slot, Pow2, Ring, Used, Advance;
      n, buf := OutPeek(len);
      Skip(Cells(), n);
      UsedAdvance(inIdx, outIdx, n);
      outIdx := Advance(outIdx, n);
    }

    // -------------------------------------------------------------- record mode

    /** In record mode an element is a byte: the slot of the n-th index further on. */
    lemma SlotOn(idx: u32, n: nat)
      requires Geometry() && esize == 1 && n <= mask + 1
      ensures Slot(Advance(idx, n)) == Wrap(Slot(idx) + n, mask + 1)
    {
      hide Pow2;
      SlotAdvance(idx, n, order);
      WrapIsMod(idx % (mask + 1), n, mask + 1);
    }

    /** __kfifo_poke_n: the length field, least significant byte first. */
    method Poke(n: nat, recsize: nat)
      requires Geometry() && esize == 1 && (recsize == 1 || recsize == 2) && recsize <= mask + 1
      modifies data
      ensures Cells() == Put(old(Cells()), Slot(inIdx), Header(n, recsize))
    {
      hide And, Pow2;
      AndMask(inIdx, order);
      AndMask(Advance(inIdx, 1), order);
      SlotOn(inIdx, 1);
      data[And(inIdx, mask)] := n % 256;
      if recsize > 1 {
        data[And(Advance(inIdx, 1), mask)] := n / 256 % 256;
      }
    }

    /** __kfifo_in_r: a record goes in whole or not at all. */
    method InR(buf: seq<byte>, recsize: nat, ghost rs: seq<seq<byte>>) returns (n: nat)
      requires Valid() && esize == 1 && (recsize == 1 || recsize == 2) && |buf| < TWO32
      modifies this`inIdx, data
      ensures Valid()
      ensures if |buf| + recsize > mask + 1 - Used(old(inIdx), outIdx)
              then n == 0 && Contents() == old(Contents()) && inIdx == old(inIdx)
              else n == |buf| && Contents() == old(Contents()) + (Header(|buf|, recsize) + buf)
      ensures |buf| + recsize <= mask + 1 - Used(old(inIdx), outIdx) && old(Contents()) == Encode(rs, recsize) ==>
                Contents() == Encode(rs + [buf], recsize)
      ensures RecordsOk(rs, recsize) ==> (RecordsOk(rs + [buf], recsize) <==> |buf| <= MaxLen(recsize))
    {
      hide Slot, Pow2, Header, And, Encode, RecordsOk;
      EncodeSnoc(rs, buf, recsize);
      RecordsSnoc(rs, buf, recsize);
      if |buf| + recsize > mask + 1 - Used(inIdx, outIdx) { return 0; }
      ghost var src := Header(|buf|, recsize) + buf;
      Extend(Cells(), |src|, src);
      SlotOn(inIdx, recsize);
      PutPut(Cells(), Slot(inIdx), Header(|buf|, recsize), buf);
      Poke(|buf|, recsize);
      CopyIn(buf, |buf|, Advance(inIdx, recsize));
      UsedAdvance(inIdx, outIdx, |buf| + recsize);
      inIdx := Advance(inIdx, |buf| + recsize);
      n := |buf|;
    }

    /** In record mode the i-th byte of the contents is the i-th cell from the read slot. */
    lemma CellAt(i: nat)
      requires Valid() && esize == 1 && i < Used(inIdx, outIdx)
      ensures Slot(outIdx) == outIdx % (mask + 1)
      ensures Wrap(Slot(outIdx) + i, mask + 1) < mask + 1 <= data.Length
      ensures Contents()[i] == data[Wrap(Slot(outIdx) + i, mask + 1)]
    {
      hide Pow2;
      assert |Cells()| == mask + 1;
    }

    /** __kfifo_peek_n: the two bytes of the field do not overlap, so their "or" is a sum. */
    method Peek(recsize: nat) returns (n: nat)
      requires Valid() && esize == 1 && (recsize == 1 || recsize == 2)
      ensures n <= MaxLen(recsize)
      ensures recsize <= Used(inIdx, outIdx) ==> n == Decode(Contents()[..recsize])
    {
      hide And, Pow2, Ring, Used;
      AndMask(outIdx, order);
      AndMask(Advance(outIdx, 1), order);
      SlotOn(outIdx, 1);
      SlotOn(outIdx, 0);
      assert And(outIdx, mask) < data.Length && And(Advance(outIdx, 1), mask) < data.Length;
      n := data[And(outIdx, mask)];
      if recsize > 1 {
        n := n + 256 * (data[And(Advance(outIdx, 1), mask)] as int);
      }
      if recsize <= Used(inIdx, outIdx) {
        CellAt(0);
        if recsize > 1 { CellAt(1); }
      }
    }

    /** In record mode, c bytes from m elements further on. */
    lemma Further(m: nat, c: nat)
      requires Valid() && esize == 1 && m + c <= Used(inIdx, outIdx)
      ensures c <= mask + 1 && Ring(Cells(), Slot(Advance(outIdx, m)), c) == Contents()[m..][..c]
    {
      hide Slot, Pow2, Ring, Used, Advance;
      Skip(Cells(), m);
      RingTake(Cells(), Slot(Advance(outIdx, m)), Used(inIdx, outIdx) - m, c);
    }

    /** kfifo_out_copy_r on a non-empty queue of records. */
    method CopyFirst(len: nat, recsize: nat, ghost rs: seq<seq<byte>>) returns (n: nat, buf: seq<byte>)
      requires Valid() && esize == 1 && (recsize == 1 || recsize == 2)
      requires RecordsOk(rs, recsize) && rs != [] && Contents() == Encode(rs, recsize)
      ensures n == |rs[0]| && buf == rs[0][..Min(len, n)]
    {
      hide Slot, Pow2, Encode, Decode, RecordsOk, Ring, Used, Advance;
      FirstRecord(rs, recsize);
      n := Peek(recsize);
      var c := Min(len, n);
      buf := CopyOut(c, Advance(outIdx, recsize));
      Further(recsize, c);
      SliceOfSlice(Contents(), recsize, n, c);
    }

    /** __kfifo_out_r: the first record, cut to the caller's buffer, leaves as a whole. */
    method OutR(len: nat, recsize: nat, ghost rs: seq<seq<byte>>) returns (c: nat, buf: seq<byte>)
      requires Valid() && esize == 1 && (recsize == 1 || recsize == 2)
      requires RecordsOk(rs, recsize) && Contents() == Encode(rs, recsize)
      modifies this`outIdx
      ensures Valid() && c == |buf|
      ensures rs == [] ==> buf == [] && Contents() == Encode(rs, recsize)
      ensures rs != [] ==> buf == rs[0][..Min(len, |rs[0]|)] && Contents() == Encode(rs[1..], recsize)
    {
      hide Slot, Pow2, Decode, RecordsOk;
      if inIdx == outIdx {
        EmptyQueue(rs, recsize);
        return 0, [];
      }
      NonEmptyQueue(rs, recsize);
      var n;
      n, buf := CopyFirst(len, recsize, rs);
      c := |buf|;
      Consume(n, recsize, rs);
    }

    /** __kfifo_skip_r removes the first record. It does not look whether there is one: on an empty fifo it
        takes a length from unused bytes, and out runs past in. */
    method SkipR(recsize: nat, ghost rs: seq<seq<byte>>)
      requires Valid() && esize == 1 && (recsize == 1 || recsize == 2)
      requires RecordsOk(rs, recsize) && Contents() == Encode(rs, recsize)
      modifies this`outIdx
      ensures Valid() <==> rs != []
      ensures rs != [] ==> Contents() == Encode(rs[1..], recsize)
    {
      hide Slot, Pow2, Encode, Decode, RecordsOk;
      var n := Peek(recsize);
      if inIdx == outIdx {
        EmptyQueue(rs, recsize);
        PastIn(inIdx, n + recsize, order);
        outIdx := Advance(outIdx, n + recsize);
      } else {
        NonEmptyQueue(rs, recsize);
        FirstRecord(rs, recsize);
        Consume(n, recsize, rs);
      }
    }

    /** out += n + recsize. */
    method Consume(n: nat, recsize: nat, ghost rs: seq<seq<byte>>)
      requires Valid() && esize == 1 && (recsize == 1 || recsize == 2)
      requires RecordsOk(rs, recsize) && rs != [] && Contents() == Encode(rs, recsize) && n == |rs[0]|
      modifies this`outIdx
      ensures Valid() && Contents() == Encode(rs[1..], recsize)
    {
      hide Slot, Pow2, Encode, Decode, RecordsOk;
      FirstRecord(rs, recsize);
      Skip(Cells(), n + recsize);
      UsedAdvance(inIdx, outIdx, n + recsize);
      outIdx := Advance(outIdx, n + recsize);
    }

    lemma EmptyQueue(rs: seq<seq<byte>>, recsize: nat)
      requires Valid() && esize == 1 && inIdx == outIdx && (recsize == 1 || recsize == 2)
      requires Contents() == Encode(rs, recsize)
      ensures rs == []
    {}

    lemma NonEmptyQueue(rs: seq<seq<byte>>, recsize: nat)
      requires Valid() && esize == 1 && inIdx != outIdx && (recsize == 1 || recsize == 2)
      requires Contents() == Encode(rs, recsize)
      ensures rs != []
    {}

    /** kfifo_reset_out. */
    method ResetOut()
      requires Valid()
      modifies this`outIdx
      ensures Valid() && Contents() == []
    {
      hide Ring, Pow2;
      outIdx := inIdx;
      assert Used(inIdx, outIdx) == 0;
      assert |Contents()| == 0 * esize;
    }
  }

  /** An out index up to 2^31 ahead of in looks like an impossible fill level. */
  lemma PastIn(idx: u32, n: nat, order: nat)
    requires 1 <= n <= 65537 && order <= 31
    ensures Used(idx, Advance(idx, n)) > Pow2(order)
  {
    Pow2Mono(order, 31);
    PowOf32();
    assert Pow2(32) == 2 * Pow2(31);
  }

  lemma DivMul(x: nat, e: nat)
    requires e >= 1
    ensures x / e * e <= x
    ensures x / e <= x
  {
    assert x == e * (x / e) + x % e;
    MulGrows(x / e, e);
  }

  lemma SliceOfSlice(s: seq<byte>, a: nat, n: nat, c: nat)
    requires a + n <= |s| && c <= n
    ensures s[a..][..c] == s[a..a + n][..c]
  {}

  lemma MulGrows(n: nat, e: nat)
    requires e >= 1
    ensures n <= n * e
  {}

  lemma OneUp(k: nat)
    requires k >= 1
    ensures Pow2(k) >= 2
  {}

  lemma OrderBounds(n: nat, k: nat)
    requires 2 <= n < TWO32 && Pow2(k) <= n < 2 * Pow2(k)
    ensures 1 <= k <= 31
  {
    if k >= 32 { PowOf32(); Pow2Mono(32, k); }
  }

  lemma InitBounds(n: nat, k: nat, e: nat, size: u32)
    requires n >= 2 && Pow2(k) <= n < 2 * Pow2(k) && e >= 1 && n == size / e
    ensures 1 <= k <= 31 && Pow2(k) * e <= size
  {
    DivMul(size, e);
    Scale(Pow2(k), n, e);
    OrderBounds(n, k);
  }

  /** A copy that is split where the ring ends. */
  lemma RingSplit(d: seq<byte>, o: nat, len: nat)
    requires o < |d| && len <= |d|
    ensures var l := Min(len, |d| - o); Ring(d, o, len) == d[o..o + l] + d[..len - l]
  {
    var l := Min(len, |d| - o);
    forall i | 0 <= i < len ensures Ring(d, o, len)[i] == (d[o..o + l] + d[..len - l])[i] {
      if i < l {
        assert d[o..o + l][i] == d[o + i] == d[Wrap(o + i, |d|)];
      } else {
        assert d[..len - l][i - l] == d[i - l] == d[Wrap(o + i, |d|)];
      }
    }
  }
}
