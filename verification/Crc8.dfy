/** CRC-8 tables and updates (compat/crc8.c) against polynomial division over GF(2). */
module Crc8 {
  import opened Bits
  import opened XorLaws
  import opened Words

  lemma Eight()
    ensures Pow2(8) == 256 && Pow2(7) == 128
  {}

  function XorByte(a: byte, b: byte): byte {
    Eight();
    XorBound(a, b, 8);
    Xor(a, b)
  }

  // ---------------------------------------------------------------- one bit at a time

  /** t = (t << 1) ^ (t & msbit ? polynomial : 0), in eight bits. */
  function StepMsb(t: byte, poly: byte): byte {
    XorByte(2 * t % 256, if t >= 128 then poly else 0)
  }

  /** t = (t >> 1) ^ (t & 1 ? polynomial : 0). */
  function StepLsb(t: byte, poly: byte): byte {
    XorByte(t / 2, if t % 2 == 1 then poly else 0)
  }

  function StepsMsb(t: byte, poly: byte, n: nat): byte {
    if n == 0 then t else StepMsb(StepsMsb(t, poly, n - 1), poly)
  }

  function StepsLsb(t: byte, poly: byte, n: nat): byte {
    if n == 0 then t else StepLsb(StepsLsb(t, poly, n - 1), poly)
  }

  /** The table entries: eight bit-serial steps. */
  function RemMsb(x: byte, poly: byte): byte { StepsMsb(x, poly, 8) }
  function RemLsb(x: byte, poly: byte): byte { StepsLsb(x, poly, 8) }

  lemma {:induction false} StepsMsbFirst(t: byte, poly: byte, n: nat)
    ensures StepsMsb(t, poly, n + 1) == StepsMsb(StepMsb(t, poly), poly, n)
  {
    hide StepMsb;
    if n > 0 { StepsMsbFirst(t, poly, n - 1); }
  }

  lemma {:induction false} StepsLsbFirst(t: byte, poly: byte, n: nat)
    ensures StepsLsb(t, poly, n + 1) == StepsLsb(StepLsb(t, poly), poly, n)
  {
    hide StepLsb;
    if n > 0 { StepsLsbFirst(t, poly, n - 1); }
  }

  // ---------------------------------------------------------------- linearity

  /** Shift and top bit of a sum of bytes. */
  lemma ShiftLinear(a: byte, b: byte)
    ensures 2 * XorByte(a, b) % 256 == XorByte(2 * a % 256, 2 * b % 256)
    ensures XorByte(a, b) >= 128 <==> (a >= 128) != (b >= 128)
    ensures XorByte(a, b) / 2 == XorByte(a / 2, b / 2)
    ensures XorByte(a, b) % 2 == 1 <==> (a % 2 == 1) != (b % 2 == 1)
  {
    hide Xor;
    XorHalf(a, b);
    TopBit(a, b);
  }

  lemma TopBit(a: byte, b: byte)
    ensures 2 * Xor(a, b) % 256 == Xor(2 * a % 256, 2 * b % 256)
    ensures Xor(a, b) >= 128 <==> (a >= 128) != (b >= 128)
  {
    hide Xor;
    var ta, tb, la, lb := a / 128, b / 128, a % 128, b % 128;
    SevenBits(ta, la, tb, lb);
    assert 128 * ta + la == a && 128 * tb + lb == b;
    OneBit(ta, tb);
    XorDouble(la, lb);
    TopOf(a, b, Xor(a, b), Xor(la, lb));
  }

  lemma TopOf(a: byte, b: byte, c: nat, x: nat)
    requires x < 128 && c == (if a / 128 != b / 128 then 128 else 0) + x
    ensures 2 * a % 256 == 2 * (a % 128) && 2 * b % 256 == 2 * (b % 128) && 2 * c % 256 == 2 * x
    ensures c >= 128 <==> (a >= 128) != (b >= 128)
  {}

  lemma SevenBits(ta: nat, la: nat, tb: nat, lb: nat)
    requires la < 128 && lb < 128
    ensures Xor(la, lb) < 128 && Xor(128 * ta + la, 128 * tb + lb) == 128 * Xor(ta, tb) + Xor(la, lb)
  {
    hide Xor;
    Eight();
    XorSplit(ta, la, tb, lb, 7);
    assert ta * Pow2(7) == 128 * ta && tb * Pow2(7) == 128 * tb && Xor(ta, tb) * Pow2(7) == 128 * Xor(ta, tb);
  }

  lemma OneBit(s: nat, t: nat)
    requires s <= 1 && t <= 1
    ensures Xor(s, t) == if s != t then 1 else 0
  {}

  lemma StepMsbLinear(a: byte, b: byte, poly: byte)
    ensures StepMsb(XorByte(a, b), poly) == XorByte(StepMsb(a, poly), StepMsb(b, poly))
  {
    hide Xor;
    ShiftLinear(a, b);
    PickLinear(a >= 128, b >= 128, poly);
    XorSwap(2 * a % 256, if a >= 128 then poly else 0, 2 * b % 256, if b >= 128 then poly else 0);
  }

  lemma StepLsbLinear(a: byte, b: byte, poly: byte)
    ensures StepLsb(XorByte(a, b), poly) == XorByte(StepLsb(a, poly), StepLsb(b, poly))
  {
    hide Xor;
    ShiftLinear(a, b);
    PickLinear(a % 2 == 1, b % 2 == 1, poly);
    XorSwap(a / 2, if a % 2 == 1 then poly else 0, b / 2, if b % 2 == 1 then poly else 0);
  }

  lemma PickLinear(s: bool, t: bool, poly: byte)
    ensures Xor(if s then poly else 0, if t then poly else 0) == if s != t then poly else 0
  {
    XorSelf(poly);
    XorZero(poly);
    XorZero(0);
  }

  lemma {:induction false} StepsMsbLinear(a: byte, b: byte, poly: byte, n: nat)
    ensures StepsMsb(XorByte(a, b), poly, n) == XorByte(StepsMsb(a, poly, n), StepsMsb(b, poly, n))
  {
    hide StepMsb, XorByte;
    if n > 0 {
      StepsMsbLinear(a, b, poly, n - 1);
      StepMsbLinear(StepsMsb(a, poly, n - 1), StepsMsb(b, poly, n - 1), poly);
    }
  }

  lemma {:induction false} StepsLsbLinear(a: byte, b: byte, poly: byte, n: nat)
    ensures StepsLsb(XorByte(a, b), poly, n) == XorByte(StepsLsb(a, poly, n), StepsLsb(b, poly, n))
  {
    hide StepLsb, XorByte;
    if n > 0 {
      StepsLsbLinear(a, b, poly, n - 1);
      StepLsbLinear(StepsLsb(a, poly, n - 1), StepsLsb(b, poly, n - 1), poly);
    }
  }

  // ---------------------------------------------------------------- the tables

  lemma {:induction false} ShiftUp(poly: byte, n: nat)
    requires n <= 7
    ensures Pow2(n) <= 128 && StepsMsb(1, poly, n) == Pow2(n)
  {
    hide StepMsb, StepLsb, XorByte;
    PowTable(n);
    if n > 0 {
      ShiftUp(poly, n - 1);
      DoublesBelow(poly);
    }
  }

  lemma FirstMsb(poly: byte)
    ensures RemMsb(1, poly) == StepMsb(128, poly)
  {
    hide StepMsb;
    ShiftUp(poly, 7);
    Eight();
    assert StepsMsb(1, poly, 8) == StepMsb(StepsMsb(1, poly, 7), poly);
  }

  lemma DoublesBelow(poly: byte)
    ensures forall c: byte :: 1 <= c < 128 ==> StepMsb(c, poly) == 2 * c
  {
    forall c: byte | 1 <= c < 128 ensures StepMsb(c, poly) == 2 * c { XorZero(2 * c); }
  }

  /** The entry of a doubled index is one more step of the entry. */
  lemma NextMsb(c: byte, poly: byte)
    requires 1 <= c < 128
    ensures RemMsb(2 * c, poly) == StepMsb(RemMsb(c, poly), poly)
  {
    hide StepMsb;
    DoublesBelow(poly);
    StepsMsbFirst(c, poly, 8);
  }

  lemma {:induction false} ShiftDown(poly: byte, n: nat)
    requires n <= 7
    ensures Pow2(n) <= 128 && StepsLsb(Pow2(n), poly, n) == 1
  {
    hide StepMsb, StepLsb, XorByte;
    PowTable(n);
    if n > 0 {
      ShiftDown(poly, n - 1);
      HalvesEven(poly);
      StepsLsbFirst(Pow2(n), poly, n - 1);
    }
  }

  lemma FirstLsb(poly: byte)
    ensures RemLsb(128, poly) == StepLsb(1, poly)
  {
    hide StepLsb;
    ShiftDown(poly, 7);
    Eight();
    assert StepsLsb(128, poly, 8) == StepLsb(StepsLsb(128, poly, 7), poly);
  }

  lemma HalvesEven(poly: byte)
    ensures forall c: byte :: c % 2 == 0 ==> StepLsb(c, poly) == c / 2
  {
    forall c: byte | c % 2 == 0 ensures StepLsb(c, poly) == c / 2 { XorZero(c / 2); }
  }

  lemma NextLsb(c: byte, poly: byte)
    requires c % 2 == 0
    ensures RemLsb(c / 2, poly) == StepLsb(RemLsb(c, poly), poly)
  {
    hide StepLsb;
    HalvesEven(poly);
    StepsLsbFirst(c, poly, 8);
  }

  lemma RemMsbSum(i: byte, j: byte, k: nat, poly: byte)
    requires i == Pow2(k) && j < i && i + j < 256
    ensures RemMsb(i + j, poly) == XorByte(RemMsb(j, poly), RemMsb(i, poly))
  {
    hide StepsMsb;
    XorDisjoint(1, j, k);
    XorComm(i, j);
    StepsMsbLinear(j, i, poly, 8);
  }

  lemma RemLsbSum(i: byte, q: nat, k: nat, poly: byte)
    requires i == Pow2(k) && q * (2 * i) + i < 256
    ensures RemLsb(q * (2 * i) + i, poly) == XorByte(RemLsb(q * (2 * i), poly), RemLsb(i, poly))
  {
    hide StepsLsb, Pow2;
    assert Pow2(k + 1) == 2 * i by { PowNext(k); }
    XorDisjoint(q, i, k + 1);
    StepsLsbLinear(q * (2 * i), i, poly, 8);
  }

  lemma PowNext(k: nat)
    ensures Pow2(k + 1) == 2 * Pow2(k)
  {}

  /** crc8_populate_msb fills the table with the bit-serial remainders. */
  method PopulateMsb(table: array<byte>, poly: byte)
    requires table.Length == 256
    modifies table
    ensures forall x: byte :: table[x] == RemMsb(x, poly)
  {
    hide RemMsb, StepMsb, Xor, Pow2;
    var t: byte := 128;
    table[0] := 0;
    RemZeroMsb(poly);
    FirstMsb(poly);
    ghost var k := 0;
    var i := 1;
    PowStart();
    while i < 256
      invariant 1 <= i <= 256 && k <= 8 && i == Pow2(k)
      invariant i < 256 ==> StepMsb(t, poly) == RemMsb(i, poly)
      invariant forall x :: 0 <= x < i ==> table[x] == RemMsb(x, poly)
      decreases 256 - i
    {
      t := StepMsb(t, poly);
      PowRoom(k);
      if i < 128 { NextMsb(i, poly); }
      var j := 0;
      while j < i
        invariant 0 <= j <= i <= 128
        invariant forall x :: 0 <= x < i + j ==> table[x] == RemMsb(x, poly)
      {
        RemMsbSum(i, j, k, poly);
        table[i + j] := XorByte(table[j], t);
        j := j + 1;
      }
      PowNext(k);
      i := i * 2;
      k := k + 1;
    }
  }

  lemma PowStart()
    ensures Pow2(0) == 1
  {}

  /** A power of two below 256 is at most 128. */
  lemma {:induction false} PowRoom(k: nat)
    ensures Pow2(k) < 256 ==> k <= 7 && Pow2(k) <= 128
  {
    if k >= 8 { PowersDivide(8, k); Eight(); } else { PowTable(k); }
  }

  lemma PowTable(k: nat)
    requires k <= 7
    ensures Pow2(k) <= 128
  {
    PowersDivide(k, 7);
    Eight();
    assert Pow2(7 - k) >= 1;
  }

  lemma RemZeroMsb(poly: byte)
    ensures RemMsb(0, poly) == 0
  {
    StepsZeroMsb(poly, 8);
  }

  lemma {:induction false} StepsZeroMsb(poly: byte, n: nat)
    ensures StepsMsb(0, poly, n) == 0
  {
    if n > 0 { StepsZeroMsb(poly, n - 1); XorZero(0); }
  }

  /** The q-th multiple of step. */
  function Multiple(q: nat, step: nat): nat { q * step }

  /** The entries at multiples of step are right. */
  ghost predicate Filled(table: seq<byte>, step: nat, poly: byte)
    requires |table| == 256
  {
    forall q: nat :: Multiple(q, step) < 256 ==> table[Multiple(q, step)] == RemLsb(Multiple(q, step), poly)
  }

  /** The odd multiples of i below the q-th even one are right, too. */
  ghost predicate OddsFilled(table: seq<byte>, i: nat, q: nat, poly: byte)
    requires |table| == 256
  {
    forall p: nat :: p < q && Multiple(p, 2 * i) + i < 256 ==>
      table[Multiple(p, 2 * i) + i] == RemLsb(Multiple(p, 2 * i) + i, poly)
  }

  lemma EvenOrOdd(r: nat, i: nat)
    ensures Multiple(r, i) == if r % 2 == 0 then Multiple(r / 2, 2 * i) else Multiple(r / 2, 2 * i) + i
  {
    assert r == 2 * (r / 2) + r % 2;
    assert (2 * (r / 2) + r % 2) * i == (r / 2) * (2 * i) + (r % 2) * i;
  }

  lemma OddIsNotEven(p: nat, q: nat, i: nat)
    requires i >= 1
    ensures Multiple(p, 2 * i) + i != Multiple(q, 2 * i)
  {
    var d := q - p;
    if Multiple(p, 2 * i) + i == Multiple(q, 2 * i) {
      assert d * (2 * i) == i;
      SmallMultiple(d, 2 * i);
    }
  }

  lemma OddsDiffer(p: nat, q: nat, i: nat)
    requires i >= 1 && p < q
    ensures Multiple(p, 2 * i) + i < Multiple(q, 2 * i)
  {
    TimesMono(p + 1, q, 2 * i);
    NextMultiple(p, 2 * i);
  }

  lemma TimesMono(a: nat, b: nat, c: nat)
    requires a <= b
    ensures a * c <= b * c
  {}

  lemma TimesLess(a: nat, b: nat, c: nat)
    requires a * c < b * c
    ensures a < b
  {
    if b <= a { TimesMono(b, a, c); }
  }

  /** Below 256 there is room for one more i behind every multiple of 2i. */
  lemma RoomForOdd(q: nat, i: nat, k: nat)
    requires k <= 7 && i == Pow2(k) && Multiple(q, 2 * i) < 256
    ensures Multiple(q, 2 * i) + i < 256
  {
    hide Pow2;
    PowersDivide(k + 1, 8);
    PowNext(k);
    Eight();
    var n := Pow2(7 - k);
    assert n * (2 * i) == 256;
    TimesLess(q, n, 2 * i);
    TimesMono(q + 1, n, 2 * i);
    NextMultiple(q, 2 * i);
  }

  lemma BothFilled(table: seq<byte>, i: nat, q: nat, poly: byte)
    requires |table| == 256 && i >= 1 && Multiple(q, 2 * i) >= 256
    requires Filled(table, 2 * i, poly) && OddsFilled(table, i, q, poly)
    ensures Filled(table, i, poly)
  {
    hide RemLsb;
    forall r: nat | Multiple(r, i) < 256 ensures table[Multiple(r, i)] == RemLsb(Multiple(r, i), poly) {
      EvenOrOdd(r, i);
      if r % 2 == 1 && r / 2 >= q && r / 2 > q { OddsDiffer(q, r / 2, i); }
    }
  }

  lemma StoreOdd(table: seq<byte>, i: nat, q: nat, v: byte, poly: byte)
    requires |table| == 256 && i >= 1 && Multiple(q, 2 * i) + i < 256
    requires Filled(table, 2 * i, poly) && OddsFilled(table, i, q, poly)
    requires v == RemLsb(Multiple(q, 2 * i) + i, poly)
    ensures var t := table[Multiple(q, 2 * i) + i := v]; Filled(t, 2 * i, poly) && OddsFilled(t, i, q + 1, poly)
  {
    hide RemLsb, Multiple;
    forall p: nat ensures Multiple(q, 2 * i) + i != Multiple(p, 2 * i) { OddIsNotEven(q, p, i); }
  }

  /** crc8_populate_lsb fills the table with the bit-serial remainders. */
  method PopulateLsb(table: array<byte>, poly: byte)
    requires table.Length == 256
    modifies table
    ensures forall x: byte :: table[x] == RemLsb(x, poly)
  {
    hide RemLsb, StepLsb, Xor, Pow2, Filled, OddsFilled;
    var t: byte := 1;
    table[0] := 0;
    ZeroFilled(table[..], poly);
    FirstLsb(poly);
    ghost var k := 7;
    ghost var step := 256;
    var i := 128;
    Eight();
    while i > 0
      invariant 0 <= i <= 128 && (i > 0 ==> -1 < k <= 7 && i == Pow2(k) && step == 2 * i) && (i == 0 ==> step == 1)
      invariant i > 0 ==> StepLsb(t, poly) == RemLsb(i, poly)
      invariant Filled(table[..], step, poly)
    {
      t := StepLsb(t, poly);
      var j := 0;
      ghost var q := 0;
      NoOdds(table[..], i, poly);
      while j < 256
        invariant j == Multiple(q, 2 * i)
        invariant Filled(table[..], 2 * i, poly) && OddsFilled(table[..], i, q, poly)
        decreases 256 - j
      {
        RoomForOdd(q, i, k);
        RemLsbSum(i, q, k, poly);
        FilledAt(table[..], 2 * i, q, poly);
        ghost var before := table[..];
        table[i + j] := XorByte(table[j], t);
        assert table[..] == before[i + j := table[i + j]];
        StoreOdd(before, i, q, table[i + j], poly);
        NextMultiple(q, 2 * i);
        q := q + 1;
        j := j + 2 * i;
      }
      BothFilled(table[..], i, q, poly);
      step := i;
      HalfPower(i, k, poly);
      i := i / 2;
      k := k - 1;
    }
    forall x: byte ensures table[x] == RemLsb(x, poly) { FilledAt(table[..], 1, x, poly); }
  }

  lemma NextMultiple(q: nat, step: nat)
    ensures Multiple(q + 1, step) == Multiple(q, step) + step
    ensures Multiple(0, step) == 0
  {}

  lemma FilledAt(table: seq<byte>, step: nat, q: nat, poly: byte)
    requires |table| == 256 && Filled(table, step, poly) && Multiple(q, step) < 256
    ensures table[Multiple(q, step)] == RemLsb(Multiple(q, step), poly)
    ensures step == 1 ==> Multiple(q, step) == q
  {}

  lemma NoOdds(table: seq<byte>, i: nat, poly: byte)
    requires |table| == 256
    ensures OddsFilled(table, i, 0, poly)
  {}

  lemma ZeroFilled(table: seq<byte>, poly: byte)
    requires |table| == 256 && table[0] == 0
    ensures Filled(table, 256, poly)
  {
    StepsZeroLsb(poly, 8);
    hide RemLsb;
    assert RemLsb(0, poly) == 0;
  }

  lemma {:induction false} StepsZeroLsb(poly: byte, n: nat)
    ensures StepsLsb(0, poly, n) == 0
    ensures n == 8 ==> RemLsb(0, poly) == 0
  {
    if n > 0 { StepsZeroLsb(poly, n - 1); XorZero(0); }
  }

  /** The next smaller power and its first entry. */
  lemma HalfPower(i: nat, k: nat, poly: byte)
    requires k <= 7 && i == Pow2(k) && i <= 128
    ensures k > 0 ==> i / 2 == Pow2(k - 1) && i == 2 * (i / 2) && RemLsb(i / 2, poly) == StepLsb(RemLsb(i, poly), poly)
    ensures k == 0 ==> i / 2 == 0
  {
    hide RemLsb, StepLsb;
    if k > 0 { NextLsb(i, poly); }
  }

  // ---------------------------------------------------------------- the update

  /** crc8 over a buffer with a given table. */
  function Crc(table: seq<byte>, data: seq<byte>, crc: byte): byte
    requires |table| == 256
    decreases |data|
  {
    if data == [] then crc else XorByteLast(table, Crc(table, data[..|data| - 1], crc), data[|data| - 1])
  }

  function XorByteLast(table: seq<byte>, crc: byte, b: byte): byte
    requires |table| == 256
  {
    table[XorByte(crc, b)]
  }

  method Crc8(table: array<byte>, data: seq<byte>, crc0: byte) returns (crc: byte)
    requires table.Length == 256
    ensures crc == Crc(table[..], data, crc0)
  {
    hide XorByte;
    crc := crc0;
    var k := 0;
    assert data[..0] == [];
    while k < |data|
      invariant 0 <= k <= |data|
      invariant crc == Crc(table[..], data[..k], crc0)
    {
      assert data[..k + 1][..k] == data[..k];
      crc := table[XorByte(crc, data[k])];
      k := k + 1;
    }
    assert data[..k] == data;
  }

  /** Discontiguous blocks: the result of one block is the start value of the next. */
  lemma {:induction false} CrcConcat(table: seq<byte>, a: seq<byte>, b: seq<byte>, crc: byte)
    requires |table| == 256
    ensures Crc(table, a + b, crc) == Crc(table, b, Crc(table, a, crc))
    decreases |b|
  {
    hide XorByteLast;
    if b == [] {
      assert a + b == a;
    } else {
      assert (a + b)[..|a + b| - 1] == a + b[..|b| - 1];
      CrcConcat(table, a, b[..|b| - 1], crc);
    }
  }

  /** A message followed by its complemented CRC gives the good value, whatever the table. */
  lemma GoodValue(table: seq<byte>, msg: seq<byte>, crc0: byte)
    requires |table| == 256
    ensures var crc := Crc(table, msg, crc0); Crc(table, msg + [255 - crc], crc0) == table[255]
  {
    var crc := Crc(table, msg, crc0);
    CrcConcat(table, msg, [255 - crc], crc0);
    assert [255 - crc][..0] == [];
    Eight();
    XorComplement(crc, 8);
  }

  ghost predicate IsMsbTable(table: seq<byte>, poly: byte) {
    |table| == 256 && forall x: byte :: table[x] == RemMsb(x, poly)
  }

  ghost predicate IsLsbTable(table: seq<byte>, poly: byte) {
    |table| == 256 && forall x: byte :: table[x] == RemLsb(x, poly)
  }

  function XorSeq(a: seq<byte>, b: seq<byte>): (c: seq<byte>)
    requires |a| == |b|
    ensures |c| == |a|
  {
    seq(|a|, i requires 0 <= i < |a| => XorByte(a[i], b[i]))
  }

  /** The table entry is linear in its index, for both bit orders. */
  lemma TableLinear(table: seq<byte>, poly: byte, a: byte, b: byte)
    requires IsMsbTable(table, poly) || IsLsbTable(table, poly)
    ensures table[XorByte(a, b)] == XorByte(table[a], table[b])
  {
    hide XorByte, StepsMsb, StepsLsb;
    StepsMsbLinear(a, b, poly, 8);
    StepsLsbLinear(a, b, poly, 8);
  }

  /** The CRC is linear over exclusive or. */
  lemma {:induction false} CrcLinear(table: seq<byte>, poly: byte, a: seq<byte>, b: seq<byte>, ca: byte, cb: byte)
    requires |table| == 256 && (IsMsbTable(table, poly) || IsLsbTable(table, poly))
    requires |a| == |b|
    ensures Crc(table, XorSeq(a, b), XorByte(ca, cb)) == XorByte(Crc(table, a, ca), Crc(table, b, cb))
    decreases |a|
  {
    hide IsMsbTable, IsLsbTable;
    if a != [] {
      var n := |a| - 1;
      var x, y := Crc(table, a[..n], ca), Crc(table, b[..n], cb);
      CrcLinear(table, poly, a[..n], b[..n], ca, cb);
      assert XorSeq(a, b)[..n] == XorSeq(a[..n], b[..n]);
      XorSwap(x, y, a[n], b[n]);
      TableLinear(table, poly, XorByte(x, a[n]), XorByte(y, b[n]));
    }
  }

  // ---------------------------------------------------------------- polynomial division

  /** The message as a polynomial, first byte highest, with the start value above it, times x^8. */
  function Dividend(data: seq<byte>, crc0: byte): nat
    decreases |data|
  {
    if data == [] then crc0 else 256 * Xor(Dividend(data[..|data| - 1], crc0), data[|data| - 1])
  }

  /** One shift is one step of long division by x^8 + poly. */
  lemma DivStep(c: byte, poly: byte)
    ensures Xor(if c >= 128 then 256 + poly else 0, StepMsb(c, poly)) == 2 * c
  {
    hide Xor, Pow2;
    var low: byte := 2 * c % 256;
    if c >= 128 {
      BitEight(poly);
      BitEight(low);
      XorAssoc(256, poly, Xor(low, poly));
      XorComm(low, poly);
      XorAssoc(poly, poly, low);
      XorSelf(poly);
      XorZero(low);
    } else {
      XorZero(low);
      XorZero(2 * c);
    }
  }

  lemma BitEight(x: byte)
    ensures Xor(256, x) == 256 + x
  {
    hide Xor;
    Eight();
    XorDisjoint(1, x, 8);
  }

  /** n shifts are n steps: 2^n c = q (x^8 + poly) + the result. */
  lemma {:induction false} DivSteps(c: byte, poly: byte, n: nat) returns (q: nat)
    ensures Xor(ClMul(q, 256 + poly), StepsMsb(c, poly, n)) == Pow2(n) * c
  {
    hide Xor, StepMsb, ClMul;
    if n == 0 {
      q := 0;
      ClMulZero(256 + poly);
      XorZero(c);
    } else {
      var p := DivSteps(c, poly, n - 1);
      var r := StepsMsb(c, poly, n - 1);
      var top := if r >= 128 then 1 else 0;
      q := 2 * p + top;
      DivStep(r, poly);
      ClMulUnfold(q, 256 + poly);
      var g := if top == 1 then 256 + poly else 0;
      var pg := ClMul(p, 256 + poly);
      XorComm(g, 2 * pg);
      XorAssoc(2 * pg, g, StepMsb(r, poly));
      XorDouble(pg, r);
      assert Pow2(n) * c == 2 * (Pow2(n - 1) * c);
    }
  }

  /** crc8 with an msb table is the remainder of polynomial division of the message by
      x^8 + poly: it is below x^8 and differs from the dividend by a multiple. */
  lemma {:induction false} CrcDivides(table: seq<byte>, poly: byte, data: seq<byte>, crc0: byte) returns (q: nat)
    requires |table| == 256 && IsMsbTable(table, poly)
    ensures Xor(ClMul(q, 256 + poly), Crc(table, data, crc0)) == Dividend(data, crc0)
    decreases |data|
  {
    hide Xor, ClMul, IsMsbTable, RemMsb;
    var g := 256 + poly;
    if data == [] {
      q := 0;
      ClMulZero(g);
      XorZero(crc0);
    } else {
      var n := |data| - 1;
      var c := Crc(table, data[..n], crc0);
      var p := CrcDivides(table, poly, data[..n], crc0);
      var x := XorByte(c, data[n]);
      var d := RemOf(table, poly, x);
      q := Xor(256 * p, d);
      // 256 (Dividend ^ b) = 256 (p g ^ c ^ b) = (256 p) g ^ 256 x = (256 p) g ^ d g ^ table[x]
      XorAssoc(ClMul(p, g), c, data[n]);
      TimesByte(ClMul(p, g), x);
      ClMulShift(p, g, 8);
      Eight();
      ClMulXor(256 * p, d, g);
      XorAssoc(ClMul(256 * p, g), ClMul(d, g), table[x]);
    }
  }

  lemma RemOf(table: seq<byte>, poly: byte, x: byte) returns (d: nat)
    requires IsMsbTable(table, poly)
    ensures Xor(ClMul(d, 256 + poly), table[x]) == 256 * x
  {
    hide Xor, ClMul;
    Eight();
    d := DivSteps(x, poly, 8);
  }

  lemma TimesByte(a: nat, b: nat)
    ensures 256 * Xor(a, b) == Xor(256 * a, 256 * b)
  {
    Eight();
    XorZero(0);
    XorSplit(a, 0, b, 0, 8);
  }

  lemma {:induction false} ClMulShift(q: nat, g: nat, n: nat)
    ensures ClMul(Pow2(n) * q, g) == Pow2(n) * ClMul(q, g)
  {
    hide Xor, ClMul;
    if n > 0 {
      ClMulShift(q, g, n - 1);
      var h := Pow2(n - 1) * q;
      assert Pow2(n) * q == 2 * h;
      ClMulUnfold(2 * h, g);
      XorZero(2 * ClMul(h, g));
      assert Pow2(n) * ClMul(q, g) == 2 * (Pow2(n - 1) * ClMul(q, g));
    }
  }

  /** ... and it is the only such remainder. */
  lemma CrcIsTheRemainder(table: seq<byte>, poly: byte, data: seq<byte>, crc0: byte, q: nat, r: byte)
    requires |table| == 256 && IsMsbTable(table, poly)
    requires Xor(ClMul(q, 256 + poly), r) == Dividend(data, crc0)
    ensures r == Crc(table, data, crc0)
  {
    hide Xor, ClMul, IsMsbTable;
    Eight();
    var p := CrcDivides(table, poly, data, crc0);
    RemainderUnique(q, r, p, Crc(table, data, crc0), 256 + poly, 8);
  }

  // ---------------------------------------------------------------- the other bit order

  /** The k low bits of x in reverse order. */
  function Rev(x: nat, k: nat): nat {
    if k == 0 then 0 else x % 2 * Pow2(k - 1) + Rev(x / 2, k - 1)
  }

  lemma {:induction false} RevBelow(x: nat, k: nat)
    ensures Rev(x, k) < Pow2(k)
  {
    if k > 0 { RevBelow(x / 2, k - 1); }
  }

  /** The top bit becomes the lowest. */
  lemma {:induction false} RevTop(t: nat, y: nat, k: nat)
    requires t <= 1 && y < Pow2(k)
    ensures Rev(t * Pow2(k) + y, k + 1) == t + 2 * Rev(y, k)
  {
    hide Rev, Pow2;
    if k == 0 {
      RevTopBase(t, y);
    } else {
      PowTwice(k);
      Halves(t, y, Pow2(k - 1));
      RevTop(t, y / 2, k - 1);
      RevTopStep(t, y, k);
    }
  }

  lemma RevTopBase(t: nat, y: nat)
    requires t <= 1 && y < Pow2(0)
    ensures Rev(t * Pow2(0) + y, 1) == t + 2 * Rev(y, 0)
  {
    assert t * Pow2(0) + y == t;
  }

  lemma PowTwice(k: nat)
    requires k >= 1
    ensures Pow2(k) == 2 * Pow2(k - 1)
  {}

  lemma RevTopStep(t: nat, y: nat, k: nat)
    requires k >= 1
    requires Rev(t * Pow2(k - 1) + y / 2, k) == t + 2 * Rev(y / 2, k - 1)
    requires (t * Pow2(k) + y) / 2 == t * Pow2(k - 1) + y / 2 && (t * Pow2(k) + y) % 2 == y % 2
    ensures Rev(t * Pow2(k) + y, k + 1) == t + 2 * Rev(y, k)
  {
    hide Rev, Pow2;
    RevUnfold(t * Pow2(k) + y, k + 1);
    RevUnfold(y, k);
    PowTwice(k);
    assert y % 2 == 0 || y % 2 == 1;
  }

  lemma RevUnfold(x: nat, k: nat)
    requires k >= 1
    ensures Rev(x, k) == x % 2 * Pow2(k - 1) + Rev(x / 2, k - 1)
  {}

  lemma {:induction false} RevXor(x: nat, y: nat, k: nat)
    ensures Rev(Xor(x, y), k) == Xor(Rev(x, k), Rev(y, k))
  {
    hide Xor;
    if k == 0 {
      XorZero(0);
    } else {
      RevXor(x / 2, y / 2, k - 1);
      XorHalf(x, y);
      RevBelow(x / 2, k - 1);
      RevBelow(y / 2, k - 1);
      XorSplit(x % 2, Rev(x / 2, k - 1), y % 2, Rev(y / 2, k - 1), k - 1);
      OneBit(x % 2, y % 2);
    }
  }

  function RevByte(x: byte): byte {
    RevBelow(x, 8);
    Eight();
    Rev(x, 8)
  }

  /** Reversing all bits turns one step into the other. */
  lemma StepMirror(c: byte, poly: byte)
    ensures StepLsb(RevByte(c), RevByte(poly)) == RevByte(StepMsb(c, poly))
  {
    hide Xor, Rev, Pow2;
    var t, y := c / 128, c % 128;
    RevCase(c, y, t);
    var low: byte := 2 * c % 256;
    RevXor(low, if c >= 128 then poly else 0, 8);
    RevNothing(8);
  }

  lemma RevCase(c: byte, y: nat, t: nat)
    requires t == c / 128 && y == c % 128
    ensures RevByte(c) % 2 == 1 <==> c >= 128
    ensures RevByte(c) / 2 == RevByte(2 * c % 256)
  {
    hide Rev;
    RevTop8(t, y);
    RevEven(y, 8);
    assert 128 * t + y == c && 2 * c % 256 == 2 * y;
  }

  lemma RevTop8(t: nat, y: nat)
    requires t <= 1 && y < 128
    ensures Rev(128 * t + y, 8) == t + 2 * Rev(y, 7)
  {
    hide Rev;
    Eight();
    RevTop(t, y, 7);
    assert t * Pow2(7) == 128 * t;
  }

  lemma RevEven(y: nat, k: nat)
    requires k >= 1
    ensures Rev(2 * y, k) == Rev(y, k - 1)
  {
    hide Pow2;
    assert 2 * y % 2 == 0 && 2 * y / 2 == y;
    assert Rev(2 * y, k) == 0 * Pow2(k - 1) + Rev(y, k - 1);
  }

  lemma {:induction false} RevNothing(k: nat)
    ensures Rev(0, k) == 0
  {
    if k > 0 { RevNothing(k - 1); }
  }

  lemma {:induction false} StepsMirror(c: byte, poly: byte, n: nat)
    ensures StepsLsb(RevByte(c), RevByte(poly), n) == RevByte(StepsMsb(c, poly, n))
  {
    hide StepMsb, StepLsb, RevByte;
    if n > 0 {
      StepsMirror(c, poly, n - 1);
      StepMirror(StepsMsb(c, poly, n - 1), poly);
    }
  }

  function RevSeq(data: seq<byte>): seq<byte> {
    seq(|data|, i requires 0 <= i < |data| => RevByte(data[i]))
  }

  /** The two bit orders are mirror images: crc8 with the lsb table of the reversed polynomial
      over reversed bytes is the reversed crc8 with the msb table. */
  lemma {:induction false} CrcMirror(msb: seq<byte>, lsb: seq<byte>, poly: byte, data: seq<byte>, crc0: byte)
    requires |msb| == 256 == |lsb| && IsMsbTable(msb, poly) && IsLsbTable(lsb, RevByte(poly))
    ensures Crc(lsb, RevSeq(data), RevByte(crc0)) == RevByte(Crc(msb, data, crc0))
    decreases |data|
  {
    hide RevByte, XorByte, IsMsbTable, IsLsbTable;
    if data != [] {
      var n := |data| - 1;
      var c := Crc(msb, data[..n], crc0);
      CrcMirror(msb, lsb, poly, data[..n], crc0);
      assert RevSeq(data)[..n] == RevSeq(data[..n]);
      RevSum(c, data[n]);
      TableMirror(msb, lsb, poly, XorByte(c, data[n]));
    }
  }

  lemma RevSum(a: byte, b: byte)
    ensures XorByte(RevByte(a), RevByte(b)) == RevByte(XorByte(a, b))
  {
    hide Rev, Xor;
    RevXor(a, b, 8);
  }

  lemma TableMirror(msb: seq<byte>, lsb: seq<byte>, poly: byte, x: byte)
    requires |msb| == 256 == |lsb| && IsMsbTable(msb, poly) && IsLsbTable(lsb, RevByte(poly))
    ensures lsb[RevByte(x)] == RevByte(msb[x])
  {
    hide RevByte, StepsMsb, StepsLsb;
    StepsMirror(x, poly, 8);
  }
}
