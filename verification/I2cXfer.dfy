/** Addressing and transferring messages: compat/compat-3.4.c, lines 234-475. */
module I2cXfer {
  import opened Wrappers
  import opened I2cWire
  import opened I2cBus
  import opened Errno
  import opened Words

  /** The flags of struct i2c_msg that the code looks at. */
  datatype Flags = Flags(ten: bool, rd: bool, noStart: bool, revDirAddr: bool, ignoreNak: bool, noRdAck: bool,
                         recvLen: bool)

  datatype Msg = Msg(addr: u16, flags: Flags, len: u16, buf: seq<byte>)

  const I2C_SMBUS_BLOCK_MAX := 32

  /** The buffer has room for what is transferred; a block length read first can add to that. */
  predicate Fits(m: Msg) {
    m.len + (if m.flags.rd && m.flags.recvLen then I2C_SMBUS_BLOCK_MAX else 0) <= |m.buf|
  }

  /** A conversation: its frames, the code's return value, and how many pulses were listened to. */
  datatype Talk = Talk(frames: seq<Frame>, ret: int, used: nat)

  function Then(a: Talk, b: Talk): Talk {
    Talk(a.frames + b.frames, b.ret, a.used + b.used)
  }

  // ---------------------------------------------------------------- addressing

  function WriteTalk(answers: nat -> bool, c: byte, n: nat): Talk {
    Talk([FWrite(c, Ack(answers, n))], if Ack(answers, n) then 1 else 0, 1)
  }

  /** Sending an address until it is acknowledged, at most retries times again. */
  function TryTalk(answers: nat -> bool, a: byte, n: nat, retries: nat): Talk
    decreases retries
  {
    if Ack(answers, n) || retries == 0 then WriteTalk(answers, a, n)
    else Then(Talk([FWrite(a, false), FStop, FStart], 0, 1), TryTalk(answers, a, n + 1, retries - 1))
  }

  method TryAddress(bus: Bus, addr: byte, retries: nat) returns (ret: int)
    requires bus.Ready()
    modifies bus
    ensures bus.Ready()
    ensures var t := TryTalk(bus.answers, addr, old(bus.asked), retries);
      bus.log == old(bus.log) + t.frames && bus.asked == old(bus.asked) + t.used && ret == t.ret
  {
    hide Watch, Encode, TryTalk, Then;
    ghost var n, log := bus.asked, bus.log;
    ghost var done := [];
    var i := 0;
    ret := 0;
    ThenNothing(TryTalk(bus.answers, addr, n, retries));
    while i <= retries
      invariant 0 <= i <= retries && bus.Ready() && bus.asked == n + i && bus.log == log + done
      invariant TryTalk(bus.answers, addr, n, retries) ==
                Then(Talk(done, 0, i), TryTalk(bus.answers, addr, n + i, retries - i))
      decreases retries - i
    {
      TryStep(bus.answers, addr, n, retries, i, done);
      var ack := bus.OutB(addr);
      ret := if ack then 1 else 0;
      if ret == 1 || i == retries { break; }
      bus.Stop();
      bus.Start();
      done := done + [FWrite(addr, false), FStop, FStart];
      i := i + 1;
    }
  }

  lemma ThenNothing(t: Talk)
    ensures Then(Talk([], 0, 0), t) == t
  {}

  lemma TryStep(answers: nat -> bool, a: byte, n: nat, retries: nat, i: nat, done: seq<Frame>)
    requires i <= retries
    ensures Then(Talk(done, 0, i), TryTalk(answers, a, n + i, retries - i)) ==
      if Ack(answers, n + i) || i == retries then
        Talk(done + [FWrite(a, Ack(answers, n + i))], if Ack(answers, n + i) then 1 else 0, i + 1)
      else
        Then(Talk(done + [FWrite(a, false), FStop, FStart], 0, i + 1),
             TryTalk(answers, a, n + (i + 1), retries - (i + 1)))
  {}

  /** The byte that names a seven-bit address and the direction. */
  function AddressByte(m: Msg): byte {
    var bit := if m.flags.rd then 1 else 0;
    2 * m.addr % 256 + if m.flags.revDirAddr then 1 - bit else bit
  }

  /** The first byte of a ten-bit address: 11110, its two high bits, and the write bit. */
  function TenBitHead(m: Msg): (h: byte)
    ensures h < 255
  {
    0xf0 + 2 * (m.addr / 256 % 4)
  }

  /** Ten-bit reads address for writing first, then again after a repeated start. */
  function TenBitTalk(answers: nat -> bool, m: Msg, n: nat, retries: nat): Talk {
    var nakOk := m.flags.ignoreNak;
    var head := TryTalk(answers, TenBitHead(m), n, retries);
    if head.ret != 1 && !nakOk then head.(ret := -ENXIO)
    else
      var two := Then(head, WriteTalk(answers, m.addr % 256, n + head.used));
      if two.ret != 1 && !nakOk then two.(ret := -ENXIO)
      else if m.flags.rd then
        var again := TryTalk(answers, TenBitHead(m) + 1, n + two.used, retries);
        Then(two, Then(Talk([FStart], 0, 0), again.(ret := if again.ret != 1 && !nakOk then -EIO else 0)))
      else two.(ret := 0)
  }

  /** The address phase of a message. */
  function AddressTalk(answers: nat -> bool, m: Msg, n: nat, adapterRetries: nat): Talk {
    var retries := if m.flags.ignoreNak then 0 else adapterRetries;
    if m.flags.ten then TenBitTalk(answers, m, n, retries)
    else
      var t := TryTalk(answers, AddressByte(m), n, retries);
      t.(ret := if t.ret != 1 && !m.flags.ignoreNak then -ENXIO else 0)
  }

  /** The ten-bit branch of bit_doAddress. */
  method DoTenBit(bus: Bus, m: Msg, retries: nat) returns (ret: int)
    requires bus.Ready()
    modifies bus
    ensures bus.Ready()
    ensures var t := TenBitTalk(bus.answers, m, old(bus.asked), retries);
      bus.log == old(bus.log) + t.frames && bus.asked == old(bus.asked) + t.used && ret == t.ret
  {
    hide Watch, Encode, TryTalk, Ack, TenBitHead;
    var nakOk := m.flags.ignoreNak;
    var addr := TenBitHead(m);
    ret := TryAddress(bus, addr, retries);
    if ret != 1 && !nakOk { return -ENXIO; }
    var ack := bus.OutB(m.addr % 256);
    if !ack && !nakOk { return -ENXIO; }
    if m.flags.rd {
      bus.RepStart();
      ret := TryAddress(bus, addr + 1, retries);
      if ret != 1 && !nakOk { return -EIO; }
    }
    return 0;
  }

  /** Its seven-bit counterpart: shifting, then setting and flipping the direction bit. */
  method SevenBitByte(m: Msg) returns (addr: byte)
    ensures addr == AddressByte(m)
  {
    addr := 2 * m.addr % 256;
    if m.flags.rd { addr := addr + 1; }
    if m.flags.revDirAddr { addr := if addr % 2 == 0 then addr + 1 else addr - 1; }
  }

  /** bit_doAddress */
  method DoAddress(bus: Bus, m: Msg, adapterRetries: nat) returns (ret: int)
    requires bus.Ready()
    modifies bus
    ensures bus.Ready()
    ensures var t := AddressTalk(bus.answers, m, old(bus.asked), adapterRetries);
      bus.log == old(bus.log) + t.frames && bus.asked == old(bus.asked) + t.used && ret == t.ret
  {
    hide Watch, Encode, TryTalk, TenBitTalk, AddressByte;
    var retries := if m.flags.ignoreNak then 0 else adapterRetries;
    if m.flags.ten {
      ret := DoTenBit(bus, m, retries);
    } else {
      var addr := SevenBitByte(m);
      ret := TryAddress(bus, addr, retries);
      ret := if ret != 1 && !m.flags.ignoreNak then -ENXIO else 0;
    }
  }

  // ---------------------------------------------------------------- data

  /** Writing data until it is done or a byte is refused; k bytes were written before. */
  function SendTalk(answers: nat -> bool, data: seq<byte>, n: nat, nakOk: bool, k: nat): Talk
    decreases |data|
  {
    if data == [] then Talk([], k, 0)
    else
      var one := WriteTalk(answers, data[0], n);
      if one.ret == 1 || nakOk then Then(one, SendTalk(answers, data[1..], n + 1, nakOk, k + 1))
      else one.(ret := -EIO)
  }

  /** sendbytes */
  method SendBytes(bus: Bus, m: Msg) returns (ret: int)
    requires bus.Ready() && m.len <= |m.buf|
    modifies bus
    ensures bus.Ready()
    ensures var t := SendTalk(bus.answers, m.buf[..m.len], old(bus.asked), m.flags.ignoreNak, 0);
      bus.log == old(bus.log) + t.frames && bus.asked == old(bus.asked) + t.used && ret == t.ret
  {
    hide Watch, Encode, SendTalk, Then;
    ghost var n, log, data := bus.asked, bus.log, m.buf[..m.len];
    ghost var done := [];
    var count: int := m.len;
    var wrcount := 0;
    ThenNothing(SendTalk(bus.answers, data, n, m.flags.ignoreNak, 0));
    assert data[0..] == data;
    while count > 0
      invariant 0 <= wrcount <= m.len && wrcount + count == m.len && bus.Ready()
      invariant bus.asked == n + wrcount && bus.log == log + done
      invariant SendTalk(bus.answers, data, n, m.flags.ignoreNak, 0) ==
                Then(Talk(done, 0, wrcount),
                     SendTalk(bus.answers, data[wrcount..], n + wrcount, m.flags.ignoreNak, wrcount))
    {
      SendStep(bus.answers, data, n, m.flags.ignoreNak, wrcount, done);
      var ack := bus.OutB(m.buf[wrcount]);
      done := done + [FWrite(m.buf[wrcount], ack)];
      if ack || m.flags.ignoreNak {
        count := count - 1;
        wrcount := wrcount + 1;
      } else {
        return -EIO;
      }
    }
    SendDone(bus.answers, data, n, m.flags.ignoreNak, done);
    return wrcount;
  }

  lemma SendStep(answers: nat -> bool, data: seq<byte>, n: nat, nakOk: bool, k: nat, done: seq<Frame>)
    requires k < |data|
    ensures Then(Talk(done, 0, k), SendTalk(answers, data[k..], n + k, nakOk, k)) ==
      var more := done + [FWrite(data[k], Ack(answers, n + k))];
      if Ack(answers, n + k) || nakOk then
        Then(Talk(more, 0, k + 1), SendTalk(answers, data[k + 1..], n + (k + 1), nakOk, k + 1))
      else Talk(more, -EIO, k + 1)
  {
    assert data[k..][1..] == data[k + 1..];
  }

  lemma SendDone(answers: nat -> bool, data: seq<byte>, n: nat, nakOk: bool, done: seq<Frame>)
    ensures var k := |data|;
      Then(Talk(done, 0, k), SendTalk(answers, data[k..], n + k, nakOk, k)) == Talk(done, k, k)
  {}

  /** The first total bytes the other side sends from pulse n on. */
  function ReadData(answers: nat -> bool, n: nat, total: nat): (d: seq<byte>)
    ensures |d| == total
  {
    if total == 0 then [] else ReadData(answers, n, total - 1) + [ReadByte(answers, n + 8 * (total - 1))]
  }

  /** Their first k frames: all but the last of all bytes are acknowledged. */
  function ReadFrames(answers: nat -> bool, n: nat, total: nat, noAck: bool, k: nat): (fs: seq<Frame>)
    ensures |fs| == k
  {
    if k == 0 then []
    else ReadFrames(answers, n, total, noAck, k - 1) +
         [FRead(ReadByte(answers, n + 8 * (k - 1)), if noAck then None else Some(k != total))]
  }

  function Filled(buf: seq<byte>, data: seq<byte>): (filled: seq<byte>)
    requires |data| <= |buf|
    ensures |filled| == |buf|
  {
    data + buf[|data|..]
  }

  /** Is the first byte a block length that SMBus does not allow? */
  predicate BadLength(answers: nat -> bool, m: Msg, n: nat) {
    m.flags.recvLen && m.len > 0 && !(1 <= ReadByte(answers, n) <= I2C_SMBUS_BLOCK_MAX)
  }

  /** How many bytes are read: a block length read first counts on top. */
  function Total(answers: nat -> bool, m: Msg, n: nat): nat {
    m.len + if m.flags.recvLen && m.len > 0 then ReadByte(answers, n) else 0
  }

  function ReadTalk(answers: nat -> bool, m: Msg, n: nat): Talk {
    if BadLength(answers, m, n) then Talk(ReadFrames(answers, n, 1, m.flags.noRdAck, 1), -EPROTO, 8)
    else
      var total := Total(answers, m, n);
      Talk(ReadFrames(answers, n, total, m.flags.noRdAck, total), total, 8 * total)
  }

  /** The message after reading. Its length has 16 bits, so adding the block length may wrap around. */
  function ReadInto(answers: nat -> bool, m: Msg, n: nat): (m': Msg)
    requires Fits(m) && m.flags.rd
    ensures m'.addr == m.addr && m'.flags == m.flags && |m'.buf| == |m.buf| && m'.len <= |m.buf|
  {
    if BadLength(answers, m, n) then m.(buf := Filled(m.buf, ReadData(answers, n, 1)))
    else
      var total := Total(answers, m, n);
      m.(len := total % TWO16, buf := Filled(m.buf, ReadData(answers, n, total)))
  }

  /** readbytes */
  method ReadBytes(bus: Bus, msgs: array<Msg>, x: nat) returns (ret: int)
    requires bus.Ready() && x < msgs.Length && Fits(msgs[x]) && msgs[x].flags.rd
    modifies bus, msgs
    ensures bus.Ready()
    ensures var m, n := old(msgs[x]), old(bus.asked);
      && msgs[..] == old(msgs[..])[x := ReadInto(bus.answers, m, n)]
      && var t := ReadTalk(bus.answers, m, n);
        bus.log == old(bus.log) + t.frames && bus.asked == n + t.used && ret == t.ret
  {
    hide Watch, Encode, Low, ReadByte, ReadFrames, ReadData, Filled, Bus.InStep, Bus.Ready, Bus.Out;
    ghost var m, n, log := msgs[x], bus.asked, bus.log;
    ghost var total := if BadLength(bus.answers, m, n) then 1 else Total(bus.answers, m, n);
    var flags := msgs[x].flags;
    var rdcount := 0;
    var count: int := msgs[x].len;
    ReadNothing(m.buf, bus.answers, n, total, flags.noRdAck);
    while count > 0
      invariant 0 <= rdcount <= total && bus.Ready() && (rdcount > 0 ==> !BadLength(bus.answers, m, n))
      invariant if rdcount == 0 then msgs[x] == m && count == m.len
                else msgs[x].len == total % TWO16 && rdcount + count == total
      invariant bus.asked == n + 8 * rdcount
      invariant bus.log == log + ReadFrames(bus.answers, n, total, flags.noRdAck, rdcount)
      invariant rdcount <= |m.buf|
      invariant msgs[..] == old(msgs[..])[x := m.(len := msgs[x].len,
                                                  buf := Filled(m.buf, ReadData(bus.answers, n, rdcount)))]
      decreases total - rdcount
    {
      var inval := bus.InB();
      ReadMore(m.buf, bus.answers, n, total, flags.noRdAck, rdcount);
      msgs[x] := msgs[x].(buf := msgs[x].buf[rdcount := inval]);
      rdcount := rdcount + 1;
      count := count - 1;
      if rdcount == 1 && flags.recvLen {
        if inval <= 0 || inval > I2C_SMBUS_BLOCK_MAX {
          bus.Answer(flags.noRdAck, false, inval);
          return -EPROTO;
        }
        count := count + inval;
        msgs[x] := msgs[x].(len := (msgs[x].len + inval) % TWO16);
      }
      bus.Answer(flags.noRdAck, count != 0, inval);
    }
    return rdcount;
  }

  lemma ReadNothing(buf: seq<byte>, answers: nat -> bool, n: nat, total: nat, noAck: bool)
    ensures Filled(buf, ReadData(answers, n, 0)) == buf && ReadFrames(answers, n, total, noAck, 0) == []
  {}

  lemma ReadMore(buf: seq<byte>, answers: nat -> bool, n: nat, total: nat, noAck: bool, k: nat)
    requires k < |buf|
    ensures Filled(buf, ReadData(answers, n, k))[k := ReadByte(answers, n + 8 * k)] ==
            Filled(buf, ReadData(answers, n, k + 1))
    ensures ReadFrames(answers, n, total, noAck, k + 1) ==
            ReadFrames(answers, n, total, noAck, k) +
            [FRead(ReadByte(answers, n + 8 * k), if noAck then None else Some(k + 1 != total))]
  {}

  // ---------------------------------------------------------------- messages and transfers

  /** The frames before a message's data. */
  function HeadTalk(answers: nat -> bool, m: Msg, first: bool, n: nat, retries: nat): Talk {
    if m.flags.noStart then Talk([], 0, 0)
    else Then(Talk(if first then [] else [FStart], 0, 0), AddressTalk(answers, m, n, retries))
  }

  function DataTalk(answers: nat -> bool, m: Msg, n: nat): Talk
    requires Fits(m)
  {
    if m.flags.rd then ReadTalk(answers, m, n)
    else SendTalk(answers, m.buf[..m.len], n, m.flags.ignoreNak, 0)
  }

  /** One message: its frames and result. A negative result ends the transfer. */
  function MsgTalk(answers: nat -> bool, m: Msg, first: bool, n: nat, retries: nat): Talk
    requires Fits(m)
  {
    var a := HeadTalk(answers, m, first, n, retries);
    if a.ret != 0 then a else Then(a, DataTalk(answers, m, n + a.used))
  }

  /** The message afterwards: reading fills its buffer and may lengthen it. */
  function MsgAfter(answers: nat -> bool, m: Msg, first: bool, n: nat, retries: nat): (m': Msg)
    requires Fits(m)
    ensures m'.addr == m.addr && m'.flags == m.flags && |m'.buf| == |m.buf|
  {
    var a := HeadTalk(answers, m, first, n, retries);
    if !m.flags.rd || a.ret != 0 then m else ReadInto(answers, m, n + a.used)
  }

  /** Message after message from the i-th on; the result is the number of messages or an error. */
  function XferTalk(answers: nat -> bool, msgs: seq<Msg>, i: nat, n: nat, retries: nat): Talk
    requires i <= |msgs| && forall k :: 0 <= k < |msgs| ==> Fits(msgs[k])
    decreases |msgs| - i
  {
    if i == |msgs| then Talk([], i, 0)
    else
      var t := MsgTalk(answers, msgs[i], i == 0, n, retries);
      if t.ret < 0 then t else Then(t, XferTalk(answers, msgs, i + 1, n + t.used, retries))
  }

  /** The messages after the transfer, those from the i-th on being still to do. */
  function XferAfter(answers: nat -> bool, msgs: seq<Msg>, i: nat, n: nat, retries: nat): seq<Msg>
    requires i <= |msgs| && forall k :: i <= k < |msgs| ==> Fits(msgs[k])
    decreases |msgs| - i
  {
    if i == |msgs| then msgs
    else
      var t := MsgTalk(answers, msgs[i], i == 0, n, retries);
      var msgs' := msgs[i := MsgAfter(answers, msgs[i], i == 0, n, retries)];
      if t.ret < 0 then msgs' else XferAfter(answers, msgs', i + 1, n + t.used, retries)
  }

  /** One turn of the loop in bit_xfer, without the bailout. */
  method DoMsg(bus: Bus, msgs: array<Msg>, i: nat, retries: nat) returns (ret: int)
    requires bus.Ready() && i < msgs.Length && Fits(msgs[i])
    modifies bus, msgs
    ensures bus.Ready()
    ensures var m, n := old(msgs[i]), old(bus.asked);
      && msgs[..] == old(msgs[..])[i := MsgAfter(bus.answers, m, i == 0, n, retries)]
      && var t := MsgTalk(bus.answers, m, i == 0, n, retries);
        bus.log == old(bus.log) + t.frames && bus.asked == n + t.used && ret == t.ret
  {
    hide Watch, Encode, HeadTalk, DataTalk, ReadInto;
    var m := msgs[i];
    HeadResult(bus.answers, m, i == 0, bus.asked, retries);
    ret := DoHead(bus, m, i, retries);
    if ret != 0 && !m.flags.ignoreNak {
      assert msgs[..] == old(msgs[..])[i := m];
      return;
    }
    ret := DoData(bus, msgs, i);
  }

  /** Repeated start and address, unless the message goes without. */
  method DoHead(bus: Bus, m: Msg, i: nat, retries: nat) returns (ret: int)
    requires bus.Ready()
    modifies bus
    ensures bus.Ready()
    ensures var n, t := old(bus.asked), HeadTalk(bus.answers, m, i == 0, old(bus.asked), retries);
      bus.log == old(bus.log) + t.frames && bus.asked == n + t.used && ret == t.ret
  {
    hide Watch, Encode, AddressTalk;
    ret := 0;
    if !m.flags.noStart {
      if i > 0 { bus.RepStart(); }
      ret := DoAddress(bus, m, retries);
    }
  }

  /** The data of a message, and whether all of it went through. */
  method DoData(bus: Bus, msgs: array<Msg>, i: nat) returns (ret: int)
    requires bus.Ready() && i < msgs.Length && Fits(msgs[i])
    modifies bus, msgs
    ensures bus.Ready()
    ensures var m, n := old(msgs[i]), old(bus.asked);
      && msgs[..] == old(msgs[..])[i := if m.flags.rd then ReadInto(bus.answers, m, n) else m]
      && var t := DataTalk(bus.answers, m, n);
        bus.log == old(bus.log) + t.frames && bus.asked == n + t.used && ret == t.ret
  {
    hide Watch, Encode, ReadTalk, ReadInto, SendTalk;
    var m := msgs[i];
    if m.flags.rd {
      ReadResult(bus.answers, m, bus.asked);
      ret := ReadBytes(bus, msgs, i);
      if ret < msgs[i].len { ret := if ret >= 0 then -EIO else ret; }
    } else {
      SendResult(bus.answers, m.buf[..m.len], bus.asked, m.flags.ignoreNak, 0);
      ret := SendBytes(bus, m);
      if ret < m.len { ret := if ret >= 0 then -EIO else ret; }
      assert msgs[..] == old(msgs[..])[i := m];
    }
  }

  lemma HeadResult(answers: nat -> bool, m: Msg, first: bool, n: nat, retries: nat)
    ensures HeadTalk(answers, m, first, n, retries).ret <= 0
    ensures m.flags.ignoreNak ==> HeadTalk(answers, m, first, n, retries).ret == 0
  {
    hide TryTalk;
  }

  lemma ReadResult(answers: nat -> bool, m: Msg, n: nat)
    requires Fits(m) && m.flags.rd
    ensures var t, len := ReadTalk(answers, m, n), ReadInto(answers, m, n).len; t.ret < 0 || t.ret >= len
  {}

  /** Sending returns the number of bytes, all of them, or an error. */
  lemma {:induction false} SendResult(answers: nat -> bool, data: seq<byte>, n: nat, nakOk: bool, k: nat)
    ensures var t := SendTalk(answers, data, n, nakOk, k); t.ret == -EIO || t.ret == k + |data|
    decreases |data|
  {
    if data != [] { SendResult(answers, data[1..], n + 1, nakOk, k + 1); }
  }

  /** bit_xfer, on an adapter without the pre_xfer and post_xfer hooks. */
  method Xfer(bus: Bus, msgs: array<Msg>, retries: nat) returns (ret: int)
    requires bus.Idle() && forall k :: 0 <= k < msgs.Length ==> Fits(msgs[k])
    modifies bus, msgs
    ensures bus.Idle()
    ensures var t := XferTalk(bus.answers, old(msgs[..]), 0, old(bus.asked), retries);
      bus.log == old(bus.log) + [FStart] + t.frames + [FStop] && ret == t.ret && bus.asked == old(bus.asked) + t.used
    ensures msgs[..] == XferAfter(bus.answers, old(msgs[..]), 0, old(bus.asked), retries)
  {
    hide Watch, Encode, MsgTalk, MsgAfter, Then;
    ghost var n, given := bus.asked, msgs[..];
    ghost var done := [];
    bus.Start();
    ghost var log := bus.log;
    var i := 0;
    ThenNothing(XferTalk(bus.answers, given, 0, n, retries));
    while i < msgs.Length
      invariant 0 <= i <= msgs.Length && bus.Ready()
      invariant forall k :: i <= k < msgs.Length ==> msgs[k] == given[k]
      invariant bus.log == log + done && bus.asked >= n
      invariant XferTalk(bus.answers, given, 0, n, retries) ==
                Then(Talk(done, 0, bus.asked - n), XferTalk(bus.answers, given, i, bus.asked, retries))
      invariant XferAfter(bus.answers, given, 0, n, retries) ==
                XferAfter(bus.answers, msgs[..], i, bus.asked, retries)
    {
      ghost var asked := bus.asked;
      ghost var t := MsgTalk(bus.answers, given[i], i == 0, asked, retries);
      XferStep(bus.answers, given, i, asked, retries, done, asked - n);
      ghost var before := msgs[..];
      ret := DoMsg(bus, msgs, i, retries);
      done := done + t.frames;
      if ret < 0 {
        bus.Stop();
        return;
      }
      assert forall k :: i < k < msgs.Length ==> msgs[..][k] == before[k];
      i := i + 1;
    }
    XferDone(bus.answers, given, bus.asked, retries, done, bus.asked - n);
    ret := i;
    bus.Stop();
  }

  lemma XferStep(answers: nat -> bool, msgs: seq<Msg>, i: nat, n: nat, retries: nat, done: seq<Frame>, used: nat)
    requires i < |msgs| && forall k :: 0 <= k < |msgs| ==> Fits(msgs[k])
    ensures var t := MsgTalk(answers, msgs[i], i == 0, n, retries);
      Then(Talk(done, 0, used), XferTalk(answers, msgs, i, n, retries)) ==
      if t.ret < 0 then Talk(done + t.frames, t.ret, used + t.used)
      else Then(Talk(done + t.frames, 0, used + t.used), XferTalk(answers, msgs, i + 1, n + t.used, retries))
  {
    hide MsgTalk;
  }

  lemma XferDone(answers: nat -> bool, msgs: seq<Msg>, n: nat, retries: nat, done: seq<Frame>, used: nat)
    requires forall k :: 0 <= k < |msgs| ==> Fits(msgs[k])
    ensures Then(Talk(done, 0, used), XferTalk(answers, msgs, |msgs|, n, retries)) == Talk(done, |msgs|, used)
  {}
}
