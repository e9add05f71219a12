/** What every transfer of the bit-banging master looks like on the wire. */
module I2cTheorems {
  import opened Wrappers
  import opened I2cWire
  import opened I2cBus
  import opened I2cXfer
  import opened Words

  /** A byte the addressed device did not acknowledge. */
  predicate Refused(f: Frame) {
    f.FWrite? && !f.acked
  }

  /** What may stand at place i of a conversation: nakOk and mute say what the messages asked for. */
  predicate Fine(fs: seq<Frame>, i: nat, nakOk: bool, mute: bool)
    requires i < |fs|
  {
    && (fs[i].FStop? ==> i + 1 < |fs| && fs[i + 1].FStart?)
    && (Refused(fs[i]) && i + 1 < |fs| && !nakOk ==> fs[i + 1].FStop?)
    && (fs[i].FRead? && fs[i].ack == None ==> mute)
  }

  predicate InOrder(fs: seq<Frame>, nakOk: bool, mute: bool) {
    forall i :: 0 <= i < |fs| ==> Fine(fs, i, nakOk, mute)
  }

  predicate EndsRefused(fs: seq<Frame>) {
    fs != [] && Refused(fs[|fs| - 1])
  }

  lemma Join(a: seq<Frame>, b: seq<Frame>, nakOk: bool, mute: bool)
    requires InOrder(a, nakOk, mute) && InOrder(b, nakOk, mute)
    requires EndsRefused(a) && !nakOk ==> b == []
    ensures InOrder(a + b, nakOk, mute)
    ensures EndsRefused(a + b) == if b == [] then EndsRefused(a) else EndsRefused(b)
  {
    LastOf(a, b);
    var fs := a + b;
    forall i | 0 <= i < |fs| ensures Fine(fs, i, nakOk, mute) {
      if i >= |a| {
        assert Fine(b, i - |a|, nakOk, mute);
        assert fs[i] == b[i - |a|] && (i + 1 < |fs| ==> fs[i + 1] == b[i - |a| + 1]);
      } else {
        assert Fine(a, i, nakOk, mute);
        assert fs[i] == a[i] && (i + 1 < |a| ==> fs[i + 1] == a[i + 1]);
      }
    }
  }

  lemma LastOf(a: seq<Frame>, b: seq<Frame>)
    ensures EndsRefused(a + b) == if b == [] then EndsRefused(a) else EndsRefused(b)
  {
    assert b == [] ==> a + b == a;
  }

  // ---------------------------------------------------------------- the parts

  /** An address is repeated, each time after stop and start, until it is acknowledged or the tries run out. */
  lemma {:induction false} TryOrder(answers: nat -> bool, a: byte, n: nat, retries: nat, nakOk: bool, mute: bool)
    ensures var t := TryTalk(answers, a, n, retries);
      && InOrder(t.frames, nakOk, mute)
      && (t.ret == 1 <==> !EndsRefused(t.frames)) && t.frames != []
      && (t.ret == 1 <==> exists j :: n <= j <= n + retries && Ack(answers, j))
      && 1 <= t.used <= retries + 1 && |t.frames| == 3 * t.used - 2
    decreases retries
  {
    hide InOrder;
    var t := TryTalk(answers, a, n, retries);
    if Ack(answers, n) || retries == 0 {
      OneInOrder(FWrite(a, Ack(answers, n)), nakOk, mute);
      assert Ack(answers, n) ==> n <= n <= n + retries && Ack(answers, n);
    } else {
      TryOrder(answers, a, n + 1, retries - 1, nakOk, mute);
      RetryInOrder(a, nakOk, mute);
      var rest := TryTalk(answers, a, n + 1, retries - 1);
      Join([FWrite(a, false), FStop, FStart], rest.frames, nakOk, mute);
      assert t.frames[|t.frames| - 1] == rest.frames[|rest.frames| - 1];
    }
  }

  lemma OneInOrder(f: Frame, nakOk: bool, mute: bool)
    requires !f.FStop? && (f.FRead? && f.ack == None ==> mute)
    ensures InOrder([f], nakOk, mute) && EndsRefused([f]) == Refused(f)
  {}

  lemma RetryInOrder(a: byte, nakOk: bool, mute: bool)
    ensures InOrder([FWrite(a, false), FStop, FStart], nakOk, mute)
    ensures !EndsRefused([FWrite(a, false), FStop, FStart])
  {}

  /** A talk that may be followed by others: it failed, or its last byte was not refused. */
  predicate Civil(t: Talk, nakOk: bool, mute: bool) {
    InOrder(t.frames, nakOk, mute) && (EndsRefused(t.frames) && !nakOk ==> t.ret < 0)
  }

  lemma AddressOrder(answers: nat -> bool, m: Msg, n: nat, retries: nat, mute: bool)
    ensures Civil(AddressTalk(answers, m, n, retries), m.flags.ignoreNak, mute)
  {
    hide InOrder, TryTalk, TenBitTalk;
    var r := if m.flags.ignoreNak then 0 else retries;
    if m.flags.ten {
      TenBitOrder(answers, m, n, r, mute);
    } else {
      TryOrder(answers, AddressByte(m), n, r, m.flags.ignoreNak, mute);
    }
  }

  lemma TenBitOrder(answers: nat -> bool, m: Msg, n: nat, retries: nat, mute: bool)
    ensures Civil(TenBitTalk(answers, m, n, retries), m.flags.ignoreNak, mute)
  {
    hide InOrder, TryTalk, EndsRefused, Ack, TenBitHead;
    var nakOk := m.flags.ignoreNak;
    var head := TryTalk(answers, TenBitHead(m), n, retries);
    TryOrder(answers, TenBitHead(m), n, retries, nakOk, mute);
    if head.ret == 1 || nakOk {
      var low := WriteTalk(answers, m.addr % 256, n + head.used);
      WriteOrder(answers, m.addr % 256, n + head.used, nakOk, mute);
      Join(head.frames, low.frames, nakOk, mute);
      var two := Then(head, low);
      if (two.ret == 1 || nakOk) && m.flags.rd {
        var again := TryTalk(answers, TenBitHead(m) + 1, n + two.used, retries);
        TryOrder(answers, TenBitHead(m) + 1, n + two.used, retries, nakOk, mute);
        OneInOrder(FStart, nakOk, mute);
        Join([FStart], again.frames, nakOk, mute);
        Join(two.frames, [FStart] + again.frames, nakOk, mute);
      }
    }
  }

  lemma WriteOrder(answers: nat -> bool, c: byte, n: nat, nakOk: bool, mute: bool)
    ensures var t := WriteTalk(answers, c, n);
      InOrder(t.frames, nakOk, mute) && (t.ret == 1 <==> !EndsRefused(t.frames)) && t.frames != []
  {
    OneInOrder(FWrite(c, Ack(answers, n)), nakOk, mute);
  }

  lemma {:induction false} SendOrder(answers: nat -> bool, data: seq<byte>, n: nat, nakOk: bool, k: nat, mute: bool)
    ensures Civil(SendTalk(answers, data, n, nakOk, k), nakOk, mute)
    decreases |data|
  {
    hide InOrder;
    if data == [] {
      EmptyInOrder(nakOk, mute);
    } else {
      OneInOrder(FWrite(data[0], Ack(answers, n)), nakOk, mute);
      if Ack(answers, n) || nakOk {
        SendOrder(answers, data[1..], n + 1, nakOk, k + 1, mute);
        Join([FWrite(data[0], Ack(answers, n))], SendTalk(answers, data[1..], n + 1, nakOk, k + 1).frames,
             nakOk, mute);
      }
    }
  }

  lemma EmptyInOrder(nakOk: bool, mute: bool)
    ensures InOrder([], nakOk, mute) && !EndsRefused([])
  {}

  /** The i-th frame of sending is the i-th byte; without an error all bytes are sent. */
  lemma {:induction false} SendFrames(answers: nat -> bool, data: seq<byte>, n: nat, nakOk: bool, k: nat, i: nat)
    requires i < |SendTalk(answers, data, n, nakOk, k).frames|
    ensures var t := SendTalk(answers, data, n, nakOk, k);
      && |t.frames| <= |data| && (t.ret >= 0 ==> |t.frames| == |data|)
      && t.frames[i] == FWrite(data[i], Ack(answers, n + i))
    decreases |data|
  {
    SendCount(answers, data, n, nakOk, k);
    if i > 0 { SendFrames(answers, data[1..], n + 1, nakOk, k + 1, i - 1); }
  }

  lemma {:induction false} SendCount(answers: nat -> bool, data: seq<byte>, n: nat, nakOk: bool, k: nat)
    ensures var t := SendTalk(answers, data, n, nakOk, k);
      |t.frames| <= |data| && (t.ret >= 0 ==> |t.frames| == |data|)
    decreases |data|
  {
    if data != [] { SendCount(answers, data[1..], n + 1, nakOk, k + 1); }
  }

  /** Every byte read but the last is acknowledged, the last is not, and the buffer holds what the wire spelt. */
  lemma {:induction false} ReadFramesAre(answers: nat -> bool, n: nat, total: nat, noAck: bool, k: nat, i: nat)
    requires i < k
    ensures ReadFrames(answers, n, total, noAck, k)[i] ==
            FRead(ReadByte(answers, n + 8 * i), if noAck then None else Some(i + 1 != total))
    ensures ReadData(answers, n, k)[i] == ReadByte(answers, n + 8 * i)
    decreases k
  {
    if i + 1 < k { ReadFramesAre(answers, n, total, noAck, k - 1, i); }
  }

  /**
   * After a read without an error the message's length is the number of bytes read, exactly as long as
   * the given length and the block length together fit in 16 bits.
   */
  lemma ReadLength(answers: nat -> bool, m: Msg, n: nat)
    requires Fits(m) && m.flags.rd && ReadTalk(answers, m, n).ret >= 0
    ensures ReadInto(answers, m, n).len == ReadTalk(answers, m, n).ret <==>
            m.len + (if m.flags.recvLen && m.len > 0 then ReadByte(answers, n) else 0) < TWO16
  {
    hide ReadByte, ReadFrames, ReadData, Filled;
  }

  lemma ReadOrder(answers: nat -> bool, m: Msg, n: nat, nakOk: bool, mute: bool)
    requires m.flags.noRdAck ==> mute
    ensures Civil(ReadTalk(answers, m, n), nakOk, mute)
  {
    var fs := ReadTalk(answers, m, n).frames;
    var total := if BadLength(answers, m, n) then 1 else Total(answers, m, n);
    forall i | 0 <= i < |fs| ensures Fine(fs, i, nakOk, mute) && fs[i].FRead? {
      ReadFramesAre(answers, n, total, m.flags.noRdAck, total, i);
    }
  }

  lemma MsgOrder(answers: nat -> bool, m: Msg, first: bool, n: nat, retries: nat, nakOk: bool, mute: bool)
    requires Fits(m) && (m.flags.noRdAck ==> mute) && (m.flags.ignoreNak ==> nakOk)
    ensures Civil(MsgTalk(answers, m, first, n, retries), nakOk, mute)
  {
    hide InOrder, EndsRefused, AddressTalk, ReadTalk, SendTalk;
    var a := HeadTalk(answers, m, first, n, retries);
    HeadOrder(answers, m, first, n, retries, nakOk, mute);
    HeadResult(answers, m, first, n, retries);
    if a.ret == 0 {
      var d := DataTalk(answers, m, n + a.used);
      if m.flags.rd {
        ReadOrder(answers, m, n + a.used, nakOk, mute);
      } else {
        SendOrder(answers, m.buf[..m.len], n + a.used, m.flags.ignoreNak, 0, mute);
        Weaken(d, m.flags.ignoreNak, nakOk, mute);
      }
      Join(a.frames, d.frames, nakOk, mute);
      LastOf(a.frames, d.frames);
      SendResult(answers, m.buf[..m.len], n + a.used, m.flags.ignoreNak, 0);
    }
  }

  lemma Weaken(t: Talk, nakOk: bool, nakOk': bool, mute: bool)
    requires Civil(t, nakOk, mute) && (nakOk ==> nakOk')
    ensures Civil(t, nakOk', mute)
  {
    forall i | 0 <= i < |t.frames| ensures Fine(t.frames, i, nakOk', mute) {
      assert Fine(t.frames, i, nakOk, mute);
    }
  }

  lemma HeadOrder(answers: nat -> bool, m: Msg, first: bool, n: nat, retries: nat, nakOk: bool, mute: bool)
    requires m.flags.ignoreNak ==> nakOk
    ensures Civil(HeadTalk(answers, m, first, n, retries), nakOk, mute)
  {
    hide InOrder, AddressTalk;
    EmptyInOrder(nakOk, mute);
    OneInOrder(FStart, nakOk, mute);
    AddressOrder(answers, m, n, retries, mute);
    var t := AddressTalk(answers, m, n, retries);
    Weaken(t, m.flags.ignoreNak, nakOk, mute);
    Join(if first then [] else [FStart], t.frames, nakOk, mute);
  }

  lemma {:induction false} XferOrder(answers: nat -> bool, msgs: seq<Msg>, i: nat, n: nat, retries: nat,
                                     nakOk: bool, mute: bool)
    requires i <= |msgs| && forall k :: 0 <= k < |msgs| ==> Fits(msgs[k])
    requires forall k :: 0 <= k < |msgs| ==>
               (msgs[k].flags.noRdAck ==> mute) && (msgs[k].flags.ignoreNak ==> nakOk)
    ensures Civil(XferTalk(answers, msgs, i, n, retries), nakOk, mute)
    decreases |msgs| - i
  {
    hide InOrder, EndsRefused, MsgTalk;
    if i == |msgs| {
      EmptyInOrder(nakOk, mute);
    } else {
      var t := MsgTalk(answers, msgs[i], i == 0, n, retries);
      MsgOrder(answers, msgs[i], i == 0, n, retries, nakOk, mute);
      if t.ret >= 0 {
        XferOrder(answers, msgs, i + 1, n + t.used, retries, nakOk, mute);
        Join(t.frames, XferTalk(answers, msgs, i + 1, n + t.used, retries).frames, nakOk, mute);
      }
    }
  }

  // ---------------------------------------------------------------- whole transfers

  function Session(answers: nat -> bool, msgs: seq<Msg>, n: nat, retries: nat): seq<Frame>
    requires forall k :: 0 <= k < |msgs| ==> Fits(msgs[k])
  {
    [FStart] + XferTalk(answers, msgs, 0, n, retries).frames + [FStop]
  }

  /**
   * Every transfer, whatever the devices answer, starts with a start, ends with a stop, and every stop
   * before the last is directly followed by a new start. If no message ignores refusals, nothing but a stop
   * ever follows a refused byte.
   */
  lemma SessionInOrder(answers: nat -> bool, msgs: seq<Msg>, n: nat, retries: nat, i: nat)
    requires forall k :: 0 <= k < |msgs| ==> Fits(msgs[k])
    requires i < |Session(answers, msgs, n, retries)|
    ensures var s := Session(answers, msgs, n, retries);
      && s[0].FStart? && s[|s| - 1].FStop?
      && (s[i].FStop? && i + 1 < |s| ==> s[i + 1].FStart?)
      && (Refused(s[i]) && (forall k :: 0 <= k < |msgs| ==> !msgs[k].flags.ignoreNak) ==>
            i + 1 < |s| && s[i + 1].FStop?)
  {
    hide XferTalk;
    var nakOk := exists k :: 0 <= k < |msgs| && msgs[k].flags.ignoreNak;
    XferOrder(answers, msgs, 0, n, retries, nakOk, true);
    var t := XferTalk(answers, msgs, 0, n, retries);
    var s := Session(answers, msgs, n, retries);
    if 1 <= i <= |t.frames| {
      assert Fine(t.frames, i - 1, nakOk, true);
      assert s[i] == t.frames[i - 1];
      assert i < |t.frames| ==> s[i + 1] == t.frames[i];
    }
  }

  /**
   * If every byte read is answered, the symbols on the wire determine the transfer: an observer recovers
   * each start, stop, byte and acknowledge.
   */
  lemma SessionReadable(answers: nat -> bool, msgs: seq<Msg>, n: nat, retries: nat)
    requires forall k :: 0 <= k < |msgs| ==> Fits(msgs[k]) && !msgs[k].flags.noRdAck
    ensures var s := Session(answers, msgs, n, retries); Decode(Encode(s)) == AllSeen(s)
  {
    hide XferTalk;
    XferOrder(answers, msgs, 0, n, retries, true, false);
    var s := Session(answers, msgs, n, retries);
    var fs := XferTalk(answers, msgs, 0, n, retries).frames;
    forall i | 0 <= i < |s| && s[i].FRead? ensures s[i].ack.Some? {
      assert Fine(fs, i - 1, true, false);
      assert s[i] == fs[i - 1];
    }
    DecodeEncode(s);
  }

  /** A transfer returns the number of its messages or an error code. */
  lemma {:induction false} XferResult(answers: nat -> bool, msgs: seq<Msg>, i: nat, n: nat, retries: nat)
    requires i <= |msgs| && forall k :: 0 <= k < |msgs| ==> Fits(msgs[k])
    ensures var r := XferTalk(answers, msgs, i, n, retries).ret; r < 0 || r == |msgs|
    decreases |msgs| - i
  {
    hide MsgTalk;
    if i < |msgs| {
      var t := MsgTalk(answers, msgs[i], i == 0, n, retries);
      if t.ret >= 0 { XferResult(answers, msgs, i + 1, n + t.used, retries); }
    }
  }
}
