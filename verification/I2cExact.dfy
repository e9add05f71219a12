/** Which bytes a transfer puts on the wire, when it stops, and what it leaves in the messages. */
module I2cExact {
  import opened Wrappers
  import opened I2cWire
  import opened I2cBus
  import opened I2cXfer
  import opened I2cTheorems
  import opened Errno
  import Bits
  import opened Words

  // ---------------------------------------------------------------- addresses

  /** Byte c is sent u times, after each refusal with a stop and a new start in between; ok is the last answer. */
  predicate Tried(fs: seq<Frame>, c: byte, u: nat, ok: bool) {
    u >= 1 && |fs| == 3 * u - 2 && forall i :: 0 <= i < |fs| ==>
      if i % 3 == 0 then fs[i] == FWrite(c, ok && i == |fs| - 1)
      else if i % 3 == 1 then fs[i] == FStop else fs[i] == FStart
  }

  /** It is sent until a try is acknowledged, or for the (retries + 1)-th time. */
  predicate TriesEnd(answers: nat -> bool, n: nat, retries: nat, u: nat, ok: bool) {
    && 1 <= u <= retries + 1 && (ok <==> !answers(n + u - 1)) && (ok || u == retries + 1)
    && forall j :: n <= j < n + u - 1 ==> answers(j)
  }

  lemma {:induction false} TryExact(answers: nat -> bool, c: byte, n: nat, retries: nat)
    ensures var t := TryTalk(answers, c, n, retries);
      && Tried(t.frames, c, t.used, t.ret == 1) && TriesEnd(answers, n, retries, t.used, t.ret == 1)
      && (t.ret == 0 || t.ret == 1)
    decreases retries
  {
    hide Tried;
    if !Ack(answers, n) && retries > 0 {
      TryExact(answers, c, n + 1, retries - 1);
      var rest := TryTalk(answers, c, n + 1, retries - 1);
      TriedMore(rest.frames, c, rest.used, rest.ret == 1);
    } else {
      TriedOnce(c, Ack(answers, n));
    }
  }

  lemma TriedOnce(c: byte, ok: bool)
    ensures Tried([FWrite(c, ok)], c, 1, ok)
  {}

  lemma TriedMore(fs: seq<Frame>, c: byte, u: nat, ok: bool)
    requires Tried(fs, c, u, ok)
    ensures Tried([FWrite(c, false), FStop, FStart] + fs, c, u + 1, ok)
  {
    var more := [FWrite(c, false), FStop, FStart] + fs;
    forall i | 3 <= i < |more| ensures more[i] == fs[i - 3] && i % 3 == (i - 3) % 3 {}
  }

  /** How often the adapter repeats an address; refusals that are ignored need no repetition. */
  function Patience(m: Msg, retries: nat): nat { if m.flags.ignoreNak then 0 else retries }

  /** A seven-bit address: one byte, the address in its upper bits, and its lowest bit set iff the message reads,
      or for a reversed direction iff it writes. */
  lemma SevenBitExact(answers: nat -> bool, m: Msg, n: nat, retries: nat) returns (c: byte, ok: bool)
    requires !m.flags.ten
    ensures c / 2 == m.addr % 128 && (c % 2 == 1 <==> m.flags.rd != m.flags.revDirAddr)
    ensures var t := AddressTalk(answers, m, n, retries);
      && Tried(t.frames, c, t.used, ok) && TriesEnd(answers, n, Patience(m, retries), t.used, ok)
      && t.ret == if ok || m.flags.ignoreNak then 0 else -ENXIO
  {
    c := AddressByte(m);
    TryExact(answers, c, n, Patience(m, retries));
    ok := TryTalk(answers, c, n, Patience(m, retries)).ret == 1;
    hide TryTalk, Tried, TriesEnd;
  }

  /** The head of a ten-bit address: 11110, the two highest address bits, and 0. */
  predicate IsHead(h: byte, m: Msg) {
    h / 8 == 30 && h / 2 % 4 == m.addr / 256 % 4 && h % 2 == 0
  }

  /** A ten-bit address: the head, then the low byte. To read, a start and the head again with its lowest bit set.
      The first part that is refused, unless refusals are ignored, ends it. */
  lemma TenBitExact(answers: nat -> bool, m: Msg, n: nat, retries: nat)
      returns (h: byte, first: seq<Frame>, u: nat, ok: bool, again: seq<Frame>, u': nat, ok': bool)
    requires m.flags.ten
    ensures IsHead(h, m) && h < 255
    ensures Tried(first, h, u, ok) && TriesEnd(answers, n, Patience(m, retries), u, ok)
    ensures Tried(again, h + 1, u', ok') && TriesEnd(answers, n + u + 1, Patience(m, retries), u', ok')
    ensures var t, nakOk, low := AddressTalk(answers, m, n, retries), m.flags.ignoreNak, !answers(n + u);
      if !ok && !nakOk then t == Talk(first, -ENXIO, u)
      else
        var two := first + [FWrite(m.addr % 256, low)];
        if !low && !nakOk then t == Talk(two, -ENXIO, u + 1)
        else if !m.flags.rd then t == Talk(two, 0, u + 1)
        else t == Talk(two + ([FStart] + again), if ok' || nakOk then 0 else -EIO, u + 1 + u')
  {
    var r := Patience(m, retries);
    h := TenBitHead(m);
    TryExact(answers, h, n, r);
    var t := TryTalk(answers, h, n, r);
    first, u, ok := t.frames, t.used, t.ret == 1;
    TryExact(answers, h + 1, n + u + 1, r);
    var t' := TryTalk(answers, h + 1, n + u + 1, r);
    again, u', ok' := t'.frames, t'.used, t'.ret == 1;
    hide TryTalk, Tried, TriesEnd;
  }

  // ---------------------------------------------------------------- data

  /** Writing sends the data byte by byte and stops only behind a refused byte, if refusals count. */
  lemma {:induction false} SendExact(answers: nat -> bool, data: seq<byte>, n: nat, nakOk: bool, k: nat)
    ensures var t := SendTalk(answers, data, n, nakOk, k);
      && |t.frames| == t.used <= |data|
      && (forall i :: 0 <= i < t.used ==>
            t.frames[i] == FWrite(data[i], !answers(n + i)) && (i + 1 < t.used ==> nakOk || !answers(n + i)))
      && if t.used == 0 || nakOk || !answers(n + t.used - 1) then t.used == |data| && t.ret == k + |data|
         else t.ret == -EIO
    decreases |data|
  {
    if data != [] {
      SendExact(answers, data[1..], n + 1, nakOk, k + 1);
      var t, rest := SendTalk(answers, data, n, nakOk, k), SendTalk(answers, data[1..], n + 1, nakOk, k + 1);
      if Ack(answers, n) || nakOk {
        forall i | 1 <= i < t.used ensures t.frames[i] == rest.frames[i - 1] {}
      }
    }
  }

  /** How many bytes a read message takes: its length, plus the first byte if that is a block length. A block length
      of zero or above 32 stops it right there. */
  lemma ReadExact(answers: nat -> bool, m: Msg, n: nat)
    requires Fits(m) && m.flags.rd
    ensures var t, after, b := ReadTalk(answers, m, n), ReadInto(answers, m, n), ReadByte(answers, n);
      var block := m.flags.recvLen && m.len > 0;
      var bad := block && (b == 0 || b > 32);
      var total := if bad then 1 else if block then m.len + b else m.len;
      && |t.frames| == total && t.used == 8 * total && t.ret == (if bad then -EPROTO else total)
      && after.len == (if bad then m.len else total % 0x1_0000)
      && after.addr == m.addr && after.flags == m.flags && |after.buf| == |m.buf| >= total
      && (forall i :: 0 <= i < |m.buf| ==>
            after.buf[i] == if i < total then ReadByte(answers, n + 8 * i) else m.buf[i])
      && forall i :: 0 <= i < total ==>
           t.frames[i] == FRead(ReadByte(answers, n + 8 * i),
                                if m.flags.noRdAck then None else Some(!bad && i + 1 < total))
  {
    hide ReadByte;
    var bad := BadLength(answers, m, n);
    var total := if bad then 1 else Total(answers, m, n);
    forall i | 0 <= i < total
      ensures ReadData(answers, n, total)[i] == ReadByte(answers, n + 8 * i)
      ensures ReadFrames(answers, n, total, m.flags.noRdAck, total)[i] ==
              FRead(ReadByte(answers, n + 8 * i), if m.flags.noRdAck then None else Some(i + 1 != total))
    {
      ReadFramesAre(answers, n, total, m.flags.noRdAck, total, i);
    }
  }

  /** The byte read is the number whose bits, highest first, the lines spell in eight pulses. */
  lemma ByteExact(answers: nat -> bool, n: nat)
    ensures ReadByte(answers, n) ==
            (if answers(n) then 128 else 0) + (if answers(n + 1) then 64 else 0) + (if answers(n + 2) then 32 else 0) +
            (if answers(n + 3) then 16 else 0) + (if answers(n + 4) then 8 else 0) + (if answers(n + 5) then 4 else 0) +
            (if answers(n + 6) then 2 else 0) + (if answers(n + 7) then 1 else 0)
  {
    assert Collect(answers, n, 0) == 0;
    assert Collect(answers, n, 1) == if answers(n) then 1 else 0;
    assert Collect(answers, n, 2) == 2 * Collect(answers, n, 1) + if answers(n + 1) then 1 else 0;
    assert Collect(answers, n, 3) == 2 * Collect(answers, n, 2) + if answers(n + 2) then 1 else 0;
    assert Collect(answers, n, 4) == 2 * Collect(answers, n, 3) + if answers(n + 3) then 1 else 0;
    assert Collect(answers, n, 5) == 2 * Collect(answers, n, 4) + if answers(n + 4) then 1 else 0;
    assert Collect(answers, n, 6) == 2 * Collect(answers, n, 5) + if answers(n + 5) then 1 else 0;
    assert Collect(answers, n, 7) == 2 * Collect(answers, n, 6) + if answers(n + 6) then 1 else 0;
  }

  /** A number is spelt out highest bit first, a set bit being a high level. */
  lemma {:induction false} BitsExact(c: nat, n: nat, k: nat)
    requires k < n
    ensures Low(c, n)[k] == Bit(c / Bits.Pow2(n - 1 - k) % 2 == 1)
  {
    if k < n - 1 {
      BitsExact(c / 2, n - 1, k);
      HalfTwice(c, Bits.Pow2(n - 2 - k));
    }
  }

  lemma HalfTwice(c: nat, m: nat)
    requires m >= 1
    ensures c / 2 / m == c / (2 * m)
  {
    var q := c / 2 / m;
    assert c / 2 == m * q + c / 2 % m;
    assert c == 2 * (m * q) + 2 * (c / 2 % m) + c % 2;
    var r := 2 * (c / 2 % m) + c % 2;
    assert c == 2 * m * q + r && 0 <= r < 2 * m;
    Bits.DivModUnique(c, 2 * m, q, r);
  }

  // ---------------------------------------------------------------- messages and transfers

  /** A message is a start (a repeated one, so not for the first message) and the address, unless it goes without,
      and then its data if the address was answered. */
  lemma MsgExact(answers: nat -> bool, m: Msg, first: bool, n: nat, retries: nat)
    requires Fits(m)
    ensures var t := MsgTalk(answers, m, first, n, retries);
      var a := AddressTalk(answers, m, n, retries);
      var head := if m.flags.noStart then [] else (if first then [] else [FStart]) + a.frames;
      var n' := if m.flags.noStart then n else n + a.used;
      var d := if m.flags.rd then ReadTalk(answers, m, n')
               else SendTalk(answers, m.buf[..m.len], n', m.flags.ignoreNak, 0);
      var after := MsgAfter(answers, m, first, n, retries);
      if !m.flags.noStart && a.ret != 0 then t == Talk(head, a.ret, a.used) && after == m
      else
        && t == Talk(head + d.frames, d.ret, n' + d.used - n)
        && after == if m.flags.rd then ReadInto(answers, m, n') else m
  {
    hide AddressTalk, ReadTalk, SendTalk, ReadInto;
  }

  function Joined(parts: seq<seq<Frame>>): seq<Frame> {
    if parts == [] then [] else parts[0] + Joined(parts[1..])
  }

  function At(answers: nat -> bool, msgs: seq<Msg>, j: nat, n: nat, retries: nat): Talk
    requires j < |msgs| && Fits(msgs[j])
  {
    MsgTalk(answers, msgs[j], j == 0, n, retries)
  }

  /** Message i + k goes well, and the next one begins where it ends. */
  predicate Linked(answers: nat -> bool, msgs: seq<Msg>, i: nat, retries: nat, ns: seq<nat>, k: nat)
    requires i + |ns| <= |msgs| && k + 1 < |ns| && Fits(msgs[i + k])
  {
    var t := At(answers, msgs, i + k, ns[k], retries);
    t.ret >= 0 && ns[k + 1] == ns[k] + t.used
  }

  /** The last message reached fails. */
  predicate Failed(answers: nat -> bool, msgs: seq<Msg>, i: nat, retries: nat, ns: seq<nat>)
    requires i + |ns| <= |msgs| && forall k :: i <= k < |msgs| ==> Fits(msgs[k])
  {
    ns != [] && At(answers, msgs, i + |ns| - 1, ns[|ns| - 1], retries).ret < 0
  }

  /** Where the messages from the i-th on begin, in pulses listened to, as far as the transfer gets from pulse n on:
      ns[k] is where message i + k begins. All but the last of these go well; if it does too, it is the last. */
  ghost predicate Course(answers: nat -> bool, msgs: seq<Msg>, i: nat, n: nat, retries: nat, ns: seq<nat>)
    requires i <= |msgs| && forall k :: i <= k < |msgs| ==> Fits(msgs[k])
  {
    && i + |ns| <= |msgs| && (ns == [] <==> i == |msgs|) && (ns != [] ==> ns[0] == n)
    && (forall k :: 0 <= k < |ns| - 1 ==> Linked(answers, msgs, i, retries, ns, k))
    && (i + |ns| < |msgs| ==> Failed(answers, msgs, i, retries, ns))
  }

  function Spoken(answers: nat -> bool, msgs: seq<Msg>, i: nat, retries: nat, ns: seq<nat>): seq<seq<Frame>>
    requires i + |ns| <= |msgs| && forall k :: i <= k < |msgs| ==> Fits(msgs[k])
  {
    seq(|ns|, k requires 0 <= k < |ns| => At(answers, msgs, i + k, ns[k], retries).frames)
  }

  /** One more message in front of a course. */
  lemma CourseLonger(answers: nat -> bool, msgs: seq<Msg>, i: nat, n: nat, retries: nat, rest: seq<nat>)
    requires i < |msgs| && forall k :: i <= k < |msgs| ==> Fits(msgs[k])
    requires var t := At(answers, msgs, i, n, retries);
      t.ret >= 0 && Course(answers, msgs, i + 1, n + t.used, retries, rest)
    ensures var ns := [n] + rest;
      && Course(answers, msgs, i, n, retries, ns)
      && Failed(answers, msgs, i, retries, ns) == Failed(answers, msgs, i + 1, retries, rest)
      && Joined(Spoken(answers, msgs, i, retries, ns)) ==
         At(answers, msgs, i, n, retries).frames + Joined(Spoken(answers, msgs, i + 1, retries, rest))
  {
    hide At;
    var ns := [n] + rest;
    assert Spoken(answers, msgs, i, retries, ns)[1..] == Spoken(answers, msgs, i + 1, retries, rest);
    forall k | 0 <= k < |ns| - 1 ensures Linked(answers, msgs, i, retries, ns, k) {
      if k > 0 { assert Linked(answers, msgs, i + 1, retries, rest, k - 1); }
    }
  }

  lemma CourseShort(answers: nat -> bool, msgs: seq<Msg>, i: nat, n: nat, retries: nat)
    requires i < |msgs| && forall k :: i <= k < |msgs| ==> Fits(msgs[k])
    requires At(answers, msgs, i, n, retries).ret < 0
    ensures Course(answers, msgs, i, n, retries, [n]) && Failed(answers, msgs, i, retries, [n])
    ensures Joined(Spoken(answers, msgs, i, retries, [n])) == At(answers, msgs, i, n, retries).frames
  {
    hide At;
    var fs := At(answers, msgs, i, n, retries).frames;
    assert Spoken(answers, msgs, i, retries, [n]) == [fs];
    assert Joined([fs]) == fs + Joined([]);
  }

  lemma {:induction false} CourseOf(answers: nat -> bool, msgs: seq<Msg>, i: nat, n: nat, retries: nat)
      returns (ns: seq<nat>)
    requires i <= |msgs| && forall k :: 0 <= k < |msgs| ==> Fits(msgs[k])
    ensures Course(answers, msgs, i, n, retries, ns)
    ensures var t := XferTalk(answers, msgs, i, n, retries);
      && t.frames == Joined(Spoken(answers, msgs, i, retries, ns))
      && t.ret == if Failed(answers, msgs, i, retries, ns)
                  then At(answers, msgs, i + |ns| - 1, ns[|ns| - 1], retries).ret
                  else |msgs|
    decreases |msgs| - i
  {
    hide MsgTalk, Joined, Spoken;
    if i == |msgs| {
      ns := [];
      assert Joined(Spoken(answers, msgs, i, retries, ns)) == [] by { NothingSpoken(answers, msgs, i, retries); }
    } else {
      var t := At(answers, msgs, i, n, retries);
      if t.ret < 0 {
        ns := [n];
        CourseShort(answers, msgs, i, n, retries);
      } else {
        var rest := CourseOf(answers, msgs, i + 1, n + t.used, retries);
        CourseLonger(answers, msgs, i, n, retries, rest);
        ns := [n] + rest;
      }
    }
  }

  lemma NothingSpoken(answers: nat -> bool, msgs: seq<Msg>, i: nat, retries: nat)
    requires i == |msgs|
    ensures Joined(Spoken(answers, msgs, i, retries, [])) == []
  {}

  /** A whole transfer: a start, the messages in order up to the first that fails, and a stop. Each message begins at
      the pulse at which the one before it ended. The result is that message's error, or the number of messages;
      the messages reached are changed as by themselves. */
  lemma SessionExact(answers: nat -> bool, msgs: seq<Msg>, n: nat, retries: nat) returns (ns: seq<nat>)
    requires forall k :: 0 <= k < |msgs| ==> Fits(msgs[k])
    ensures Course(answers, msgs, 0, n, retries, ns)
    ensures Session(answers, msgs, n, retries) == [FStart] + Joined(Spoken(answers, msgs, 0, retries, ns)) + [FStop]
    ensures XferTalk(answers, msgs, 0, n, retries).ret ==
      if Failed(answers, msgs, 0, retries, ns) then At(answers, msgs, |ns| - 1, ns[|ns| - 1], retries).ret else |msgs|
    ensures var after := XferAfter(answers, msgs, 0, n, retries);
      |after| == |msgs| && forall k :: 0 <= k < |msgs| ==>
        after[k] == if k < |ns| then MsgAfter(answers, msgs[k], k == 0, ns[k], retries) else msgs[k]
  {
    hide MsgTalk, MsgAfter, Linked, Joined, XferTalk, XferAfter, Spoken, At, Fits;
    ns := CourseOf(answers, msgs, 0, n, retries);
    AfterCourse(answers, msgs, 0, n, retries, ns);
  }

  lemma {:induction false} AfterCourse(answers: nat -> bool, msgs: seq<Msg>, i: nat, n: nat, retries: nat, ns: seq<nat>)
    requires i <= |msgs| && forall k :: i <= k < |msgs| ==> Fits(msgs[k])
    requires Course(answers, msgs, i, n, retries, ns)
    ensures var after := XferAfter(answers, msgs, i, n, retries);
      |after| == |msgs| && forall k :: 0 <= k < |msgs| ==>
        after[k] == if i <= k < i + |ns| then MsgAfter(answers, msgs[k], k == 0, ns[k - i], retries) else msgs[k]
    decreases |msgs| - i
  {
    hide MsgTalk, MsgAfter, Course, Linked;
    if i < |msgs| {
      var t := At(answers, msgs, i, n, retries);
      var msgs' := msgs[i := MsgAfter(answers, msgs[i], i == 0, n, retries)];
      CourseGoesOn(answers, msgs, msgs', i, n, retries, ns);
      if t.ret >= 0 { AfterCourse(answers, msgs', i + 1, n + t.used, retries, ns[1..]); }
    } else {
      CourseOver(answers, msgs, i, n, retries, ns);
    }
  }

  lemma CourseOver(answers: nat -> bool, msgs: seq<Msg>, i: nat, n: nat, retries: nat, ns: seq<nat>)
    requires i == |msgs| && Course(answers, msgs, i, n, retries, ns)
    ensures ns == []
  {}

  lemma CourseGoesOn(answers: nat -> bool, msgs: seq<Msg>, msgs': seq<Msg>, i: nat, n: nat, retries: nat, ns: seq<nat>)
    requires i < |msgs| == |msgs'| && forall k :: i <= k < |msgs| ==> Fits(msgs[k])
    requires forall k :: i < k < |msgs| ==> msgs'[k] == msgs[k]
    requires Course(answers, msgs, i, n, retries, ns)
    ensures ns != [] && ns[0] == n
    ensures var t := At(answers, msgs, i, n, retries);
      if t.ret < 0 then |ns| == 1 else Course(answers, msgs', i + 1, n + t.used, retries, ns[1..])
  {
    hide MsgTalk;
    if |ns| > 1 { assert Linked(answers, msgs, i, retries, ns, 0); }
    var rest, next := ns[1..], i + 1;
    forall k | 0 <= k < |rest| - 1 ensures Linked(answers, msgs', next, retries, rest, k) {
      assert Linked(answers, msgs, i, retries, ns, k + 1);
    }
  }
}
