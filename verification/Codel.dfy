/** The CoDel control loop (include/net/codel.h) as functions on values.

    The clock is an unbounded number of 1024 ns ticks. The code only ever sees its low
    32 bits, and every comparison is made on wrapped differences, as in C.

    Each queue carries a log of what happened to it. The log is a history variable: no
    decision reads it; the properties over runs are stated about it. */
module Codel {
  import opened Wrappers
  import opened Newton
  import opened Words

  // ---------------------------------------------------------------- time

  function Low32(x: int): u32 { x % TWO32 }

  /** The signed reading of a wrapped 32-bit difference a - b. */
  function Diff(a: int, b: int): s32 {
    Signed(a - b)
  }

  predicate TimeAfter(a: int, b: int) { Diff(a, b) > 0 }
  predicate TimeAfterEq(a: int, b: int) { Diff(a, b) >= 0 }
  predicate TimeBefore(a: int, b: int) { Diff(a, b) < 0 }

  // ---------------------------------------------------------------- data

  datatype Params = Params(target: u32, interval: u32, ecn: bool)

  datatype Vars = Vars(count: u32, lastcount: u32, dropping: bool, recInvSqrt: u16,
                       firstAbove: u32, dropNext: u32, ldelay: u32)

  /** codel_vars_init. */
  const VARS_INIT: Vars := Vars(0, 0, false, 0, 0, 0, 0)

  /** enq is the true enqueue instant; the skb stores its low 32 bits. ect says whether
      INET_ECN_set_ce succeeds on the packet. */
  datatype Packet = Packet(id: nat, len: nat, enq: nat, ect: bool)

  datatype Event =
    | Restarted                 // the flow entered new_flows and its vars were reset
    | Arrived(pkt: Packet)
    | Judged(pkt: Packet, clock: nat, left: int, maxpacket: nat, params: Params, verdict: bool)
    | Starved                   // codel_should_drop saw an empty queue
    | Dropped(pkt: Packet)      // by CoDel
    | Marked(pkt: Packet)       // ECN
    | Delivered(pkt: Packet)    // codel_dequeue returned it
    | Evicted(pkt: Packet)      // dropped from the head of the queue because of the limit
    | Freed(pkt: Packet)        // the packet just delivered was freed by fq_codel_change
    | Refilled                  // the deficit got one more quantum

  datatype Queue = Queue(pkts: seq<Packet>, bytes: int, vars: Vars, log: seq<Event>)

  /** The parts of struct Qdisc and struct codel_stats that all flows share. */
  datatype Shared = Shared(qlen: int, backlog: int, drops: nat, maxpacket: nat, dropCount: nat, ecnMark: nat)

  datatype Out = Out(skb: Option<Packet>, sh: Shared, q: Queue)
  datatype Verdict = Verdict(ok: bool, sh: Shared, q: Queue)

  function Hand(skb: Option<Packet>): seq<Packet> {
    if skb.Some? then [skb.value] else []
  }

  function Bytes(ps: seq<Packet>): nat {
    if ps == [] then 0 else ps[0].len + Bytes(ps[1..])
  }

  lemma BytesConcat(a: seq<Packet>, b: seq<Packet>)
    ensures Bytes(a + b) == Bytes(a) + Bytes(b)
  {
    if a == [] {
      assert a + b == b;
    } else {
      assert (a + b)[1..] == a[1..] + b;
      BytesConcat(a[1..], b);
    }
  }

  // ---------------------------------------------------------------- operations

  function Log(q: Queue, e: Event): Queue { q.(log := q.log + [e]) }

  /** The dequeue callback: unlink the head, fix the flow's bytes and the total length. */
  function Pop(sh: Shared, q: Queue): Out {
    if q.pkts == [] then Out(None, sh, q)
    else
      var p := q.pkts[0];
      Out(Some(p), sh.(qlen := sh.qlen - 1), q.(pkts := q.pkts[1..], bytes := q.bytes - p.len))
  }

  function Max(a: nat, b: nat): nat { if a > b then a else b }

  /** codel_should_drop. */
  function ShouldDrop(skb: Option<Packet>, sh: Shared, q: Queue, p: Params, clock: nat): Verdict {
    match skb
    case None => Verdict(false, sh, Log(q.(vars := q.vars.(firstAbove := 0)), Starved))
    case Some(pkt) =>
      var now := Low32(clock);
      var ldelay := Low32(now - Low32(pkt.enq));
      var sh' := sh.(backlog := sh.backlog - pkt.len, maxpacket := Max(pkt.len, sh.maxpacket));
      var v := q.vars.(ldelay := ldelay);
      if TimeBefore(ldelay, p.target) || sh'.backlog <= sh'.maxpacket then
        Verdict(false, sh', Log(q.(vars := v.(firstAbove := 0)),
                                Judged(pkt, clock, sh'.backlog, sh'.maxpacket, p, false)))
      else if v.firstAbove == 0 then
        Verdict(false, sh', Log(q.(vars := v.(firstAbove := Low32(now + p.interval))),
                                Judged(pkt, clock, sh'.backlog, sh'.maxpacket, p, false)))
      else
        var ok := TimeAfter(now, v.firstAbove);
        Verdict(ok, sh', Log(q.(vars := v), Judged(pkt, clock, sh'.backlog, sh'.maxpacket, p, ok)))
  }

  function Mark(skb: Packet, sh: Shared, q: Queue): Out {
    Out(Some(skb), sh.(ecnMark := sh.ecnMark + 1), Log(q, Marked(skb)))
  }

  /** qdisc_drop, then fetch the next packet. */
  function DropAndPop(skb: Packet, sh: Shared, q: Queue): Out {
    Pop(sh.(drops := sh.drops + 1, dropCount := sh.dropCount + 1), Log(q, Dropped(skb)))
  }

  function ScheduleNext(v: Vars, from: u32, p: Params): Vars {
    v.(dropNext := ControlLaw(from, p.interval, v.recInvSqrt))
  }

  /** One more drop in the dropping state: raise count, refine the root. */
  function Escalate(v: Vars): Vars {
    var count := (v.count + 1) % TWO32;
    v.(count := count, recInvSqrt := NewtonStep(count, v.recInvSqrt))
  }

  /** Entering the dropping state: resume near the old rate, or start over. */
  function Enter(v: Vars, p: Params, clock: nat): Vars {
    var now := Low32(clock);
    var v1 := v.(dropping := true);
    var v2 :=
      if TimeBefore(Low32(now - v.dropNext), Low32(16 * p.interval)) then
        var c := OrOne((v.count - v.lastcount) % TWO32);
        v1.(count := c, recInvSqrt := NewtonStep(c, v.recInvSqrt))
      else
        v1.(count := 1, recInvSqrt := TWO16 - 1);
    ScheduleNext(v2.(lastcount := v2.count), now, p)
  }

  function OrOne(x: u32): u32 { if x % 2 == 0 then x + 1 else x }

  /** What one turn of the inner while loop leaves: finished means "goto end". */
  datatype Turn = Turn(finished: bool, out: Out)

  predicate LoopGuard(q: Queue, clock: nat) {
    q.vars.dropping && TimeAfterEq(Low32(clock), q.vars.dropNext)
  }

  function LoopTurn(skb: Packet, sh: Shared, q: Queue, p: Params, clock: nat): Turn {
    var q1 := q.(vars := Escalate(q.vars));
    if p.ecn && skb.ect then
      var m := Mark(skb, sh, q1);
      Turn(true, m.(q := m.q.(vars := ScheduleNext(m.q.vars, m.q.vars.dropNext, p))))
    else
      var d := DropAndPop(skb, sh, q1);
      var j := ShouldDrop(d.skb, d.sh, d.q, p, clock);
      var vars := if j.ok then ScheduleNext(j.q.vars, j.q.vars.dropNext, p)
                  else j.q.vars.(dropping := false);
      Turn(false, Out(d.skb, j.sh, j.q.(vars := vars)))
  }

  /** The inner while loop. */
  function DropLoop(skb: Option<Packet>, sh: Shared, q: Queue, p: Params, clock: nat): Out
    requires q.vars.dropping ==> skb.Some?
    decreases |q.pkts| + |Hand(skb)|
  {
    if LoopGuard(q, clock) then
      var t := LoopTurn(skb.value, sh, q, p, clock);
      if t.finished then t.out else DropLoop(t.out.skb, t.out.sh, t.out.q, p, clock)
    else
      Out(skb, sh, q)
  }

  /** The "else if (drop)" branch. */
  function FirstDrop(skb: Packet, sh: Shared, q: Queue, p: Params, clock: nat): Out {
    var o :=
      if p.ecn && skb.ect then Mark(skb, sh, q)
      else
        var d := DropAndPop(skb, sh, q);
        var j := ShouldDrop(d.skb, d.sh, d.q, p, clock);
        Out(d.skb, j.sh, j.q);
    o.(q := o.q.(vars := Enter(o.q.vars, p, clock)))
  }

  /** The control decisions once the first packet has been judged. */
  function Control(skb: Packet, j: Verdict, p: Params, clock: nat): Out {
    if j.q.vars.dropping then
      if !j.ok then Out(Some(skb), j.sh, j.q.(vars := j.q.vars.(dropping := false)))
      else DropLoop(Some(skb), j.sh, j.q, p, clock)
    else if j.ok then FirstDrop(skb, j.sh, j.q, p, clock)
    else Out(Some(skb), j.sh, j.q)
  }

  function Hist(o: Out): Out {
    if o.skb.Some? then o.(q := Log(o.q, Delivered(o.skb.value))) else o
  }

  /** codel_dequeue. */
  function CodelDequeue(sh: Shared, q: Queue, p: Params, clock: nat): Out {
    var o := Pop(sh, q);
    if o.skb.None? then o.(q := o.q.(vars := o.q.vars.(dropping := false)))
    else Hist(Control(o.skb.value, ShouldDrop(o.skb, o.sh, o.q, p, clock), p, clock))
  }
}
