/** The calls of the qdisc: enqueue, dequeue with its goto loop, and the shrinking limit.
    Every run of calls keeps the invariant, the limit and the parent's count. */
module FqCalls {
  import opened Wrappers
  import opened Newton
  import opened Codel
  import opened CodelProofs
  import opened FqCodel
  import opened Sums
  import opened FqProofs
  import opened FqDeficit
  import opened Words

  /** The invariant looks at the flows, the lists, the clock and the two counters only. */
  lemma ValidFrame(s: Sched, t: Sched)
    requires Valid(s)
    requires t.flows == s.flows && t.newFlows == s.newFlows && t.oldFlows == s.oldFlows && t.clock == s.clock
    requires t.sh.qlen == s.sh.qlen && t.sh.backlog == s.sh.backlog
    requires t.sh.maxpacket >= 1
    ensures Valid(t)
  {
    hide QueueOk;
  }

  lemma MaxpacketPositive(s: Sched)
    requires Valid(s)
    ensures s.sh.maxpacket >= 1
  {}

  lemma TickKeeps(s: Sched, dt: nat)
    requires Valid(s)
    ensures Valid(s.(clock := s.clock + dt))
  {
    forall i | 0 <= i < |s.flows| ensures QueueOk(None, s.flows[i].q, s.clock + dt) {
      ClockMoves(None, s.flows[i].q, s.clock, s.clock + dt);
    }
    hide QueueOk;
  }

  // ---------------------------------------------------------------- enqueue

  lemma AppendKeeps(s: Sched, i: nat, pkt: Packet)
    requires Valid(s) && i < |s.flows| && pkt.len >= 1
    ensures var t := Append(s, i, pkt);
      && FlowsOk(t) && SumsOk(t.flows, t.sh) && t.sh.qlen == s.sh.qlen + 1
      && t.flows[i].q.pkts != []
      && forall j :: 0 <= j < |s.flows| && j != i ==> t.flows[j] == s.flows[j]
  {
    var t := Append(s, i, pkt);
    var q, p := s.flows[i].q, pkt.(enq := s.clock);
    assert QueueOk(None, t.flows[i].q, s.clock) by { AppendQueue(q, p, s.clock); }
    hide QueueOk;
    FlowsChange(s, i, t.flows[i]);
    BytesConcat(q.pkts, [p]);
    SumsChange(s.flows, s.sh, i, t.flows[i], t.sh);
  }

  lemma ListIfNewKeeps(t: Sched, i: nat)
    requires FlowsOk(t) && SumsOk(t.flows, t.sh) && i < |t.flows|
    requires Distinct(t.newFlows) && Distinct(t.oldFlows)
    requires forall j :: j in t.newFlows ==> j < |t.flows| && j !in t.oldFlows
    requires forall j :: j in t.oldFlows ==> j < |t.flows|
    requires forall j :: 0 <= j < |t.flows| && j != i && t.flows[j].q.pkts != [] ==> Listed(t, j)
    ensures var u := ListIfNew(t, i); ListsOk(u) && FlowsOk(u) && SumsOk(u.flows, u.sh) && Listed(u, i)
  {
    var u := ListIfNew(t, i);
    if !Listed(t, i) {
      assert QueueOk(None, u.flows[i].q, t.clock) by { RestartQueue(t.flows[i].q, t.clock); }
      hide QueueOk;
      FlowsChange(t, i, u.flows[i]);
      SumsChange(t.flows, t.sh, i, u.flows[i], t.sh);
      SnocDistinct(t.newFlows, i);
      assert i in u.newFlows;
    }
  }

  function Queued(s: Sched, i: nat, pkt: Packet): Sched
    requires i < |s.flows|
  {
    ListIfNew(Append(s, i, pkt), i)
  }

  lemma QueuedKeeps(s: Sched, i: nat, pkt: Packet)
    requires Valid(s) && i < |s.flows| && pkt.len >= 1
    ensures Valid(Queued(s, i, pkt))
    ensures Queued(s, i, pkt).sh.qlen == s.sh.qlen + 1
  {
    AppendKeeps(s, i, pkt);
    hide QueueOk;
    ListIfNewKeeps(Append(s, i, pkt), i);
  }

  /** The scan finds the first flow of largest backlog. */
  lemma {:induction false} FatScanFinds(flows: seq<Flow>, n: nat)
    requires n <= |flows|
    requires forall j :: 0 <= j < n ==> flows[j].q.bytes >= 0
    ensures var best := FatScan(flows, n);
      && best.0 >= 0
      && (forall j :: 0 <= j < n ==> flows[j].q.bytes <= best.0)
      && (n > 0 ==> flows[best.1].q.bytes == best.0)
      && (forall j :: 0 <= j < best.1 ==> flows[j].q.bytes < best.0)
  {
    if n > 0 { FatScanFinds(flows, n - 1); }
  }

  /** fq_codel_drop always finds a packet: it never follows a null head pointer. */
  lemma EvictSafe(t: Sched)
    requires Valid(t) && t.sh.qlen > 0
    ensures |t.flows| > 0 && t.flows[FatScan(t.flows, |t.flows|).1].q.pkts != []
  {
    CountersNonNeg(t.flows, t.sh);
    var j :| 0 <= j < |t.flows| && t.flows[j].q.pkts != [];
    assert QueueOk(None, t.flows[j].q, t.clock);
    assert t.flows[j].q.bytes >= 1 by { assert (Hand(None) + t.flows[j].q.pkts)[0].len >= 1; }
    forall k | 0 <= k < |t.flows| ensures t.flows[k].q.bytes == Bytes(t.flows[k].q.pkts) {
      assert QueueOk(None, t.flows[k].q, t.clock);
    }
    FatScanFinds(t.flows, |t.flows|);
  }

  lemma EvictKeeps(t: Sched, i: nat)
    requires Valid(t) && i < |t.flows| && t.flows[i].q.pkts != []
    ensures Valid(Evict(t, i))
    ensures Evict(t, i).sh.qlen == t.sh.qlen - 1
  {
    EvictQueue(t.flows[i].q, t.clock);
    assert Listed(t, i);
    hide FlowsOk, SumsOk, ListsOk, QueueOk;
    var u := Evict(t, i);
    ReplaceKeeps(t, i, u.flows[i], u.sh);
  }

  /** The queue after an overflow: the packet is in, the fattest flow has lost its head. */
  function Overflowed(s: Sched, i: nat, pkt: Packet): Sched
    requires i < |s.flows|
  {
    var t := Queued(s, i, pkt);
    Evict(t.(overlimit := t.overlimit + 1), FatScan(t.flows, |t.flows|).1)
  }

  lemma OverflowKeeps(s: Sched, i: nat, pkt: Packet)
    requires Valid(s) && pkt.len >= 1 && i < |s.flows|
    ensures Valid(Overflowed(s, i, pkt))
    ensures Overflowed(s, i, pkt).sh.qlen == s.sh.qlen
  {
    hide Valid, Queued, Evict;
    var t := Queued(s, i, pkt);
    QueuedKeeps(s, i, pkt);
    QlenNonNeg(s);
    BumpKeeps(t);
    EvictFattest(t.(overlimit := t.overlimit + 1));
  }

  lemma QlenNonNeg(s: Sched)
    requires Valid(s)
    ensures s.sh.qlen >= 0
  {
    CountersNonNeg(s.flows, s.sh);
  }

  lemma BumpKeeps(t: Sched)
    requires Valid(t)
    ensures Valid(t.(overlimit := t.overlimit + 1))
  {
    ValidFrame(t, t.(overlimit := t.overlimit + 1));
  }

  lemma EvictFattest(t: Sched)
    requires Valid(t) && t.sh.qlen > 0
    ensures |t.flows| > 0 && Valid(Evict(t, FatScan(t.flows, |t.flows|).1))
    ensures Evict(t, FatScan(t.flows, |t.flows|).1).sh.qlen == t.sh.qlen - 1
  {
    EvictSafe(t);
    hide Valid;
    EvictKeeps(t, FatScan(t.flows, |t.flows|).1);
  }

  /** Enqueue in terms of Queued and Overflowed. */
  lemma AdmissionOf(s: Sched, i: nat, pkt: Packet)
    requires i < |s.flows|
    ensures var t := Queued(s, i, pkt); var u := Overflowed(s, i, pkt); var a := Enqueue(s, Into(i), pkt);
      && |t.flows| == |s.flows| == |u.flows| && t.limit == s.limit == u.limit
      && t.parent == s.parent == u.parent && t.sh.dropCount == s.sh.dropCount == u.sh.dropCount
      && (t.sh.qlen < t.limit ==> a == Admission(Success, t.(parent := t.parent + 1)))
      && (t.sh.qlen >= t.limit ==> a.s == u && (a.ret == Success || a.ret == Congested))
  {}

  lemma QueuedCounts(s: Sched, i: nat, pkt: Packet)
    requires Valid(s) && i < |s.flows| && pkt.len >= 1
    ensures Queued(s, i, pkt).sh.qlen > 0
  {
    QueuedKeeps(s, i, pkt);
    QlenNonNeg(s);
  }

  /** fq_codel_drop with its bookkeeping. */
  function EvictFat(t: Sched): Sched {
    if |t.flows| == 0 then t else Evict(t.(overlimit := t.overlimit + 1), FatScan(t.flows, |t.flows|).1)
  }

  /** The outcome of an enqueue, by whether the queue stays under its limit. */
  lemma AdmissionIs(s: Sched, i: nat, pkt: Packet)
    requires i < |s.flows|
    ensures var t := Queued(s, i, pkt); var a := Enqueue(s, Into(i), pkt);
      && |t.flows| == |s.flows|
      && a == if t.sh.qlen < t.limit then Admission(Success, t.(parent := t.parent + 1))
              else Admission(if FatScan(t.flows, |t.flows|).1 == i then Congested else Success, EvictFat(t))
  {}

  /** The queue of flow j once packet p has arrived at flow i. */
  function With(s: Sched, i: nat, p: Packet, j: nat): seq<Packet>
    requires j < |s.flows|
  {
    s.flows[j].q.pkts + if j == i then [p] else []
  }

  /** f is the first flow of largest backlog. */
  predicate Fattest(s: Sched, i: nat, p: Packet, f: nat) {
    f < |s.flows| && forall j :: 0 <= j < |s.flows| ==>
      if j < f then Bytes(With(s, i, p, j)) < Bytes(With(s, i, p, f))
      else Bytes(With(s, i, p, j)) <= Bytes(With(s, i, p, f))
  }

  /** The packets and counters after an enqueue. Below the limit the packet is the last of its flow. Otherwise flow
      f, the first of largest backlog, the packet included, loses its oldest packet, and the length stays. */
  ghost predicate PacketsAfter(s: Sched, i: nat, p: Packet, f: nat, t: Sched) {
    && i < |s.flows| && Fattest(s, i, p, f) && |t.flows| == |s.flows| && With(s, i, p, f) != []
    && if s.sh.qlen + 1 < s.limit then
         && t.sh == s.sh.(qlen := s.sh.qlen + 1, backlog := s.sh.backlog + p.len)
         && t.overlimit == s.overlimit && t.parent == s.parent + 1
         && forall j :: 0 <= j < |s.flows| ==> t.flows[j].q.pkts == With(s, i, p, j)
       else
         && t.sh == s.sh.(drops := s.sh.drops + 1, backlog := s.sh.backlog + p.len - With(s, i, p, f)[0].len)
         && t.overlimit == s.overlimit + 1 && t.parent == s.parent
         && forall j :: 0 <= j < |s.flows| ==>
              t.flows[j].q.pkts == if j == f then With(s, i, p, j)[1..] else With(s, i, p, j)
  }

  /** The lists and the state of the flows after it. A flow on neither list becomes the last new flow, with all its
      CoDel variables zero, a full quantum and no drops; nothing else changes but the drop count of the loser. */
  predicate FlowsAfter(s: Sched, i: nat, loser: Option<nat>, t: Sched) {
    && i < |s.flows| == |t.flows| && t.oldFlows == s.oldFlows
    && t.newFlows == s.newFlows + (if Listed(s, i) then [] else [i])
    && t.newFlowCount == s.newFlowCount + (if Listed(s, i) then 0 else 1)
    && t.quantum == s.quantum && t.limit == s.limit && t.params == s.params && t.clock == s.clock
    && forall j :: 0 <= j < |s.flows| ==>
         var g, h, lost := s.flows[j], t.flows[j], if loser == Some(j) then 1 else 0;
         if j == i && !Listed(s, i) then
           && h.q.vars.count == 0 && h.q.vars.lastcount == 0 && !h.q.vars.dropping && h.q.vars.recInvSqrt == 0
           && h.q.vars.firstAbove == 0 && h.q.vars.dropNext == 0 && h.q.vars.ldelay == 0
           && h.deficit == Signed(s.quantum) && h.dropped == lost
         else h.q.vars == g.q.vars && h.deficit == g.deficit && h.dropped == g.dropped + lost
  }

  /** The sender is told NET_XMIT_CN iff its own flow lost a packet. */
  lemma EnqueueEffect(s: Sched, i: nat, pkt: Packet) returns (f: nat)
    requires Valid(s) && i < |s.flows| && pkt.len >= 1
    ensures var a, full := Enqueue(s, Into(i), pkt), s.sh.qlen + 1 >= s.limit;
      && PacketsAfter(s, i, pkt.(enq := s.clock), f, a.s)
      && FlowsAfter(s, i, if full then Some(f) else None, a.s)
      && a.ret == (if full && f == i then Congested else Success)
  {
    hide Valid, Queued, Enqueue, FatScan, Fattest, PacketsAfter, FlowsAfter, With;
    var t, p := Queued(s, i, pkt), pkt.(enq := s.clock);
    QueuedKeeps(s, i, pkt);
    QlenNonNeg(s);
    QueuedHolds(s, i, pkt);
    QueuedFlows(s, i, pkt);
    EvictSafe(t);
    BytesMatch(t);
    FatScanFinds(t.flows, |t.flows|);
    f := FatScan(t.flows, |t.flows|).1;
    FattestIs(s, t, i, p, f);
    AdmissionIs(s, i, pkt);
    if t.sh.qlen < t.limit {
      Admitted(s, i, p, f, t);
    } else {
      Bumped(s, i, p, f, t);
    }
  }

  lemma QueuedFlows(s: Sched, i: nat, pkt: Packet)
    requires i < |s.flows|
    ensures FlowsAfter(s, i, None, Queued(s, i, pkt))
  {}

  /** The packet is in, and nothing more has happened. */
  predicate Holds(s: Sched, i: nat, p: Packet, t: Sched) {
    && i < |s.flows| == |t.flows| && t.limit == s.limit && t.overlimit == s.overlimit && t.parent == s.parent
    && t.sh == s.sh.(qlen := s.sh.qlen + 1, backlog := s.sh.backlog + p.len)
    && forall j :: 0 <= j < |s.flows| ==> t.flows[j].q.pkts == With(s, i, p, j)
  }

  lemma Admitted(s: Sched, i: nat, p: Packet, f: nat, t: Sched)
    requires Holds(s, i, p, t) && FlowsAfter(s, i, None, t) && Fattest(s, i, p, f) && With(s, i, p, f) != []
    requires t.sh.qlen < t.limit
    ensures var u := t.(parent := t.parent + 1); PacketsAfter(s, i, p, f, u) && FlowsAfter(s, i, None, u)
  {
    hide Fattest, With;
  }

  lemma Bumped(s: Sched, i: nat, p: Packet, f: nat, t: Sched)
    requires Holds(s, i, p, t) && FlowsAfter(s, i, None, t) && Fattest(s, i, p, f) && With(s, i, p, f) != []
    requires t.sh.qlen >= t.limit && f == FatScan(t.flows, |t.flows|).1
    ensures var u := EvictFat(t); PacketsAfter(s, i, p, f, u) && FlowsAfter(s, i, Some(f), u)
  {
    hide Fattest, With, FatScan;
  }

  lemma QueuedHolds(s: Sched, i: nat, pkt: Packet)
    requires i < |s.flows|
    ensures Holds(s, i, pkt.(enq := s.clock), Queued(s, i, pkt))
  {}

  lemma BytesMatch(t: Sched)
    requires Valid(t)
    ensures forall k :: 0 <= k < |t.flows| ==> 0 <= t.flows[k].q.bytes == Bytes(t.flows[k].q.pkts)
  {
    forall k | 0 <= k < |t.flows| ensures t.flows[k].q.bytes == Bytes(t.flows[k].q.pkts) {
      assert QueueOk(None, t.flows[k].q, t.clock);
    }
  }

  lemma FattestIs(s: Sched, t: Sched, i: nat, p: Packet, f: nat)
    requires Holds(s, i, p, t) && f < |s.flows|
    requires forall j :: 0 <= j < |s.flows| ==> t.flows[j].q.bytes == Bytes(t.flows[j].q.pkts)
    requires forall j :: 0 <= j < |s.flows| ==> t.flows[j].q.bytes <= t.flows[f].q.bytes
    requires forall j :: 0 <= j < f ==> t.flows[j].q.bytes < t.flows[f].q.bytes
    ensures Fattest(s, i, p, f)
  {
    hide With, Bytes;
  }

  /** Enqueueing keeps the invariant, keeps the queue within its limit and keeps the parent's
      count right, whichever flow the packet went to and whichever flow paid for it. */
  lemma EnqueueKeeps(s: Sched, c: Class, pkt: Packet)
    requires Valid(s) && pkt.len >= 1 && (c.Into? ==> c.flow < |s.flows|)
    ensures var a := Enqueue(s, c, pkt);
      && Valid(a.s) && |a.s.flows| == |s.flows| && a.s.limit == s.limit
      && (ParentOk(s) ==> ParentOk(a.s))
      && (s.sh.qlen <= s.limit ==> a.s.sh.qlen <= a.s.limit)
      && a.s.sh.qlen == s.sh.qlen + (if c.Into? && s.sh.qlen + 1 < s.limit then 1 else 0)
      && (a.ret == Success ==> c.Into?)
      && (a.ret == Congested ==> c.Into? && s.limit <= s.sh.qlen + 1)
  {
    hide Valid, Queued, Overflowed, FatScan, Evict;
    var a := Enqueue(s, c, pkt);
    MaxpacketPositive(s);
    match c
    case Into(i) =>
      QueuedKeeps(s, i, pkt);
      OverflowKeeps(s, i, pkt);
      AdmissionOf(s, i, pkt);
      var t := Queued(s, i, pkt);
      var u := Overflowed(s, i, pkt);
      MaxpacketPositive(t);
      MaxpacketPositive(u);
      if t.sh.qlen < t.limit { ValidFrame(t, a.s); } else { ValidFrame(u, a.s); }
    case Refused(_) =>
      ValidFrame(s, a.s);
  }

  lemma EnqueueQuantum(s: Sched, c: Class, pkt: Packet)
    requires c.Into? ==> c.flow < |s.flows|
    ensures Enqueue(s, c, pkt).s.quantum == s.quantum
  {}

  // ---------------------------------------------------------------- dequeue

  /** A valid state whose goto loop ends. */
  ghost predicate Live(s: Sched) { Valid(s) && GoodQuantum(s.quantum) }

  /** How far the clock moves before each trip: every codel_dequeue reads it anew. */
  type Ticks = nat -> nat

  function Late(s: Sched, dt: nat): Sched { s.(clock := s.clock + dt) }

  ghost function PassOf(s: Sched): Trip
    requires Valid(s)
  {
    PassKeeps(s);
    Pass(s)
  }

  /** One trip after the clock has moved by dt. */
  ghost function LatePass(s: Sched, dt: nat): Trip
    requires Valid(s)
  {
    TickKeeps(s, dt);
    PassOf(Late(s, dt))
  }

  /** The examined flow has just delivered p. */
  predicate JustSent(s: Sched, p: Packet) {
    Busy(s) && Head(s) < |s.flows| && EndsDelivered(s.flows[Head(s)].q.log, p)
  }

  /** fq_codel_dequeue from its k-th trip on. The goto loop ends because every trip that does not return
      decreases (packets, listed flows, deficit debt, new flows). */
  ghost function Dequeue(s: Sched, ticks: Ticks, k: nat): Trip
    requires Live(s)
    decreases Packets(s), |s.newFlows| + |s.oldFlows|, Debt(s), |s.newFlows|
  {
    LateKeeps(s, ticks(k));
    var t := LatePass(s, ticks(k));
    if t.done then t else Dequeue(t.s, ticks, k + 1)
  }

  lemma LateSame(s: Sched, dt: nat)
    requires Valid(s)
    ensures Valid(Late(s, dt)) && Packets(Late(s, dt)) == Packets(s) && Debt(Late(s, dt)) == Debt(s)
  {
    TickKeeps(s, dt);
    hide Valid;
    SumSame(|s.flows|, DebtOf(s), DebtOf(Late(s, dt)));
  }

  /** A trip as PassKeeps says, however the clock moved before it. */
  lemma LateKeeps(s: Sched, dt: nat)
    requires Valid(s)
    ensures var t := LatePass(s, dt);
      && Valid(t.s) && |t.s.flows| == |s.flows| && t.s.quantum == s.quantum && t.s.limit == s.limit
      && t.s.clock == s.clock + dt
      && (!t.done ==> t.skb.None? && (GoodQuantum(s.quantum) ==> Decreases(s, t.s)))
      && (!t.done && s.sh.qlen > 0 ==> t.s.sh.qlen > 0)
      && (t.done ==> (t.skb.Some? <==> s.sh.qlen > 0))
      && t.s.sh.qlen <= s.sh.qlen && (t.skb.Some? ==> t.s.sh.qlen < s.sh.qlen && JustSent(t.s, t.skb.value))
      && (ParentOk(s) ==> t.s.parent == t.s.sh.qlen + t.s.sh.dropCount + |Hand(t.skb)|)
      && (t.skb.Some? && t.s.sh.qlen > 0 ==> t.s.sh.dropCount == 0)
      && (t.skb.None? || t.s.sh.qlen == 0 ==> t.s.parent == s.parent)
  {
    LateSame(s, dt);
    var l := Late(s, dt);
    PassKeeps(l);
    PassFixed(l);
    PassDelivers(l);
    IdleMeansEmpty(l);
    hide Valid, Pass, JustSent;
    QlenNonNeg(l);
  }

  lemma PassDelivers(s: Sched)
    requires Busy(s) ==> Head(s) < |s.flows|
    ensures Pass(s).skb.Some? ==> JustSent(Pass(s).s, Pass(s).skb.value)
  {
    if Busy(s) { DeliveredLast(s.sh, s.flows[Head(s)].q, s.params, s.clock); }
    hide CodelDequeue, EndsDelivered;
  }

  /** Work conservation: a packet comes back exactly when the qdisc holds one. If others are still queued then,
      all drops have been reported: the parent counts those and the packet. Otherwise the parent is as it was. */
  lemma {:induction false} DequeueKeeps(s: Sched, ticks: Ticks, k: nat)
    requires Live(s)
    ensures var t := Dequeue(s, ticks, k);
      && t.done && Live(t.s) && t.s.quantum == s.quantum
      && (t.skb.Some? <==> s.sh.qlen > 0)
      && t.s.sh.qlen <= s.sh.qlen
      && (t.skb.Some? ==> t.s.sh.qlen < s.sh.qlen && JustSent(t.s, t.skb.value))
      && (ParentOk(s) ==> t.s.parent == t.s.sh.qlen + t.s.sh.dropCount + |Hand(t.skb)|)
      && (t.s.sh.qlen > 0 ==> t.s.sh.dropCount == 0 && (ParentOk(s) ==> t.s.parent == t.s.sh.qlen + 1))
      && (t.s.sh.qlen == 0 ==> t.s.parent == s.parent)
      && t.s.limit == s.limit && |t.s.flows| == |s.flows| && t.s.clock >= s.clock
    decreases Packets(s), |s.newFlows| + |s.oldFlows|, Debt(s), |s.newFlows|
  {
    LateKeeps(s, ticks(k));
    var p := LatePass(s, ticks(k));
    QlenNonNeg(s);
    QlenNonNeg(p.s);
    hide LatePass, Valid, JustSent;
    if !p.done { DequeueKeeps(p.s, ticks, k + 1); }
  }

  lemma PassFixed(s: Sched)
    requires Busy(s) ==> Head(s) < |s.flows|
    ensures Pass(s).s.limit == s.limit && |Pass(s).s.flows| == |s.flows|
    ensures Pass(s).s.quantum == s.quantum && Pass(s).s.clock == s.clock
  {
    hide CodelDequeue;
  }

  lemma IdleMeansEmpty(s: Sched)
    requires Valid(s)
    ensures !Busy(s) ==> s.sh.qlen == 0
    ensures Busy(s) ==> Head(s) < |s.flows|
    ensures Pass(s).skb.Some? ==> s.sh.qlen > 0
  {
    PassKeeps(s);
    hide Pass, QueueOk;
    CountersNonNeg(s.flows, s.sh);
    if !Busy(s) {
      forall i | 0 <= i < |s.flows| ensures s.flows[i].q.pkts == [] { assert !Listed(s, i); }
    } else {
      CountersNonNeg(Pass(s).s.flows, Pass(s).s.sh);
    }
  }

  // ---------------------------------------------------------------- when the goto loop ends

  /** At most n trips of the goto loop, from the k-th on, in any valid state and with any quantum. */
  ghost function Trips(s: Sched, ticks: Ticks, k: nat, n: nat): Trip
    requires Valid(s)
    decreases n
  {
    LateKeeps(s, ticks(k));
    var t := LatePass(s, ticks(k));
    if n == 0 then Trip(false, None, s)
    else if t.done then t
    else Trips(t.s, ticks, k + 1, n - 1)
  }

  ghost predicate Returns(s: Sched, ticks: Ticks)
    requires Valid(s)
  {
    exists n: nat :: Trips(s, ticks, 0, n).done
  }

  lemma NextTrip(s: Sched, ticks: Ticks, k: nat, n: nat)
    requires Valid(s)
    ensures var t := LatePass(s, ticks(k));
      && Valid(t.s)
      && (n > 0 ==> Trips(s, ticks, k, n) == if t.done then t else Trips(t.s, ticks, k + 1, n - 1))
      && (Live(s) ==> Live(t.s) && Dequeue(s, ticks, k) == if t.done then t else Dequeue(t.s, ticks, k + 1))
  {
    LateKeeps(s, ticks(k));
    hide Valid, LatePass;
  }

  lemma {:induction false} TripsReach(s: Sched, ticks: Ticks, k: nat) returns (n: nat)
    requires Live(s)
    ensures Trips(s, ticks, k, n) == Dequeue(s, ticks, k) && Trips(s, ticks, k, n).done
    decreases Packets(s), |s.newFlows| + |s.oldFlows|, Debt(s), |s.newFlows|
  {
    hide Valid, LatePass, Trips, Dequeue, Packets, Debt;
    LateKeeps(s, ticks(k));
    if LatePass(s, ticks(k)).done {
      n := 1;
      NextTrip(s, ticks, k, n);
    } else {
      NextTrip(s, ticks, k, 0);
      var rest := TripsReach(LatePass(s, ticks(k)).s, ticks, k + 1);
      n := rest + 1;
      NextTrip(s, ticks, k, n);
    }
  }

  /** Every listed flow has a deficit that refilling never makes positive. */
  ghost predicate Spinning(s: Sched) {
    Busy(s) && forall i :: 0 <= i < |s.flows| && Listed(s, i) ==> Trapped(s.flows[i].deficit, s.quantum)
  }

  lemma SpinKeeps(s: Sched, dt: nat)
    requires Valid(s) && Spinning(s)
    ensures !LatePass(s, dt).done && Spinning(LatePass(s, dt).s)
  {
    TickKeeps(s, dt);
    hide CodelDequeue, QueueOk, SumsOk, FlowsOk;
    HeadListed(s);
    RotateLists(s);
    assert Trapped(s.flows[Head(s)].deficit, s.quantum);
    assert LatePass(s, dt).s == Refill(Late(s, dt));
  }

  lemma {:induction false} SpinNeverReturns(s: Sched, ticks: Ticks, k: nat, n: nat)
    requires Valid(s) && Spinning(s)
    ensures !Trips(s, ticks, k, n).done
    decreases n
  {
    hide Valid, LatePass, Spinning, Dequeue;
    SpinKeeps(s, ticks(k));
    NextTrip(s, ticks, k, n);
    if n > 0 { SpinNeverReturns(LatePass(s, ticks(k)).s, ticks, k + 1, n - 1); }
  }

  /** A fresh qdisc with such a quantum holds the first packet it gets for ever. */
  lemma FirstPacketStuck(quantum: u32, params: Params, clock: nat, pkt: Packet, ticks: Ticks)
    requires !GoodQuantum(quantum) && pkt.len >= 1
    ensures var s := Enqueue(Init(1, quantum, 10, params, clock), Into(0), pkt).s;
      Valid(s) && s.quantum == quantum && s.sh.qlen == 1 && !Returns(s, ticks)
  {
    hide Valid, Enqueue, Spinning;
    var s0 := Init(1, quantum, 10, params, clock);
    var s := Enqueue(s0, Into(0), pkt).s;
    InitSound(1, quantum, 10, params, clock);
    EnqueueKeeps(s0, Into(0), pkt);
    EnqueueQuantum(s0, Into(0), pkt);
    FirstSpins(quantum, params, clock, pkt);
    forall n: nat ensures !Trips(s, ticks, 0, n).done { SpinNeverReturns(s, ticks, 0, n); }
  }

  lemma FirstSpins(quantum: u32, params: Params, clock: nat, pkt: Packet)
    requires !GoodQuantum(quantum)
    ensures Spinning(Enqueue(Init(1, quantum, 10, params, clock), Into(0), pkt).s)
  {
    var s := Enqueue(Init(1, quantum, 10, params, clock), Into(0), pkt).s;
    assert s.newFlows == [0] && |s.flows| == 1 && s.flows[0].deficit == Signed(quantum);
  }

  /** fq_codel_dequeue returns from every valid state, whatever the clock does meanwhile, iff the quantum is
      neither 0 nor 2^31. */
  lemma DequeueReturns(quantum: u32)
    ensures (forall s: Sched, ticks: Ticks :: Valid(s) && s.quantum == quantum ==> Returns(s, ticks)) <==>
            GoodQuantum(quantum)
  {
    hide Valid, Enqueue, Init;
    if GoodQuantum(quantum) {
      forall s: Sched, ticks: Ticks | Valid(s) && s.quantum == quantum ensures Returns(s, ticks) {
        var n := TripsReach(s, ticks, 0);
      }
    } else {
      FirstPacketStuck(quantum, Params(0, 0, false), 0, Packet(0, 1, 0, false), n => 0);
    }
  }

  /** The parent's dequeue: it counts one packet less when it gets one. */
  ghost function DequeueCall(s: Sched, ticks: Ticks): Trip
    requires Live(s)
  {
    var t := Dequeue(s, ticks, 0);
    if t.skb.Some? then t.(s := t.s.(parent := t.s.parent - 1)) else t
  }

  // ---------------------------------------------------------------- the limit loop

  /** kfree_skb of the packet just delivered, counted as a drop. */
  function Free(s: Sched, p: Packet): Sched
    requires JustSent(s, p)
  {
    var i := Head(s);
    SetFlow(s, i, s.flows[i].(q := Log(s.flows[i].q, Freed(p)))).(sh := s.sh.(dropCount := s.sh.dropCount + 1))
  }

  lemma FreeKeeps(s: Sched, p: Packet)
    requires Valid(s) && JustSent(s, p)
    ensures Valid(Free(s, p)) && Free(s, p).sh.qlen == s.sh.qlen
  {
    var i := Head(s);
    HeadListed(s);
    FreeQueue(s.flows[i].q, p, s.clock);
    ReplaceKeeps(s, i, Free(s, p).flows[i], Free(s, p).sh);
  }

  /** One turn of the loop of fq_codel_change: dequeue a packet and free it. */
  ghost function Discard(s: Sched, ticks: Ticks): Sched
    requires Live(s) && s.sh.qlen > 0
  {
    DequeueKeeps(s, ticks, 0);
    var t := Dequeue(s, ticks, 0);
    Free(t.s, t.skb.value)
  }

  lemma DiscardKeeps(s: Sched, ticks: Ticks)
    requires Live(s) && s.sh.qlen > 0
    ensures var t := Discard(s, ticks);
      && Live(t) && t.sh.qlen < s.sh.qlen && t.limit == s.limit && |t.flows| == |s.flows| && t.clock >= s.clock
      && (ParentOk(s) ==> ParentOk(t))
  {
    DequeueKeeps(s, ticks, 0);
    hide Dequeue, Valid;
    var t := Dequeue(s, ticks, 0);
    FreeKeeps(t.s, t.skb.value);
  }

  /** The loop from its k-th turn on; ticks(k) is what the clock does during that dequeue. */
  ghost function Trim(s: Sched, ticks: nat -> Ticks, k: nat): Sched
    requires Live(s)
    decreases Packets(s)
  {
    if s.sh.qlen > s.limit then
      DiscardKeeps(s, ticks(k));
      Trim(Discard(s, ticks(k)), ticks, k + 1)
    else s
  }

  lemma {:induction false} TrimKeeps(s: Sched, ticks: nat -> Ticks, k: nat)
    requires Live(s)
    ensures var t := Trim(s, ticks, k);
      && Live(t) && t.sh.qlen <= t.limit == s.limit && |t.flows| == |s.flows|
      && (ParentOk(s) ==> ParentOk(t))
    decreases Packets(s)
  {
    hide Discard, QueueOk;
    if s.sh.qlen > s.limit {
      DiscardKeeps(s, ticks(k));
      TrimKeeps(Discard(s, ticks(k)), ticks, k + 1);
    }
  }

  function Configured(s: Sched, params: Params, limit: nat, quantum: Option<u32>): Sched {
    s.(params := params, limit := limit, quantum := if quantum.Some? then Max(256, quantum.value) else s.quantum)
  }

  /** fq_codel_change once its attributes are parsed. */
  ghost function Change(s: Sched, params: Params, limit: nat, quantum: Option<u32>, ticks: nat -> Ticks): Sched
    requires Live(s) && quantum != Some(TWO31)
  {
    ValidFrame(s, Configured(s, params, limit, quantum));
    var t := Trim(Configured(s, params, limit, quantum), ticks, 0);
    t.(parent := t.parent - t.sh.dropCount, sh := t.sh.(dropCount := 0))
  }

  lemma ConfiguredKeeps(s: Sched, params: Params, limit: nat, quantum: Option<u32>)
    requires Live(s) && quantum != Some(TWO31)
    ensures Live(Configured(s, params, limit, quantum))
  {
    ValidFrame(s, Configured(s, params, limit, quantum));
  }

  lemma ChangeKeeps(s: Sched, params: Params, limit: nat, quantum: Option<u32>, ticks: nat -> Ticks)
    requires Live(s) && quantum != Some(TWO31)
    ensures var t := Change(s, params, limit, quantum, ticks);
      && Live(t) && t.sh.qlen <= t.limit == limit && |t.flows| == |s.flows|
      && (ParentOk(s) ==> ParentOk(t))
  {
    var c := Configured(s, params, limit, quantum);
    ValidFrame(s, c);
    TrimKeeps(c, ticks, 0);
    hide Trim;
    var t := Trim(c, ticks, 0);
    assert t.sh.maxpacket >= 1;
    hide Valid;
    ValidFrame(t, Change(s, params, limit, quantum, ticks));
  }

  // ---------------------------------------------------------------- runs of calls

  datatype Call =
    | Tick(dt: nat)
    | Enq(c: Class, pkt: Packet)
    | Deq(ticks: Ticks)
    | Cfg(params: Params, limit: nat, quantum: Option<u32>, turns: nat -> Ticks)

  predicate CallOk(call: Call, flowsCnt: nat) {
    && (call.Enq? ==> call.pkt.len >= 1 && (call.c.Into? ==> call.c.flow < flowsCnt))
    && (call.Cfg? ==> call.quantum != Some(TWO31))
  }

  ghost function Apply(s: Sched, call: Call): Sched
    requires Live(s) && CallOk(call, |s.flows|)
  {
    match call
    case Tick(dt) => s.(clock := s.clock + dt)
    case Enq(c, pkt) => Enqueue(s, c, pkt).s
    case Deq(ticks) => DequeueCall(s, ticks).s
    case Cfg(params, limit, quantum, turns) => Change(s, params, limit, quantum, turns)
  }

  /** What every reachable state satisfies. */
  ghost predicate Sound(s: Sched) {
    Live(s) && ParentOk(s) && s.sh.qlen <= s.limit
  }

  lemma DequeueCallKeeps(s: Sched, ticks: Ticks)
    requires Sound(s)
    ensures Sound(DequeueCall(s, ticks).s) && |DequeueCall(s, ticks).s.flows| == |s.flows|
  {
    DequeueKeeps(s, ticks, 0);
    hide Dequeue;
    var t := Dequeue(s, ticks, 0).s;
    assert t.sh.maxpacket >= 1;
    hide Valid;
    ValidFrame(t, DequeueCall(s, ticks).s);
  }

  lemma ApplyKeeps(s: Sched, call: Call)
    requires Sound(s) && CallOk(call, |s.flows|)
    ensures Sound(Apply(s, call)) && |Apply(s, call).flows| == |s.flows|
  {
    hide Valid, Enqueue, DequeueCall, Change;
    match call
    case Tick(dt) => TickKeeps(s, dt);
    case Enq(c, pkt) => EnqueueKeeps(s, c, pkt); EnqueueQuantum(s, c, pkt);
    case Deq(ticks) => DequeueCallKeeps(s, ticks);
    case Cfg(params, limit, quantum, turns) => ChangeKeeps(s, params, limit, quantum, turns);
  }

  /** fq_codel_init: empty flows, empty lists. */
  function Init(cnt: nat, quantum: u32, limit: nat, params: Params, clock: nat): Sched {
    Sched(seq(cnt, _ => Flow(Queue([], 0, VARS_INIT, []), 0, 0)), [], [], quantum, limit, params,
          Shared(0, 0, 0, 256, 0, 0), 0, 0, 0, clock)
  }

  lemma InitSound(cnt: nat, quantum: u32, limit: nat, params: Params, clock: nat)
    ensures Valid(Init(cnt, quantum, limit, params, clock)) && ParentOk(Init(cnt, quantum, limit, params, clock))
    ensures GoodQuantum(quantum) ==> Sound(Init(cnt, quantum, limit, params, clock))
  {
    hide QueueOk, SumsOk;
    var s := Init(cnt, quantum, limit, params, clock);
    InitSums(s.flows, s.sh);
    InitQueue(clock);
  }

  lemma InitQueue(clock: nat)
    ensures QueueOk(None, Queue([], 0, VARS_INIT, []), clock)
  {}

  lemma InitSums(flows: seq<Flow>, sh: Shared)
    requires sh.qlen == 0 == sh.backlog && forall i :: 0 <= i < |flows| ==> flows[i].q.pkts == []
    ensures SumsOk(flows, sh)
  {
    SumNonNeg(|flows|, LenOf(flows));
    SumNonNeg(|flows|, BytesOf(flows));
  }

  ghost predicate RunOk(calls: seq<Call>, cnt: nat) {
    forall i :: 0 <= i < |calls| ==> CallOk(calls[i], cnt)
  }

  /** The state after a run of calls. */
  ghost function Run(s: Sched, calls: seq<Call>): Sched
    requires Sound(s) && RunOk(calls, |s.flows|)
    decreases |calls|
  {
    if calls == [] then s
    else
      ApplyKeeps(s, calls[0]);
      hide Sound, Apply, CallOk;
      Run(Apply(s, calls[0]), calls[1..])
  }

  lemma SoundIsValid(s: Sched)
    requires Sound(s)
    ensures Live(s)
  {}

  /** Every run keeps what is claimed of reachable states. */
  lemma {:induction false} RunSound(s: Sched, calls: seq<Call>)
    requires Sound(s) && RunOk(calls, |s.flows|)
    ensures Sound(Run(s, calls)) && |Run(s, calls).flows| == |s.flows|
    decreases |calls|
  {
    hide Sound, Apply, CallOk;
    if calls != [] {
      SoundIsValid(s);
      ApplyKeeps(s, calls[0]);
      RunSound(Apply(s, calls[0]), calls[1..]);
    }
  }
}
