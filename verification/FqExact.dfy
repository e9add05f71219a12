/** What a trip of fq_codel_dequeue, the classifier, and a reconfiguration do to every part of the state. */
module FqExact {
  import opened Wrappers
  import opened Codel
  import opened CodelProofs
  import opened FqCodel
  import opened FqProofs
  import opened FqDeficit
  import opened FqCalls
  import opened Words

  // ---------------------------------------------------------------- one trip

  /** The flow a trip examines: the first new one, or without new ones the first old one. */
  predicate Examined(s: Sched, i: nat) {
    && i < |s.flows|
    && (if s.newFlows != [] then s.newFlows[0] == i else s.oldFlows != [] && s.oldFlows[0] == i)
  }

  /** The lists without the examined flow. */
  predicate Unlinked(s: Sched, newFlows: seq<nat>, oldFlows: seq<nat>) {
    if s.newFlows != [] then newFlows == s.newFlows[1..] && oldFlows == s.oldFlows
    else newFlows == [] && s.oldFlows != [] && oldFlows == s.oldFlows[1..]
  }

  predicate SameSettings(s: Sched, t: Sched) {
    && t.quantum == s.quantum && t.limit == s.limit && t.params == s.params && t.clock == s.clock
    && t.overlimit == s.overlimit && t.newFlowCount == s.newFlowCount
  }

  /** Only flow i differs. */
  predicate OnlyFlow(s: Sched, t: Sched, i: nat) {
    i < |s.flows| == |t.flows| && forall j :: 0 <= j < |s.flows| && j != i ==> t.flows[j] == s.flows[j]
  }

  /** A flow without credit gets a quantum and goes to the end of old_flows; no packet moves. */
  lemma RefillExact(s: Sched, i: nat)
    requires Examined(s, i) && s.flows[i].deficit <= 0
    ensures var t := Pass(s).s;
      && !Pass(s).done && Pass(s).skb == None && SameSettings(s, t) && OnlyFlow(s, t, i)
      && t.sh == s.sh && t.parent == s.parent
      && t.flows[i].deficit == Signed(s.flows[i].deficit + s.quantum) && t.flows[i].dropped == s.flows[i].dropped
      && t.flows[i].q.(log := s.flows[i].q.log) == s.flows[i].q
      && t.oldFlows != [] && t.oldFlows[|t.oldFlows| - 1] == i
      && Unlinked(s, t.newFlows, t.oldFlows[..|t.oldFlows| - 1])
  {
    hide CodelDequeue;
  }

  /** A flow with credit from which CoDel returns a packet stays where it is and pays for it. The drops since the
      last report are reported, all of them, if packets are still queued, and none if not. */
  lemma SendExact(s: Sched, i: nat, o: Out)
    requires Examined(s, i) && s.flows[i].deficit > 0
    requires o == CodelDequeue(s.sh, s.flows[i].q, s.params, s.clock) && o.skb.Some?
    ensures var t := Pass(s).s;
      && Pass(s).done && Pass(s).skb == o.skb && SameSettings(s, t) && OnlyFlow(s, t, i)
      && t.newFlows == s.newFlows && t.oldFlows == s.oldFlows
      && t.flows[i].q == o.q && t.flows[i].deficit == Signed(s.flows[i].deficit - o.skb.value.len)
      && t.flows[i].dropped - s.flows[i].dropped == o.sh.dropCount - s.sh.dropCount + o.sh.ecnMark - s.sh.ecnMark
      && if o.sh.qlen != 0 then t.sh == o.sh.(dropCount := 0) && t.parent == s.parent - o.sh.dropCount
         else t.sh == o.sh && t.parent == s.parent
  {
    hide CodelDequeue;
  }

  /** A flow with credit that has nothing to send leaves its list. A new one goes to the end of old_flows if there
      are old flows, so that it cannot come back as a new one at once. */
  lemma IdleExact(s: Sched, i: nat, o: Out)
    requires Examined(s, i) && s.flows[i].deficit > 0
    requires o == CodelDequeue(s.sh, s.flows[i].q, s.params, s.clock) && o.skb.None?
    ensures var t := Pass(s).s;
      && !Pass(s).done && Pass(s).skb == None && SameSettings(s, t) && OnlyFlow(s, t, i)
      && t.sh == o.sh && t.parent == s.parent
      && t.flows[i].q == o.q && t.flows[i].deficit == s.flows[i].deficit
      && t.flows[i].dropped - s.flows[i].dropped == o.sh.dropCount - s.sh.dropCount + o.sh.ecnMark - s.sh.ecnMark
      && if s.newFlows != [] && s.oldFlows != [] then
           t.newFlows == s.newFlows[1..] && t.oldFlows == s.oldFlows + [i]
         else Unlinked(s, t.newFlows, t.oldFlows)
  {
    hide CodelDequeue;
  }

  /** Without listed flows the call returns nothing. */
  lemma NothingExact(s: Sched)
    ensures s.newFlows == [] == s.oldFlows ==> Pass(s) == Trip(true, None, s)
  {
    hide CodelDequeue;
  }

  // ---------------------------------------------------------------- refusals and classification

  /** A packet that is not queued counts as a drop iff the classifier asks for the bypass. */
  lemma RefusedEffect(s: Sched, bypass: bool, pkt: Packet)
    ensures var a := Enqueue(s, Refused(bypass), pkt);
      && a.ret == NotQueued(bypass) && a.s.(sh := s.sh) == s
      && a.s.sh == s.sh.(drops := s.sh.drops + if bypass then 1 else 0)
  {}

  /** A valid minor number in the packet's priority names the flow, counted from one; otherwise without a classifier
      the hash is spread evenly, flow f getting the hashes from f 2^32 / cnt up to the next flow's; otherwise the
      classifier names a flow, and without a valid one the packet is not queued. */
  lemma ClassExact(prio: Option<nat>, filter: Filter, hash: u32, cnt: nat)
    requires cnt >= 1
    ensures var c := Classify(prio, filter, hash, cnt);
      if prio.Some? && 1 <= prio.value <= cnt then c == Into(prio.value - 1)
      else match filter
        case NoFilter => c.Into? && c.flow * TWO32 <= hash * cnt < (c.flow + 1) * TWO32
        case Matched(minor) => c == if 1 <= minor <= cnt then Into(minor - 1) else Refused(true)
        case Stolen => c == Refused(false)
        case _ => c == Refused(true)
  {}

  // ---------------------------------------------------------------- set-up and reconfiguration

  /** A fresh qdisc: empty flows with all CoDel variables zero, on no list, nothing counted, and a largest packet
      of 256 bytes. */
  lemma InitExact(cnt: nat, quantum: u32, limit: nat, params: Params, clock: nat)
    ensures var s := Init(cnt, quantum, limit, params, clock);
      && |s.flows| == cnt && s.newFlows == [] == s.oldFlows
      && s.quantum == quantum && s.limit == limit && s.params == params && s.clock == clock
      && s.sh == Shared(0, 0, 0, 256, 0, 0) && s.overlimit == 0 == s.newFlowCount && s.parent == 0
      && forall i :: 0 <= i < cnt ==>
           var f := s.flows[i];
           && f.q.pkts == [] && f.q.bytes == 0 && f.q.vars == Vars(0, 0, false, 0, 0, 0, 0) && f.q.log == []
           && f.deficit == 0 && f.dropped == 0
  {}

  /** Reconfiguring sets what is given, a quantum at least to 256, and dequeues packets only as long as there are
      more than the new limit; all drops are reported. */
  lemma {:induction false} TrimExact(s: Sched, ticks: nat -> Ticks, k: nat)
    requires Live(s)
    ensures var t := Trim(s, ticks, k); t.quantum == s.quantum && t.params == s.params && t.limit == s.limit
    ensures s.sh.qlen <= s.limit ==> Trim(s, ticks, k) == s
    decreases Packets(s)
  {
    hide Discard, Valid;
    if s.sh.qlen > s.limit {
      QlenNonNeg(s);
      DiscardSettings(s, ticks(k));
      DiscardKeeps(s, ticks(k));
      TrimExact(Discard(s, ticks(k)), ticks, k + 1);
    }
  }

  lemma {:induction false} DequeueSettings(s: Sched, ticks: Ticks, k: nat)
    requires Live(s)
    ensures var t := Dequeue(s, ticks, k).s; t.quantum == s.quantum && t.params == s.params && t.limit == s.limit
    decreases Packets(s), |s.newFlows| + |s.oldFlows|, Debt(s), |s.newFlows|
  {
    LateKeeps(s, ticks(k));
    LateSettings(s, ticks(k));
    var p := LatePass(s, ticks(k));
    hide LatePass, Valid;
    if !p.done { DequeueSettings(p.s, ticks, k + 1); }
  }

  lemma LateSettings(s: Sched, dt: nat)
    requires Valid(s)
    ensures LatePass(s, dt).s.params == s.params
  {
    hide CodelDequeue, QueueOk;
    TickKeeps(s, dt);
    PassKeeps(Late(s, dt));
  }

  lemma DiscardSettings(s: Sched, ticks: Ticks)
    requires Live(s) && s.sh.qlen > 0
    ensures var t := Discard(s, ticks); t.quantum == s.quantum && t.params == s.params && t.limit == s.limit
  {
    DequeueSettings(s, ticks, 0);
    hide Dequeue, Valid;
  }

  lemma ChangeExact(s: Sched, params: Params, limit: nat, quantum: Option<u32>, turns: nat -> Ticks)
    requires Live(s) && quantum != Some(TWO31)
    ensures var t := Change(s, params, limit, quantum, turns);
      && t.params == params && t.limit == limit && t.sh.dropCount == 0
      && t.quantum == (match quantum case None => s.quantum case Some(q) => if q < 256 then 256 else q)
      && (s.sh.qlen <= limit ==>
            t.flows == s.flows && t.newFlows == s.newFlows && t.oldFlows == s.oldFlows && t.clock == s.clock &&
            t.sh == s.sh.(dropCount := 0) && t.parent == s.parent - s.sh.dropCount)
  {
    var c := Configured(s, params, limit, quantum);
    ConfiguredKeeps(s, params, limit, quantum);
    TrimExact(c, turns, 0);
    hide Trim, Valid;
  }

  // ---------------------------------------------------------------- what is handed out for good

  /** Every flow has handed out what it had before, and flow i the packets of more besides. */
  ghost predicate HandsOut(s: Sched, t: Sched, i: nat, more: seq<Packet>) {
    |t.flows| == |s.flows| && forall j :: 0 <= j < |s.flows| ==>
      Handed(t.flows[j].q.log) == Handed(s.flows[j].q.log) + if j == i then more else []
  }

  /** A trip hands out exactly the packet it returns. */
  lemma LateHands(s: Sched, dt: nat)
    requires Valid(s)
    ensures var t := LatePass(s, dt);
      HandsOut(s, t.s, if t.skb.Some? && Busy(t.s) then Head(t.s) else 0, Hand(t.skb))
  {
    hide Pass, Valid, Handed;
    LateKeeps(s, dt);
    TickKeeps(s, dt);
    PassHands(Late(s, dt));
  }

  lemma PassHands(s: Sched)
    requires Valid(s)
    ensures Busy(s) ==> Head(s) < |s.flows|
    ensures var t := Pass(s);
      HandsOut(s, t.s, if t.skb.Some? && Busy(t.s) then Head(t.s) else 0, Hand(t.skb))
  {
    if !Busy(s) {
      NothingExact(s);
    } else {
      HeadListed(s);
      var i := Head(s);
      var q := s.flows[i].q;
      assert QueueOk(None, q, s.clock);
      hide Pass, Valid, Handed, QueueOk, CodelDequeue, Unlinked, HandsOut;
      NothingMore(Handed(q.log));
      if s.flows[i].deficit <= 0 {
        RefillExact(s, i);
        RefillHands(s, i);
      } else {
        CodelDequeueKeeps(s.sh, q, s.params, s.clock);
        var o := CodelDequeue(s.sh, q, s.params, s.clock);
        if o.skb.Some? { SendExact(s, i, o); } else { IdleExact(s, i, o); }
        FlowHands(s, Pass(s).s, i, Hand(o.skb));
      }
    }
  }

  lemma RefillHands(s: Sched, i: nat)
    requires Examined(s, i) && s.flows[i].deficit <= 0
    ensures HandsOut(s, Pass(s).s, 0, [])
  {
    hide Handed, CodelDequeue;
    LogGrows(s.flows[i].q.log, Event.Refilled);
    NothingMore(Handed(s.flows[i].q.log));
  }

  lemma FlowHands(s: Sched, t: Sched, i: nat, more: seq<Packet>)
    requires OnlyFlow(s, t, i) && Handed(t.flows[i].q.log) == Handed(s.flows[i].q.log) + more
    ensures HandsOut(s, t, i, more) && (more == [] ==> HandsOut(s, t, 0, more))
  {
    hide Handed;
  }

  lemma NothingMore(ps: seq<Packet>)
    ensures ps + [] == ps
  {}

  lemma {:induction false} DequeueHands(s: Sched, ticks: Ticks, k: nat)
    requires Live(s)
    ensures var t := Dequeue(s, ticks, k);
      HandsOut(s, t.s, if t.skb.Some? && Busy(t.s) then Head(t.s) else 0, Hand(t.skb))
    decreases Packets(s), |s.newFlows| + |s.oldFlows|, Debt(s), |s.newFlows|
  {
    hide LatePass, Valid, Handed;
    LateKeeps(s, ticks(k));
    LateHands(s, ticks(k));
    var p := LatePass(s, ticks(k));
    if !p.done { DequeueHands(p.s, ticks, k + 1); }
  }

  /** A packet that is dequeued to be freed is handed out by no flow. */
  lemma DiscardHands(s: Sched, ticks: Ticks)
    requires Live(s) && s.sh.qlen > 0
    ensures HandsOut(s, Discard(s, ticks), 0, [])
  {
    hide Valid, Dequeue, Handed;
    DequeueKeeps(s, ticks, 0);
    DequeueHands(s, ticks, 0);
    var t := Dequeue(s, ticks, 0);
    var i := Head(t.s);
    TakenBack(t.s.flows[i].q.log, t.skb.value, Handed(s.flows[i].q.log));
  }

  lemma TakenBack(log: seq<Event>, p: Packet, before: seq<Packet>)
    requires EndsDelivered(log, p) && Handed(log) == before + [p]
    ensures Handed(log + [Freed(p)]) == before
  {
    var init := log[..|log| - 1];
    assert log == init + [Delivered(p)];
    HandedGrows(init, Delivered(p));
    HandedFreed(init, p);
    assert (before + [p])[..|before|] == before && (Handed(init) + [p])[..|Handed(init)|] == Handed(init);
  }

  /** The whole of a reconfiguration hands out nothing: what it dequeues is lost. */
  lemma {:induction false} TrimHands(s: Sched, ticks: nat -> Ticks, k: nat)
    requires Live(s)
    ensures HandsOut(s, Trim(s, ticks, k), 0, [])
    decreases Packets(s)
  {
    hide Discard, Valid, Handed;
    if s.sh.qlen > s.limit {
      QlenNonNeg(s);
      DiscardKeeps(s, ticks(k));
      DiscardHands(s, ticks(k));
      TrimHands(Discard(s, ticks(k)), ticks, k + 1);
    }
  }

  lemma ChangeHands(s: Sched, params: Params, limit: nat, quantum: Option<u32>, turns: nat -> Ticks)
    requires Live(s) && quantum != Some(TWO31)
    ensures HandsOut(s, Change(s, params, limit, quantum, turns), 0, [])
  {
    var c := Configured(s, params, limit, quantum);
    ConfiguredKeeps(s, params, limit, quantum);
    TrimHands(c, turns, 0);
    hide Trim, Valid, Handed;
  }

  /** A dequeue hands out the packet it returns, once, from one flow, and no other. */
  lemma DequeueCallHands(s: Sched, ticks: Ticks)
    requires Live(s)
    ensures var t := DequeueCall(s, ticks);
      HandsOut(s, t.s, if t.skb.Some? && Busy(t.s) then Head(t.s) else 0, Hand(t.skb))
  {
    DequeueHands(s, ticks, 0);
    hide Dequeue, Handed;
  }
}
