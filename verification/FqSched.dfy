/** compat/sch_fq_codel_core.c on objects: the flow table, the two lists and the counters,
    updated in place. The ghost field model is the value the object stands for; every method
    says which function of FqCodel and FqCalls takes the old value to the new one. */
module FqSched {
  import opened Wrappers
  import opened Newton
  import opened Codel
  import opened CodelProofs
  import opened CodelQueue
  import opened FqCodel
  import opened FqProofs
  import opened FqDeficit
  import opened Words
  import F = FqCalls

  ghost function FlowOf(f: PacketQueue): Flow
    reads f
  {
    Flow(f.View(), f.deficit, f.dropped)
  }

  /** The flow table, zeroed. */
  method NewFlows(cnt: nat) returns (fs: seq<PacketQueue>)
    ensures |fs| == cnt && fresh(fs)
    ensures forall j :: 0 <= j < cnt ==> FlowOf(fs[j]) == Flow(Queue([], 0, VARS_INIT, []), 0, 0)
    ensures forall j, k :: 0 <= j < k < cnt ==> fs[j] != fs[k]
  {
    fs := [];
    var i := 0;
    while i < cnt
      invariant 0 <= i <= cnt && |fs| == i && fresh(fs)
      invariant forall j :: 0 <= j < i ==> FlowOf(fs[j]) == Flow(Queue([], 0, VARS_INIT, []), 0, 0)
      invariant forall j, k :: 0 <= j < k < i ==> fs[j] != fs[k]
    {
      var f := new PacketQueue();
      fs := fs + [f];
      i := i + 1;
    }
  }

  class FqCodelQdisc {
    const flows: seq<PacketQueue>
    const sch: Qdisc
    var newFlows: seq<nat>
    var oldFlows: seq<nat>
    var quantum: u32
    var limit: nat
    var params: Params
    var overlimit: nat
    var newFlowCount: nat
    /** The length of this qdisc as its parent counts it; qdisc_tree_decrease_qlen lowers it. */
    var parent: int
    /** The time as last read; it only moves forward. */
    var clock: nat
    ghost var model: Sched

    ghost predicate Matches()
      reads this, sch, flows
    {
      && (forall i, j :: 0 <= i < j < |flows| ==> flows[i] != flows[j])
      && |model.flows| == |flows|
      && (forall i :: 0 <= i < |flows| ==> model.flows[i] == FlowOf(flows[i]))
      && model.newFlows == newFlows && model.oldFlows == oldFlows
      && model.quantum == quantum && model.limit == limit && model.params == params
      && model.sh == sch.View() && model.overlimit == overlimit && model.newFlowCount == newFlowCount
      && model.parent == parent && model.clock == clock
    }

    ghost predicate Good()
      reads this, sch, flows
    {
      Matches() && F.Live(model)
    }

    /** fq_codel_init. */
    constructor (cnt: nat, quantum: u32, limit: nat, params: Params, clock: nat)
      requires GoodQuantum(quantum)
      ensures Good() && fresh(sch) && fresh(flows)
      ensures model == F.Init(cnt, quantum, limit, params, clock)
    {
      hide Valid;
      var fs := NewFlows(cnt);
      var s := new Qdisc();
      flows, sch := fs, s;
      newFlows, oldFlows := [], [];
      this.quantum, this.limit, this.params := quantum, limit, params;
      overlimit, newFlowCount, parent := 0, 0, 0;
      this.clock := clock;
      model := F.Init(cnt, quantum, limit, params, clock);
      new;
      F.InitSound(cnt, quantum, limit, params, clock);
    }

    /** The scan of fq_codel_drop. */
    method FindFattest() returns (idx: nat)
      requires Matches()
      ensures idx == FatScan(model.flows, |model.flows|).1
    {
      var maxbacklog := 0;
      idx := 0;
      var i := 0;
      while i < |flows|
        invariant 0 <= i <= |flows|
        invariant (maxbacklog, idx) == FatScan(model.flows, i)
      {
        assert model.flows[i] == FlowOf(flows[i]);
        if flows[i].bytes > maxbacklog {
          maxbacklog, idx := flows[i].bytes, i;
        }
        i := i + 1;
      }
    }

    /** The head drop of fq_codel_drop. */
    method DropHead(idx: nat)
      requires Matches() && idx < |flows| && model.flows[idx].q.pkts != []
      modifies this`model, sch, flows[idx]
      ensures Matches() && model == Evict(old(model), idx)
    {
      var f := flows[idx];
      assert model.flows[idx] == FlowOf(f);
      var p := f.pkts[0];
      f.pkts := f.pkts[1..];
      f.bytes := f.bytes - p.len;
      sch.qlen := sch.qlen - 1;
      sch.drops := sch.drops + 1;
      sch.backlog := sch.backlog - p.len;
      f.dropped := f.dropped + 1;
      f.log := f.log + [Evicted(p)];
      model := Evict(model, idx);
    }

    /** fq_codel_drop. */
    method Drop() returns (idx: nat)
      requires Good() && model.sh.qlen > 0
      modifies this`model, sch, flows
      ensures Good() && idx < |flows|
      ensures idx == FatScan(old(model).flows, |old(model).flows|).1
      ensures model == Evict(old(model), idx)
    {
      hide Evict;
      idx := FindFattest();
      F.EvictSafe(model);
      F.EvictKeeps(model, idx);
      hide Valid;
      DropHead(idx);
    }

    /** ktime_get. */
    method ReadClock(dt: nat)
      requires Good()
      modifies this`model, this`clock
      ensures Good() && model == F.Late(old(model), dt)
    {
      F.TickKeeps(model, dt);
      hide Valid;
      clock := clock + dt;
      model := F.Late(model, dt);
    }

    /** Stamp the packet, append it to the flow and count it. */
    method AddTail(idx: nat, pkt: Packet)
      requires Matches() && idx < |flows|
      modifies this`model, sch`qlen, sch`backlog, flows[idx]
      ensures Matches() && model == Append(old(model), idx, pkt)
    {
      var f := flows[idx];
      assert model.flows[idx] == FlowOf(f);
      var p := pkt.(enq := clock);
      f.pkts := f.pkts + [p];
      f.bytes := f.bytes + p.len;
      f.log := f.log + [Arrived(p)];
      sch.backlog := sch.backlog + p.len;
      sch.qlen := sch.qlen + 1;
      model := Append(model, idx, pkt);
    }

    /** Put an unlisted flow on new_flows. */
    method ListNew(idx: nat)
      requires Matches() && idx < |flows|
      modifies this`model, this`newFlows, this`newFlowCount, flows[idx]
      ensures Matches() && model == ListIfNew(old(model), idx)
    {
      var f := flows[idx];
      assert model.flows[idx] == FlowOf(f);
      ghost var target := ListIfNew(model, idx);
      if idx !in newFlows && idx !in oldFlows {
        newFlows := newFlows + [idx];
        f.vars := VARS_INIT;
        f.log := f.log + [Restarted];
        newFlowCount := newFlowCount + 1;
        f.deficit := Signed(quantum);
        f.dropped := 0;
      }
      model := target;
    }

    /** The packet is in: appended, and its flow on a list. */
    method Admit(idx: nat, pkt: Packet)
      requires Good() && idx < |flows| && pkt.len >= 1
      modifies this`model, this`newFlows, this`newFlowCount, sch`qlen, sch`backlog, flows[idx]
      ensures Good() && model == F.Queued(old(model), idx, pkt)
    {
      hide Append, ListIfNew, Valid;
      F.QueuedKeeps(model, idx, pkt);
      AddTail(idx, pkt);
      ListNew(idx);
    }

    /** The queue is over its limit: the fattest flow pays. */
    method Overflow(idx: nat) returns (ret: Ret)
      requires Good() && idx < |flows| && model.sh.qlen > 0
      modifies this`model, this`overlimit, this`parent, sch, flows
      ensures Good() && model == F.EvictFat(old(model))
      ensures ret == if FatScan(old(model).flows, |old(model).flows|).1 == idx then Congested else Success
    {
      hide Evict, Valid;
      CountOverlimit();
      var victim := Drop();
      if victim == idx { return Congested; }
      parent := parent - 1; // qdisc_tree_decrease_qlen
      parent := parent + 1; // the parent counts NET_XMIT_SUCCESS
      ret := Success;
    }

    method CountOverlimit()
      requires Good()
      modifies this`model, this`overlimit
      ensures Good() && model == old(model).(overlimit := old(model).overlimit + 1)
    {
      hide Valid;
      F.BumpKeeps(model);
      overlimit := overlimit + 1;
      model := model.(overlimit := overlimit);
    }

    /** The parent counts NET_XMIT_SUCCESS. */
    method CountSuccess()
      requires Good()
      modifies this`model, this`parent
      ensures Good() && model == old(model).(parent := old(model).parent + 1)
    {
      F.ValidFrame(model, model.(parent := parent + 1));
      hide Valid;
      parent := parent + 1;
      model := model.(parent := parent);
    }

    method CountRefused(bypass: bool)
      requires Good()
      modifies this`model, sch`drops
      ensures Good() && model == FqCodel.Enqueue(old(model), Refused(bypass), Packet(0, 1, 0, false)).s
    {
      ghost var s := FqCodel.Enqueue(model, Refused(bypass), Packet(0, 1, 0, false)).s;
      F.ValidFrame(model, s);
      hide Valid;
      if bypass { sch.drops := sch.drops + 1; }
      model := s;
    }

    /** fq_codel_enqueue of a classified packet, dt ticks after the clock was last read. */
    method Enqueue(c: Class, pkt: Packet, dt: nat) returns (ret: Ret)
      requires Good() && pkt.len >= 1 && (c.Into? ==> c.flow < |flows|)
      modifies this, sch, flows
      ensures Good()
      ensures Admission(ret, model) == FqCodel.Enqueue(F.Late(old(model), dt), c, pkt)
    {
      hide Valid, Matches, F.Queued, F.EvictFat;
      ReadClock(dt);
      ghost var s := model;
      match c
      case Refused(bypass) =>
        CountRefused(bypass);
        ret := NotQueued(bypass);
      case Into(idx) =>
        Mirror();
        F.QueuedCounts(s, idx, pkt);
        F.AdmissionIs(s, idx, pkt);
        Admit(idx, pkt);
        hide FqCodel.Enqueue;
        Mirror();
        if sch.qlen < limit {
          CountSuccess();
          ret := Success;
        } else {
          ret := Overflow(idx);
        }
    }

    lemma Mirror()
      requires Matches()
      ensures sch.qlen == model.sh.qlen && limit == model.limit && |flows| == |model.flows|
    {}
  
    /** The examined flow gets a quantum and moves to the tail of old_flows. */
    method RefillHead()
      requires Matches() && (newFlows != [] || oldFlows != []) && Head(model) < |flows|
      modifies this`model, this`newFlows, this`oldFlows, flows[Head(model)]
      ensures Matches() && model == Refill(old(model))
    {
      var i := if newFlows != [] then newFlows[0] else oldFlows[0];
      var f := flows[i];
      ghost var target := Refill(model);
      assert model.flows[i] == FlowOf(f);
      f.deficit := Signed(f.deficit + quantum);
      f.log := f.log + [Refilled];
      if newFlows != [] { newFlows := newFlows[1..]; } else { oldFlows := oldFlows[1..]; }
      oldFlows := oldFlows + [i];
      model := target;
    }

    /** Run CoDel on flow i and count its drops and marks. */
    method RunCodel(i: nat) returns (skb: Option<Packet>)
      requires Matches() && i < |flows|
      modifies this`model, sch, flows[i]
      ensures Matches()
      ensures var o := CodelDequeue(old(model).sh, old(model).flows[i].q, old(model).params, clock);
        skb == o.skb && model == AfterCodel(old(model), i, o)
    {
      hide CodelDequeue;
      var f := flows[i];
      assert model.flows[i] == FlowOf(f);
      ghost var o := CodelDequeue(sch.View(), f.View(), params, clock);
      var prevDrop, prevMark := sch.dropCount, sch.ecnMark;
      skb := f.Dequeue(sch, params, clock);
      f.dropped := f.dropped + (sch.dropCount - prevDrop);
      f.dropped := f.dropped + (sch.ecnMark - prevMark);
      model := AfterCodel(model, i, o);
    }

    /** The flow had nothing to send. */
    method RetireHead()
      requires Matches() && (newFlows != [] || oldFlows != [])
      modifies this`model, this`newFlows, this`oldFlows
      ensures Matches() && model == Retire(old(model))
    {
      ghost var target := Retire(model);
      if newFlows != [] && oldFlows != [] {
        var i := newFlows[0];
        newFlows := newFlows[1..];
        oldFlows := oldFlows + [i];
      } else if newFlows != [] {
        newFlows := newFlows[1..];
      } else {
        oldFlows := oldFlows[1..];
      }
      model := target;
    }

    /** Charge the packet to the flow and report deferred drops to the parent. */
    method Finish(i: nat, pkt: Packet)
      requires Matches() && i < |flows|
      modifies this`model, this`parent, sch`dropCount, flows[i]
      ensures Matches() && model == Report(Charge(old(model), i, pkt.len))
    {
      var f := flows[i];
      assert model.flows[i] == FlowOf(f);
      ghost var target := Report(Charge(model, i, pkt.len));
      f.deficit := Signed(f.deficit - pkt.len);
      if sch.dropCount != 0 && sch.qlen != 0 {
        parent := parent - sch.dropCount;
        sch.dropCount := 0;
      }
      model := target;
    }

    /** One trip from "begin:". */
    method Trip1() returns (done: bool, skb: Option<Packet>)
      requires Good()
      modifies this, sch, flows
      ensures Good()
      ensures Trip(done, skb, model) == F.PassOf(old(model))
    {
      hide Valid, CodelDequeue, Refill, Retire, AfterCodel, Report, Charge;
      PassKeeps(model);
      if newFlows == [] && oldFlows == [] { return true, None; }
      var i := if newFlows != [] then newFlows[0] else oldFlows[0];
      assert model.flows[i] == FlowOf(flows[i]);
      if flows[i].deficit <= 0 {
        RefillHead();
        return false, None;
      }
      ghost var s := model;
      skb := RunCodel(i);
      AfterSame(s, i, CodelDequeue(s.sh, s.flows[i].q, s.params, s.clock));
      if skb.None? {
        RetireHead();
        return false, None;
      }
      Finish(i, skb.value);
      done := true;
    }

    /** fq_codel_dequeue; ticks(k) passes before the k-th trip reads the clock. */
    method Dequeue(ticks: nat -> nat) returns (skb: Option<Packet>)
      requires Good()
      modifies this, sch, flows
      ensures Good()
      ensures F.Dequeue(old(model), ticks, 0) == Trip(true, skb, model)
    {
      hide Valid, Matches, Pass;
      ghost var goal := F.Dequeue(model, ticks, 0);
      var done, k := false, 0;
      skb := None;
      while !done
        invariant Good() && k >= 0
        invariant if done then Trip(true, skb, model) == goal else F.Dequeue(model, ticks, k) == goal
        decreases !done, Packets(model), |model.newFlows| + |model.oldFlows|, Debt(model), |model.newFlows|
      {
        F.LateKeeps(model, ticks(k));
        ReadClock(ticks(k));
        done, skb := Trip1();
        k := k + 1;
      }
    }

    /** Dequeue a packet and free it, counting a drop. */
    method DiscardOne(ticks: nat -> nat)
      requires Good() && model.sh.qlen > 0
      modifies this, sch, flows
      ensures Good() && model == F.Discard(old(model), ticks)
    {
      hide Valid, F.Dequeue, Matches;
      F.DequeueKeeps(model, ticks, 0);
      var skb := Dequeue(ticks);
      F.FreeKeeps(model, skb.value);
      Mirror();
      CountFreed(Head(model), skb.value);
    }

    /** The packet that flow i just delivered is gone. */
    method CountFreed(ghost i: nat, ghost p: Packet)
      requires Matches() && F.JustSent(model, p) && i == Head(model) < |flows|
      modifies this`model, sch`dropCount, flows[i]
      ensures Matches() && model == F.Free(old(model), p)
    {
      hide EndsDelivered;
      ghost var f := flows[i];
      assert model.flows[i] == FlowOf(f);
      sch.dropCount := sch.dropCount + 1;
      f.log := f.log + [Freed(p)];
      model := F.Free(model, p);
    }

    /** fq_codel_change once the attributes are parsed; turns(k) is what the clock does in the k-th dequeue. */
    method Change(newParams: Params, newLimit: nat, newQuantum: Option<u32>, turns: nat -> nat -> nat)
      requires Good() && newQuantum != Some(TWO31)
      modifies this, sch, flows
      ensures Good()
      ensures model == F.Change(old(model), newParams, newLimit, newQuantum, turns)
    {
      hide Valid, F.Discard, Matches;
      F.ChangeKeeps(model, newParams, newLimit, newQuantum, turns);
      ghost var target := F.Change(model, newParams, newLimit, newQuantum, turns);
      F.ConfiguredKeeps(model, newParams, newLimit, newQuantum);
      Configure(newParams, newLimit, newQuantum);
      ghost var goal := F.Trim(model, turns, 0);
      var k := 0;
      Mirror();
      while sch.qlen > limit
        invariant Good() && k >= 0
        invariant F.Trim(model, turns, k) == goal && sch.qlen == model.sh.qlen && limit == model.limit
        decreases Packets(model)
      {
        F.DiscardKeeps(model, turns(k));
        DiscardOne(turns(k));
        k := k + 1;
        Mirror();
      }
      ReportAll();
      assert model == target;
    }

    method Configure(newParams: Params, newLimit: nat, newQuantum: Option<u32>)
      requires Matches()
      modifies this`model, this`params, this`limit, this`quantum
      ensures Matches() && model == F.Configured(old(model), newParams, newLimit, newQuantum)
    {
      params := newParams;
      limit := newLimit;
      if newQuantum.Some? { quantum := Max(256, newQuantum.value); }
      model := F.Configured(model, newParams, newLimit, newQuantum);
    }

    /** qdisc_tree_decrease_qlen with all deferred drops. */
    method ReportAll()
      requires Matches()
      modifies this`model, this`parent, sch`dropCount
      ensures Matches()
      ensures model == old(model).(parent := old(model).parent - old(model).sh.dropCount,
                                   sh := old(model).sh.(dropCount := 0))
    {
      ghost var target := model.(parent := model.parent - model.sh.dropCount, sh := model.sh.(dropCount := 0));
      parent := parent - sch.dropCount;
      sch.dropCount := 0;
      model := target;
    }
  }

  lemma AfterSame(s: Sched, i: nat, o: Out)
    requires i < |s.flows|
    ensures var t := AfterCodel(s, i, o);
      t.newFlows == s.newFlows && t.oldFlows == s.oldFlows && |t.flows| == |s.flows|
  {}
}
