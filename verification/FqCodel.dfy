/** The FQ-CoDel scheduler (compat/sch_fq_codel_core.c) as functions on values.

    Pass is one trip from the label "begin:" of fq_codel_dequeue; Dequeue repeats it until
    the function returns. parent is the queue length as the parent qdisc counts it. */
module FqCodel {
  import opened Wrappers
  import opened Newton
  import opened Codel
  import opened CodelProofs
  import opened Words

  datatype Flow = Flow(q: Queue, deficit: s32, dropped: int)

  datatype Sched = Sched(flows: seq<Flow>, newFlows: seq<nat>, oldFlows: seq<nat>,
                         quantum: u32, limit: nat, params: Params, sh: Shared,
                         overlimit: nat, newFlowCount: nat, parent: int, clock: nat)

  /** fq_codel_classify: a flow, or nothing together with the bypass flag of qerr. */
  datatype Class = Into(flow: nat) | Refused(bypass: bool)

  /** The outcome of tc_classify on the optional external classifier. */
  datatype Filter = NoFilter | Matched(minor: nat) | NoMatch | ShotDown | Stolen

  datatype Ret = Success | Congested | NotQueued(bypass: bool)

  // ---------------------------------------------------------------- classification

  /** fq_codel_hash scales a 32-bit hash to a flow number. */
  function HashFlow(hash: u32, cnt: nat): nat { hash * cnt / TWO32 }

  /** prio is the minor number of skb->priority when its major number names this qdisc. */
  function Classify(prio: Option<nat>, filter: Filter, hash: u32, cnt: nat): Class {
    if prio.Some? && 0 < prio.value <= cnt then Into(prio.value - 1)
    else
      match filter
      case NoFilter => Into(HashFlow(hash, cnt))
      case Matched(minor) => if 0 < minor <= cnt then Into(minor - 1) else Refused(true)
      case NoMatch => Refused(true)
      case ShotDown => Refused(true)
      case Stolen => Refused(false)
  }

  /** Whatever the hash and the classifier say, a packet goes to an existing flow; without priority
      and classifier it always goes to one. */
  lemma ClassInRange(prio: Option<nat>, filter: Filter, hash: u32, cnt: nat)
    requires cnt >= 1
    ensures var c := Classify(prio, filter, hash, cnt);
      (c.Into? ==> c.flow < cnt) && (filter.NoFilter? ==> c.Into?)
  {
    ScaleDown(hash, cnt);
  }

  lemma ScaleDown(hash: u32, cnt: nat)
    requires cnt >= 1
    ensures HashFlow(hash, cnt) < cnt
  {
    var rest := TWO32 - hash;
    assert rest >= 1 && rest * cnt >= 1;
    assert hash * cnt + rest * cnt == TWO32 * cnt by { assert (hash + rest) * cnt == TWO32 * cnt; }
  }

  // ---------------------------------------------------------------- enqueue

  predicate Listed(s: Sched, i: nat) { i in s.newFlows || i in s.oldFlows }

  function SetFlow(s: Sched, i: nat, f: Flow): Sched
    requires i < |s.flows|
  {
    s.(flows := s.flows[i := f])
  }

  /** The scan of fq_codel_drop over the first n flows: largest backlog so far, its index. */
  function FatScan(flows: seq<Flow>, n: nat): (best: (int, nat))
    requires n <= |flows|
    ensures n > 0 ==> best.1 < n
  {
    if n == 0 then (0, 0)
    else
      var best := FatScan(flows, n - 1);
      if flows[n - 1].q.bytes > best.0 then (flows[n - 1].q.bytes, n - 1) else best
  }

  /** fq_codel_drop on flow i: drop its head packet. (EvictSafe: the queue is never empty.) */
  function Evict(s: Sched, i: nat): Sched
    requires i < |s.flows|
  {
    var f := s.flows[i];
    if f.q.pkts == [] then s else
    var p := f.q.pkts[0];
    var q := f.q.(pkts := f.q.pkts[1..], bytes := f.q.bytes - p.len, log := f.q.log + [Evicted(p)]);
    SetFlow(s, i, f.(q := q, dropped := f.dropped + 1))
      .(sh := s.sh.(qlen := s.sh.qlen - 1, drops := s.sh.drops + 1, backlog := s.sh.backlog - p.len))
  }

  function Append(s: Sched, i: nat, pkt: Packet): Sched
    requires i < |s.flows|
  {
    var f := s.flows[i];
    var p := pkt.(enq := s.clock);
    var q := f.q.(pkts := f.q.pkts + [p], bytes := f.q.bytes + p.len, log := f.q.log + [Arrived(p)]);
    SetFlow(s, i, f.(q := q)).(sh := s.sh.(backlog := s.sh.backlog + p.len, qlen := s.sh.qlen + 1))
  }

  /** A flow on neither list becomes a new flow with fresh CoDel variables and a full quantum. */
  function ListIfNew(s: Sched, i: nat): Sched
    requires i < |s.flows|
  {
    if Listed(s, i) then s
    else
      var f := s.flows[i];
      SetFlow(s, i, Flow(f.q.(vars := VARS_INIT, log := f.q.log + [Restarted]), Signed(s.quantum), 0))
        .(newFlows := s.newFlows + [i], newFlowCount := s.newFlowCount + 1)
  }

  datatype Admission = Admission(ret: Ret, s: Sched)

  /** fq_codel_enqueue, with the parent counting NET_XMIT_SUCCESS. */
  function Enqueue(s: Sched, c: Class, pkt: Packet): Admission
    requires c.Into? ==> c.flow < |s.flows|
  {
    match c
    case Refused(bypass) =>
      Admission(NotQueued(bypass), if bypass then s.(sh := s.sh.(drops := s.sh.drops + 1)) else s)
    case Into(i) =>
      var t := ListIfNew(Append(s, i, pkt), i);
      if t.sh.qlen < t.limit then Admission(Success, t.(parent := t.parent + 1))
      else
        var fat := FatScan(t.flows, |t.flows|).1;
        var u := Evict(t.(overlimit := t.overlimit + 1), fat);
        if fat == i then Admission(Congested, u)
        else Admission(Success, u.(parent := u.parent - 1 + 1))
  }

  // ---------------------------------------------------------------- dequeue

  /** list_first_entry of new_flows, or of old_flows when new_flows is empty. */
  function Head(s: Sched): nat
    requires s.newFlows != [] || s.oldFlows != []
  {
    if s.newFlows != [] then s.newFlows[0] else s.oldFlows[0]
  }

  function Unlink(s: Sched): Sched
    requires s.newFlows != [] || s.oldFlows != []
  {
    if s.newFlows != [] then s.(newFlows := s.newFlows[1..]) else s.(oldFlows := s.oldFlows[1..])
  }

  /** list_move_tail of the examined flow to old_flows. */
  function Rotate(s: Sched): Sched
    requires s.newFlows != [] || s.oldFlows != []
  {
    Unlink(s).(oldFlows := Unlink(s).oldFlows + [Head(s)])
  }

  function Refill(s: Sched): Sched
    requires s.newFlows != [] || s.oldFlows != []
    requires Head(s) < |s.flows|
  {
    var i := Head(s);
    var f := s.flows[i];
    SetFlow(Rotate(s), i, f.(deficit := Signed(f.deficit + s.quantum), q := Log(f.q, Refilled)))
  }

  /** qdisc_tree_decrease_qlen, deferred while the queue is empty. */
  function Report(s: Sched): Sched {
    if s.sh.dropCount != 0 && s.sh.qlen != 0 then
      s.(parent := s.parent - s.sh.dropCount, sh := s.sh.(dropCount := 0))
    else s
  }

  /** What fq_codel_dequeue does once codel_dequeue has returned nothing. */
  function Retire(s: Sched): Sched
    requires s.newFlows != [] || s.oldFlows != []
  {
    if s.newFlows != [] && s.oldFlows != [] then Rotate(s) else Unlink(s)
  }

  function Charge(s: Sched, i: nat, len: nat): Sched
    requires i < |s.flows|
  {
    SetFlow(s, i, s.flows[i].(deficit := Signed(s.flows[i].deficit - len)))
  }

  /** The state after codel_dequeue has run on the examined flow. */
  function AfterCodel(s: Sched, i: nat, o: Out): Sched
    requires i < |s.flows|
  {
    var f := s.flows[i];
    SetFlow(s, i, Flow(o.q, f.deficit, f.dropped + (o.sh.dropCount - s.sh.dropCount) + (o.sh.ecnMark - s.sh.ecnMark)))
      .(sh := o.sh)
  }

  /** One trip from "begin:"; done says that fq_codel_dequeue returns skb. */
  datatype Trip = Trip(done: bool, skb: Option<Packet>, s: Sched)

  function Pass(s: Sched): Trip
    requires s.newFlows != [] || s.oldFlows != [] ==> Head(s) < |s.flows|
  {
    if s.newFlows == [] && s.oldFlows == [] then Trip(true, None, s)
    else
      var i := Head(s);
      if s.flows[i].deficit <= 0 then Trip(false, None, Refill(s))
      else
        var o := CodelDequeue(s.sh, s.flows[i].q, s.params, s.clock);
        var t := AfterCodel(s, i, o);
        if o.skb.None? then Trip(false, None, Retire(t))
        else Trip(true, o.skb, Report(Charge(t, i, o.skb.value.len)))
  }
}
