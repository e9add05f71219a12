/** compat/sch_codel.c: one queue under CoDel, first as functions on values, then on objects. */
module CodelQdisc {
  import opened Wrappers
  import opened Newton
  import opened Codel
  import opened CodelProofs
  import opened CodelQueue

  datatype Single = Single(q: Queue, sh: Shared, params: Params, limit: nat, overlimit: nat, parent: int, clock: nat)

  /** The counters of the qdisc are those of its only queue. */
  ghost predicate Valid(s: Single) {
    && QueueOk(None, s.q, s.clock) && s.sh.qlen == |s.q.pkts| && s.sh.backlog == Bytes(s.q.pkts)
    && s.sh.maxpacket >= 1
  }

  ghost predicate Sound(s: Single) {
    Valid(s) && s.sh.qlen <= s.limit && s.parent == s.sh.qlen + s.sh.dropCount
  }

  datatype Call = Tick(dt: nat) | Enq(pkt: Packet) | Deq | Cfg(params: Params, limit: nat)

  // ---------------------------------------------------------------- operations

  /** codel_qdisc_enqueue: a full queue refuses the packet. */
  function Enqueue(s: Single, pkt: Packet): (bool, Single) {
    if s.sh.qlen < s.limit then
      var p := pkt.(enq := s.clock);
      (true, s.(q := s.q.(pkts := s.q.pkts + [p], bytes := s.q.bytes + p.len, log := s.q.log + [Arrived(p)]),
                sh := s.sh.(qlen := s.sh.qlen + 1, backlog := s.sh.backlog + p.len), parent := s.parent + 1))
    else
      (false, s.(overlimit := s.overlimit + 1, sh := s.sh.(drops := s.sh.drops + 1)))
  }

  function Report(s: Single): Single {
    if s.sh.dropCount != 0 && s.sh.qlen != 0 then
      s.(parent := s.parent - s.sh.dropCount, sh := s.sh.(dropCount := 0))
    else s
  }

  /** codel_qdisc_dequeue; the parent counts the packet it gets. */
  function Dequeue(s: Single): (Option<Packet>, Single) {
    var o := CodelDequeue(s.sh, s.q, s.params, s.clock);
    (o.skb, Report(s.(q := o.q, sh := o.sh)).(parent := Report(s.(q := o.q, sh := o.sh)).parent - |Hand(o.skb)|))
  }

  /** One turn of the loop of codel_change: the head packet is dropped. */
  function DropHead(s: Single): Single
    requires s.q.pkts != []
  {
    var p := s.q.pkts[0];
    s.(q := s.q.(pkts := s.q.pkts[1..], bytes := s.q.bytes - p.len, log := s.q.log + [Evicted(p)]),
       sh := s.sh.(qlen := s.sh.qlen - 1, backlog := s.sh.backlog - p.len, drops := s.sh.drops + 1))
  }

  function Trim(s: Single): Single
    requires s.sh.qlen == |s.q.pkts|
    decreases |s.q.pkts|
  {
    if s.sh.qlen > s.limit then Trim(DropHead(s)) else s
  }

  function Change(s: Single, params: Params, limit: nat): Single
    requires s.sh.qlen == |s.q.pkts|
  {
    var t := Trim(s.(params := params, limit := limit));
    t.(parent := t.parent - (s.sh.qlen - t.sh.qlen))
  }

  // ---------------------------------------------------------------- every run

  /** Below the limit the packet becomes the last of the queue; otherwise it is refused and counted. */
  lemma EnqueueKeeps(s: Single, pkt: Packet)
    requires Sound(s) && pkt.len >= 1
    ensures Sound(Enqueue(s, pkt).1)
    ensures Enqueue(s, pkt).0 <==> s.sh.qlen < s.limit
    ensures var t := Enqueue(s, pkt).1;
      && t.q.vars == s.q.vars && t.params == s.params && t.limit == s.limit && t.clock == s.clock
      && if s.sh.qlen < s.limit then
           && t.q.pkts == s.q.pkts + [pkt.(enq := s.clock)] && t.parent == s.parent + 1 && t.overlimit == s.overlimit
           && t.sh == s.sh.(qlen := s.sh.qlen + 1, backlog := s.sh.backlog + pkt.len)
         else
           && t.q == s.q && t.parent == s.parent && t.overlimit == s.overlimit + 1
           && t.sh == s.sh.(drops := s.sh.drops + 1)
  {
    hide QueueOk;
    if s.sh.qlen < s.limit { AppendQueue(s.q, pkt.(enq := s.clock), s.clock); }
  }

  /** Work conservation: a packet comes back exactly when one is queued. It and the new queue are CoDel's. If others
      are still queued, all drops are reported; otherwise none are, and the parent counts just the packet. */
  lemma DequeueKeeps(s: Single)
    requires Sound(s)
    ensures Sound(Dequeue(s).1)
    ensures Dequeue(s).0.Some? <==> s.sh.qlen > 0
    ensures var t, o := Dequeue(s).1, CodelDequeue(s.sh, s.q, s.params, s.clock);
      && Dequeue(s).0 == o.skb && t.q == o.q && t.params == s.params && t.limit == s.limit
      && t.overlimit == s.overlimit && t.clock == s.clock
      && if o.sh.qlen != 0 then t.sh == o.sh.(dropCount := 0) && t.parent == t.sh.qlen
         else t.sh == o.sh && t.parent == s.parent - |Hand(o.skb)|
  {
    hide QueueOk, CodelDequeue;
    CodelDequeueKeeps(s.sh, s.q, s.params, s.clock);
  }

  /** The loop drops from the head exactly what does not fit. */
  lemma {:induction false} TrimKeeps(s: Single)
    requires Valid(s)
    ensures var t := Trim(s);
      && Valid(t) && t.sh.qlen == (if s.sh.qlen > s.limit then s.limit else s.sh.qlen)
      && t.q.pkts == s.q.pkts[|s.q.pkts| - t.sh.qlen..]
      && t.limit == s.limit && t.parent == s.parent && t.sh.dropCount == s.sh.dropCount && t.clock == s.clock
      && t.sh.drops - s.sh.drops == s.sh.qlen - t.sh.qlen && t.sh.maxpacket == s.sh.maxpacket
      && t.sh.ecnMark == s.sh.ecnMark && t.q.vars == s.q.vars && t.params == s.params && t.overlimit == s.overlimit
    decreases |s.q.pkts|
  {
    if s.sh.qlen > s.limit {
      EvictQueue(s.q, s.clock);
      hide QueueOk;
      TrimKeeps(DropHead(s));
    }
  }

  lemma ChangeKeeps(s: Single, params: Params, limit: nat)
    requires Sound(s)
    ensures Sound(Change(s, params, limit))
    ensures var n := Change(s, params, limit).sh.qlen;
      n == (if s.sh.qlen > limit then limit else s.sh.qlen) &&
      Change(s, params, limit).q.pkts == s.q.pkts[|s.q.pkts| - n..]
    ensures var t := Change(s, params, limit);
      && t.params == params && t.limit == limit && t.q.vars == s.q.vars
      && t.sh.drops - s.sh.drops == s.parent - t.parent == s.sh.qlen - t.sh.qlen
      && t.sh.dropCount == s.sh.dropCount && t.overlimit == s.overlimit && t.clock == s.clock
  {
    hide QueueOk;
    TrimKeeps(s.(params := params, limit := limit));
  }

  function Apply(s: Single, call: Call): Single
    requires s.sh.qlen == |s.q.pkts|
  {
    match call
    case Tick(dt) => s.(clock := s.clock + dt)
    case Enq(pkt) => Enqueue(s, pkt).1
    case Deq => Dequeue(s).1
    case Cfg(params, limit) => Change(s, params, limit)
  }

  /** codel_init. */
  function Init(params: Params, limit: nat, clock: nat): Single {
    Single(Queue([], 0, VARS_INIT, []), Shared(0, 0, 0, 256, 0, 0), params, limit, 0, 0, clock)
  }

  /** A fresh qdisc is empty, its CoDel variables are zero, and its largest packet has 256 bytes. */
  lemma InitExact(params: Params, limit: nat, clock: nat)
    ensures var s := Init(params, limit, clock);
      && s.q == Queue([], 0, Vars(0, 0, false, 0, 0, 0, 0), []) && s.sh == Shared(0, 0, 0, 256, 0, 0)
      && s.params == params && s.limit == limit && s.overlimit == 0 == s.parent && s.clock == clock
  {}

  lemma ApplyKeeps(s: Single, call: Call)
    requires Sound(s) && (call.Enq? ==> call.pkt.len >= 1)
    ensures Sound(Apply(s, call))
  {
    hide QueueOk, Trim, CodelDequeue;
    match call
    case Tick(dt) => ClockMoves(None, s.q, s.clock, s.clock + dt);
    case Enq(pkt) => EnqueueKeeps(s, pkt);
    case Deq => DequeueKeeps(s);
    case Cfg(params, limit) => ChangeKeeps(s, params, limit);
  }

  ghost predicate CallsOk(calls: seq<Call>) {
    forall i :: 0 <= i < |calls| && calls[i].Enq? ==> calls[i].pkt.len >= 1
  }

  ghost function Run(s: Single, calls: seq<Call>): Single
    requires Sound(s) && CallsOk(calls)
    decreases |calls|
  {
    if calls == [] then s
    else
      ApplyKeeps(s, calls[0]);
      Run(Apply(s, calls[0]), calls[1..])
  }

  /** Every run keeps what is claimed of reachable states. */
  lemma {:induction false} RunSound(s: Single, calls: seq<Call>)
    requires Sound(s) && CallsOk(calls)
    ensures Sound(Run(s, calls))
    decreases |calls|
  {
    hide Apply;
    if calls != [] {
      ApplyKeeps(s, calls[0]);
      RunSound(Apply(s, calls[0]), calls[1..]);
    }
  }

  /** The state after a run of calls on a fresh qdisc. */
  ghost function Reach(params: Params, limit: nat, clock: nat, calls: seq<Call>): Single
    requires CallsOk(calls)
  {
    Run(Init(params, limit, clock), calls)
  }

  /** In every run from a fresh qdisc: what came is what left followed by what is queued, the
      counters count the queue, the limit holds, and the parent is off by no packet. */
  lemma Conservation(params: Params, limit: nat, clock: nat, calls: seq<Call>)
    requires CallsOk(calls)
    ensures var t := Reach(params, limit, clock, calls);
      && Pick(Came, t.q.log) == Pick(Left, t.q.log) + t.q.pkts
      && t.sh.qlen == |t.q.pkts| <= t.limit && t.sh.backlog == Bytes(t.q.pkts)
      && t.parent == t.sh.qlen + t.sh.dropCount
  {
    hide Run;
    var t := Reach(params, limit, clock, calls);
    RunSound(Init(params, limit, clock), calls);
    assert Pick(Left, t.q.log) + Hand(None) == Pick(Left, t.q.log);
  }

  /** Drop safety in every run. */
  lemma DropsAreJustified(params: Params, limit: nat, clock: nat, calls: seq<Call>, m: nat) returns (k: nat)
    requires CallsOk(calls)
    requires var log := Reach(params, limit, clock, calls).q.log; m < |log| && (log[m].Dropped? || log[m].Marked?)
    ensures Justifies(Reach(params, limit, clock, calls).q.log, k, m)
  {
    hide Run;
    var t := Reach(params, limit, clock, calls);
    RunSound(Init(params, limit, clock), calls);
    k := DropSafety(None, t.q, t.clock, m);
  }

  // ---------------------------------------------------------------- on objects

  class CodelSched {
    const sch: Qdisc
    const queue: PacketQueue
    var params: Params
    var limit: nat
    var overlimit: nat
    var parent: int

    constructor (params: Params, limit: nat)
      ensures fresh(sch) && fresh(queue)
      ensures forall clock: nat :: View(clock) == Init(params, limit, clock)
    {
      sch := new Qdisc();
      queue := new PacketQueue();
      this.params, this.limit, overlimit, parent := params, limit, 0, 0;
    }

    ghost function View(clock: nat): Single
      reads this, sch, queue
    {
      Single(queue.View(), sch.View(), params, limit, overlimit, parent, clock)
    }

    method EnqueuePacket(pkt: Packet, now: nat) returns (ok: bool)
      modifies this, sch, queue
      ensures (ok, View(now)) == Enqueue(old(View(now)), pkt)
    {
      if sch.qlen < limit {
        var p := pkt.(enq := now);
        queue.pkts := queue.pkts + [p];
        queue.bytes := queue.bytes + p.len;
        queue.log := queue.log + [Arrived(p)];
        sch.qlen, sch.backlog := sch.qlen + 1, sch.backlog + p.len;
        parent := parent + 1;
        return true;
      }
      overlimit := overlimit + 1;
      sch.drops := sch.drops + 1;
      ok := false;
    }

    method DequeuePacket(now: nat) returns (skb: Option<Packet>)
      modifies this, sch, queue
      ensures (skb, View(now)) == Dequeue(old(View(now)))
    {
      hide CodelDequeue;
      skb := queue.Dequeue(sch, params, now);
      if sch.dropCount != 0 && sch.qlen != 0 {
        parent := parent - sch.dropCount;
        sch.dropCount := 0;
      }
      if skb.Some? { parent := parent - 1; }
    }

    method ChangeConfig(newParams: Params, newLimit: nat, now: nat)
      requires sch.qlen == |queue.pkts|
      modifies this, sch, queue
      ensures View(now) == Change(old(View(now)), newParams, newLimit)
    {
      params, limit := newParams, newLimit;
      var qlen := sch.qlen;
      ghost var goal := Trim(View(now));
      while sch.qlen > limit
        invariant sch.qlen == |queue.pkts|
        invariant Trim(View(now)) == goal
        decreases |queue.pkts|
      {
        var p := queue.pkts[0];
        queue.pkts := queue.pkts[1..];
        queue.bytes := queue.bytes - p.len;
        queue.log := queue.log + [Evicted(p)];
        sch.qlen, sch.backlog, sch.drops := sch.qlen - 1, sch.backlog - p.len, sch.drops + 1;
      }
      parent := parent - (qlen - sch.qlen);
    }
  }
}
