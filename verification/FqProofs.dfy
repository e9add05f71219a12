/** The invariant of the scheduler, the termination of its goto loop, work conservation and
    the accounting of every packet, over all runs. */
module FqProofs {
  import opened Wrappers
  import opened Newton
  import opened Codel
  import opened CodelProofs
  import opened FqCodel
  import opened Sums
  import opened FqDeficit
  import opened Words

  // ---------------------------------------------------------------- the invariant

  function LenOf(fs: seq<Flow>): nat -> int { (j: nat) => if j < |fs| then |fs[j].q.pkts| else 0 }
  function BytesOf(fs: seq<Flow>): nat -> int { (j: nat) => if j < |fs| then Bytes(fs[j].q.pkts) else 0 }

  predicate Distinct(xs: seq<nat>) { forall a, b :: 0 <= a < b < |xs| ==> xs[a] != xs[b] }

  /** Each flow is on at most one list, once; every flow that holds packets is on one. */
  ghost predicate ListsOk(s: Sched) {
    && Distinct(s.newFlows) && Distinct(s.oldFlows)
    && (forall i :: i in s.newFlows ==> i < |s.flows| && i !in s.oldFlows)
    && (forall i :: i in s.oldFlows ==> i < |s.flows|)
    && (forall i :: 0 <= i < |s.flows| && s.flows[i].q.pkts != [] ==> Listed(s, i))
  }

  ghost predicate FlowsOk(s: Sched) {
    forall i :: 0 <= i < |s.flows| ==> QueueOk(None, s.flows[i].q, s.clock)
  }

  /** The counters of the qdisc are the sums over the queues. */
  ghost predicate SumsOk(flows: seq<Flow>, sh: Shared) {
    sh.qlen == Sum(|flows|, LenOf(flows)) && sh.backlog == Sum(|flows|, BytesOf(flows))
  }

  ghost predicate Valid(s: Sched) {
    ListsOk(s) && FlowsOk(s) && SumsOk(s.flows, s.sh) && s.sh.maxpacket >= 1
  }

  /** A parent that counts accepted packets, dequeues and reports is never off. */
  predicate ParentOk(s: Sched) { s.parent == s.sh.qlen + s.sh.dropCount }

  // ---------------------------------------------------------------- replacing one flow

  lemma FlowsChange(s: Sched, i: nat, f: Flow)
    requires FlowsOk(s) && i < |s.flows| && QueueOk(None, f.q, s.clock)
    ensures FlowsOk(SetFlow(s, i, f))
  {
    hide QueueOk;
  }

  /** The lists do not look at anything but emptiness of the queues. */
  lemma ListsChange(s: Sched, i: nat, f: Flow)
    requires ListsOk(s) && i < |s.flows| && (f.q.pkts != [] ==> Listed(s, i))
    ensures ListsOk(SetFlow(s, i, f))
  {}

  lemma SumsChange(flows: seq<Flow>, sh: Shared, i: nat, f: Flow, sh': Shared)
    requires SumsOk(flows, sh) && i < |flows|
    requires sh'.qlen - |f.q.pkts| == sh.qlen - |flows[i].q.pkts|
    requires sh'.backlog - Bytes(f.q.pkts) == sh.backlog - Bytes(flows[i].q.pkts)
    ensures SumsOk(flows[i := f], sh')
  {
    var fs := flows[i := f];
    SumChange(|fs|, LenOf(flows), LenOf(fs), i);
    SumChange(|fs|, BytesOf(flows), BytesOf(fs), i);
  }

  lemma CountersNonNeg(flows: seq<Flow>, sh: Shared)
    requires SumsOk(flows, sh)
    ensures sh.qlen >= 0 && sh.backlog >= 0
    ensures sh.backlog > 0 ==> sh.qlen > 0
    ensures sh.qlen == 0 <==> forall i :: 0 <= i < |flows| ==> flows[i].q.pkts == []
  {
    SumNonNeg(|flows|, LenOf(flows));
    SumNonNeg(|flows|, BytesOf(flows));
    if sh.qlen == 0 {
      forall i: nat | i < |flows| ensures flows[i].q.pkts == [] { assert LenOf(flows)(i) == 0; }
      assert forall i: nat :: i < |flows| ==> BytesOf(flows)(i) == 0;
    }
    if forall i :: 0 <= i < |flows| ==> flows[i].q.pkts == [] {
      assert forall i: nat :: i < |flows| ==> LenOf(flows)(i) == 0;
    }
  }

  // ---------------------------------------------------------------- the measure of the goto loop

  /** What each listed flow lacks to a positive deficit. */
  function DebtOf(s: Sched): nat -> int {
    (j: nat) => if j < |s.flows| && Listed(s, j) then Shortage(s.flows[j].deficit, s.quantum) else 0
  }

  ghost function Debt(s: Sched): nat {
    SumNonNeg(|s.flows|, DebtOf(s));
    Sum(|s.flows|, DebtOf(s))
  }

  ghost function Packets(s: Sched): nat
    requires Valid(s)
  {
    CountersNonNeg(s.flows, s.sh);
    s.sh.qlen
  }

  /** Packets, then listed flows, then deficit debt, then new flows. */
  ghost predicate Decreases(s: Sched, t: Sched)
    requires Valid(s) && Valid(t)
  {
    var a, b := Packets(s), Packets(t);
    var c, d := |s.newFlows| + |s.oldFlows|, |t.newFlows| + |t.oldFlows|;
    b < a ||
    (b == a && (d < c ||
                (d == c && (Debt(t) < Debt(s) || (Debt(t) == Debt(s) && |t.newFlows| < |s.newFlows|)))))
  }

  // ---------------------------------------------------------------- list surgery

  predicate Busy(s: Sched) { s.newFlows != [] || s.oldFlows != [] }

  lemma HeadListed(s: Sched)
    requires ListsOk(s) && Busy(s)
    ensures Head(s) < |s.flows| && Listed(s, Head(s))
  {
    assert if s.newFlows != [] then s.newFlows[0] in s.newFlows else s.oldFlows[0] in s.oldFlows;
  }

  lemma TailDistinct(xs: seq<nat>)
    requires Distinct(xs) && xs != []
    ensures Distinct(xs[1..]) && xs[0] !in xs[1..]
    ensures forall j :: j in xs <==> j == xs[0] || j in xs[1..]
  {
    assert xs == [xs[0]] + xs[1..];
  }

  lemma SnocDistinct(xs: seq<nat>, x: nat)
    requires Distinct(xs) && x !in xs
    ensures Distinct(xs + [x])
    ensures forall j :: j in xs + [x] <==> j in xs || j == x
  {}

  lemma UnlinkLists(s: Sched)
    requires ListsOk(s) && Busy(s)
    ensures !Listed(Unlink(s), Head(s))
    ensures forall j :: j != Head(s) ==> (Listed(Unlink(s), j) <==> Listed(s, j))
    ensures forall j :: j in Unlink(s).newFlows ==> j in s.newFlows
    ensures forall j :: j in Unlink(s).oldFlows ==> j in s.oldFlows
    ensures Distinct(Unlink(s).newFlows) && Distinct(Unlink(s).oldFlows)
  {
    if s.newFlows != [] { TailDistinct(s.newFlows); } else { TailDistinct(s.oldFlows); }
  }

  lemma RotateLists(s: Sched)
    requires ListsOk(s) && Busy(s)
    ensures ListsOk(Rotate(s))
    ensures forall j :: Listed(Rotate(s), j) <==> Listed(s, j)
  {
    HeadListed(s);
    UnlinkLists(s);
    SnocDistinct(Unlink(s).oldFlows, Head(s));
  }

  lemma RotateKeeps(s: Sched)
    requires Valid(s) && Busy(s)
    ensures Valid(Rotate(s))
    ensures Debt(Rotate(s)) == Debt(s)
    ensures |Rotate(s).newFlows| + |Rotate(s).oldFlows| == |s.newFlows| + |s.oldFlows|
  {
    RotateLists(s);
    hide QueueOk;
    SumSame(|s.flows|, DebtOf(s), DebtOf(Rotate(s)));
  }

  /** Replacing the state of a listed flow and the shared counters together. */
  lemma ReplaceKeeps(s: Sched, i: nat, f: Flow, sh: Shared)
    requires Valid(s) && i < |s.flows| && Listed(s, i)
    requires QueueOk(None, f.q, s.clock)
    requires sh.qlen - |f.q.pkts| == s.sh.qlen - |s.flows[i].q.pkts|
    requires sh.backlog - Bytes(f.q.pkts) == s.sh.backlog - Bytes(s.flows[i].q.pkts)
    requires sh.maxpacket >= 1
    ensures Valid(SetFlow(s, i, f).(sh := sh))
  {
    hide QueueOk;
    FlowsChange(s, i, f);
    ListsChange(s, i, f);
    SumsChange(s.flows, s.sh, i, f, sh);
  }

  // ---------------------------------------------------------------- one trip

  function RefillFlow(f: Flow, quantum: u32): Flow {
    f.(deficit := Signed(f.deficit + quantum), q := Log(f.q, Event.Refilled))
  }

  lemma RefillQueue(f: Flow, quantum: u32, clock: nat)
    requires QueueOk(None, f.q, clock)
    ensures QueueOk(None, RefillFlow(f, quantum).q, clock)
  {
    PlainEvent(f.q, Event.Refilled, clock);
    LogGrows(f.q.log, Event.Refilled);
  }

  /** The flow with its new deficit, before it moves. */
  function Topped(s: Sched): Sched
    requires Busy(s) && Head(s) < |s.flows|
  {
    SetFlow(s, Head(s), RefillFlow(s.flows[Head(s)], s.quantum))
  }

  lemma ToppedKeeps(s: Sched)
    requires Valid(s) && Busy(s) && Head(s) < |s.flows|
    ensures Valid(Topped(s))
  {
    var i := Head(s);
    var f := RefillFlow(s.flows[i], s.quantum);
    HeadListed(s);
    RefillQueue(s.flows[i], s.quantum, s.clock);
    ReplaceKeeps(s, i, f, s.sh);
    hide Valid, QueueOk;
    assert SetFlow(s, i, f).(sh := s.sh) == Topped(s);
  }

  lemma ToppedDebt(s: Sched)
    requires Busy(s) && Head(s) < |s.flows| && Listed(s, Head(s)) && s.flows[Head(s)].deficit <= 0
    requires GoodQuantum(s.quantum)
    ensures Debt(Topped(s)) < Debt(s)
  {
    RefillGains(s.flows[Head(s)].deficit, s.quantum);
    SumChange(|s.flows|, DebtOf(s), DebtOf(Topped(s)), Head(s));
  }

  lemma RefillKeeps(s: Sched)
    requires Valid(s) && Busy(s) && Head(s) < |s.flows| && s.flows[Head(s)].deficit <= 0
    ensures Valid(Refill(s)) && (GoodQuantum(s.quantum) ==> Decreases(s, Refill(s)))
  {
    HeadListed(s);
    ToppedKeeps(s);
    if GoodQuantum(s.quantum) { ToppedDebt(s); }
    hide Valid, Debt;
    RotateKeeps(Topped(s));
    RefillIsRotate(s);
  }

  lemma RefillIsRotate(s: Sched)
    requires Busy(s) && Head(s) < |s.flows|
    ensures Refill(s) == Rotate(Topped(s))
  {}

  ghost function Served(s: Sched): Out
    requires Busy(s) && Head(s) < |s.flows|
  {
    CodelDequeue(s.sh, s.flows[Head(s)].q, s.params, s.clock)
  }

  /** Serving keeps the invariant, and CoDel never drops the last packet of the qdisc. */
  lemma ServeKeeps(s: Sched)
    requires Valid(s) && Busy(s) && Head(s) < |s.flows|
    ensures Valid(AfterCodel(s, Head(s), Served(s)))
    ensures var o := Served(s);
      && o.sh.qlen + o.sh.dropCount + |Hand(o.skb)| == s.sh.qlen + s.sh.dropCount
      && o.sh.qlen <= s.sh.qlen
      && (o.skb.Some? ==> o.sh.qlen < s.sh.qlen)
      && (o.skb.None? ==> o.q.pkts == [] && (o.sh.qlen == s.sh.qlen || o.sh.qlen > 0))
  {
    HeadListed(s);
    var i := Head(s);
    CodelDequeueKeeps(s.sh, s.flows[i].q, s.params, s.clock);
    hide CodelDequeue, QueueOk, FlowsOk, SumsOk, ListsOk;
    var f := AfterCodel(s, i, Served(s)).flows[i];
    ReplaceKeeps(s, i, f, Served(s).sh);
    CountersNonNeg(s.flows[i := f], Served(s).sh);
  }

  lemma RetireKeeps(t: Sched)
    requires Valid(t) && Busy(t) && Head(t) < |t.flows| && t.flows[Head(t)].q.pkts == []
    ensures Valid(Retire(t)) && Decreases(t, Retire(t))
  {
    hide QueueOk;
    if t.newFlows != [] && t.oldFlows != [] {
      RotateKeeps(t);
    } else {
      UnlinkLists(t);
    }
  }

  lemma ChargeKeeps(t: Sched, i: nat, len: nat)
    requires Valid(t) && i < |t.flows| && Listed(t, i)
    ensures Valid(Report(Charge(t, i, len)))
  {
    assert QueueOk(None, t.flows[i].q, t.clock);
    hide FlowsOk, SumsOk, ListsOk, QueueOk;
    ReplaceKeeps(t, i, Charge(t, i, len).flows[i], t.sh);
    hide Valid;
    ReportKeeps(Charge(t, i, len));
  }

  lemma ReportKeeps(t: Sched)
    requires Valid(t)
    ensures Valid(Report(t))
  {
    hide QueueOk;
  }

  /** Serving does not touch the lists and the deficits. */
  lemma ServeSameDebt(s: Sched)
    requires Valid(s) && Busy(s) && Head(s) < |s.flows|
    ensures Debt(AfterCodel(s, Head(s), Served(s))) == Debt(s)
  {
    hide Valid, CodelDequeue;
    SumSame(|s.flows|, DebtOf(s), DebtOf(AfterCodel(s, Head(s), Served(s))));
  }

  /** Every trip keeps the invariant; a trip that does not return keeps the queue non-empty and
      decreases the measure, unless the quantum is one with which refilling need not end; a trip
      that returns nothing found both lists empty. Drops are reported to the parent on a trip that returns
      a packet and leaves others queued, and on no other. */
  lemma PassKeeps(s: Sched)
    requires Valid(s)
    ensures Busy(s) ==> Head(s) < |s.flows|
    ensures Valid(Pass(s).s)
    ensures !Pass(s).done ==> Pass(s).skb.None? && (GoodQuantum(s.quantum) ==> Decreases(s, Pass(s).s))
    ensures !Pass(s).done && s.sh.qlen > 0 ==> Pass(s).s.sh.qlen > 0
    ensures Pass(s).done ==> (Pass(s).skb.Some? <==> Busy(s))
    ensures Pass(s).s.sh.qlen <= s.sh.qlen
    ensures Pass(s).skb.Some? ==> Pass(s).s.sh.qlen < s.sh.qlen
    ensures ParentOk(s) ==> Pass(s).s.parent == Pass(s).s.sh.qlen + Pass(s).s.sh.dropCount + |Hand(Pass(s).skb)|
    ensures Pass(s).skb.Some? && Pass(s).s.sh.qlen > 0 ==> Pass(s).s.sh.dropCount == 0
    ensures Pass(s).skb.None? || Pass(s).s.sh.qlen == 0 ==> Pass(s).s.parent == s.parent
  {
    if Busy(s) {
      HeadListed(s);
      var i := Head(s);
      if s.flows[i].deficit <= 0 {
        RefillKeeps(s);
      } else {
        ServeKeeps(s);
        hide FlowsOk, SumsOk, ListsOk, CodelDequeue, QueueOk;
        var o := Served(s);
        var t := AfterCodel(s, i, o);
        if o.skb.None? {
          RetireKeeps(t);
          ServeSameDebt(s);
        } else {
          ChargeKeeps(t, i, o.skb.value.len);
        }
      }
    }
  }
}
