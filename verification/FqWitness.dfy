/** A run of calls on a fresh fq_codel qdisc that enters the dropping state with a root of zero. */
module FqWitness {
  import opened Wrappers
  import opened Newton
  import opened Codel
  import opened CodelProofs
  import opened FqCodel
  import opened FqProofs
  import opened FqCalls
  import opened FqTheorems
  import opened FqDeficit
  import opened Words

  const SETUP := Params(5, 100, false)
  /** A clock in the upper half of 32 bits: to the code it is long before drop_next, which is still 0. */
  const START: nat := 3_000_000_000
  const BIG := Packet(0, 300, START, false)

  /** After five packets at once: a dequeue ten ticks later, one more two hundred ticks after that. */
  const SERVICE: seq<Call> := [Tick(10), DEQ, Tick(200), DEQ]

  /** A dequeue during which the clock stands still. */
  const DEQ := Deq(k => 0)

  const ABOVE := VARS_INIT.(ldelay := 10, firstAbove := START + 110)
  const DROPPING := Vars(1, 1, true, 0, START + 110, START + 210, 210)

  /** One flow, new, with n such packets. */
  predicate Shape(s: Sched, n: nat, vars: Vars, deficit: int, maxpacket: nat, clock: nat) {
    && |s.flows| == 1 && s.newFlows == [0] && s.oldFlows == []
    && |s.flows[0].q.pkts| == n && (forall k :: 0 <= k < n ==> s.flows[0].q.pkts[k] == BIG)
    && s.flows[0].q.vars == vars && s.flows[0].deficit == deficit
    && s.sh.qlen == n && s.sh.backlog == 300 * n && s.sh.maxpacket == maxpacket
    && s.params == SETUP && s.limit == 100 && s.clock == clock
  }

  lemma FirstArrival()
    ensures Shape(Enqueue(Init(1, 1000, 100, SETUP, START), Into(0), BIG).s, 1, VARS_INIT, 1000, 256, START)
  {}

  lemma NextArrival(s: Sched, n: nat)
    requires n < 50 && Shape(s, n, VARS_INIT, 1000, 256, START)
    ensures Shape(Enqueue(s, Into(0), BIG).s, n + 1, VARS_INIT, 1000, 256, START)
  {
    assert Listed(s, 0);
  }

  /** The first dequeue opens the window and delivers. */
  lemma FirstJudged(sh: Shared, q: Queue)
    requires q.pkts != [] && q.pkts[0] == BIG && q.vars == VARS_INIT && sh.backlog == 1500 && sh.maxpacket == 256
    ensures var o := CodelDequeue(sh, q, SETUP, START + 10);
      && o.skb == Some(BIG) && o.q.pkts == q.pkts[1..] && o.q.vars == ABOVE
      && o.sh.qlen == sh.qlen - 1 && o.sh.backlog == 1200 && o.sh.maxpacket == 300
  {}

  /** The second drops one packet, enters the dropping state and delivers the next. */
  lemma SecondJudged(sh: Shared, q: Queue)
    requires |q.pkts| >= 2 && q.pkts[0] == BIG == q.pkts[1] && q.vars == ABOVE
    requires sh.backlog == 1200 && sh.maxpacket == 300
    ensures var o := CodelDequeue(sh, q, SETUP, START + 210);
      && o.skb == Some(BIG) && o.q.pkts == q.pkts[2..] && o.q.vars == DROPPING
      && o.sh.qlen == sh.qlen - 2 && o.sh.backlog == 600 && o.sh.maxpacket == 300
  {
    hide NewtonStep, Gap;
    assert NewtonStep(1, 0) == 0 && Gap(100, 0) == 0 by { FreshStep(); }
    var o := Pop(sh, q);
    var j := ShouldDrop(o.skb, o.sh, o.q, SETUP, START + 210);
    assert j.ok && j.q.vars == ABOVE.(ldelay := 210);
    var d := DropAndPop(BIG, j.sh, j.q);
    assert d.q.pkts == q.pkts[2..];
    assert Enter(j.q.vars, SETUP, START + 210) == DROPPING;
  }

  lemma FreshStep()
    ensures NewtonStep(1, 0) == 0 && Gap(100, 0) == 0
  {}

  lemma Served(s: Sched, o: Out)
    requires Live(s) && |s.flows| == 1 && s.newFlows == [0] && s.oldFlows == [] && s.flows[0].deficit > 300
    requires o == CodelDequeue(s.sh, s.flows[0].q, s.params, s.clock) && o.skb == Some(BIG)
    ensures var t := Apply(s, DEQ);
      && |t.flows| == 1 && t.newFlows == [0] && t.oldFlows == []
      && t.flows[0].q == o.q && t.flows[0].deficit == s.flows[0].deficit - 300
      && t.sh.qlen == o.sh.qlen && t.sh.backlog == o.sh.backlog && t.sh.maxpacket == o.sh.maxpacket
      && t.params == s.params && t.limit == s.limit && t.clock == s.clock
  {
    hide CodelDequeue, Valid;
    NextTrip(s, k => 0, 0, 0);
    assert Late(s, 0) == s;
    assert Pass(s).done && Dequeue(s, k => 0, 0) == Pass(s);
  }

  lemma FirstDequeue(s: Sched)
    requires Sound(s) && Shape(s, 5, VARS_INIT, 1000, 256, START + 10)
    ensures Shape(Apply(s, DEQ), 4, ABOVE, 700, 300, START + 10)
  {
    hide CodelDequeue, Valid, Apply;
    FirstJudged(s.sh, s.flows[0].q);
    Served(s, CodelDequeue(s.sh, s.flows[0].q, s.params, s.clock));
  }

  lemma SecondDequeue(s: Sched)
    requires Sound(s) && Shape(s, 4, ABOVE, 700, 300, START + 210)
    ensures Shape(Apply(s, DEQ), 2, DROPPING, 400, 300, START + 210)
  {
    hide CodelDequeue, Valid, Apply;
    SecondJudged(s.sh, s.flows[0].q);
    Served(s, CodelDequeue(s.sh, s.flows[0].q, s.params, s.clock));
  }

  lemma Ticked(s: Sched, dt: nat, n: nat, vars: Vars, deficit: int, maxpacket: nat, clock: nat)
    requires Live(s) && Shape(s, n, vars, deficit, maxpacket, clock)
    ensures Shape(Apply(s, Tick(dt)), n, vars, deficit, maxpacket, clock + dt)
  {}

  lemma RunFirst(s: Sched, calls: seq<Call>)
    requires Sound(s) && RunOk(calls, |s.flows|) && calls != []
    ensures Live(s) && CallOk(calls[0], |s.flows|)
    ensures var t := Apply(s, calls[0]);
      Sound(t) && |t.flows| == |s.flows| && RunOk(calls[1..], |t.flows|) && Run(s, calls) == Run(t, calls[1..])
  {
    SoundIsValid(s);
    ApplyKeeps(s, calls[0]);
    hide Sound, Apply;
  }

  lemma {:induction false} ArrivalsRun(s: Sched, n: nat, k: nat)
    requires Sound(s) && Shape(s, n, VARS_INIT, 1000, 256, START) && n + k < 50
    requires RunOk(seq(k, _ => Enq(Into(0), BIG)) + SERVICE, 1)
    ensures RunOk(SERVICE, 1)
    ensures exists t ::
      && Sound(t) && Shape(t, n + k, VARS_INIT, 1000, 256, START)
      && Run(s, seq(k, _ => Enq(Into(0), BIG)) + SERVICE) == Run(t, SERVICE)
    decreases k
  {
    hide Sound, Apply, Enqueue, Shape, Run;
    var calls := seq(k, _ => Enq(Into(0), BIG)) + SERVICE;
    OneFlow(s, n, VARS_INIT, 1000, 256, START);
    if k == 0 {
      assert calls == SERVICE;
    } else {
      RunFirst(s, calls);
      NextArrival(s, n);
      EnqApplies(s);
      assert calls[1..] == seq(k - 1, _ => Enq(Into(0), BIG)) + SERVICE;
      ArrivalsRun(Apply(s, calls[0]), n + 1, k - 1);
    }
  }

  lemma OneFlow(s: Sched, n: nat, vars: Vars, deficit: int, maxpacket: nat, clock: nat)
    requires Shape(s, n, vars, deficit, maxpacket, clock)
    ensures |s.flows| == 1
  {}

  lemma EnqApplies(s: Sched)
    requires Live(s) && |s.flows| == 1
    ensures Apply(s, Enq(Into(0), BIG)) == Enqueue(s, Into(0), BIG).s
  {}

  lemma ServiceRun(s: Sched)
    requires Sound(s) && Shape(s, 5, VARS_INIT, 1000, 256, START) && RunOk(SERVICE, 1)
    ensures |s.flows| == 1 && Shape(Run(s, SERVICE), 2, DROPPING, 400, 300, START + 210)
  {
    hide Sound, Apply, Shape, Run;
    OneFlow(s, 5, VARS_INIT, 1000, 256, START);
    RunFirst(s, SERVICE);
    Ticked(s, 10, 5, VARS_INIT, 1000, 256, START);
    var s1 := Apply(s, SERVICE[0]);
    RunFirst(s1, SERVICE[1..]);
    FirstDequeue(s1);
    var s2 := Apply(s1, DEQ);
    RunFirst(s2, SERVICE[1..][1..]);
    Ticked(s2, 200, 4, ABOVE, 700, 300, START + 10);
    var s3 := Apply(s2, Tick(200));
    RunFirst(s3, SERVICE[1..][1..][1..]);
    SecondDequeue(s3);
    RunNothing(Apply(s3, DEQ));
  }

  lemma RunNothing(s: Sched)
    requires Sound(s) && RunOk([], |s.flows|)
    ensures Run(s, []) == s
  {}

  lemma AllCalls(s: Sched, calls: seq<Call>)
    requires s == Init(1, 1000, 100, SETUP, START) && Sound(s)
    requires calls == [Enq(Into(0), BIG)] + (seq(4, _ => Enq(Into(0), BIG)) + SERVICE)
    ensures |s.flows| == 1 && RunOk(calls, 1) && Shape(Run(s, calls), 2, DROPPING, 400, 300, START + 210)
  {
    hide Sound, Apply, Enqueue, Run, Shape;
    assert calls[1..] == seq(4, _ => Enq(Into(0), BIG)) + SERVICE;
    RunFirst(s, calls);
    FirstArrival();
    EnqApplies(s);
    var u := Apply(s, calls[0]);
    ArrivalsRun(u, 1, 4);
    var t :| Sound(t) && Shape(t, 5, VARS_INIT, 1000, 256, START) && Run(u, calls[1..]) == Run(t, SERVICE);
    ServiceRun(t);
  }

  lemma AtEnd(t: Sched)
    requires Shape(t, 2, DROPPING, 400, 300, START + 210)
    ensures t.sh.qlen == 2 && |t.flows| == 1 && t.flows[0].q.vars == DROPPING && t.clock == START + 210
  {}

  /** Five arrivals and two dequeues on a fresh qdisc lead to the dropping state with a root of zero, the next
      drop being due at once. */
  lemma ZeroRootReached() returns (calls: seq<Call>)
    ensures RunOk(calls, 1) && GoodQuantum(1000)
    ensures var t := Reach(1, 1000, 100, SETUP, START, calls);
      && t.sh.qlen == 2 && t.flows[0].q.vars.dropping && t.flows[0].q.vars.recInvSqrt == 0
      && t.flows[0].q.vars.dropNext == Low32(t.clock)
  {
    hide Sound, Run, Shape, Init;
    calls := [Enq(Into(0), BIG)] + (seq(4, _ => Enq(Into(0), BIG)) + SERVICE);
    InitSound(1, 1000, 100, SETUP, START);
    AllCalls(Init(1, 1000, 100, SETUP, START), calls);
    AtEnd(Run(Init(1, 1000, 100, SETUP, START), calls));
  }
}
