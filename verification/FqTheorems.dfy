/** What holds in every state that calls can reach from a fresh fq_codel qdisc. */
module FqTheorems {
  import opened Wrappers
  import opened Newton
  import opened Codel
  import opened CodelProofs
  import opened FqCodel
  import opened Sums
  import opened FqProofs
  import opened FqCalls
  import opened FqRuns
  import opened FqFair
  import opened FqDeficit
  import opened Words

  /** The state after a run of calls on a fresh qdisc. */
  ghost function Reach(cnt: nat, quantum: u32, limit: nat, params: Params, clock: nat, calls: seq<Call>): (t: Sched)
    requires GoodQuantum(quantum) && RunOk(calls, cnt)
    ensures |t.flows| == cnt
  {
    InitSound(cnt, quantum, limit, params, clock);
    RunSound(Init(cnt, quantum, limit, params, clock), calls);
    Run(Init(cnt, quantum, limit, params, clock), calls)
  }

  /** Every reachable state is sound. */
  lemma ReachSound(cnt: nat, quantum: u32, limit: nat, params: Params, clock: nat, calls: seq<Call>)
    requires GoodQuantum(quantum) && RunOk(calls, cnt)
    ensures Sound(Reach(cnt, quantum, limit, params, clock, calls))
  {
    InitSound(cnt, quantum, limit, params, clock);
    RunSound(Init(cnt, quantum, limit, params, clock), calls);
  }

  /** Conservation: the counters are the sums over the queues, the limit holds, the parent's
      count is the queue length plus the drops not yet reported, and for each flow the packets
      that came are exactly those that left, in that order, followed by those still queued. */
  lemma Conservation(cnt: nat, quantum: u32, limit: nat, params: Params, clock: nat, calls: seq<Call>)
    requires GoodQuantum(quantum) && RunOk(calls, cnt)
    ensures var t := Reach(cnt, quantum, limit, params, clock, calls);
      && t.sh.qlen == Sum(cnt, LenOf(t.flows)) <= t.limit
      && t.sh.backlog == Sum(cnt, BytesOf(t.flows))
      && t.parent == t.sh.qlen + t.sh.dropCount
      && (forall i :: 0 <= i < cnt ==>
            Pick(Came, t.flows[i].q.log) == Pick(Left, t.flows[i].q.log) + t.flows[i].q.pkts &&
            t.flows[i].q.bytes == Bytes(t.flows[i].q.pkts))
  {
    hide Reach;
    var t := Reach(cnt, quantum, limit, params, clock, calls);
    ReachSound(cnt, quantum, limit, params, clock, calls);
    forall i | 0 <= i < cnt
      ensures Pick(Came, t.flows[i].q.log) == Pick(Left, t.flows[i].q.log) + t.flows[i].q.pkts
      ensures t.flows[i].q.bytes == Bytes(t.flows[i].q.pkts)
    {
      assert QueueOk(None, t.flows[i].q, t.clock);
      assert Pick(Left, t.flows[i].q.log) + Hand(None) == Pick(Left, t.flows[i].q.log);
    }
  }

  // ---------------------------------------------------------------- order of delivery

  /** a can be got from b by leaving packets out. */
  predicate Subsequence(a: seq<Packet>, b: seq<Packet>) {
    if a == [] then true
    else if b == [] then false
    else if a[|a| - 1] == b[|b| - 1] && Subsequence(a[..|a| - 1], b[..|b| - 1]) then true
    else Subsequence(a, b[..|b| - 1])
  }

  lemma {:induction false} SubsequenceSnoc(a: seq<Packet>, b: seq<Packet>, p: Packet)
    requires Subsequence(a, b)
    ensures Subsequence(a, b + [p]) && Subsequence(a + [p], b + [p])
  {
    assert (b + [p])[..|b|] == b && (a + [p])[..|a|] == a;
  }

  lemma {:induction false} SubsequenceAppend(a: seq<Packet>, b: seq<Packet>, c: seq<Packet>)
    requires Subsequence(a, b)
    ensures Subsequence(a, b + c)
    decreases |c|
  {
    hide Subsequence;
    if c == [] {
      assert b + c == b;
    } else {
      var n := |c| - 1;
      SubsequenceAppend(a, b, c[..n]);
      SubsequenceSnoc(a, b + c[..n], c[n]);
      assert b + c == b + c[..n] + [c[n]];
    }
  }

  predicate AmongLeft(log: seq<Event>) { Subsequence(Handed(log), Pick(Left, log)) }

  lemma AmongGrows(log: seq<Event>, e: Event)
    requires AmongLeft(log) && !e.Freed?
    ensures AmongLeft(log + [e])
  {
    hide Handed, Pick, Subsequence;
    LogGrows(log, e);
    HandedGrows(log, e);
    if Picks(Left, e) { SubsequenceSnoc(Handed(log), Pick(Left, log), e.pkt); }
    assert !Picks(Sent, e) ==> Handed(log + [e]) == Handed(log);
    assert !Picks(Left, e) ==> Pick(Left, log + [e]) == Pick(Left, log);
  }

  lemma AmongFreed(log: seq<Event>, p: Packet)
    requires AmongLeft(log)
    ensures AmongLeft(log + [Delivered(p)] + [Freed(p)])
  {
    hide Handed, Pick, Subsequence;
    var more := log + [Delivered(p)];
    LogGrows(log, Delivered(p));
    LogGrows(more, Freed(p));
    HandedFreed(log, p);
    SubsequenceSnoc(Handed(log), Pick(Left, log), p);
    assert Pick(Left, more + [Freed(p)]) == Pick(Left, log) + [p];
  }

  lemma {:induction false} HandedAmongLeft(log: seq<Event>)
    requires FreedOk(log)
    ensures AmongLeft(log)
  {
    if log == [] {
      NothingLeft();
    } else {
      hide AmongLeft, FreedOk;
      FreedLast(log);
      var n, e := |log|, log[|log| - 1];
      if e.Freed? {
        HandedAmongLeft(log[..n - 2]);
        AmongFreed(log[..n - 2], e.pkt);
      } else {
        HandedAmongLeft(log[..n - 1]);
        AmongGrows(log[..n - 1], e);
      }
    }
  }

  /** No reordering: what a flow hands out for good is a subsequence of what came into it. */
  lemma DeliveryInOrder(cnt: nat, quantum: u32, limit: nat, params: Params, clock: nat, calls: seq<Call>, i: nat)
    requires GoodQuantum(quantum) && RunOk(calls, cnt) && i < cnt
    ensures var log := Reach(cnt, quantum, limit, params, clock, calls).flows[i].q.log;
      Subsequence(Handed(log), Pick(Came, log))
  {
    hide Reach, Handed, Pick;
    ReachSound(cnt, quantum, limit, params, clock, calls);
    Conservation(cnt, quantum, limit, params, clock, calls);
    var t := Reach(cnt, quantum, limit, params, clock, calls);
    var q := t.flows[i].q;
    FreedInLog(q.log, t.clock) by { assert QueueOk(None, q, t.clock); }
    HandedAmongLeft(q.log);
    SubsequenceAppend(Handed(q.log), Pick(Left, q.log), q.pkts);
  }

  /** Every packet that came is exactly one of handed out for good, lost (dropped by CoDel, evicted, or freed by
      a shrinking limit) and still queued. */
  lemma PacketFates(cnt: nat, quantum: u32, limit: nat, params: Params, clock: nat, calls: seq<Call>, i: nat)
    requires GoodQuantum(quantum) && RunOk(calls, cnt) && i < cnt
    ensures var q := Reach(cnt, quantum, limit, params, clock, calls).flows[i].q;
      multiset(Pick(Came, q.log)) == multiset(Handed(q.log)) + multiset(Pick(Lost, q.log)) + multiset(q.pkts)
  {
    hide Reach, Handed, Pick;
    ReachSound(cnt, quantum, limit, params, clock, calls);
    Conservation(cnt, quantum, limit, params, clock, calls);
    var t := Reach(cnt, quantum, limit, params, clock, calls);
    var q := t.flows[i].q;
    FreedInLog(q.log, t.clock) by { assert QueueOk(None, q, t.clock); }
    LeftIsSplit(q.log);
  }

  // ---------------------------------------------------------------- CoDel over runs

  /** Drop safety in every run: see CodelProofs.Justifies. */
  lemma DropsAreJustified(cnt: nat, quantum: u32, limit: nat, params: Params, clock: nat, calls: seq<Call>,
                          i: nat, m: nat)
      returns (k: nat)
    requires GoodQuantum(quantum) && RunOk(calls, cnt) && i < cnt
    requires var log := Reach(cnt, quantum, limit, params, clock, calls).flows[i].q.log;
      m < |log| && (log[m].Dropped? || log[m].Marked?)
    ensures Justifies(Reach(cnt, quantum, limit, params, clock, calls).flows[i].q.log, k, m)
  {
    hide Reach;
    var t := Reach(cnt, quantum, limit, params, clock, calls);
    ReachSound(cnt, quantum, limit, params, clock, calls);
    k := DropSafety(None, t.flows[i].q, t.clock, m);
  }

  /** The Newton invariant in every run: the estimate is below the root, the next refinement, by a further drop
      or by entering the dropping state, needs no more bits than it has, and the scheduled gap d satisfies
      d^2 count <= interval^2. */
  lemma RootNeverOvershoots(cnt: nat, quantum: u32, limit: nat, params: Params, clock: nat, calls: seq<Call>, i: nat)
    requires GoodQuantum(quantum) && RunOk(calls, cnt) && i < cnt
    ensures var v := Reach(cnt, quantum, limit, params, clock, calls).flows[i].q.vars;
      && v.count * (v.recInvSqrt * v.recInvSqrt) <= TWO32
      && (forall interval: u32 :: var d := Gap(interval, v.recInvSqrt); d * d * v.count <= interval * interval)
      && Escalate(v).recInvSqrt == IdealStep(Escalate(v).count, v.recInvSqrt)
      && (forall p: Params, now: nat :: var e := Enter(v, p, now);
            e.recInvSqrt == if Resumes(v, p, now) then IdealStep(e.count, v.recInvSqrt) else TWO16 - 1)
  {
    hide Reach;
    var t := Reach(cnt, quantum, limit, params, clock, calls);
    ReachSound(cnt, quantum, limit, params, clock, calls);
    assert QueueOk(None, t.flows[i].q, t.clock);
    RootOf(t.flows[i].q.vars);
  }

  lemma RootOf(v: Vars)
    requires NewtonOk(v)
    ensures v.count * (v.recInvSqrt * v.recInvSqrt) <= TWO32
    ensures forall interval: u32 :: var d := Gap(interval, v.recInvSqrt); d * d * v.count <= interval * interval
    ensures Escalate(v).recInvSqrt == IdealStep(Escalate(v).count, v.recInvSqrt)
    ensures forall p: Params, now: nat :: var e := Enter(v, p, now);
              e.recInvSqrt == if Resumes(v, p, now) then IdealStep(e.count, v.recInvSqrt) else TWO16 - 1
  {
    hide NewtonStep, IdealStep, Gap, Enter;
    forall p: Params, now: nat
      ensures var e := Enter(v, p, now);
        e.recInvSqrt == if Resumes(v, p, now) then IdealStep(e.count, v.recInvSqrt) else TWO16 - 1
    {
      EnterIdeal(v, p, now);
    }
    forall interval: u32
      ensures Gap(interval, v.recInvSqrt) * Gap(interval, v.recInvSqrt) * v.count <= interval * interval
    {
      GapBound(interval, v.count, v.recInvSqrt);
    }
    EscalateIdeal(v);
  }

  /** The dropping state is entered close to where it was left, as the code compares the two. */
  predicate Resumes(v: Vars, p: Params, clock: nat) {
    TimeBefore(Low32(Low32(clock) - v.dropNext), Low32(16 * p.interval))
  }

  lemma EnterIdeal(v: Vars, p: Params, clock: nat)
    requires NewtonOk(v)
    ensures var e := Enter(v, p, clock);
      e.recInvSqrt == if Resumes(v, p, clock) then IdealStep(e.count, v.recInvSqrt) else TWO16 - 1
  {
    hide NewtonStep, IdealStep, ControlLaw, TimeBefore;
    StepFromUnder(OrOne((v.count - v.lastcount) % TWO32), v);
  }

  lemma EscalateIdeal(v: Vars)
    requires NewtonOk(v)
    ensures Escalate(v).recInvSqrt == IdealStep(Escalate(v).count, v.recInvSqrt)
  {
    hide NewtonStep, IdealStep;
    if v.count == TWO32 - 1 { UnderBound(v.count, v.recInvSqrt); }
    StepFromUnder((v.count + 1) % TWO32, v);
  }

  /** One more drop leaves the root at zero iff it was zero. Entering the dropping state leaves it at zero
      iff it was zero and the state is entered within sixteen intervals of drop_next, as the code compares
      them. The next drop is then due at once: a gap is zero iff interval times root is below 2^16. */
  lemma ZeroRootExactly(v: Vars, p: Params, clock: nat)
    requires NewtonOk(v)
    ensures Escalate(v).recInvSqrt == 0 <==> v.recInvSqrt == 0
    ensures Enter(v, p, clock).recInvSqrt == 0 <==>
            v.recInvSqrt == 0 && Resumes(v, p, clock)
    ensures ScheduleNext(v, v.dropNext, p).dropNext == v.dropNext <==> p.interval * v.recInvSqrt < TWO16
    ensures var e := Enter(v, p, clock); e.dropNext == Low32(clock) <==> p.interval * e.recInvSqrt < TWO16
  {
    hide NewtonStep, Gap;
    var next, again := (v.count + 1) % TWO32, OrOne((v.count - v.lastcount) % TWO32);
    if v.count == TWO32 - 1 { UnderBound(v.count, v.recInvSqrt); }
    StepZero(next, v);
    StepZero(again, v);
    GapZero(v.dropNext, p.interval, v.recInvSqrt);
    GapZero(Low32(clock), p.interval, Enter(v, p, clock).recInvSqrt);
  }

  lemma GapZero(t: u32, interval: u32, r: u16)
    ensures ControlLaw(t, interval, r) == t <==> interval * r < TWO16
  {
    GapBound(interval, 0, r);
  }

  /** A Newton step from a reachable root ends at zero iff it starts there. */
  lemma StepZero(count: u32, v: Vars)
    requires NewtonOk(v) && (v.recInvSqrt <= 1 || 1 <= count <= v.count + 1)
    ensures NewtonStep(count, v.recInvSqrt) == 0 <==> v.recInvSqrt == 0
  {
    hide NewtonStep, IdealStep;
    StillBelowThree(v.count, count, v.recInvSqrt);
    MachineStepIsIdeal(count, v.recInvSqrt);
    IdealZero(v.count, count, v.recInvSqrt);
  }

  lemma IdealZero(old_: u32, count: u32, r: u16)
    requires Under(old_, r) && (r <= 1 || count <= old_ + 1)
    ensures IdealStep(count, r) == 0 <==> r == 0
  {
    var s := r * r;
    if r <= 1 {
      assert s == r;
      if r == 1 { assert (3 * TWO32 - count) / 4 * 1 / TWO31 >= 1; }
    } else {
      SquareBelow(r, TWO16);
      MulMono(count, old_ + 1, s);
      assert (old_ + 1) * s == old_ * s + s;
      var quarter := (3 * TWO32 - count * s) / 4;
      assert quarter >= TWO31 / 2;
      MulMono(TWO31 / 2, quarter, r);
    }
  }

  // ---------------------------------------------------------------- the premises of fairness

  predicate ShortCall(call: Call, maxlen: nat) {
    KeepsQuantum(call) && (call.Enq? ==> call.pkt.len <= maxlen)
  }

  /** With a fixed quantum below 2^31 and packets up to maxlen, every reachable state satisfies the
      premises of NoStarvation, ServiceBound and ByteFairness, whatever else is reconfigured. */
  lemma ReachableCredit(cnt: nat, quantum: u32, limit: nat, params: Params, clock: nat, calls: seq<Call>, maxlen: nat)
    requires 1 <= quantum < TWO31 && 1 <= maxlen <= TWO31 && RunOk(calls, cnt)
    requires forall j :: 0 <= j < |calls| ==> ShortCall(calls[j], maxlen)
    ensures var t := Reach(cnt, quantum, limit, params, clock, calls);
      t.quantum == quantum && LensOk(t, maxlen) && CreditOk(t, maxlen) && Capped(t)
  {
    var s := Init(cnt, quantum, limit, params, clock);
    InitSound(cnt, quantum, limit, params, clock);
    RunCallsCredit(s, calls, maxlen);
  }

  lemma {:induction false} RunCallsCredit(s: Sched, calls: seq<Call>, maxlen: nat)
    requires Sound(s) && RunOk(calls, |s.flows|) && 1 <= maxlen <= TWO31 && s.quantum < TWO31
    requires forall j :: 0 <= j < |calls| ==> ShortCall(calls[j], maxlen)
    requires LensOk(s, maxlen) && CreditOk(s, maxlen)
    ensures Run(s, calls).quantum == s.quantum && LensOk(Run(s, calls), maxlen) && CreditOk(Run(s, calls), maxlen)
    decreases |calls|
  {
    hide Sound, Apply, LensOk, CreditOk, CallOk;
    if calls != [] {
      ApplyKeeps(s, calls[0]);
      SoundIsValid(s);
      CallCredit(s, calls[0], maxlen);
      RunCallsCredit(Apply(s, calls[0]), calls[1..], maxlen);
    }
  }

  lemma CallCredit(s: Sched, call: Call, maxlen: nat)
    requires Live(s) && CallOk(call, |s.flows|) && 1 <= maxlen <= TWO31 && s.quantum < TWO31 && ShortCall(call, maxlen)
    requires LensOk(s, maxlen) && CreditOk(s, maxlen)
    ensures var t := Apply(s, call); t.quantum == s.quantum && LensOk(t, maxlen) && CreditOk(t, maxlen)
  {
    hide Valid, LensOk, CreditOk, Apply, Steps;
    var ops := CallIsSteps(s, call);
    RunCredit(s, ops, maxlen);
  }
}
