/** Byte fairness of the deficit round robin, and the link from calls to single trips. */
module FqFair {
  import opened Wrappers
  import opened Newton
  import opened Codel
  import opened CodelProofs
  import opened FqCodel
  import opened Sums
  import opened FqProofs
  import opened FqCalls
  import opened FqRuns
  import opened FqDeficit
  import opened Words

  // ---------------------------------------------------------------- credit

  /** The deficit of every listed flow lies between 1 - maxlen and one quantum. */
  ghost predicate CreditOk(s: Sched, maxlen: nat) {
    forall j :: 0 <= j < |s.flows| && Listed(s, j) ==> 1 - maxlen as int <= s.flows[j].deficit <= s.quantum
  }

  lemma CreditTrip(s: Sched, t: Sched, skb: Option<Packet>, maxlen: nat)
    requires ListsOk(s) && Busy(s) && Head(s) < |s.flows| == |t.flows| && t.quantum == s.quantum
    requires TripIs(s, t, Head(s), skb) && CreditOk(s, maxlen)
    requires s.quantum < TWO31 && maxlen <= TWO31 && (skb.Some? ==> skb.value.len <= maxlen)
    ensures CreditOk(t, maxlen)
  {
    hide SentBy, Refills;
    HeadListed(s);
    UnlinkLists(s);
    RotateLists(s);
    if s.newFlows != [] { assert s.newFlows == [Head(s)] + s.newFlows[1..]; }
    else { assert s.oldFlows == [Head(s)] + s.oldFlows[1..]; }
  }

  lemma CreditPut(s: Sched, t: Sched, listed: Option<nat>, maxlen: nat)
    requires PutIs(s, t, listed) && CreditOk(s, maxlen) && maxlen >= 1 && s.quantum < TWO31
    ensures CreditOk(t, maxlen)
  {
    hide SentBy, Refills;
    forall j: nat | j < |t.flows| && Listed(t, j) ensures Listed(s, j) || listed == Some(j) {}
  }

  // ---------------------------------------------------------------- one step, two flows

  /** What a listed flow has got, in bytes, minus what was dequeued from it. */
  ghost function Balance(s: Sched, x: nat): int
    requires x < |s.flows|
  {
    var f := s.flows[x];
    f.deficit + Bytes(SentBy(f)) - s.quantum * Refills(f.q.log)
  }

  /** Refills of a minus refills of b, corrected by who is ahead on old_flows. */
  ghost function Lead(s: Sched, a: nat, b: nat): int
    requires a < |s.flows| && b < |s.flows| && a in s.oldFlows && b in s.oldFlows
  {
    Refills(s.flows[a].q.log) - Refills(s.flows[b].q.log) + (if Pos(s.oldFlows, a) < Pos(s.oldFlows, b) then 1 else 0)
  }

  lemma TripBalance(s: Sched, t: Sched, skb: Option<Packet>, x: nat)
    requires ListsOk(s) && Busy(s) && Head(s) < |s.flows| == |t.flows| && t.quantum == s.quantum
    requires TripIs(s, t, Head(s), skb)
    requires s.quantum < TWO31 && (skb.Some? ==> skb.value.len <= TWO31)
    requires x < |s.flows| && x in s.oldFlows && x in t.oldFlows
    ensures Balance(t, x) == Balance(s, x)
  {
    hide SentBy, Refills, Bytes, Hand, Retire, Rotate, Distinct;
    if x == Head(s) {
      BytesConcat(SentBy(s.flows[x]), Hand(skb));
      BytesOfHand(skb);
      if s.flows[x].deficit <= 0 {
        RefillPays(s.quantum, Refills(s.flows[x].q.log));
      }
    }
  }

  lemma RefillPays(q: nat, k: nat)
    ensures q * (k + 1) == q * k + q
  {}

  lemma BytesOfHand(skb: Option<Packet>)
    ensures Bytes(Hand(skb)) == if skb.Some? then skb.value.len else 0
  {}

  lemma TripView(s: Sched, t: Sched, skb: Option<Packet>, b: nat)
    requires ListsOk(s) && Busy(s) && Head(s) < |s.flows| == |t.flows|
    requires TripIs(s, t, Head(s), skb) && b != Head(s) && b in s.oldFlows
    ensures SameView(s, t, b, Head(s))
  {
    hide SentBy, Refills, Behind, ListsOk;
    var i := Head(s);
    RotateOrder(s, b);
    UnlinkOrder(s, b);
    if SameLists(Rotate(s), t) { ViewFrame(s, Rotate(s), t, b, i); }
    else if SameLists(Unlink(s), t) { ViewFrame(s, Unlink(s), t, b, i); }
    else { ViewFrame(s, s, t, b, i); }
  }

  /** A trip that examines a third flow leaves the order of a and b alone. */
  lemma TripLeadOther(s: Sched, t: Sched, skb: Option<Packet>, a: nat, b: nat)
    requires ListsOk(s) && Busy(s) && Head(s) < |s.flows| == |t.flows|
    requires TripIs(s, t, Head(s), skb) && a != Head(s) && b != Head(s) && a != b
    requires a < |s.flows| && a in s.oldFlows && a in t.oldFlows
    requires b < |s.flows| && b in s.oldFlows && b in t.oldFlows
    ensures Lead(t, a, b) == Lead(s, a, b)
  {
    hide SentBy, Refills, ListsOk, Rotate, Retire, Unlink;
    TripView(s, t, skb, b);
    assert Ahead(t, b, a) <==> Ahead(s, b, a);
  }

  /** A trip that examines a either refills it, and then a falls behind b, or only sends. */
  lemma TripLeadSelf(s: Sched, t: Sched, skb: Option<Packet>, a: nat, b: nat)
    requires ListsOk(s) && Busy(s) && Head(s) < |s.flows| == |t.flows|
    requires TripIs(s, t, Head(s), skb) && a == Head(s) && a != b
    requires a < |s.flows| && a in s.oldFlows && a in t.oldFlows
    requires b < |s.flows| && b in s.oldFlows && b in t.oldFlows
    ensures Lead(t, a, b) == Lead(s, a, b)
    ensures Lead(t, b, a) == Lead(s, b, a)
  {
    hide SentBy, Refills;
    UnlinkLists(s);
    RotateOrder(s, b);
    assert s.newFlows == [] && Pos(s.oldFlows, a) == 0 < Pos(s.oldFlows, b);
  }

  lemma TripLead(s: Sched, t: Sched, skb: Option<Packet>, a: nat, b: nat)
    requires ListsOk(s) && Busy(s) && Head(s) < |s.flows| == |t.flows|
    requires TripIs(s, t, Head(s), skb) && a != b
    requires a < |s.flows| && a in s.oldFlows && a in t.oldFlows
    requires b < |s.flows| && b in s.oldFlows && b in t.oldFlows
    ensures Lead(t, a, b) == Lead(s, a, b)
  {
    hide ListsOk, TripIs, Lead;
    if a == Head(s) { TripLeadSelf(s, t, skb, a, b); }
    else if b == Head(s) { TripLeadSelf(s, t, skb, b, a); }
    else { TripLeadOther(s, t, skb, a, b); }
  }

  lemma PutBalance(s: Sched, t: Sched, listed: Option<nat>, x: nat)
    requires PutIs(s, t, listed) && x < |s.flows| && x in s.oldFlows
    ensures Balance(t, x) == Balance(s, x)
  {
    hide SentBy, Refills;
  }

  lemma PutLead(s: Sched, t: Sched, listed: Option<nat>, a: nat, b: nat)
    requires PutIs(s, t, listed)
    requires a < |s.flows| && a in s.oldFlows && b < |s.flows| && b in s.oldFlows
    ensures Lead(t, a, b) == Lead(s, a, b)
  {
    hide SentBy, Refills;
  }

  /** One step in which the flow stays on old_flows. */
  lemma StepBalance(s: Sched, op: Op, x: nat)
    requires Valid(s) && OpOk(op, |s.flows|) && s.quantum < TWO31
    requires LensOk(s, TWO31) && OpLenOk(op, TWO31)
    requires x < |s.flows| && x in s.oldFlows && x in Step(s, op).oldFlows
    ensures |Step(s, op).flows| == |s.flows| && Balance(Step(s, op), x) == Balance(s, x)
  {
    hide FlowsOk, SumsOk, Enqueue, Pass, Travel, TripIs, PutIs, SentBy, Refills, LensOk;
    StepLens(s, op, TWO31);
    match op
    case Pause(_) =>
    case Set(_, _, _, _) =>
    case Put(c, pkt) =>
      EnqueuePuts(s, c, pkt);
      EnqueueKeeps(s, c, pkt);
      PutBalance(s, Enqueue(s, c, pkt).s, NewlyListed(s, c), x);
    case Scrap(pkt) =>
      ScrapKeeps(s, pkt);
      ScrapPuts(s, pkt);
      PutBalance(s, Scrapped(s, pkt), None, x);
    case Go =>
      TravelKeeps(s);
      TripEffect(s);
      TripBalance(s, Travel(s), Pass(s).skb, x);
  }

  /** One step in which both flows stay on old_flows. */
  lemma StepLead(s: Sched, op: Op, a: nat, b: nat)
    requires Valid(s) && OpOk(op, |s.flows|) && a != b
    requires a < |s.flows| && a in s.oldFlows && a in Step(s, op).oldFlows
    requires b < |s.flows| && b in s.oldFlows && b in Step(s, op).oldFlows
    ensures |Step(s, op).flows| == |s.flows| && Lead(Step(s, op), a, b) == Lead(s, a, b)
  {
    hide FlowsOk, SumsOk, Enqueue, Pass, Travel, TripIs, PutIs, SentBy, Refills;
    match op
    case Pause(_) =>
    case Set(_, _, _, _) =>
    case Put(c, pkt) =>
      EnqueuePuts(s, c, pkt);
      EnqueueKeeps(s, c, pkt);
      PutLead(s, Enqueue(s, c, pkt).s, NewlyListed(s, c), a, b);
    case Scrap(pkt) =>
      ScrapKeeps(s, pkt);
      ScrapPuts(s, pkt);
      PutLead(s, Scrapped(s, pkt), None, a, b);
    case Go =>
      TravelKeeps(s);
      TripEffect(s);
      TripLead(s, Travel(s), Pass(s).skb, a, b);
  }

  lemma StepCredit(s: Sched, op: Op, maxlen: nat)
    requires Valid(s) && OpOk(op, |s.flows|) && OpLenOk(op, maxlen) && 1 <= maxlen <= TWO31 && s.quantum < TWO31
    requires LensOk(s, maxlen) && CreditOk(s, maxlen)
    ensures LensOk(Step(s, op), maxlen) && CreditOk(Step(s, op), maxlen)
  {
    hide FlowsOk, SumsOk, Enqueue, Pass, Travel, TripIs, PutIs, LensOk, CreditOk;
    StepLens(s, op, maxlen);
    match op
    case Pause(_) => FrameCredit(s, Step(s, op), maxlen);
    case Set(_, _, _, _) => FrameCredit(s, Step(s, op), maxlen);
    case Put(c, pkt) =>
      EnqueuePuts(s, c, pkt);
      CreditPut(s, Enqueue(s, c, pkt).s, NewlyListed(s, c), maxlen);
    case Scrap(pkt) =>
      ScrapPuts(s, pkt);
      CreditPut(s, Scrapped(s, pkt), None, maxlen);
    case Go =>
      TravelKeeps(s);
      if Busy(s) {
        TripEffect(s);
        CreditTrip(s, Travel(s), Pass(s).skb, maxlen);
      } else {
        IdleTravel(s);
        FrameCredit(s, Travel(s), maxlen);
      }
  }

  lemma FrameCredit(s: Sched, t: Sched, maxlen: nat)
    requires t.flows == s.flows && SameLists(s, t) && t.quantum == s.quantum && CreditOk(s, maxlen)
    ensures CreditOk(t, maxlen)
  {}

  // ---------------------------------------------------------------- the theorem

  /** The flow is on old_flows before and after every step of the run. */
  ghost predicate StaysOld(s: Sched, ops: seq<Op>, x: nat)
    requires Valid(s) && OpsOk(ops, |s.flows|)
    decreases |ops|
  {
    x in s.oldFlows && (ops == [] || (StepKeeps(s, ops[0]); StaysOld(Step(s, ops[0]), ops[1..], x)))
  }

  predicate LensUpTo(ops: seq<Op>, maxlen: nat) {
    forall i :: 0 <= i < |ops| ==> OpLenOk(ops[i], maxlen)
  }

  lemma {:induction false} RunCredit(s: Sched, ops: seq<Op>, maxlen: nat)
    requires Valid(s) && OpsOk(ops, |s.flows|) && 1 <= maxlen <= TWO31 && s.quantum < TWO31
    requires LensUpTo(ops, maxlen) && LensOk(s, maxlen) && CreditOk(s, maxlen)
    ensures LensOk(Steps(s, ops), maxlen) && CreditOk(Steps(s, ops), maxlen)
    decreases |ops|
  {
    hide Valid, Step, LensOk, CreditOk, OpLenOk, OpOk;
    if ops != [] {
      StepKeeps(s, ops[0]);
      StepCredit(s, ops[0], maxlen);
      RunCredit(Step(s, ops[0]), ops[1..], maxlen);
    }
  }

  lemma {:induction false} RunBalance(s: Sched, ops: seq<Op>, x: nat)
    requires Valid(s) && OpsOk(ops, |s.flows|) && x < |s.flows| && StaysOld(s, ops, x) && s.quantum < TWO31
    requires LensOk(s, TWO31) && LensUpTo(ops, TWO31)
    ensures x in Steps(s, ops).oldFlows && Balance(Steps(s, ops), x) == Balance(s, x)
    decreases |ops|
  {
    hide Valid, Step, Balance, OpOk, OpLenOk, LensOk;
    if ops != [] {
      StepKeeps(s, ops[0]);
      StepLens(s, ops[0], TWO31);
      StepBalance(s, ops[0], x);
      RunBalance(Step(s, ops[0]), ops[1..], x);
    }
  }

  lemma {:induction false} RunLead(s: Sched, ops: seq<Op>, a: nat, b: nat)
    requires Valid(s) && OpsOk(ops, |s.flows|) && a != b && a < |s.flows| && b < |s.flows|
    requires StaysOld(s, ops, a) && StaysOld(s, ops, b)
    ensures var t := Steps(s, ops); a in t.oldFlows && b in t.oldFlows && Lead(t, a, b) == Lead(s, a, b)
    decreases |ops|
  {
    hide Valid, Step, Lead, OpOk;
    if ops != [] {
      StepKeeps(s, ops[0]);
      StepLead(s, ops[0], a, b);
      RunLead(Step(s, ops[0]), ops[1..], a, b);
    }
  }

  /** Bytes that flow x has sent during the run, what was freed after its dequeue included: its deficit paid. */
  ghost function SentDuring(s: Sched, ops: seq<Op>, x: nat): int
    requires Valid(s) && OpsOk(ops, |s.flows|) && x < |s.flows|
  {
    Bytes(SentBy(Steps(s, ops).flows[x])) - Bytes(SentBy(s.flows[x]))
  }

  /** Refills of flow x during the run. */
  ghost function RefillsDuring(s: Sched, ops: seq<Op>, x: nat): int
    requires Valid(s) && OpsOk(ops, |s.flows|) && x < |s.flows|
  {
    Refills(Steps(s, ops).flows[x].q.log) - Refills(s.flows[x].q.log)
  }

  /** A flow that stays on old_flows is paid in quanta: over any run the bytes it sends are its refills
      times the quantum plus what its deficit went down by. */
  lemma BytesArePaid(s: Sched, ops: seq<Op>, x: nat)
    requires Valid(s) && OpsOk(ops, |s.flows|) && x < |s.flows| && StaysOld(s, ops, x) && s.quantum < TWO31
    requires LensOk(s, TWO31) && LensUpTo(ops, TWO31)
    ensures SentDuring(s, ops, x) ==
            s.quantum * RefillsDuring(s, ops, x) + s.flows[x].deficit - Steps(s, ops).flows[x].deficit
  {
    hide SentBy, Refills, Bytes, Valid, Steps, StaysOld, LensOk, LensUpTo, OpsOk;
    RunBalance(s, ops, x);
    var r: int, r': int := Refills(s.flows[x].q.log), Refills(Steps(s, ops).flows[x].q.log);
    assert s.quantum * (r' - r) == s.quantum * r' - s.quantum * r;
  }

  /** Two flows that stay on old_flows are refilled in turn: over any run one gets at most one refill more. */
  lemma RefillsInTurn(s: Sched, ops: seq<Op>, a: nat, b: nat)
    requires Valid(s) && OpsOk(ops, |s.flows|) && a < |s.flows| && b < |s.flows|
    requires StaysOld(s, ops, a) && StaysOld(s, ops, b)
    ensures -1 <= RefillsDuring(s, ops, a) - RefillsDuring(s, ops, b) <= 1
  {
    hide Refills, Valid, Steps, OpsOk;
    if a != b { RunLead(s, ops, a, b); }
  }

  lemma DeficitDrift(s: Sched, t: Sched, x: nat, maxlen: nat)
    requires x < |s.flows| == |t.flows| && t.quantum == s.quantum && x in s.oldFlows && x in t.oldFlows
    requires CreditOk(s, maxlen) && CreditOk(t, maxlen)
    ensures var w := s.quantum + (maxlen - 1); -w <= s.flows[x].deficit - t.flows[x].deficit <= w
  {
    assert Listed(s, x) && Listed(t, x);
  }

  lemma Spread(q: nat, ra: int, rb: int, ba: int, bb: int, w: int)
    requires -1 <= ra - rb <= 1
    requires -w <= ba - q * ra <= w && -w <= bb - q * rb <= w
    ensures -(q + 2 * w) <= ba - bb <= q + 2 * w
  {
    var k := ra - rb;
    assert q * ra - q * rb == q * k;
    assert k == -1 || k == 0 || k == 1;
  }

  lemma LensWeaken(s: Sched, ops: seq<Op>, maxlen: nat)
    requires LensOk(s, maxlen) && LensUpTo(ops, maxlen) && maxlen <= TWO31
    ensures LensOk(s, TWO31) && LensUpTo(ops, TWO31)
  {}

  /** Byte fairness: two flows that stay on old_flows send, over any run, amounts that differ
      by at most three quanta and twice the longest packet. */
  lemma ByteFairness(s: Sched, ops: seq<Op>, a: nat, b: nat, maxlen: nat)
    requires Valid(s) && OpsOk(ops, |s.flows|) && a != b && a < |s.flows| && b < |s.flows|
    requires 1 <= maxlen <= TWO31 && s.quantum < TWO31
    requires LensOk(s, maxlen) && CreditOk(s, maxlen) && LensUpTo(ops, maxlen)
    requires StaysOld(s, ops, a) && StaysOld(s, ops, b)
    ensures -(3 * s.quantum + 2 * (maxlen - 1)) <= SentDuring(s, ops, a) - SentDuring(s, ops, b)
              <= 3 * s.quantum + 2 * (maxlen - 1)
  {
    hide Steps, SentDuring, RefillsDuring, Valid, LensOk, CreditOk, Balance, Lead, OpsOk, LensUpTo;
    var t := Steps(s, ops);
    RunCredit(s, ops, maxlen);
    LensWeaken(s, ops, maxlen);
    RunLead(s, ops, a, b);
    RefillsInTurn(s, ops, a, b);
    BytesArePaid(s, ops, a);
    BytesArePaid(s, ops, b);
    DeficitDrift(s, t, a, maxlen);
    DeficitDrift(s, t, b, maxlen);
    Spread(s.quantum, RefillsDuring(s, ops, a), RefillsDuring(s, ops, b), SentDuring(s, ops, a), SentDuring(s, ops, b),
           s.quantum + (maxlen - 1));
  }

  // ---------------------------------------------------------------- calls are runs of trips

  lemma {:induction false} StepsConcat(s: Sched, xs: seq<Op>, ys: seq<Op>)
    requires Valid(s) && OpsOk(xs, |s.flows|) && OpsOk(ys, |s.flows|)
    ensures OpsOk(xs + ys, |s.flows|)
    ensures Steps(s, xs + ys) == Steps(Steps(s, xs), ys)
    decreases |xs|
  {
    hide Valid, Step, OpOk;
    if xs == [] {
      assert xs + ys == ys;
    } else {
      StepKeeps(s, xs[0]);
      StepsConcat(Step(s, xs[0]), xs[1..], ys);
      assert (xs + ys)[1..] == xs[1..] + ys;
    }
  }

  /** The steps of one call: only an enqueue puts a packet in, and only its own. */
  predicate StepsOf(ops: seq<Op>, call: Call) {
    forall i :: 0 <= i < |ops| && ops[i].Put? ==> call.Enq? && ops[i] == Put(call.c, call.pkt)
  }

  lemma OneStep(s: Sched, op: Op)
    requires Valid(s) && OpOk(op, |s.flows|)
    ensures OpsOk([op], |s.flows|) && Steps(s, [op]) == Step(s, op)
  {
    StepKeeps(s, op);
    hide Valid, Step;
    assert Steps(Step(s, op), []) == Step(s, op);
  }

  /** A call of fq_codel_dequeue is a sequence of trips, with the clock moving in between. */
  lemma {:induction false} DequeueIsSteps(s: Sched, ticks: Ticks, k: nat) returns (ops: seq<Op>)
    requires Live(s)
    ensures OpsOk(ops, |s.flows|) && (forall i :: 0 <= i < |ops| ==> ops[i].Pause? || ops[i].Go?)
    ensures var t := Dequeue(s, ticks, k); Steps(s, ops) == t.s.(parent := t.s.parent - |Hand(t.skb)|)
    decreases Packets(s), |s.newFlows| + |s.oldFlows|, Debt(s), |s.newFlows|
  {
    hide Valid, LatePass, Steps, JustSent;
    LateKeeps(s, ticks(k));
    TripIsSteps(s, ticks(k));
    var t := LatePass(s, ticks(k));
    var first := [Pause(ticks(k)), Go];
    if t.done {
      ops := first;
    } else {
      var rest := DequeueIsSteps(t.s, ticks, k + 1);
      assert t.s.(parent := t.s.parent - |Hand(t.skb)|) == t.s;
      StepsConcat(s, first, rest);
      ops := first + rest;
    }
  }

  lemma TripIsSteps(s: Sched, dt: nat)
    requires Valid(s)
    ensures var t := LatePass(s, dt); Steps(s, [Pause(dt), Go]) == t.s.(parent := t.s.parent - |Hand(t.skb)|)
  {
    hide Valid, Pass, Steps;
    var l := Late(s, dt);
    TickKeeps(s, dt);
    OneStep(s, Pause(dt));
    OneStep(l, Go);
    StepsConcat(s, [Pause(dt)], [Go]);
    assert [Pause(dt)] + [Go] == [Pause(dt), Go];
  }

  /** Dropping one packet for a smaller limit: a dequeue, which the parent does not count, and a free. */
  lemma DiscardIsSteps(s: Sched, ticks: Ticks) returns (ops: seq<Op>)
    requires Live(s) && s.sh.qlen > 0
    ensures OpsOk(ops, |s.flows|) && (forall i :: 0 <= i < |ops| ==> !ops[i].Put?)
    ensures Steps(s, ops) == Discard(s, ticks)
  {
    hide Valid, Dequeue, Step, Pass;
    var trips := DequeueIsSteps(s, ticks, 0);
    DequeueKeeps(s, ticks, 0);
    var t := Steps(s, trips);
    var d := Dequeue(s, ticks, 0);
    var restore := Set(d.s.params, d.s.limit, d.s.sh.dropCount, d.s.parent);
    OneStep(t, restore);
    SetIs(t, restore);
    ScrapIs(d.s, d.skb.value);
    StepsConcat(s, trips, [restore]);
    StepsConcat(s, trips + [restore], [Scrap(d.skb.value)]);
    ops := trips + [restore] + [Scrap(d.skb.value)];
  }

  lemma ScrapIs(s: Sched, p: Packet)
    requires Valid(s) && JustSent(s, p)
    ensures OpsOk([Scrap(p)], |s.flows|) && Steps(s, [Scrap(p)]) == Free(s, p)
  {
    OneStep(s, Scrap(p));
  }

  lemma SetIs(s: Sched, op: Op)
    requires Valid(s) && op.Set?
    ensures Step(s, op) == s.(params := op.params, limit := op.limit, parent := op.parent,
                              sh := s.sh.(dropCount := op.dropCount))
  {}

  lemma {:induction false} TrimIsSteps(s: Sched, ticks: nat -> Ticks, k: nat) returns (ops: seq<Op>)
    requires Live(s)
    ensures OpsOk(ops, |s.flows|) && (forall i :: 0 <= i < |ops| ==> !ops[i].Put?)
    ensures Steps(s, ops) == Trim(s, ticks, k)
    decreases Packets(s)
  {
    if s.sh.qlen > s.limit {
      QlenNonNeg(s);
      DiscardKeeps(s, ticks(k));
      var one := DiscardIsSteps(s, ticks(k));
      var rest := TrimIsSteps(Discard(s, ticks(k)), ticks, k + 1);
      hide Valid, Step, Discard;
      StepsConcat(s, one, rest);
      ops := one + rest;
    } else {
      ops := [];
    }
  }

  /** Reconfiguring without a new quantum: set, trim, report. */
  lemma ChangeIsSteps(s: Sched, params: Params, limit: nat, turns: nat -> Ticks) returns (ops: seq<Op>)
    requires Live(s)
    ensures OpsOk(ops, |s.flows|) && (forall i :: 0 <= i < |ops| ==> !ops[i].Put?)
    ensures Steps(s, ops) == Change(s, params, limit, None, turns)
  {
    hide Valid, Step, Trim;
    var first := Set(params, limit, s.sh.dropCount, s.parent);
    var c := Configured(s, params, limit, None);
    ConfiguredKeeps(s, params, limit, None);
    OneStep(s, first);
    SetIs(s, first);
    var trims := TrimIsSteps(c, turns, 0);
    TrimKeeps(c, turns, 0);
    var t := Trim(c, turns, 0);
    var last := Set(t.params, t.limit, 0, t.parent - t.sh.dropCount);
    OneStep(t, last);
    SetIs(t, last);
    StepsConcat(c, trims, [last]);
    StepsConcat(s, [first], trims + [last]);
    ops := [first] + (trims + [last]);
  }

  /** A call that leaves the quantum alone. */
  predicate KeepsQuantum(call: Call) { call.Cfg? ==> call.quantum == None }

  /** A run of calls, in which everything but the quantum may be reconfigured, is a run of steps. */
  lemma {:induction false} CallsAreSteps(s: Sched, calls: seq<Call>) returns (ops: seq<Op>)
    requires Sound(s) && RunOk(calls, |s.flows|)
    requires forall i :: 0 <= i < |calls| ==> KeepsQuantum(calls[i])
    ensures OpsOk(ops, |s.flows|) && Steps(s, ops) == Run(s, calls)
    decreases |calls|
  {
    if calls == [] {
      ops := [];
    } else {
      ApplyKeeps(s, calls[0]);
      var first := CallIsSteps(s, calls[0]);
      hide Sound, Apply, CallOk, OpOk;
      var rest := CallsAreSteps(Apply(s, calls[0]), calls[1..]);
      StepsConcat(s, first, rest);
      ops := first + rest;
    }
  }

  lemma DequeueCallIsSteps(s: Sched, ticks: Ticks) returns (ops: seq<Op>)
    requires Live(s)
    ensures OpsOk(ops, |s.flows|) && (forall i :: 0 <= i < |ops| ==> !ops[i].Put?)
    ensures Steps(s, ops) == DequeueCall(s, ticks).s
  {
    ops := DequeueIsSteps(s, ticks, 0);
    hide Steps, Dequeue;
    var t := Dequeue(s, ticks, 0);
    assert t.skb.None? ==> t.s.(parent := t.s.parent - |Hand(t.skb)|) == t.s;
  }

  lemma CallIsSteps(s: Sched, call: Call) returns (ops: seq<Op>)
    requires Live(s) && CallOk(call, |s.flows|) && KeepsQuantum(call)
    ensures OpsOk(ops, |s.flows|) && Steps(s, ops) == Apply(s, call) && StepsOf(ops, call)
  {
    hide Valid, DequeueCall, Enqueue, Change, Steps;
    match call
    case Tick(dt) =>
      ops := [Pause(dt)];
      OneStep(s, ops[0]);
    case Enq(c, pkt) =>
      ops := [Put(c, pkt)];
      OneStep(s, ops[0]);
    case Deq(ticks) =>
      ops := DequeueCallIsSteps(s, ticks);
    case Cfg(params, limit, _, turns) =>
      ops := ChangeIsSteps(s, params, limit, turns);
  }
}
