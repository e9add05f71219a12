/** How long a flow on old_flows waits to be served: past each time it is examined and only refilled. */
module FqService {
  import opened Wrappers
  import opened Codel
  import opened CodelProofs
  import opened FqCodel
  import opened Sums
  import opened FqProofs
  import opened FqCalls
  import opened FqRuns
  import opened FqFair
  import opened Words

  /** The refills a flow needs before it may send: the least k with deficit + k * quantum > 0. */
  function Waits(d: int, q: nat): (k: nat)
    requires d <= q && q > 0
    ensures d + k * q > 0 && (k > 0 ==> d + (k - 1) * q <= 0)
  {
    if d > 0 then 0
    else
      DivTwice(q - d, q);
      (q - d) / q
  }

  lemma DivTwice(x: nat, q: nat)
    requires q > 0
    ensures x / q * q <= x < (x / q + 1) * q
  {}

  lemma WaitsLess(d: int, q: nat)
    requires d <= 0 < q
    ensures Waits(d + q, q) == Waits(d, q) - 1
  {
    LeastIs(d + q, q, Waits(d, q) - 1);
  }

  lemma LeastIs(d: int, q: nat, k: nat)
    requires d <= q && q > 0 && d + k * q > 0 && (k > 0 ==> d + (k - 1) * q <= 0)
    ensures Waits(d, q) == k
  {
    var w := Waits(d, q);
    if w < k { MulMono(w, k - 1, q); }
    if k < w { MulMono(k, w - 1, q); }
  }

  lemma MulMono(a: int, b: int, q: nat)
    requires a <= b
    ensures a * q <= b * q
  {}

  /** What the other flows may send between two examinations of one. */
  function Round(s: Sched): int { 2 * s.quantum * (|s.flows| - 1) }

  /** What all flows may still send before a is served. */
  ghost function Owed(s: Sched, a: nat): int
    requires a < |s.flows| && s.flows[a].deficit <= s.quantum && s.quantum > 0
  {
    Phi(s, a) + Round(s) * Waits(s.flows[a].deficit, s.quantum)
  }

  /** A step that keeps a on old_flows and sends nothing of a examines it only to refill it. */
  lemma SilentTrip(s: Sched, t: Sched, skb: Option<Packet>, a: nat)
    requires ListsOk(s) && Busy(s) && Head(s) < |s.flows| == |t.flows| && TripIs(s, t, Head(s), skb)
    requires Examines(s, a) && a in t.oldFlows && |SentBy(t.flows[a])| == |SentBy(s.flows[a])|
    ensures skb.None? && s.flows[a].deficit <= 0 && t.flows[a].deficit == Signed(s.flows[a].deficit + s.quantum)
    ensures SentTotal(t) == SentTotal(s)
  {
    UnlinkLists(s);
    hide SentBy, Refills;
    SumSame(|s.flows|, SentOf(s), SentOf(t));
  }

  /** A trip that examines another flow leaves a as it is. */
  lemma OtherTrip(s: Sched, t: Sched, skb: Option<Packet>, a: nat)
    requires ListsOk(s) && Busy(s) && Head(s) < |s.flows| == |t.flows| && TripIs(s, t, Head(s), skb)
    requires a in s.oldFlows && !Examines(s, a)
    ensures a < |s.flows| && t.flows[a] == s.flows[a]
  {
    HeadNotBehind(s, a);
  }

  lemma PutLeaves(s: Sched, t: Sched, listed: Option<nat>, a: nat)
    requires PutIs(s, t, listed) && a < |s.flows| && a in s.oldFlows
    ensures t.flows[a].deficit == s.flows[a].deficit && SentBy(t.flows[a]) == SentBy(s.flows[a])
  {
    hide SentBy, Refills;
  }

  lemma SendsMore(s: Sched, t: Sched, skb: Option<Packet>, a: nat)
    requires Busy(s) && Head(s) < |s.flows| == |t.flows| && TripIs(s, t, Head(s), skb) && a < |s.flows|
    ensures |SentBy(t.flows[a])| >= |SentBy(s.flows[a])|
  {
    hide SentBy, Refills;
  }

  /** A step that does not examine a leaves its deficit alone; no step takes back what a has sent. */
  lemma StepLeaves(s: Sched, op: Op, a: nat)
    requires Valid(s) && OpOk(op, |s.flows|) && a < |s.flows| && a in s.oldFlows
    ensures var t := Step(s, op);
      && |t.flows| == |s.flows| && |SentBy(t.flows[a])| >= |SentBy(s.flows[a])|
      && (!(op.Go? && Examines(s, a)) ==> t.flows[a].deficit == s.flows[a].deficit)
  {
    hide FlowsOk, SumsOk, Enqueue, Pass, Travel, TripIs, PutIs, SentBy, Refills;
    StepKeeps(s, op);
    match op
    case Pause(_) =>
    case Set(_, _, _, _) =>
    case Put(c, pkt) =>
      EnqueuePuts(s, c, pkt);
      PutLeaves(s, Enqueue(s, c, pkt).s, NewlyListed(s, c), a);
    case Scrap(pkt) =>
      ScrapPuts(s, pkt);
      PutLeaves(s, Scrapped(s, pkt), None, a);
    case Go =>
      TripEffect(s);
      SendsMore(s, Travel(s), Pass(s).skb, a);
      if !Examines(s, a) { OtherTrip(s, Travel(s), Pass(s).skb, a); }
  }

  predicate InRange(s: Sched, maxlen: nat) { 0 < s.quantum < TWO31 && 1 <= maxlen <= TWO31 }

  lemma Within(s: Sched, a: nat, maxlen: nat)
    requires CreditOk(s, maxlen) && a < |s.flows| && a in s.oldFlows
    ensures 1 - maxlen <= s.flows[a].deficit <= s.quantum && Capped(s)
  {
    assert Listed(s, a);
  }

  /** A step that keeps a on old_flows and sends nothing of a pays from what is owed. */
  lemma SilentStep(s: Sched, op: Op, a: nat, maxlen: nat)
    requires Valid(s) && OpOk(op, |s.flows|) && InRange(s, maxlen) && a < |s.flows|
    requires LensOk(s, maxlen) && OpLenOk(op, maxlen) && CreditOk(s, maxlen)
    requires var t := Step(s, op);
      a in s.oldFlows && a in t.oldFlows && |t.flows| == |s.flows| &&
      |SentBy(t.flows[a])| == |SentBy(s.flows[a])|
    ensures var t := Step(s, op);
      && t.quantum == s.quantum
      && s.flows[a].deficit <= s.quantum && t.flows[a].deficit <= t.quantum
      && SentTotal(t) + Owed(t, a) <= SentTotal(s) + Owed(s, a)
  {
    hide Valid, Step, LensOk, CreditOk, SentBy, Phi, SentTotal, Spends, Capped, OpOk, OpLenOk, Waits;
    var t := Step(s, op);
    StepKeeps(s, op);
    StepCredit(s, op, maxlen);
    Within(s, a, maxlen);
    Within(t, a, maxlen);
    if op.Go? && Examines(s, a) {
      SilentGo(s, a, maxlen);
      PhiBound(t, a);
      PhiNonNeg(s, a);
      WaitsLess(s.flows[a].deficit, s.quantum);
      var w := Waits(t.flows[a].deficit, t.quantum);
      assert Round(s) * (w + 1) == Round(s) * w + Round(s);
    } else {
      StepLeaves(s, op, a);
      LensWider(s, op, maxlen);
      StepSpends(s, op, a);
      SpendsSums(s, t, a);
    }
  }

  lemma LensWider(s: Sched, op: Op, maxlen: nat)
    requires LensOk(s, maxlen) && OpLenOk(op, maxlen) && maxlen <= TWO31
    ensures LensOk(s, TWO31) && OpLenOk(op, TWO31)
  {}

  lemma SilentGo(s: Sched, a: nat, maxlen: nat)
    requires Valid(s) && InRange(s, maxlen) && CreditOk(s, maxlen) && a < |s.flows| && a in s.oldFlows && Examines(s, a)
    requires var t := Step(s, Go);
      a in t.oldFlows && |t.flows| == |s.flows| && |SentBy(t.flows[a])| == |SentBy(s.flows[a])|
    ensures var t := Step(s, Go);
      && s.flows[a].deficit <= 0 && t.flows[a].deficit == s.flows[a].deficit + s.quantum
      && SentTotal(t) == SentTotal(s)
  {
    Within(s, a, maxlen);
    hide FlowsOk, SumsOk, Pass, Travel, TripIs, SentBy, CreditOk, SentTotal;
    TripEffect(s);
    SilentTrip(s, Travel(s), Pass(s).skb, a);
  }

  lemma {:induction false} SentGrows(s: Sched, ops: seq<Op>, a: nat)
    requires Valid(s) && OpsOk(ops, |s.flows|) && a < |s.flows| && StaysOld(s, ops, a)
    ensures |SentBy(Steps(s, ops).flows[a])| >= |SentBy(s.flows[a])|
    decreases |ops|
  {
    hide Valid, Step, OpOk, SentBy;
    if ops != [] {
      StepKeeps(s, ops[0]);
      StepLeaves(s, ops[0], a);
      SentGrows(Step(s, ops[0]), ops[1..], a);
    }
  }

  lemma {:induction false} SilentRun(s: Sched, ops: seq<Op>, a: nat, maxlen: nat)
    requires Valid(s) && OpsOk(ops, |s.flows|) && InRange(s, maxlen) && a < |s.flows|
    requires LensOk(s, maxlen) && LensUpTo(ops, maxlen) && CreditOk(s, maxlen)
    requires StaysOld(s, ops, a) && |SentBy(Steps(s, ops).flows[a])| == |SentBy(s.flows[a])|
    ensures var t := Steps(s, ops);
      && s.flows[a].deficit <= s.quantum && t.flows[a].deficit <= t.quantum
      && SentTotal(t) + Owed(t, a) <= SentTotal(s) + Owed(s, a)
    decreases |ops|
  {
    hide Valid, Step, LensOk, CreditOk, SentBy, Owed, SentTotal, OpOk, OpLenOk;
    if ops != [] {
      var t := Step(s, ops[0]);
      StepKeeps(s, ops[0]);
      StepCredit(s, ops[0], maxlen);
      StepLeaves(s, ops[0], a);
      SentGrows(t, ops[1..], a);
      assert a in t.oldFlows;
      SilentStep(s, ops[0], a, maxlen);
      SilentRun(t, ops[1..], a, maxlen);
    } else {
      Within(s, a, maxlen);
    }
  }

  /** Service: over any run over which a flow stays on old_flows and sends nothing, the others together send
      at most two quanta of packets each for every refill it needs and one more. So by then the flow has
      sent or has been found empty. */
  lemma ServiceBound(s: Sched, ops: seq<Op>, a: nat, maxlen: nat)
    requires Valid(s) && OpsOk(ops, |s.flows|) && InRange(s, maxlen) && a < |s.flows|
    requires LensOk(s, maxlen) && LensUpTo(ops, maxlen) && CreditOk(s, maxlen)
    requires StaysOld(s, ops, a) && |SentBy(Steps(s, ops).flows[a])| == |SentBy(s.flows[a])|
    ensures s.flows[a].deficit <= s.quantum
    ensures SentTotal(Steps(s, ops)) - SentTotal(s) <=
            2 * s.quantum * (|s.flows| - 1) * (Waits(s.flows[a].deficit, s.quantum) + 1)
  {
    hide Phi, SentTotal, Steps, Valid, LensOk, CreditOk, SentBy, Waits, Capped, OpsOk, LensUpTo;
    assert a in s.oldFlows;
    hide StaysOld;
    SilentRun(s, ops, a, maxlen);
    Within(s, a, maxlen);
    PhiBound(s, a);
    PhiNonNeg(s, a);
    PhiNonNeg(Steps(s, ops), a);
    OwedBounds(s, a);
    OwedBounds(Steps(s, ops), a);
  }

  lemma OwedBounds(s: Sched, a: nat)
    requires a < |s.flows| && s.flows[a].deficit <= s.quantum && s.quantum > 0
    requires 0 <= Phi(s, a)
    ensures 0 <= Owed(s, a)
    ensures Phi(s, a) <= Round(s) ==> Owed(s, a) <= Round(s) * (Waits(s.flows[a].deficit, s.quantum) + 1)
  {
    hide Phi, Waits;
    var w := Waits(s.flows[a].deficit, s.quantum);
    MulMono(0, w, Round(s));
    assert Round(s) * (w + 1) == Round(s) * w + Round(s);
  }
}
