/** Runs of the scheduler cut into single trips, with enqueues and clock ticks interleaved
    anywhere: no starvation and byte fairness. */
module FqRuns {
  import opened Wrappers
  import opened Newton
  import opened Codel
  import opened CodelProofs
  import opened FqCodel
  import opened Sums
  import opened FqProofs
  import opened FqCalls
  import opened Words

  // ---------------------------------------------------------------- steps

  /** The clock moves, a packet comes, one trip is made, the packet just delivered is freed, or everything is
      set that is neither a flow, a list, the quantum nor the length of a queue. */
  datatype Op =
    | Pause(dt: nat)
    | Put(c: Class, pkt: Packet)
    | Go
    | Scrap(pkt: Packet)
    | Set(params: Params, limit: nat, dropCount: nat, parent: int)

  predicate OpOk(op: Op, cnt: nat) {
    op.Put? ==> op.pkt.len >= 1 && (op.c.Into? ==> op.c.flow < cnt)
  }

  predicate OpsOk(ops: seq<Op>, cnt: nat) {
    forall i :: 0 <= i < |ops| ==> OpOk(ops[i], cnt)
  }

  /** One trip; the parent counts the packet it gets. */
  function Travel(s: Sched): Sched
    requires Busy(s) ==> Head(s) < |s.flows|
  {
    var t := Pass(s);
    t.s.(parent := t.s.parent - |Hand(t.skb)|)
  }

  /** Free, as a step that does nothing to any other packet. */
  function Scrapped(s: Sched, p: Packet): Sched { if JustSent(s, p) then Free(s, p) else s }

  ghost function Step(s: Sched, op: Op): Sched
    requires Valid(s) && OpOk(op, |s.flows|)
  {
    match op
    case Pause(dt) => s.(clock := s.clock + dt)
    case Put(c, pkt) => Enqueue(s, c, pkt).s
    case Go => PassKeeps(s); Travel(s)
    case Scrap(pkt) => Scrapped(s, pkt)
    case Set(params, limit, dropCount, parent) =>
      s.(params := params, limit := limit, parent := parent, sh := s.sh.(dropCount := dropCount))
  }

  lemma TravelKeeps(s: Sched)
    requires Valid(s)
    ensures Busy(s) ==> Head(s) < |s.flows|
    ensures Valid(Travel(s))
    ensures |Travel(s).flows| == |s.flows| && Travel(s).quantum == s.quantum && Travel(s).clock == s.clock
  {
    PassKeeps(s);
    PassFixed(s);
    var t := Pass(s).s;
    assert t.sh.maxpacket >= 1;
    hide Valid, Pass;
    ValidFrame(t, Travel(s));
  }

  lemma StepKeeps(s: Sched, op: Op)
    requires Valid(s) && OpOk(op, |s.flows|)
    ensures Valid(Step(s, op)) && |Step(s, op).flows| == |s.flows| && Step(s, op).quantum == s.quantum
  {
    hide Valid, Enqueue, Travel;
    MaxpacketPositive(s);
    match op
    case Set(_, _, _, _) => ValidFrame(s, Step(s, op));
    case Pause(dt) => TickKeeps(s, dt);
    case Put(c, pkt) => EnqueueKeeps(s, c, pkt); EnqueueQuantum(s, c, pkt);
    case Go => TravelKeeps(s);
    case Scrap(pkt) => ScrapKeeps(s, pkt);
  }

  lemma ScrapKeeps(s: Sched, p: Packet)
    requires Valid(s)
    ensures var t := Scrapped(s, p); Valid(t) && |t.flows| == |s.flows| && t.quantum == s.quantum
  {
    if JustSent(s, p) {
      FreeKeeps(s, p);
      hide Valid;
    }
  }

  ghost function Steps(s: Sched, ops: seq<Op>): (t: Sched)
    requires Valid(s) && OpsOk(ops, |s.flows|)
    ensures Valid(t) && |t.flows| == |s.flows| && t.quantum == s.quantum
    decreases |ops|
  {
    if ops == [] then s
    else
      StepKeeps(s, ops[0]);
      hide Valid, Step, OpOk;
      Steps(Step(s, ops[0]), ops[1..])
  }

  // ---------------------------------------------------------------- positions on a list

  function Pos(xs: seq<nat>, x: nat): (p: nat)
    requires x in xs
    ensures p < |xs| && xs[p] == x
  {
    if xs[0] == x then 0 else 1 + Pos(xs[1..], x)
  }

  lemma {:induction false} PosSnoc(xs: seq<nat>, y: nat, x: nat)
    requires x in xs
    ensures Pos(xs + [y], x) == Pos(xs, x)
  {
    if xs[0] != x {
      assert (xs + [y])[1..] == xs[1..] + [y];
      PosSnoc(xs[1..], y, x);
    }
  }

  lemma {:induction false} PosLast(xs: seq<nat>, y: nat)
    requires y !in xs
    ensures Pos(xs + [y], y) == |xs|
  {
    if xs != [] {
      assert (xs + [y])[1..] == xs[1..] + [y];
      PosLast(xs[1..], y);
    }
  }

  /** j stands behind a on old_flows. */
  predicate Behind(s: Sched, a: nat, j: nat) {
    a in s.oldFlows && j in s.oldFlows && Pos(s.oldFlows, a) < Pos(s.oldFlows, j)
  }

  predicate Ahead(s: Sched, a: nat, j: nat) { Behind(s, j, a) }

  /** The trip that starts now examines a. */
  predicate Examines(s: Sched, a: nat) { s.newFlows == [] && s.oldFlows != [] && s.oldFlows[0] == a }

  /** Apart from i, both lists look the same from a. */
  ghost predicate SameView(s: Sched, t: Sched, a: nat, i: nat) {
    forall j: nat :: j != i ==>
      ((j in t.oldFlows <==> j in s.oldFlows) && (j in t.newFlows <==> j in s.newFlows) &&
       (Behind(t, a, j) <==> Behind(s, a, j)) && (Ahead(t, a, j) <==> Ahead(s, a, j)))
  }

  /** Moving the head to the tail keeps the distances between the others. */
  lemma RotatePos(s: Sched, a: nat, j: nat)
    requires ListsOk(s) && Busy(s) && a in s.oldFlows && j in s.oldFlows && a != Head(s) && j != Head(s)
    ensures var r := Rotate(s);
      && a in r.oldFlows && j in r.oldFlows
      && Pos(r.oldFlows, j) - Pos(r.oldFlows, a) == Pos(s.oldFlows, j) - Pos(s.oldFlows, a)
  {
    var i, u := Head(s), Unlink(s);
    if s.newFlows != [] { TailDistinct(s.newFlows); } else { TailDistinct(s.oldFlows); }
    PosSnoc(u.oldFlows, i, a);
    PosSnoc(u.oldFlows, i, j);
  }

  /** What moving the head to the tail of old_flows does to the order. */
  lemma RotateOrder(s: Sched, a: nat)
    requires ListsOk(s) && Busy(s) && a in s.oldFlows && !Examines(s, a)
    ensures var r := Rotate(s); var i := Head(s);
      i != a && a in r.oldFlows && Behind(r, a, i) && SameView(s, r, a, i)
  {
    var r, i, u := Rotate(s), Head(s), Unlink(s);
    assert i != a by { HeadListed(s); }
    RotatePos(s, a, a);
    LastIsBehind(s, a);
    UnlinkLists(s);
    hide Pos, ListsOk;
    forall j: nat | j != i
      ensures (j in r.oldFlows <==> j in s.oldFlows) && (j in r.newFlows <==> j in s.newFlows)
      ensures (Behind(r, a, j) <==> Behind(s, a, j)) && (Ahead(r, a, j) <==> Ahead(s, a, j))
    {
      RotateMembers(s, j);
      if j in s.oldFlows { RotatePos(s, a, j); }
    }
  }

  lemma LastIsBehind(s: Sched, a: nat)
    requires ListsOk(s) && Busy(s) && a in s.oldFlows && a != Head(s)
    ensures Behind(Rotate(s), a, Head(s))
  {
    var i, u := Head(s), Unlink(s);
    UnlinkLists(s);
    if s.newFlows != [] { TailDistinct(s.newFlows); } else { TailDistinct(s.oldFlows); }
    PosSnoc(u.oldFlows, i, a);
    PosLast(u.oldFlows, i);
  }

  lemma RotateMembers(s: Sched, j: nat)
    requires ListsOk(s) && Busy(s) && j != Head(s)
    ensures j in Rotate(s).oldFlows <==> j in s.oldFlows
    ensures j in Rotate(s).newFlows <==> j in s.newFlows
  {
    if s.newFlows != [] { TailDistinct(s.newFlows); } else { TailDistinct(s.oldFlows); }
  }

  /** What taking the head off its list does to the order. */
  lemma UnlinkOrder(s: Sched, a: nat)
    requires ListsOk(s) && Busy(s) && a in s.oldFlows && !Examines(s, a)
    ensures var u := Unlink(s); var i := Head(s);
      i != a && a in u.oldFlows && i !in u.oldFlows && i !in u.newFlows && SameView(s, u, a, i)
  {
    UnlinkLists(s);
    if s.newFlows != [] { TailDistinct(s.newFlows); } else { TailDistinct(s.oldFlows); }
  }

  // ---------------------------------------------------------------- what one trip does

  predicate SameLists(s: Sched, t: Sched) { t.newFlows == s.newFlows && t.oldFlows == s.oldFlows }

  ghost function SentBy(f: Flow): seq<Packet> { Pick(Sent, f.q.log) }

  /** The effect of a trip on the examined flow i, on the other flows and on the lists. */
  ghost predicate TripIs(s: Sched, t: Sched, i: nat, skb: Option<Packet>)
    requires Busy(s) && i < |s.flows| == |t.flows|
  {
    var f, g := s.flows[i], t.flows[i];
    && (forall j :: 0 <= j < |s.flows| && j != i ==> t.flows[j] == s.flows[j])
    && SentBy(g) == SentBy(f) + Hand(skb) && Pick(Came, g.q.log) == Pick(Came, f.q.log)
    && if f.deficit <= 0 then
         skb.None? && SameLists(Rotate(s), t) && g.deficit == Signed(f.deficit + s.quantum) &&
         Refills(g.q.log) == Refills(f.q.log) + 1
       else
         Refills(g.q.log) == Refills(f.q.log) &&
         match skb
         case Some(p) => SameLists(s, t) && p.len >= 1 && g.deficit == Signed(f.deficit - p.len)
         case None => SameLists(Retire(s), t) && g.deficit == f.deficit
  }

  lemma ServedLog(s: Sched)
    requires Valid(s) && Busy(s) && Head(s) < |s.flows|
    ensures var o, q := Served(s), s.flows[Head(s)].q;
      && Pick(Sent, o.q.log) == Pick(Sent, q.log) + Hand(o.skb) && Refills(o.q.log) == Refills(q.log)
      && Pick(Came, o.q.log) == Pick(Came, q.log)
      && (o.skb.Some? ==> o.skb.value.len >= 1)
  {
    CodelDequeueKeeps(s.sh, s.flows[Head(s)].q, s.params, s.clock);
  }

  lemma RefillTrip(s: Sched)
    requires Busy(s) && Head(s) < |s.flows| && s.flows[Head(s)].deficit <= 0
    ensures TripIs(s, Travel(s), Head(s), None) && Pass(s).skb == None
  {
    hide CodelDequeue, Handed, Pick, Refills;
    LogGrows(s.flows[Head(s)].q.log, Event.Refilled);
    assert Travel(s) == Refill(s);
  }

  lemma ServeTrip(s: Sched)
    requires Busy(s) && Head(s) < |s.flows| && s.flows[Head(s)].deficit > 0 && Served(s).skb.Some?
    requires SentBy(AfterCodel(s, Head(s), Served(s)).flows[Head(s)]) == SentBy(s.flows[Head(s)]) + Hand(Served(s).skb)
    requires Pick(Came, Served(s).q.log) == Pick(Came, s.flows[Head(s)].q.log)
    requires Refills(Served(s).q.log) == Refills(s.flows[Head(s)].q.log) && Served(s).skb.value.len >= 1
    ensures TripIs(s, Travel(s), Head(s), Served(s).skb) && Pass(s).skb == Served(s).skb
  {
    hide CodelDequeue, Pick, Refills, Signed;
  }

  lemma RetireTrip(s: Sched)
    requires Busy(s) && Head(s) < |s.flows| && s.flows[Head(s)].deficit > 0 && Served(s).skb.None?
    requires SentBy(AfterCodel(s, Head(s), Served(s)).flows[Head(s)]) == SentBy(s.flows[Head(s)]) + Hand(None)
    requires Pick(Came, Served(s).q.log) == Pick(Came, s.flows[Head(s)].q.log)
    requires Refills(Served(s).q.log) == Refills(s.flows[Head(s)].q.log)
    ensures TripIs(s, Travel(s), Head(s), None) && Pass(s).skb == None
  {
    hide CodelDequeue, Pick, Refills, Signed;
    assert Travel(s) == Retire(AfterCodel(s, Head(s), Served(s)));
  }

  lemma TripEffect(s: Sched)
    requires Valid(s) && Busy(s)
    ensures Head(s) < |s.flows| == |Travel(s).flows|
    ensures TripIs(s, Travel(s), Head(s), Pass(s).skb)
  {
    HeadListed(s);
    PassFixed(s);
    ServedLog(s);
    hide CodelDequeue, Valid, TripIs, Pass;
    if s.flows[Head(s)].deficit <= 0 { RefillTrip(s); }
    else if Served(s).skb.Some? { ServeTrip(s); }
    else { RetireTrip(s); }
  }

  // ---------------------------------------------------------------- no starvation

  function Pos0(x: int): nat { if x > 0 then x else 0 }

  /** What flow j may still send before a is examined. */
  function PhiOf(s: Sched, a: nat): nat -> int {
    (j: nat) =>
      if j >= |s.flows| || j == a || Behind(s, a, j) then 0
      else if j in s.newFlows then Pos0(s.flows[j].deficit)
      else if j in s.oldFlows then s.quantum + Pos0(s.flows[j].deficit)
      else s.quantum
  }

  ghost function SentOf(s: Sched): nat -> int {
    (j: nat) => if j < |s.flows| then |SentBy(s.flows[j])| else 0
  }

  ghost function Phi(s: Sched, a: nat): int { Sum(|s.flows|, PhiOf(s, a)) }
  ghost function SentTotal(s: Sched): int { Sum(|s.flows|, SentOf(s)) }

  /** No flow sends without using up what it may still send. */
  ghost predicate Spends(s: Sched, t: Sched, a: nat) {
    |t.flows| == |s.flows| &&
    forall j: nat :: j < |s.flows| ==> PhiOf(t, a)(j) + SentOf(t)(j) <= PhiOf(s, a)(j) + SentOf(s)(j)
  }

  lemma {:induction false} SpendsSums(s: Sched, t: Sched, a: nat)
    requires Spends(s, t, a)
    ensures Phi(t, a) + SentTotal(t) <= Phi(s, a) + SentTotal(s)
  {
    SumPairs(|s.flows|, PhiOf(s, a), SentOf(s), PhiOf(t, a), SentOf(t));
  }

  lemma {:induction false} SumPairs(n: nat, p: nat -> int, q: nat -> int, p': nat -> int, q': nat -> int)
    requires forall j: nat :: j < n ==> p'(j) + q'(j) <= p(j) + q(j)
    ensures Sum(n, p') + Sum(n, q') <= Sum(n, p) + Sum(n, q)
  {
    if n > 0 { SumPairs(n - 1, p, q, p', q'); }
  }

  /** The flows other than i keep their weight while the view from a is the same. */
  lemma OthersKeep(s: Sched, t: Sched, a: nat, i: nat, j: nat)
    requires SameView(s, t, a, i) && |t.flows| == |s.flows| && t.quantum == s.quantum
    requires j != i && j < |s.flows| && t.flows[j] == s.flows[j]
    ensures PhiOf(t, a)(j) + SentOf(t)(j) == PhiOf(s, a)(j) + SentOf(s)(j)
  {
    hide Behind;
  }

  /** What a sees of the order depends on the lists only. */
  lemma ViewFrame(s: Sched, r: Sched, t: Sched, a: nat, i: nat)
    requires SameView(s, r, a, i) && SameLists(r, t)
    ensures SameView(s, t, a, i) && (Behind(r, a, i) <==> Behind(t, a, i))
  {}

  /** The examined flow when it moves behind a: it may send nothing more. */
  lemma RotatedSpends(s: Sched, t: Sched, a: nat)
    requires ListsOk(s) && Busy(s) && Head(s) < |s.flows| == |t.flows| && t.quantum == s.quantum
    requires SameLists(Rotate(s), t) && SentBy(t.flows[Head(s)]) == SentBy(s.flows[Head(s)])
    requires forall j :: 0 <= j < |s.flows| && j != Head(s) ==> t.flows[j] == s.flows[j]
    requires a in s.oldFlows && !Examines(s, a)
    ensures Spends(s, t, a) && a in t.oldFlows
    ensures forall j: nat :: Behind(s, a, j) ==> Behind(t, a, j)
  {
    hide ListsOk, Behind, Rotate, SentBy;
    var i := Head(s);
    RotateOrder(s, a);
    ViewFrame(s, Rotate(s), t, a, i);
    assert a in t.oldFlows by { BehindListed(t, a, i); }
    assert !Behind(s, a, i) by { HeadNotBehind(s, a); }
    forall j: nat | j < |s.flows| ensures PhiOf(t, a)(j) + SentOf(t)(j) <= PhiOf(s, a)(j) + SentOf(s)(j) {
      if j != i { OthersKeep(s, t, a, i, j); }
    }
  }

  lemma BehindListed(s: Sched, a: nat, j: nat)
    requires Behind(s, a, j)
    ensures a in s.oldFlows && j in s.oldFlows
  {}

  /** The examined flow when it leaves old_flows: it may come back once as a new flow. */
  lemma UnlinkedSpends(s: Sched, t: Sched, a: nat)
    requires ListsOk(s) && Busy(s) && Head(s) < |s.flows| == |t.flows| && t.quantum == s.quantum
    requires s.newFlows == [] && SameLists(Unlink(s), t) && SentBy(t.flows[Head(s)]) == SentBy(s.flows[Head(s)])
    requires forall j :: 0 <= j < |s.flows| && j != Head(s) ==> t.flows[j] == s.flows[j]
    requires a in s.oldFlows && !Examines(s, a)
    ensures Spends(s, t, a) && a in t.oldFlows
    ensures forall j: nat :: Behind(s, a, j) ==> Behind(t, a, j)
  {
    var i := Head(s);
    UnlinkOrder(s, a);
    HeadNotBehind(s, a);
    assert SameView(s, t, a, i);
    forall j: nat | j < |s.flows| ensures PhiOf(t, a)(j) + SentOf(t)(j) <= PhiOf(s, a)(j) + SentOf(s)(j) {
      if j != i { OthersKeep(s, t, a, i, j); }
    }
  }

  /** The examined flow when it sends: its deficit pays. */
  lemma ServedSpends(s: Sched, t: Sched, p: Packet, a: nat)
    requires ListsOk(s) && Busy(s) && Head(s) < |s.flows| == |t.flows| && t.quantum == s.quantum
    requires SameLists(s, t) && SentBy(t.flows[Head(s)]) == SentBy(s.flows[Head(s)]) + [p] && p.len >= 1
    requires s.flows[Head(s)].deficit > 0 && t.flows[Head(s)].deficit == s.flows[Head(s)].deficit - p.len
    requires forall j :: 0 <= j < |s.flows| && j != Head(s) ==> t.flows[j] == s.flows[j]
    requires a in s.oldFlows && !Examines(s, a)
    ensures Spends(s, t, a) && a in t.oldFlows
    ensures forall j: nat :: Behind(s, a, j) ==> Behind(t, a, j)
  {
    hide ListsOk, Behind, SentBy;
    var i := Head(s);
    HeadNotBehind(s, a);
    SameListsView(s, t, a);
    forall j: nat | j < |s.flows| ensures PhiOf(t, a)(j) + SentOf(t)(j) <= PhiOf(s, a)(j) + SentOf(s)(j) {
      if j != i { OthersKeep(s, t, a, i, j); }
    }
  }

  lemma SameListsView(s: Sched, t: Sched, a: nat)
    requires SameLists(s, t)
    ensures forall j: nat :: Behind(t, a, j) <==> Behind(s, a, j)
    ensures forall i: nat :: SameView(s, t, a, i)
  {}

  /** A trip that does not examine a spends, leaves a on old_flows, and leaves every flow
      that is behind a behind a: such a flow cannot become new again before a is passed. */
  lemma TripSpends(s: Sched, t: Sched, skb: Option<Packet>, a: nat)
    requires ListsOk(s) && Busy(s) && Head(s) < |s.flows| == |t.flows| && t.quantum == s.quantum
    requires TripIs(s, t, Head(s), skb) && (skb.Some? ==> skb.value.len <= TWO31)
    requires a in s.oldFlows && !Examines(s, a)
    ensures Spends(s, t, a) && a in t.oldFlows
    ensures forall j: nat :: Behind(s, a, j) ==> Behind(t, a, j)
  {
    hide ListsOk, Behind, Spends, SentBy;
    if s.flows[Head(s)].deficit <= 0 || (skb.None? && s.newFlows != []) {
      RotatedSpends(s, t, a);
    } else if skb.Some? {
      ServedSpends(s, t, skb.value, a);
    } else {
      UnlinkedSpends(s, t, a);
    }
  }

  lemma HeadNotBehind(s: Sched, a: nat)
    requires ListsOk(s) && Busy(s) && a in s.oldFlows
    ensures !Examines(s, a) ==> Head(s) != a
    ensures !Behind(s, a, Head(s)) && (Head(s) in s.newFlows || Head(s) in s.oldFlows)
  {
    if s.newFlows != [] { assert s.newFlows[0] in s.newFlows; } else { assert s.oldFlows[0] in s.oldFlows; }
  }

  // ---------------------------------------------------------------- enqueues

  /** Every flow has sent and been refilled as much as before. */
  ghost predicate SameTraffic(s: Sched, t: Sched) {
    |t.flows| == |s.flows| &&
    forall j :: 0 <= j < |s.flows| ==>
      SentBy(t.flows[j]) == SentBy(s.flows[j]) && Refills(t.flows[j].q.log) == Refills(s.flows[j].q.log)
  }

  /** Every deficit but that of the flow being listed is as before. */
  predicate SameDeficits(s: Sched, t: Sched, listed: Option<nat>) {
    |t.flows| == |s.flows| &&
    forall j :: 0 <= j < |s.flows| && listed != Some(j) ==> t.flows[j].deficit == s.flows[j].deficit
  }

  /** What an enqueue does: it may list one unlisted flow, with a full quantum. */
  ghost predicate PutIs(s: Sched, t: Sched, listed: Option<nat>) {
    && SameTraffic(s, t) && SameDeficits(s, t, listed) && t.oldFlows == s.oldFlows && t.quantum == s.quantum
    && match listed
       case None => t.newFlows == s.newFlows
       case Some(i) =>
         i < |s.flows| && !Listed(s, i) && t.newFlows == s.newFlows + [i] && t.flows[i].deficit == Signed(s.quantum)
  }

  lemma PutAfter(s: Sched, t: Sched, u: Sched, listed: Option<nat>)
    requires PutIs(s, t, None) && PutIs(t, u, listed)
    ensures PutIs(s, u, listed)
  {
    hide SentBy, Refills;
  }

  lemma PutBefore(s: Sched, t: Sched, u: Sched, listed: Option<nat>)
    requires PutIs(s, t, listed) && PutIs(t, u, None)
    ensures PutIs(s, u, listed)
  {
    hide SentBy, Refills;
  }

  /** Only the queue of flow i changes. */
  lemma QueuePuts(s: Sched, t: Sched, i: nat, f: Flow)
    requires i < |s.flows| && t.flows == s.flows[i := f] && SameLists(s, t) && t.quantum == s.quantum
    requires SentBy(f) == SentBy(s.flows[i]) && Refills(f.q.log) == Refills(s.flows[i].q.log)
    requires f.deficit == s.flows[i].deficit
    ensures PutIs(s, t, None)
  {
    hide SentBy, Refills;
  }

  lemma AppendPuts(s: Sched, i: nat, pkt: Packet)
    requires i < |s.flows|
    ensures PutIs(s, Append(s, i, pkt), None)
  {
    LogGrows(s.flows[i].q.log, Arrived(pkt.(enq := s.clock)));
    hide PutIs, Pick, Refills;
    QueuePuts(s, Append(s, i, pkt), i, Append(s, i, pkt).flows[i]);
  }

  function ListedBy(s: Sched, i: nat): Option<nat> { if Listed(s, i) then None else Some(i) }

  /** The flow that an enqueue puts on new_flows. */
  function NewlyListed(s: Sched, c: Class): Option<nat> { if c.Into? then ListedBy(s, c.flow) else None }

  lemma ListPuts(s: Sched, i: nat)
    requires i < |s.flows|
    ensures PutIs(s, ListIfNew(s, i), ListedBy(s, i))
  {
    if Listed(s, i) {
      NothingPuts(s, s);
    } else {
      ListLog(s, i);
      ListNewPuts(s, i);
    }
  }

  lemma ListLog(s: Sched, i: nat)
    requires i < |s.flows|
    ensures var t := ListIfNew(s, i);
      |t.flows| == |s.flows| && SentBy(t.flows[i]) == SentBy(s.flows[i]) &&
      Refills(t.flows[i].q.log) == Refills(s.flows[i].q.log)
  {
    LogGrows(s.flows[i].q.log, Restarted);
  }

  lemma ListNewPuts(s: Sched, i: nat)
    requires i < |s.flows| && !Listed(s, i)
    requires var t := ListIfNew(s, i);
      |t.flows| == |s.flows| && SentBy(t.flows[i]) == SentBy(s.flows[i]) &&
      Refills(t.flows[i].q.log) == Refills(s.flows[i].q.log)
    ensures PutIs(s, ListIfNew(s, i), Some(i))
  {
    hide SentBy, Refills;
  }

  /** A step that touches neither flows nor lists. */
  lemma NothingPuts(s: Sched, t: Sched)
    requires t.flows == s.flows && SameLists(s, t) && t.quantum == s.quantum
    ensures PutIs(s, t, None)
  {
    hide SentBy, Refills;
  }

  lemma EvictPuts(s: Sched, i: nat)
    requires i < |s.flows|
    ensures PutIs(s, Evict(s, i), None)
  {
    hide PutIs;
    if s.flows[i].q.pkts == [] {
      NothingPuts(s, s);
    } else {
      EvictLog(s, i);
      hide SentBy, Refills;
      QueuePuts(s, Evict(s, i), i, Evict(s, i).flows[i]);
    }
  }

  lemma EvictLog(s: Sched, i: nat)
    requires i < |s.flows| && s.flows[i].q.pkts != []
    ensures SentBy(Evict(s, i).flows[i]) == SentBy(s.flows[i])
    ensures Refills(Evict(s, i).flows[i].q.log) == Refills(s.flows[i].q.log)
  {
    LogGrows(s.flows[i].q.log, Evicted(s.flows[i].q.pkts[0]));
  }

  lemma QueuedPuts(s: Sched, i: nat, pkt: Packet)
    requires i < |s.flows|
    ensures PutIs(s, Queued(s, i, pkt), ListedBy(s, i))
    ensures |Queued(s, i, pkt).flows| == |s.flows|
  {
    var a := Append(s, i, pkt);
    AppendPuts(s, i, pkt);
    ListPuts(a, i);
    assert ListedBy(a, i) == ListedBy(s, i);
    hide Append, ListIfNew, PutIs, ListedBy;
    PutAfter(s, a, ListIfNew(a, i), ListedBy(s, i));
  }

  lemma OverflowPuts(s: Sched, i: nat, pkt: Packet)
    requires i < |s.flows|
    ensures PutIs(s, Overflowed(s, i, pkt), ListedBy(s, i))
  {
    hide Queued, Evict, FatScan, ListedBy, PutIs;
    var t := Queued(s, i, pkt);
    var t' := t.(overlimit := t.overlimit + 1);
    QueuedPuts(s, i, pkt);
    NothingPuts(t, t');
    PutBefore(s, t, t', ListedBy(s, i));
    EvictPuts(t', FatScan(t.flows, |t.flows|).1);
    PutBefore(s, t', Overflowed(s, i, pkt), ListedBy(s, i));
  }

  lemma EnqueuePuts(s: Sched, c: Class, pkt: Packet)
    requires c.Into? ==> c.flow < |s.flows|
    ensures PutIs(s, Enqueue(s, c, pkt).s, NewlyListed(s, c))
  {
    var a := Enqueue(s, c, pkt).s;
    match c
    case Refused(_) => NothingPuts(s, a);
    case Into(i) =>
      QueuedPuts(s, i, pkt);
      OverflowPuts(s, i, pkt);
      AdmissionOf(s, i, pkt);
      var t := Queued(s, i, pkt);
      hide Queued, Overflowed, Enqueue, PutIs, ListedBy;
      if t.sh.qlen < t.limit {
        NothingPuts(t, a);
        PutBefore(s, t, a, ListedBy(s, i));
      }
  }

  /** Freeing a packet changes no flow but its history. */
  lemma ScrapPuts(s: Sched, p: Packet)
    ensures PutIs(s, Scrapped(s, p), None)
  {
    hide PutIs;
    if JustSent(s, p) {
      var i := Head(s);
      ScrapLog(s, p);
      hide SentBy, Refills;
      QueuePuts(s, Free(s, p), i, Free(s, p).flows[i]);
    } else {
      NothingPuts(s, s);
    }
  }

  lemma ScrapLog(s: Sched, p: Packet)
    requires JustSent(s, p)
    ensures var f, g := s.flows[Head(s)], Free(s, p).flows[Head(s)];
      SentBy(g) == SentBy(f) && Refills(g.q.log) == Refills(f.q.log) && Pick(Came, g.q.log) == Pick(Came, f.q.log)
  {
    LogGrows(s.flows[Head(s)].q.log, Freed(p));
  }

  lemma PutSpends(s: Sched, t: Sched, listed: Option<nat>, a: nat)
    requires PutIs(s, t, listed) && a in s.oldFlows
    ensures Spends(s, t, a) && a in t.oldFlows
    ensures forall j: nat :: Behind(s, a, j) ==> Behind(t, a, j)
  {
    hide SentBy, Refills;
    forall j: nat | j < |s.flows| ensures PhiOf(t, a)(j) + SentOf(t)(j) <= PhiOf(s, a)(j) + SentOf(s)(j) {
      PutSpendsAt(s, t, listed, a, j);
    }
  }

  lemma PutSpendsAt(s: Sched, t: Sched, listed: Option<nat>, a: nat, j: nat)
    requires PutIs(s, t, listed) && a in s.oldFlows && j < |s.flows|
    ensures PhiOf(t, a)(j) + SentOf(t)(j) <= PhiOf(s, a)(j) + SentOf(s)(j)
  {
    hide SentBy, Refills, Pos;
  }

  // ---------------------------------------------------------------- lengths of packets

  /** No packet that ever came is longer than maxlen. */
  ghost predicate LensOk(s: Sched, maxlen: nat) {
    forall i :: 0 <= i < |s.flows| ==> NoLonger(Pick(Came, s.flows[i].q.log), maxlen)
  }

  predicate NoLonger(ps: seq<Packet>, maxlen: nat) {
    forall k :: 0 <= k < |ps| ==> ps[k].len <= maxlen
  }

  predicate OpLenOk(op: Op, maxlen: nat) { op.Put? ==> op.pkt.len <= maxlen }

  lemma {:induction false} SentAmongLeft(log: seq<Event>, p: Packet)
    requires p in Pick(Sent, log)
    ensures p in Pick(Left, log)
  {
    var init := log[..|log| - 1];
    if p in Pick(Sent, init) { SentAmongLeft(init, p); }
  }

  /** A packet that is sent once came in, so it is not too long. */
  lemma SentNotLonger(q: Queue, p: Packet, clock: nat, maxlen: nat)
    requires QueueOk(None, q, clock) && NoLonger(Pick(Came, q.log), maxlen)
    requires p in Pick(Sent, q.log)
    ensures p.len <= maxlen
  {
    SentAmongLeft(q.log, p);
    var gone := Pick(Left, q.log);
    assert Pick(Came, q.log) == gone + Hand(None) + q.pkts;
    var k :| 0 <= k < |gone| && gone[k] == p;
    assert Pick(Came, q.log)[k] == p;
  }

  lemma TripLen(s: Sched, maxlen: nat)
    requires Valid(s) && Busy(s) && Head(s) < |s.flows| == |Travel(s).flows| && LensOk(s, maxlen)
    requires TripIs(s, Travel(s), Head(s), Pass(s).skb)
    ensures LensOk(Travel(s), maxlen)
    ensures Pass(s).skb.Some? ==> Pass(s).skb.value.len <= maxlen
  {
    hide Travel, Pass, ListsOk, SumsOk;
    var i, t := Head(s), Travel(s);
    TravelKeeps(s);
    if Pass(s).skb.Some? {
      var p := Pass(s).skb.value;
      assert SentBy(t.flows[i])[|SentBy(s.flows[i])|] == p;
      SentNotLonger(t.flows[i].q, p, t.clock, maxlen);
    }
  }

  lemma OneLens(s: Sched, t: Sched, i: nat, maxlen: nat)
    requires LensOk(s, maxlen) && i < |s.flows| == |t.flows|
    requires forall j :: 0 <= j < |s.flows| && j != i ==> t.flows[j] == s.flows[j]
    requires NoLonger(Pick(Came, t.flows[i].q.log), maxlen)
    ensures LensOk(t, maxlen)
  {}

  lemma QueuedLens(s: Sched, i: nat, pkt: Packet, maxlen: nat)
    requires i < |s.flows| && LensOk(s, maxlen) && pkt.len <= maxlen
    ensures LensOk(Queued(s, i, pkt), maxlen) && |Queued(s, i, pkt).flows| == |s.flows|
  {
    hide LensOk;
    var log, p := s.flows[i].q.log, pkt.(enq := s.clock);
    LogGrows(log, Arrived(p));
    LogGrows(log + [Arrived(p)], Restarted);
    assert NoLonger(Pick(Came, log), maxlen) by { LensAt(s, i, maxlen); }
    OneLens(s, Queued(s, i, pkt), i, maxlen);
  }

  lemma LensAt(s: Sched, i: nat, maxlen: nat)
    requires i < |s.flows| && LensOk(s, maxlen)
    ensures NoLonger(Pick(Came, s.flows[i].q.log), maxlen)
  {}

  lemma EvictLens(t: Sched, i: nat, maxlen: nat)
    requires i < |t.flows| && LensOk(t, maxlen)
    ensures LensOk(Evict(t, i), maxlen)
  {
    hide LensOk;
    if t.flows[i].q.pkts != [] {
      LogGrows(t.flows[i].q.log, Evicted(t.flows[i].q.pkts[0]));
      LensAt(t, i, maxlen);
      OneLens(t, Evict(t, i), i, maxlen);
    }
  }

  lemma FrameLens(s: Sched, t: Sched, maxlen: nat)
    requires t.flows == s.flows && LensOk(s, maxlen)
    ensures LensOk(t, maxlen)
  {}

  lemma PutLens(s: Sched, c: Class, pkt: Packet, maxlen: nat)
    requires c.Into? ==> c.flow < |s.flows|
    requires LensOk(s, maxlen) && pkt.len <= maxlen
    ensures LensOk(Enqueue(s, c, pkt).s, maxlen)
  {
    hide LensOk, Queued, Evict;
    var a := Enqueue(s, c, pkt).s;
    match c
    case Refused(_) => FrameLens(s, a, maxlen);
    case Into(i) =>
      QueuedLens(s, i, pkt, maxlen);
      AdmissionOf(s, i, pkt);
      var t := Queued(s, i, pkt);
      var t' := t.(overlimit := t.overlimit + 1);
      FrameLens(t, t', maxlen);
      EvictLens(t', FatScan(t.flows, |t.flows|).1, maxlen);
      hide Enqueue;
      if t.sh.qlen < t.limit { FrameLens(t, a, maxlen); }
  }

  lemma ScrapLens(s: Sched, p: Packet, maxlen: nat)
    requires LensOk(s, maxlen)
    ensures LensOk(Scrapped(s, p), maxlen)
  {
    hide LensOk;
    if JustSent(s, p) {
      ScrapLog(s, p);
      LensAt(s, Head(s), maxlen);
      OneLens(s, Free(s, p), Head(s), maxlen);
    }
  }

  lemma StepLens(s: Sched, op: Op, maxlen: nat)
    requires Valid(s) && OpOk(op, |s.flows|) && OpLenOk(op, maxlen) && LensOk(s, maxlen)
    ensures LensOk(Step(s, op), maxlen)
    ensures Busy(s) ==> Head(s) < |s.flows|
    ensures op.Go? && Pass(s).skb.Some? ==> Pass(s).skb.value.len <= maxlen
  {
    hide FlowsOk, SumsOk, Enqueue, Pass, Travel, TripIs, LensOk;
    TravelKeeps(s);
    match op
    case Pause(dt) => FrameLens(s, Step(s, op), maxlen);
    case Set(_, _, _, _) => FrameLens(s, Step(s, op), maxlen);
    case Scrap(pkt) => ScrapLens(s, pkt, maxlen);
    case Put(c, pkt) => PutLens(s, c, pkt, maxlen);
    case Go =>
      if Busy(s) {
        TripEffect(s);
        TripLen(s, maxlen);
      } else {
        IdleTravel(s);
      }
  }

  lemma IdleTravel(s: Sched)
    requires !Busy(s)
    ensures Travel(s) == s && Pass(s).skb == None
  {}

  // ---------------------------------------------------------------- the theorem

  /** Listed flows never hold more than one quantum of credit. */
  ghost predicate Capped(s: Sched) {
    forall j :: 0 <= j < |s.flows| && Listed(s, j) ==> s.flows[j].deficit <= s.quantum
  }

  lemma StepSpends(s: Sched, op: Op, a: nat)
    requires Valid(s) && OpOk(op, |s.flows|) && a in s.oldFlows
    requires LensOk(s, TWO31) && OpLenOk(op, TWO31)
    requires !(op.Go? && Examines(s, a))
    ensures Spends(s, Step(s, op), a) && a in Step(s, op).oldFlows
    ensures forall j: nat :: Behind(s, a, j) ==> Behind(Step(s, op), a, j)
  {
    hide QueueOk, SumsOk, FlowsOk, Enqueue, Pass, TripIs, PutIs, Spends, LensOk;
    match op
    case Pause(dt) => SameSpends(s, Step(s, op), a);
    case Set(_, _, _, _) => SameSpends(s, Step(s, op), a);
    case Scrap(pkt) =>
      ScrapPuts(s, pkt);
      PutSpends(s, Scrapped(s, pkt), None, a);
    case Put(c, pkt) =>
      EnqueuePuts(s, c, pkt);
      PutSpends(s, Enqueue(s, c, pkt).s, NewlyListed(s, c), a);
    case Go =>
      TravelKeeps(s);
      TripEffect(s);
      StepLens(s, op, TWO31);
      TripSpends(s, Travel(s), Pass(s).skb, a);
  }

  lemma SameSpends(s: Sched, t: Sched, a: nat)
    requires SameLists(s, t) && t.flows == s.flows && t.quantum == s.quantum
    ensures Spends(s, t, a)
  {}

  /** No step of the run examines a. */
  ghost predicate NeverExamined(s: Sched, ops: seq<Op>, a: nat)
    requires Valid(s) && OpsOk(ops, |s.flows|)
    decreases |ops|
  {
    ops == [] ||
    (StepKeeps(s, ops[0]);
     !(ops[0].Go? && Examines(s, a)) && NeverExamined(Step(s, ops[0]), ops[1..], a))
  }

  lemma {:induction false} RunSpends(s: Sched, ops: seq<Op>, a: nat)
    requires Valid(s) && OpsOk(ops, |s.flows|) && a in s.oldFlows && NeverExamined(s, ops, a)
    requires LensOk(s, TWO31) && forall i :: 0 <= i < |ops| ==> OpLenOk(ops[i], TWO31)
    ensures SentTotal(Steps(s, ops)) + Phi(Steps(s, ops), a) <= SentTotal(s) + Phi(s, a)
    ensures forall j: nat :: Behind(s, a, j) ==> Behind(Steps(s, ops), a, j)
    decreases |ops|
  {
    hide Valid, Step, Phi, SentTotal, Spends, Behind, LensOk, OpLenOk;
    if ops != [] {
      StepKeeps(s, ops[0]);
      StepLens(s, ops[0], TWO31);
      StepSpends(s, ops[0], a);
      SpendsSums(s, Step(s, ops[0]), a);
      RunSpends(Step(s, ops[0]), ops[1..], a);
    }
  }

  lemma PhiNonNeg(s: Sched, a: nat)
    ensures 0 <= Phi(s, a)
  {
    SumNonNeg(|s.flows|, PhiOf(s, a));
  }

  lemma PhiBoundAt(s: Sched, a: nat, j: nat)
    requires Capped(s) && j < |s.flows|
    ensures PhiOf(s, a)(j) <= 2 * s.quantum && PhiOf(s, a)(a) == 0
  {
    hide Behind;
  }

  lemma PhiBound(s: Sched, a: nat)
    requires Capped(s) && a < |s.flows|
    ensures Phi(s, a) <= 2 * s.quantum * (|s.flows| - 1)
  {
    hide Behind;
    var q2 := 2 * s.quantum;
    forall j: nat | j < |s.flows| ensures PhiOf(s, a)(j) <= q2 && PhiOf(s, a)(a) == 0 { PhiBoundAt(s, a, j); }
    hide Capped, PhiOf;
    SumBoundBut(|s.flows|, PhiOf(s, a), q2, a);
    assert (|s.flows| - 1) * q2 == q2 * (|s.flows| - 1);
  }

  /** No starvation: from the moment a flow is on old_flows, whatever is enqueued meanwhile,
      at most two quanta of packets per other flow are sent before it is examined; and the
      flows that were behind it are still behind it. */
  lemma NoStarvation(s: Sched, ops: seq<Op>, a: nat)
    requires Valid(s) && Capped(s) && OpsOk(ops, |s.flows|)
    requires LensOk(s, TWO31) && forall i :: 0 <= i < |ops| ==> OpLenOk(ops[i], TWO31)
    requires a in s.oldFlows && NeverExamined(s, ops, a)
    ensures SentTotal(Steps(s, ops)) - SentTotal(s) <= 2 * s.quantum * (|s.flows| - 1)
    ensures forall j: nat :: Behind(s, a, j) ==> Behind(Steps(s, ops), a, j)
  {
    RunSpends(s, ops, a);
    PhiBound(s, a);
    hide Phi, SentTotal, Steps, Behind, Valid, LensOk;
    PhiNonNeg(Steps(s, ops), a);
  }
}
