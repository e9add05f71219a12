/** What the CoDel control loop keeps, whatever the packets and the clock are.

    QueueOk is the invariant of one queue. It holds in every intermediate state of
    codel_dequeue, with the packet the code holds in its hand as first argument. */
module CodelProofs {
  import opened Wrappers
  import opened Newton
  import opened Codel
  import opened Words

  // ---------------------------------------------------------------- reading the log

  datatype Kind = Came | Left | Sent | Lost | Flagged

  predicate Picks(k: Kind, e: Event) {
    match k
    case Came => e.Arrived?
    case Left => e.Dropped? || e.Delivered? || e.Evicted?
    case Sent => e.Delivered?
    case Lost => e.Dropped? || e.Evicted? || e.Freed?
    case Flagged => e.Marked?
  }

  function PickOne(k: Kind, e: Event): seq<Packet> {
    if Picks(k, e) then [e.pkt] else []
  }

  /** The packets of one kind, in the order of the log. */
  function Pick(k: Kind, log: seq<Event>): seq<Packet> {
    if log == [] then [] else Pick(k, log[..|log| - 1]) + PickOne(k, log[|log| - 1])
  }

  /** The packets that were delivered and not freed thereupon. */
  function Handed(log: seq<Event>): seq<Packet> {
    var n := |log|;
    if n == 0 then []
    else if log[n - 1].Freed? then (if n == 1 then [] else Handed(log[..n - 2]))
    else Handed(log[..n - 1]) + PickOne(Sent, log[n - 1])
  }

  function Refills(log: seq<Event>): nat {
    if log == [] then 0
    else Refills(log[..|log| - 1]) + (if log[|log| - 1].Refilled? then 1 else 0)
  }

  lemma LogGrows(log: seq<Event>, e: Event)
    ensures forall k :: Pick(k, log + [e]) == Pick(k, log) + PickOne(k, e)
    ensures Refills(log + [e]) == Refills(log) + (if e.Refilled? then 1 else 0)
    ensures !e.Freed? ==> Handed(log + [e]) == Handed(log) + PickOne(Sent, e)
  {
    assert (log + [e])[..|log|] == log;
  }

  // ---------------------------------------------------------------- the invariant

  /** The packet left more than maxpacket bytes queued and passed the target test. */
  predicate Above(e: Event)
    requires e.Judged?
  {
    !TimeBefore(Low32(Low32(e.clock) - Low32(e.pkt.enq)), e.params.target) && e.left > e.maxpacket
  }

  /** Events that do not close the window opened by first_above_time. */
  predicate KeepsAbove(e: Event) {
    if e.Judged? then Above(e) else !e.Starved? && !e.Restarted?
  }

  ghost predicate AboveFrom(log: seq<Event>, k: int, m: int) {
    0 <= k <= m <= |log| && forall j :: k <= j < m ==> KeepsAbove(log[j])
  }

  ghost predicate OpenedAt(log: seq<Event>, k: int, fat: u32) {
    && 0 <= k < |log| && log[k].Judged?
    && Low32(log[k].clock + log[k].params.interval) == fat
    && AboveFrom(log, k, |log|)
  }

  /** A nonzero first_above_time was set by a packet since which everything was above. */
  ghost predicate Window(q: Queue) {
    q.vars.firstAbove != 0 ==> exists k :: OpenedAt(q.log, k, q.vars.firstAbove)
  }

  ghost predicate BackedAt(log: seq<Event>, k: int, m: int)
    requires 0 <= m < |log| && log[m].Judged?
  {
    && 0 <= k < m && log[k].Judged?
    && TimeAfter(Low32(log[m].clock), Low32(log[k].clock + log[k].params.interval))
    && AboveFrom(log, k, m + 1)
  }

  ghost predicate EventOk(log: seq<Event>, m: int, clock: nat)
    requires 0 <= m < |log|
  {
    match log[m]
    case Judged(pkt, at, _, _, _, verdict) =>
      pkt.enq <= at <= clock && (verdict ==> exists k :: BackedAt(log, k, m))
    case Dropped(pkt) => m > 0 && log[m - 1].Judged? && log[m - 1].pkt == pkt && log[m - 1].verdict
    case Marked(pkt) => m > 0 && log[m - 1].Judged? && log[m - 1].pkt == pkt && log[m - 1].verdict
    case Freed(pkt) => m > 0 && log[m - 1] == Delivered(pkt)
    case _ => true
  }

  ghost predicate ClocksSorted(log: seq<Event>) {
    forall i, j :: 0 <= i < j < |log| && log[i].Judged? && log[j].Judged? ==> log[i].clock <= log[j].clock
  }

  ghost predicate LogOk(log: seq<Event>, clock: nat) {
    ClocksSorted(log) && forall m :: 0 <= m < |log| ==> EventOk(log, m, clock)
  }

  /** Holds in every reachable state, also across the wrap of count: once count can wrap,
      the estimate has come down to 1 and never leaves 0..1 until it is reset. */
  predicate NewtonOk(v: Vars) {
    Under(v.count, v.recInvSqrt) && (v.recInvSqrt <= 1 || 1 <= v.lastcount <= v.count)
  }

  predicate PktsOk(ps: seq<Packet>, clock: nat) {
    forall i :: 0 <= i < |ps| ==> 1 <= ps[i].len && ps[i].enq <= clock
  }

  /** Head drops only: what came is what left, then the packet in hand, then the queue. */
  ghost predicate Fifo(skb: Option<Packet>, q: Queue) {
    Pick(Came, q.log) == Pick(Left, q.log) + Hand(skb) + q.pkts
  }

  ghost predicate QueueOk(skb: Option<Packet>, q: Queue, clock: nat) {
    && Fifo(skb, q) && q.bytes == Bytes(q.pkts) && NewtonOk(q.vars) && Window(q)
    && LogOk(q.log, clock) && PktsOk(Hand(skb) + q.pkts, clock)
  }

  predicate JustJudged(skb: Packet, q: Queue) {
    |q.log| > 0 && q.log[|q.log| - 1].Judged? && q.log[|q.log| - 1].pkt == skb && q.log[|q.log| - 1].verdict
  }

  // ---------------------------------------------------------------- appending to the log

  lemma WindowGrows(log: seq<Event>, e: Event, k: int, fat: u32)
    requires OpenedAt(log, k, fat) && KeepsAbove(e)
    ensures OpenedAt(log + [e], k, fat)
  {}

  lemma BackedGrows(log: seq<Event>, e: Event, k: int, m: int)
    requires 0 <= m < |log| && log[m].Judged? && BackedAt(log, k, m)
    ensures BackedAt(log + [e], k, m)
  {
    var l := log + [e];
    forall j | k <= j < m + 1 ensures KeepsAbove(l[j]) { assert l[j] == log[j]; }
  }

  lemma LogOkGrows(log: seq<Event>, e: Event, clock: nat)
    requires LogOk(log, clock)
    requires EventOk(log + [e], |log|, clock)
    requires e.Judged? ==> e.clock == clock
    ensures LogOk(log + [e], clock)
  {
    var l := log + [e];
    forall m | 0 <= m < |l| ensures EventOk(l, m, clock) {
      if m < |log| {
        assert EventOk(log, m, clock);
        assert l[m] == log[m] && (m > 0 ==> l[m - 1] == log[m - 1]);
        if log[m].Judged? && log[m].verdict {
          var k :| BackedAt(log, k, m);
          BackedGrows(log, e, k, m);
        }
      }
    }
    forall i, j | 0 <= i < j < |l| && l[i].Judged? && l[j].Judged? ensures l[i].clock <= l[j].clock {
      if j == |log| { assert EventOk(log, i, clock); }
    }
  }

  /** A later clock keeps everything. */
  lemma ClockMoves(skb: Option<Packet>, q: Queue, clock: nat, clock': nat)
    requires QueueOk(skb, q, clock) && clock <= clock'
    ensures QueueOk(skb, q, clock')
  {
    forall m | 0 <= m < |q.log| ensures EventOk(q.log, m, clock') {
      assert EventOk(q.log, m, clock);
    }
  }

  predicate EndsDelivered(log: seq<Event>, p: Packet) {
    log != [] && log[|log| - 1] == Delivered(p)
  }

  /** An event that is neither a judgement nor a CoDel drop or mark, and frees only what was just delivered. */
  lemma PlainEvent(q: Queue, e: Event, clock: nat)
    requires Window(q) && LogOk(q.log, clock)
    requires !e.Judged? && !e.Dropped? && !e.Marked?
    requires e.Freed? ==> EndsDelivered(q.log, e.pkt)
    requires KeepsAbove(e) || q.vars.firstAbove == 0
    ensures Window(Log(q, e)) && LogOk(Log(q, e).log, clock)
  {
    LogOkGrows(q.log, e, clock);
    if q.vars.firstAbove != 0 {
      var k :| OpenedAt(q.log, k, q.vars.firstAbove);
      WindowGrows(q.log, e, k, q.vars.firstAbove);
    }
  }

  /** Dropping or marking the packet that was just judged droppable. */
  lemma FateEvent(q: Queue, e: Event, clock: nat)
    requires Window(q) && LogOk(q.log, clock)
    requires e.Dropped? || e.Marked?
    requires JustJudged(e.pkt, q)
    ensures Window(Log(q, e)) && LogOk(Log(q, e).log, clock)
  {
    var l := q.log + [e];
    assert l[|q.log| - 1] == q.log[|q.log| - 1];
    LogOkGrows(q.log, e, clock);
    if q.vars.firstAbove != 0 {
      var k :| OpenedAt(q.log, k, q.vars.firstAbove);
      WindowGrows(q.log, e, k, q.vars.firstAbove);
    }
  }

  // ---------------------------------------------------------------- the variables

  lemma StepFromUnder(count: u32, v: Vars)
    requires NewtonOk(v)
    requires v.recInvSqrt <= 1 || 1 <= count <= v.count + 1
    ensures NewtonStep(count, v.recInvSqrt) == IdealStep(count, v.recInvSqrt)
    ensures Under(count, NewtonStep(count, v.recInvSqrt))
    ensures v.recInvSqrt <= 1 ==> NewtonStep(count, v.recInvSqrt) <= v.recInvSqrt
  {
    var r := v.recInvSqrt;
    StillBelowThree(v.count, count, r);
    MachineStepIsIdeal(count, r);
    IdealLandsUnder(count, r);
    if r <= 1 { SmallStaysSmall(count, r); }
  }

  lemma StillBelowThree(old_: u32, count: u32, r: u16)
    requires Under(old_, r) && (r <= 1 || count <= old_ + 1)
    ensures count * (r * r) <= 3 * TWO32
  {
    var s := r * r;
    if r <= 1 {
      assert s == r;
    } else {
      SquareBelow(r, TWO16);
      MulMono(count, old_ + 1, s);
      assert (old_ + 1) * s == old_ * s + s;
    }
  }

  lemma SmallStaysSmall(count: u32, r: u16)
    requires r <= 1
    ensures IdealStep(count, r) <= r
  {
    assert r * r == r;
    if r == 1 {
      assert IdealStep(count, 1) == (3 * TWO32 - count) / 4 / TWO31;
    } else {
      assert (3 * TWO32 - count * 0) / 4 * 0 == 0;
    }
  }

  lemma EscalateOk(v: Vars)
    requires NewtonOk(v)
    ensures NewtonOk(Escalate(v))
  {
    hide NewtonStep;
    if v.count == TWO32 - 1 { UnderBound(v.count, v.recInvSqrt); }
    StepFromUnder((v.count + 1) % TWO32, v);
  }

  lemma EnterOk(v: Vars, p: Params, clock: nat)
    requires NewtonOk(v)
    ensures NewtonOk(Enter(v, p, clock))
    ensures Enter(v, p, clock).firstAbove == v.firstAbove
  {
    hide NewtonStep, ControlLaw, TimeBefore;
    var c := OrOne((v.count - v.lastcount) % TWO32);
    StepFromUnder(c, v);
  }

  /** Changing only the drop schedule does not touch the window. */
  lemma VarsChange(skb: Option<Packet>, q: Queue, v: Vars, clock: nat)
    requires QueueOk(skb, q, clock)
    requires NewtonOk(v) && v.firstAbove == q.vars.firstAbove
    ensures QueueOk(skb, q.(vars := v), clock)
  {}

  // ---------------------------------------------------------------- one operation at a time

  /** What codel_dequeue moves, from a state with skb in hand to o. */
  predicate Moves(skb: Option<Packet>, sh: Shared, q: Queue, o: Out) {
    && |o.q.pkts| <= |q.pkts|
    && o.sh.qlen - |o.q.pkts| == sh.qlen - |q.pkts|
    && o.sh.backlog - Bytes(o.q.pkts) == sh.backlog - Bytes(q.pkts)
    && o.sh.dropCount + |Hand(o.skb)| + |o.q.pkts| == sh.dropCount + |Hand(skb)| + |q.pkts|
    && o.sh.drops - sh.drops == o.sh.dropCount - sh.dropCount
    && o.sh.ecnMark >= sh.ecnMark
    && o.sh.maxpacket >= sh.maxpacket
    && Pick(Came, o.q.log) == Pick(Came, q.log)
    && Pick(Sent, o.q.log) == Pick(Sent, q.log) && Handed(o.q.log) == Handed(q.log)
    && Refills(o.q.log) == Refills(q.log)
  }

  lemma PopKeeps(sh: Shared, q: Queue, clock: nat)
    requires QueueOk(None, q, clock)
    ensures QueueOk(Pop(sh, q).skb, Pop(sh, q).q, clock)
  {
    var o := Pop(sh, q);
    if q.pkts != [] {
      assert q.pkts == [q.pkts[0]] + q.pkts[1..];
      assert Hand(o.skb) + o.q.pkts == q.pkts;
      assert forall x: seq<Packet> :: x + Hand(None) + q.pkts == x + Hand(o.skb) + o.q.pkts;
    } else {
      assert Hand(o.skb) + o.q.pkts == q.pkts;
    }
    assert Hand(None) + q.pkts == q.pkts;
  }

  /** Judging extends the window, opens it or closes it; an affirmative verdict is backed. */
  lemma JudgeAppend(log: seq<Event>, e: Event, fat: u32, fat': u32, clock: nat)
    requires LogOk(log, clock) && e.Judged? && e.clock == clock && e.pkt.enq <= clock
    requires fat != 0 ==> exists k :: OpenedAt(log, k, fat)
    requires fat' != 0 ==> Above(e) && (fat' == fat || (fat == 0 && fat' == Low32(clock + e.params.interval)))
    requires e.verdict ==> fat != 0 && fat' == fat && TimeAfter(Low32(clock), fat)
    ensures LogOk(log + [e], clock)
    ensures fat' != 0 ==> exists k :: OpenedAt(log + [e], k, fat')
  {
    var l := log + [e];
    if fat' != 0 && fat != 0 {
      var k :| OpenedAt(log, k, fat);
      WindowGrows(log, e, k, fat);
      assert e.verdict ==> BackedAt(l, k, |log|);
    } else if fat' != 0 {
      assert OpenedAt(l, |log|, fat');
    }
    LogOkGrows(log, e, clock);
  }

  /** codel_should_drop meets the premises of JudgeAppend. */
  lemma JudgeShape(skb: Packet, sh: Shared, q: Queue, p: Params, clock: nat)
    ensures var j := ShouldDrop(Some(skb), sh, q, p, clock);
      |j.q.log| == |q.log| + 1 && j.q.log == q.log + [j.q.log[|q.log|]] &&
      var e := j.q.log[|q.log|]; var fat, fat' := q.vars.firstAbove, j.q.vars.firstAbove;
      && e.Judged? && e.pkt == skb && e.clock == clock
      && (fat' != 0 ==> Above(e) && (fat' == fat || (fat == 0 && fat' == Low32(clock + e.params.interval))))
      && (e.verdict ==> fat != 0 && fat' == fat && TimeAfter(Low32(clock), fat))
  {
    LowAdd(clock, p.interval);
    hide Low32, TimeBefore, TimeAfter;
  }

  lemma LowAdd(x: int, y: int)
    ensures Low32(Low32(x) + y) == Low32(x + y)
  {}

  lemma ShouldDropShape(skb: Option<Packet>, sh: Shared, q: Queue, p: Params, clock: nat)
    ensures var j := ShouldDrop(skb, sh, q, p, clock);
      && |j.q.log| == |q.log| + 1 && j.q.log == q.log + [j.q.log[|q.log|]]
      && j.q.pkts == q.pkts && j.q.bytes == q.bytes
      && j.q.vars.(firstAbove := q.vars.firstAbove, ldelay := q.vars.ldelay) == q.vars
      && j.sh.(backlog := sh.backlog, maxpacket := sh.maxpacket) == sh
      && j.sh.maxpacket >= sh.maxpacket
      && (skb.None? ==> !j.ok && j.sh == sh && j.q.log[|q.log|] == Starved && j.q.vars.firstAbove == 0)
      && (skb.Some? ==> j.sh.backlog == sh.backlog - skb.value.len && j.q.log[|q.log|].Judged?)
      && (j.ok ==> JustJudged(skb.value, j.q) && j.sh.backlog > j.sh.maxpacket)
  {}

  lemma ShouldDropKeeps(skb: Option<Packet>, sh: Shared, q: Queue, p: Params, clock: nat)
    requires QueueOk(skb, q, clock)
    ensures QueueOk(skb, ShouldDrop(skb, sh, q, p, clock).q, clock)
  {
    var j := ShouldDrop(skb, sh, q, p, clock);
    ShouldDropShape(skb, sh, q, p, clock);
    var e := j.q.log[|q.log|];
    LogGrows(q.log, e);
    assert NewtonOk(j.q.vars);
    if skb.None? {
      LogOkGrows(q.log, e, clock);
    } else {
      assert (Hand(skb) + q.pkts)[0] == skb.value;
      JudgeShape(skb.value, sh, q, p, clock);
      JudgeAppend(q.log, e, q.vars.firstAbove, j.q.vars.firstAbove, clock);
    }
  }

  lemma ShouldDropMoves(skb: Option<Packet>, sh: Shared, q: Queue, p: Params, clock: nat)
    ensures var j := ShouldDrop(skb, sh, q, p, clock);
      && Pick(Came, j.q.log) == Pick(Came, q.log) && Pick(Sent, j.q.log) == Pick(Sent, q.log)
      && Handed(j.q.log) == Handed(q.log)
      && Refills(j.q.log) == Refills(q.log)
  {
    var j := ShouldDrop(skb, sh, q, p, clock);
    ShouldDropShape(skb, sh, q, p, clock);
    LogGrows(q.log, j.q.log[|q.log|]);
  }

  lemma MarkKeeps(skb: Packet, sh: Shared, q: Queue, clock: nat)
    requires QueueOk(Some(skb), q, clock) && JustJudged(skb, q)
    ensures QueueOk(Some(skb), Mark(skb, sh, q).q, clock)
    ensures Moves(Some(skb), sh, q, Mark(skb, sh, q))
  {
    LogGrows(q.log, Marked(skb));
    FateEvent(q, Marked(skb), clock);
  }

  /** The packet in hand leaves. */
  lemma LetGo(gone: seq<Packet>, skb: Packet, pkts: seq<Packet>, clock: nat)
    requires PktsOk(Hand(Some(skb)) + pkts, clock)
    ensures gone + Hand(Some(skb)) + pkts == (gone + [skb]) + Hand(None) + pkts
    ensures PktsOk(Hand(None) + pkts, clock) && 1 <= skb.len
  {
    var all := Hand(Some(skb)) + pkts;
    assert all[0] == skb;
    assert Hand(None) + pkts == all[1..];
  }

  lemma DropAndPopKeeps(skb: Packet, sh: Shared, q: Queue, clock: nat)
    requires QueueOk(Some(skb), q, clock) && JustJudged(skb, q)
    ensures var d := DropAndPop(skb, sh, q);
      QueueOk(d.skb, d.q, clock) && |d.q.pkts| + |Hand(d.skb)| == |q.pkts|
  {
    var q1 := Log(q, Dropped(skb));
    LogGrows(q.log, Dropped(skb));
    FateEvent(q, Dropped(skb), clock);
    LetGo(Pick(Left, q.log), skb, q.pkts, clock);
    PopKeeps(sh, q1, clock);
  }

  /** Drop the packet in hand, fetch the next and judge it: the common core of both branches. */
  lemma DropJudgeKeeps(skb: Packet, sh: Shared, q: Queue, p: Params, clock: nat)
    requires QueueOk(Some(skb), q, clock) && JustJudged(skb, q)
    requires sh.backlog > sh.maxpacket
    ensures var d := DropAndPop(skb, sh, q); var j := ShouldDrop(d.skb, d.sh, d.q, p, clock);
      && QueueOk(d.skb, j.q, clock)
      && Moves(Some(skb), sh, q, Out(d.skb, j.sh, j.q))
      && |j.q.pkts| + |Hand(d.skb)| == |q.pkts|
      && (d.skb.None? ==> j.sh.backlog > j.sh.maxpacket && j.q.pkts == [])
      && (j.ok ==> d.skb.Some? && JustJudged(d.skb.value, j.q) && j.sh.backlog > j.sh.maxpacket)
      && j.q.vars.dropping == q.vars.dropping
      && j.q.vars.(firstAbove := q.vars.firstAbove, ldelay := q.vars.ldelay) == q.vars
  {
    var d := DropAndPop(skb, sh, q);
    DropAndPopKeeps(skb, sh, q, clock);
    ShouldDropKeeps(d.skb, d.sh, d.q, p, clock);
    ShouldDropMoves(d.skb, d.sh, d.q, p, clock);
    ShouldDropShape(d.skb, d.sh, d.q, p, clock);
    LogGrows(q.log, Dropped(skb));
  }

  // ---------------------------------------------------------------- the loop

  /** The state at the head of the inner loop. */
  ghost predicate AtLoop(skb: Option<Packet>, sh: Shared, q: Queue, clock: nat) {
    && QueueOk(skb, q, clock)
    && (q.vars.dropping ==> skb.Some? && JustJudged(skb.value, q) && sh.backlog > sh.maxpacket)
    && (skb.None? ==> q.pkts == [] && sh.backlog > sh.maxpacket)
  }

  lemma LoopTurnKeeps(skb: Packet, sh: Shared, q: Queue, p: Params, clock: nat)
    requires AtLoop(Some(skb), sh, q, clock) && q.vars.dropping
    ensures var t := LoopTurn(skb, sh, q, p, clock);
      && Moves(Some(skb), sh, q, t.out)
      && QueueOk(t.out.skb, t.out.q, clock)
      && (t.out.skb.None? ==> t.out.q.pkts == [] && t.out.sh.backlog > t.out.sh.maxpacket)
      && (!t.finished ==> AtLoop(t.out.skb, t.out.sh, t.out.q, clock))
  {
    var q1 := q.(vars := Escalate(q.vars));
    EscalateOk(q.vars);
    VarsChange(Some(skb), q, q1.vars, clock);
    if p.ecn && skb.ect {
      MarkKeeps(skb, sh, q1, clock);
    } else {
      DropJudgeKeeps(skb, sh, q1, p, clock);
    }
  }

  lemma DropLoopKeeps(skb: Option<Packet>, sh: Shared, q: Queue, p: Params, clock: nat)
    requires AtLoop(skb, sh, q, clock)
    ensures var o := DropLoop(skb, sh, q, p, clock);
      && Moves(skb, sh, q, o)
      && QueueOk(o.skb, o.q, clock)
      && (o.skb.None? ==> o.q.pkts == [] && o.sh.backlog > o.sh.maxpacket)
    decreases |q.pkts| + |Hand(skb)|
  {
    if LoopGuard(q, clock) {
      var t := LoopTurn(skb.value, sh, q, p, clock);
      LoopTurnKeeps(skb.value, sh, q, p, clock);
      if !t.finished {
        DropLoopKeeps(t.out.skb, t.out.sh, t.out.q, p, clock);
      }
    }
  }

  lemma FirstDropKeeps(skb: Packet, sh: Shared, q: Queue, p: Params, clock: nat)
    requires QueueOk(Some(skb), q, clock) && JustJudged(skb, q) && sh.backlog > sh.maxpacket
    ensures var o := FirstDrop(skb, sh, q, p, clock);
      && Moves(Some(skb), sh, q, o)
      && QueueOk(o.skb, o.q, clock)
      && (o.skb.None? ==> o.q.pkts == [] && o.sh.backlog > o.sh.maxpacket)
  {
    if p.ecn && skb.ect {
      var m := Mark(skb, sh, q);
      MarkKeeps(skb, sh, q, clock);
      EnterOk(m.q.vars, p, clock);
      VarsChange(m.skb, m.q, Enter(m.q.vars, p, clock), clock);
    } else {
      var d := DropAndPop(skb, sh, q);
      var j := ShouldDrop(d.skb, d.sh, d.q, p, clock);
      DropJudgeKeeps(skb, sh, q, p, clock);
      EnterOk(j.q.vars, p, clock);
      VarsChange(d.skb, j.q, Enter(j.q.vars, p, clock), clock);
    }
  }

  lemma ControlKeeps(skb: Packet, j: Verdict, p: Params, clock: nat)
    requires QueueOk(Some(skb), j.q, clock)
    requires j.ok ==> JustJudged(skb, j.q) && j.sh.backlog > j.sh.maxpacket
    ensures var o := Control(skb, j, p, clock);
      && Moves(Some(skb), j.sh, j.q, o)
      && QueueOk(o.skb, o.q, clock)
      && (o.skb.None? ==> o.q.pkts == [] && o.sh.backlog > o.sh.maxpacket)
  {
    if j.q.vars.dropping && j.ok {
      DropLoopKeeps(Some(skb), j.sh, j.q, p, clock);
    } else if j.ok {
      FirstDropKeeps(skb, j.sh, j.q, p, clock);
    }
  }

  // ---------------------------------------------------------------- codel_dequeue

  lemma HistKeeps(c: Out, clock: nat)
    requires QueueOk(c.skb, c.q, clock)
    ensures QueueOk(None, Hist(c).q, clock)
    ensures Pick(Came, Hist(c).q.log) == Pick(Came, c.q.log)
    ensures Pick(Sent, Hist(c).q.log) == Pick(Sent, c.q.log) + Hand(c.skb)
    ensures Handed(Hist(c).q.log) == Handed(c.q.log) + Hand(c.skb)
    ensures Refills(Hist(c).q.log) == Refills(c.q.log)
    ensures c.skb.Some? ==> 1 <= c.skb.value.len
  {
    if c.skb.Some? {
      var e := Delivered(c.skb.value);
      LogGrows(c.q.log, e);
      PlainEvent(c.q, e, clock);
      LetGo(Pick(Left, c.q.log), c.skb.value, c.q.pkts, clock);
    }
  }

  /** One call of codel_dequeue keeps the invariant of the queue, accounts for every packet
      and byte it takes, and comes back empty-handed only when the queue was empty or more
      than maxpacket bytes are still queued elsewhere. */
  lemma CodelDequeueKeeps(sh: Shared, q: Queue, p: Params, clock: nat)
    requires QueueOk(None, q, clock)
    ensures var o := CodelDequeue(sh, q, p, clock);
      && QueueOk(None, o.q, clock)
      && |o.q.pkts| <= |q.pkts|
      && o.sh.qlen - |o.q.pkts| == sh.qlen - |q.pkts|
      && o.sh.backlog - Bytes(o.q.pkts) == sh.backlog - Bytes(q.pkts)
      && o.sh.dropCount - sh.dropCount == |q.pkts| - |o.q.pkts| - |Hand(o.skb)| == o.sh.drops - sh.drops
      && o.sh.ecnMark >= sh.ecnMark && o.sh.maxpacket >= sh.maxpacket
      && Pick(Came, o.q.log) == Pick(Came, q.log)
      && Pick(Sent, o.q.log) == Pick(Sent, q.log) + Hand(o.skb)
      && Handed(o.q.log) == Handed(q.log) + Hand(o.skb)
      && Refills(o.q.log) == Refills(q.log)
      && (o.skb.None? ==> o.q.pkts == [] && (q.pkts == [] || o.sh.backlog > o.sh.maxpacket))
      && (o.skb.Some? ==> |o.q.pkts| < |q.pkts| && 1 <= o.skb.value.len)
  {
    hide ShouldDrop, Control, Pick, Handed, Refills;
    var o := Pop(sh, q);
    PopKeeps(sh, q, clock);
    if o.skb.Some? {
      var j := ShouldDrop(o.skb, o.sh, o.q, p, clock);
      ShouldDropKeeps(o.skb, o.sh, o.q, p, clock);
      ShouldDropMoves(o.skb, o.sh, o.q, p, clock);
      ShouldDropShape(o.skb, o.sh, o.q, p, clock);
      ControlKeeps(o.skb.value, j, p, clock);
      var c := Control(o.skb.value, j, p, clock);
      HistKeeps(c, clock);
    }
  }

  // ---------------------------------------------------------------- the qdisc around it

  lemma AppendQueue(q: Queue, p: Packet, clock: nat)
    requires QueueOk(None, q, clock) && p.len >= 1 && p.enq <= clock
    ensures QueueOk(None, q.(pkts := q.pkts + [p], bytes := q.bytes + p.len, log := q.log + [Arrived(p)]), clock)
    ensures Bytes(q.pkts + [p]) == Bytes(q.pkts) + p.len
  {
    LogGrows(q.log, Arrived(p));
    PlainEvent(q, Arrived(p), clock);
    BytesConcat(q.pkts, [p]);
    AppendSeq(Pick(Left, q.log), q.pkts, p, clock);
  }

  lemma AppendSeq(gone: seq<Packet>, pkts: seq<Packet>, p: Packet, clock: nat)
    requires PktsOk(Hand(None) + pkts, clock) && p.len >= 1 && p.enq <= clock
    ensures (gone + Hand(None) + pkts) + [p] == gone + Hand(None) + (pkts + [p])
    ensures PktsOk(Hand(None) + (pkts + [p]), clock)
  {
    assert Hand(None) + pkts == pkts && Hand(None) + (pkts + [p]) == pkts + [p];
    assert gone + Hand(None) == gone;
  }

  /** codel_vars_init closes the window. */
  lemma RestartQueue(q: Queue, clock: nat)
    requires QueueOk(None, q, clock)
    ensures QueueOk(None, q.(vars := VARS_INIT, log := q.log + [Restarted]), clock)
  {
    LogGrows(q.log, Restarted);
    PlainEvent(q.(vars := VARS_INIT), Restarted, clock);
  }

  lemma EvictQueue(q: Queue, clock: nat)
    requires QueueOk(None, q, clock) && q.pkts != []
    ensures QueueOk(None, q.(pkts := q.pkts[1..], bytes := q.bytes - q.pkts[0].len,
                             log := q.log + [Evicted(q.pkts[0])]), clock)
  {
    var p := q.pkts[0];
    LogGrows(q.log, Evicted(p));
    PlainEvent(q, Evicted(p), clock);
    TakeHead(Pick(Left, q.log), q.pkts);
    LetGo(Pick(Left, q.log), p, q.pkts[1..], clock);
  }

  lemma TakeHead(gone: seq<Packet>, pkts: seq<Packet>)
    requires pkts != []
    ensures Hand(None) + pkts == Hand(Some(pkts[0])) + pkts[1..]
    ensures gone + Hand(None) + pkts == gone + Hand(Some(pkts[0])) + pkts[1..]
  {
    assert pkts == [pkts[0]] + pkts[1..];
  }

  lemma FreeQueue(q: Queue, p: Packet, clock: nat)
    requires QueueOk(None, q, clock) && EndsDelivered(q.log, p)
    ensures QueueOk(None, Log(q, Freed(p)), clock)
  {
    LogGrows(q.log, Freed(p));
    PlainEvent(q, Freed(p), clock);
  }

  /** A packet that codel_dequeue returns is the last event of the queue. */
  lemma DeliveredLast(sh: Shared, q: Queue, p: Params, clock: nat)
    ensures var o := CodelDequeue(sh, q, p, clock); o.skb.Some? ==> EndsDelivered(o.q.log, o.skb.value)
  {
    hide Control, ShouldDrop;
  }

  // ---------------------------------------------------------------- where packets end up

  /** Only what was just delivered is freed. */
  predicate FreedAt(log: seq<Event>, m: nat)
    requires m < |log|
  {
    log[m].Freed? ==> m > 0 && log[m - 1] == Delivered(log[m].pkt)
  }

  predicate FreedOk(log: seq<Event>) {
    forall m :: 0 <= m < |log| ==> FreedAt(log, m)
  }

  lemma FreedPrefix(log: seq<Event>, n: nat)
    requires FreedOk(log) && n <= |log|
    ensures FreedOk(log[..n])
  {
    forall m | 0 <= m < n ensures FreedAt(log[..n], m) { assert FreedAt(log, m); }
  }

  /** How a log ends: with a packet delivered and freed, or with another event. */
  lemma FreedLast(log: seq<Event>)
    requires FreedOk(log) && log != []
    ensures var n := |log|;
      if log[n - 1].Freed? then
        n >= 2 && log == log[..n - 2] + [Delivered(log[n - 1].pkt)] + [Freed(log[n - 1].pkt)] && FreedOk(log[..n - 2])
      else log == log[..n - 1] + [log[n - 1]] && FreedOk(log[..n - 1])
  {
    var n := |log|;
    assert FreedAt(log, n - 1);
    if log[n - 1].Freed? { FreedPrefix(log, n - 2); } else { FreedPrefix(log, n - 1); }
  }

  lemma FreedInLog(log: seq<Event>, clock: nat)
    requires LogOk(log, clock)
    ensures FreedOk(log)
  {
    forall m | 0 <= m < |log| ensures FreedAt(log, m) { assert EventOk(log, m, clock); }
  }

  lemma HandedGrows(log: seq<Event>, e: Event)
    requires !e.Freed?
    ensures Handed(log + [e]) == Handed(log) + PickOne(Sent, e)
    ensures PickOne(Left, e) == PickOne(Sent, e) + PickOne(Lost, e)
  {
    assert (log + [e])[..|log|] == log;
  }

  lemma HandedFreed(log: seq<Event>, p: Packet)
    ensures Handed(log + [Delivered(p)] + [Freed(p)]) == Handed(log)
  {
    assert (log + [Delivered(p)] + [Freed(p)])[..|log|] == log;
  }

  /** Every packet that left was either handed out for good or lost. */
  predicate Splits(log: seq<Event>) {
    multiset(Pick(Left, log)) == multiset(Handed(log)) + multiset(Pick(Lost, log))
  }

  lemma SplitsGrow(log: seq<Event>, e: Event)
    requires Splits(log) && !e.Freed?
    ensures Splits(log + [e])
  {
    hide Pick, Handed;
    LogGrows(log, e);
    HandedGrows(log, e);
  }

  lemma SplitsFreed(log: seq<Event>, p: Packet)
    requires Splits(log)
    ensures Splits(log + [Delivered(p)] + [Freed(p)])
  {
    hide Pick, Handed;
    LogGrows(log, Delivered(p));
    LogGrows(log + [Delivered(p)], Freed(p));
    HandedFreed(log, p);
  }

  lemma {:induction false} LeftIsSplit(log: seq<Event>)
    requires FreedOk(log)
    ensures Splits(log)
  {
    if log == [] {
      NothingLeft();
    } else {
      hide Splits, FreedOk;
      FreedLast(log);
      var n, e := |log|, log[|log| - 1];
      if e.Freed? {
        LeftIsSplit(log[..n - 2]);
        SplitsFreed(log[..n - 2], e.pkt);
      } else {
        LeftIsSplit(log[..n - 1]);
        SplitsGrow(log[..n - 1], e);
      }
    }
  }

  lemma NothingLeft()
    ensures Handed([]) == [] && forall k :: Pick(k, []) == []
  {}

  // ---------------------------------------------------------------- drop safety

  /** The test of codel_should_drop on ldelay, as coded. */
  predicate NotBefore(clock: nat, enq: nat, target: u32) {
    !TimeBefore(Low32(Low32(clock) - Low32(enq)), target)
  }

  /** The test of codel_should_drop on first_above_time = since + interval, as coded. */
  predicate Elapsed(since: nat, now: nat, interval: u32) {
    TimeAfter(Low32(now), Low32(since + interval))
  }

  /** The wrapped target test is exact precisely for targets up to 2^31 ticks, the range
      the header names: a packet that is not "before" has really waited that long. */
  lemma TargetTestExact(target: u32)
    ensures (forall clock: nat, enq: nat :: enq <= clock && NotBefore(clock, enq, target) ==> clock - enq >= target)
            <==> target <= TWO31
  {
    if target <= TWO31 {
      forall clock: nat, enq: nat | enq <= clock && NotBefore(clock, enq, target) ensures clock - enq >= target {
        TargetHolds(clock, enq, target);
      }
    } else {
      assert NotBefore(0, 0, target);
    }
  }

  lemma TargetHolds(clock: nat, enq: nat, target: u32)
    requires target <= TWO31 && enq <= clock
    requires NotBefore(clock, enq, target)
    ensures clock - enq >= target
  {
    LowSub(clock, enq);
    LowSub(clock - enq, target);
  }

  lemma LowSub(x: int, y: int)
    ensures Low32(Low32(x) - Low32(y)) == Low32(x - y)
    ensures Low32(Low32(x) - y) == Low32(x - y)
  {}

  /** Likewise the interval test: a positive wrapped difference means that more than the
      interval has really passed, exactly for intervals up to 2^31 ticks. */
  lemma IntervalTestExact(interval: u32)
    ensures (forall since: nat, now: nat :: since <= now && Elapsed(since, now, interval) ==> now > since + interval)
            <==> interval <= TWO31
  {
    if interval <= TWO31 {
      forall since: nat, now: nat | since <= now && Elapsed(since, now, interval) ensures now > since + interval {
        IntervalHolds(since, now, interval);
      }
    } else {
      assert Elapsed(0, 0, interval);
    }
  }

  lemma IntervalHolds(since: nat, now: nat, interval: u32)
    requires interval <= TWO31 && since <= now
    requires Elapsed(since, now, interval)
    ensures now > since + interval
  {
    LowSub(now, since + interval);
  }

  /** Really waited for the target, and left more than maxpacket bytes queued. */
  predicate ReallyAbove(e: Event)
    requires e.Judged?
  {
    (e.params.target <= TWO31 ==> e.clock - e.pkt.enq >= e.params.target) && e.left > e.maxpacket
  }

  /** Entry k of the log opened the window that justifies the fate of the packet at m. */
  ghost predicate Justifies(log: seq<Event>, k: int, m: int) {
    && 0 <= k < m - 1 && m <= |log| && log[k].Judged? && log[m - 1].Judged?
    && (log[k].params.interval <= TWO31 ==> log[m - 1].clock > log[k].clock + log[k].params.interval)
    && forall j :: k <= j < m ==> !log[j].Starved? && !log[j].Restarted? && (log[j].Judged? ==> ReallyAbove(log[j]))
  }

  /** Drop safety: behind every packet that CoDel dropped or marked stands a packet judged
      more than an interval earlier such that it and every packet judged since had waited
      for the target and left more than maxpacket bytes queued. */
  lemma DropSafety(skb: Option<Packet>, q: Queue, clock: nat, m: nat) returns (k: nat)
    requires QueueOk(skb, q, clock)
    requires m < |q.log| && (q.log[m].Dropped? || q.log[m].Marked?)
    ensures m > 0 && q.log[m - 1].Judged? && q.log[m - 1].pkt == q.log[m].pkt
    ensures Justifies(q.log, k, m)
  {
    var log := q.log;
    assert EventOk(log, m, clock);
    assert EventOk(log, m - 1, clock);
    k :| BackedAt(log, k, m - 1);
    forall j | k <= j < m && log[j].Judged? ensures ReallyAbove(log[j]) {
      assert KeepsAbove(log[j]) && EventOk(log, j, clock);
      if log[j].params.target <= TWO31 { TargetHolds(log[j].clock, log[j].pkt.enq, log[j].params.target); }
    }
    forall j | k <= j < m ensures !log[j].Starved? && !log[j].Restarted? { assert KeepsAbove(log[j]); }
    if log[k].params.interval <= TWO31 {
      assert log[k].clock <= log[m - 1].clock;
      IntervalHolds(log[k].clock, log[m - 1].clock, log[k].params.interval);
    }
  }
}
