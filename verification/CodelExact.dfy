/** What one codel_dequeue returns, drops and marks, and when: stated of its result, in terms of the queue it
    was given. A packet is judged by its place j in that queue. */
module CodelExact {
  import opened Wrappers
  import opened Newton
  import opened Codel
  import opened CodelProofs
  import opened Words

  // ---------------------------------------------------------------- judging by place

  function Longest(most: nat, ps: seq<Packet>): nat {
    if ps == [] then most
    else
      var m, last := Longest(most, ps[..|ps| - 1]), ps[|ps| - 1].len;
      if m < last then last else m
  }

  /** How long the packet has been queued, as 32-bit clocks tell. */
  function Sojourn(pkt: Packet, clock: nat): u32 { Low32(clock - pkt.enq) }

  /** Packet j has waited for target, and more than the longest packet seen stays queued behind it. */
  predicate Standing(sh: Shared, q: Queue, p: Params, clock: nat, j: nat)
    requires j < |q.pkts|
  {
    && Signed(Sojourn(q.pkts[j], clock) - p.target) >= 0
    && sh.backlog - Bytes(q.pkts[..j + 1]) > Longest(sh.maxpacket, q.pkts[..j + 1])
  }

  /** The time set in first_above_time, if any, has gone by. */
  predicate LongEnough(q: Queue, clock: nat) {
    q.vars.firstAbove != 0 && Signed(Low32(clock) - q.vars.firstAbove) > 0
  }

  /** The variables after n drops in the dropping state. */
  function Paced(v: Vars, interval: u32, n: nat): Vars {
    if n == 0 then v
    else
      var u := Paced(v, interval, n - 1);
      var count := (u.count + 1) % TWO32;
      var root := NewtonStep(count, u.recInvSqrt);
      u.(count := count, recInvSqrt := root, dropNext := Low32(u.dropNext + Gap(interval, root)))
  }

  /** The next drop is due after n drops. */
  predicate Due(v: Vars, interval: u32, clock: nat, n: nat) {
    Signed(Low32(clock) - Paced(v, interval, n).dropNext) >= 0
  }

  predicate Markable(pkt: Packet, p: Params) { p.ecn && pkt.ect }

  /** The shared counters when the first n packets were taken, d of them dropped and m marked. */
  function Books(sh: Shared, q: Queue, n: nat, d: nat, m: nat): Shared
    requires n <= |q.pkts|
  {
    Shared(sh.qlen - n, sh.backlog - Bytes(q.pkts[..n]), sh.drops + d, Longest(sh.maxpacket, q.pkts[..n]),
           sh.dropCount + d, sh.ecnMark + m)
  }

  /** The first n packets have been taken, the first d of them dropped, and those of marks marked. */
  predicate Took(sh: Shared, q: Queue, n: nat, d: nat, marks: seq<Packet>, o: Out)
    requires d <= n <= |q.pkts|
  {
    && o.q.pkts == q.pkts[n..] && o.q.bytes == q.bytes - Bytes(q.pkts[..n])
    && o.sh == Books(sh, q, n, d, |marks|)
    && Pick(Lost, o.q.log) == Pick(Lost, q.log) + q.pkts[..d]
    && Pick(Flagged, o.q.log) == Pick(Flagged, q.log) + marks
  }

  // ---------------------------------------------------------------- single steps

  lemma OneMore(most: nat, ps: seq<Packet>, n: nat)
    requires n < |ps|
    ensures Bytes(ps[..n + 1]) == Bytes(ps[..n]) + ps[n].len
    ensures Longest(most, ps[..n + 1]) == Max(ps[n].len, Longest(most, ps[..n]))
  {
    assert ps[..n + 1] == ps[..n] + [ps[n]] && ps[..n + 1][..n] == ps[..n];
    BytesConcat(ps[..n], [ps[n]]);
    assert Bytes([ps[n]]) == ps[n].len;
  }

  /** first_above_time once a packet has been judged. */
  function Reset(standing: bool, old_: u32, p: Params, clock: nat): u32 {
    if !standing then 0 else if old_ == 0 then Low32(clock + p.interval) else old_
  }

  /** Judging packet n, the ones before it having been taken. */
  lemma JudgeAt(sh0: Shared, q0: Queue, p: Params, clock: nat, n: nat, sh: Shared, q: Queue)
    requires n < |q0.pkts|
    requires sh.backlog == sh0.backlog - Bytes(q0.pkts[..n]) && sh.maxpacket == Longest(sh0.maxpacket, q0.pkts[..n])
    ensures var pkt, standing := q0.pkts[n], Standing(sh0, q0, p, clock, n);
      var v := ShouldDrop(Some(pkt), sh, q, p, clock);
      && v.sh == sh.(backlog := sh0.backlog - Bytes(q0.pkts[..n + 1]),
                     maxpacket := Longest(sh0.maxpacket, q0.pkts[..n + 1]))
      && v.q.vars == q.vars.(ldelay := Sojourn(pkt, clock), firstAbove := Reset(standing, q.vars.firstAbove, p, clock))
      && v.q.pkts == q.pkts && v.q.bytes == q.bytes
      && Pick(Lost, v.q.log) == Pick(Lost, q.log) && Pick(Flagged, v.q.log) == Pick(Flagged, q.log)
      && (v.ok <==> standing && LongEnough(q, clock))
  {
    hide Bytes, Longest, Pick, Signed;
    var pkt := q0.pkts[n];
    OneMore(sh0.maxpacket, q0.pkts, n);
    LowSub(clock, pkt.enq);
    LowAdd(clock, p.interval);
    JudgeLogs(pkt, sh, q, p, clock);
  }

  /** A judgement drops and marks nothing. */
  lemma JudgeLogs(pkt: Packet, sh: Shared, q: Queue, p: Params, clock: nat)
    ensures var v := ShouldDrop(Some(pkt), sh, q, p, clock);
      Pick(Lost, v.q.log) == Pick(Lost, q.log) && Pick(Flagged, v.q.log) == Pick(Flagged, q.log)
  {
    hide Pick, TimeBefore, TimeAfter;
    var v := ShouldDrop(Some(pkt), sh, q, p, clock);
    LogGrows(q.log, v.q.log[|q.log|]);
  }

  /** Taking packet n off the queue. */
  lemma PopAt(sh0: Shared, q0: Queue, n: nat, sh: Shared, q: Queue)
    requires n <= |q0.pkts| && q.pkts == q0.pkts[n..] && q.bytes == q0.bytes - Bytes(q0.pkts[..n])
    ensures var o := Pop(sh, q);
      if n == |q0.pkts| then o == Out(None, sh, q)
      else
        && o.skb == Some(q0.pkts[n]) && o.sh == sh.(qlen := sh.qlen - 1)
        && o.q == q.(pkts := q0.pkts[n + 1..], bytes := q0.bytes - Bytes(q0.pkts[..n + 1]))
  {
    if n < |q0.pkts| {
      OneMore(0, q0.pkts, n);
      assert q0.pkts[n..][1..] == q0.pkts[n + 1..];
    }
  }

  // ---------------------------------------------------------------- nothing is dropped

  /** The queue was empty: nothing comes back, and the dropping state is left. */
  lemma EmptyHanded(sh: Shared, q: Queue, p: Params, clock: nat)
    requires q.pkts == []
    ensures CodelDequeue(sh, q, p, clock) == Out(None, sh, q.(vars := q.vars.(dropping := false)))
  {}

  /** The head packet comes back, and nothing is dropped or marked, if it may not be dropped or if the next drop
      of the dropping state is not due. */
  lemma HeadKept(sh: Shared, q: Queue, p: Params, clock: nat)
    requires q.pkts != []
    requires var drop := Standing(sh, q, p, clock, 0) && LongEnough(q, clock);
      !drop || (q.vars.dropping && Signed(Low32(clock) - q.vars.dropNext) < 0)
    ensures var o, standing := CodelDequeue(sh, q, p, clock), Standing(sh, q, p, clock, 0);
      && o.skb == Some(q.pkts[0]) && Took(sh, q, 1, 0, [], o)
      && o.q.vars == q.vars.(ldelay := Sojourn(q.pkts[0], clock),
                             firstAbove := Reset(standing, q.vars.firstAbove, p, clock),
                             dropping := q.vars.dropping && standing && LongEnough(q, clock))
  {
    hide ShouldDrop, LoopTurn, FirstDrop, Pop, Standing, Pick, Longest, Bytes;
    FirstJudged(sh, q, p, clock);
    var o := Pop(sh, q);
    var j := ShouldDrop(o.skb, o.sh, o.q, p, clock);
    var c := Control(o.skb.value, j, p, clock);
    assert c.q.log == j.q.log;
    LogGrows(c.q.log, Delivered(q.pkts[0]));
  }

  lemma FirstJudged(sh: Shared, q: Queue, p: Params, clock: nat)
    requires q.pkts != []
    ensures var o := Pop(sh, q); var v := ShouldDrop(o.skb, o.sh, o.q, p, clock);
      && o.skb == Some(q.pkts[0]) && Took(sh, q, 1, 0, [], Out(o.skb, v.sh, v.q))
      && v.q.vars == q.vars.(ldelay := Sojourn(q.pkts[0], clock),
                             firstAbove := Reset(Standing(sh, q, p, clock, 0), q.vars.firstAbove, p, clock))
      && (v.ok <==> Standing(sh, q, p, clock, 0) && LongEnough(q, clock))
  {
    hide ShouldDrop, Pop, Standing, Pick, Longest, Bytes;
    NoneTaken(sh.maxpacket, q.pkts);
    PopAt(sh, q, 0, sh, q);
    var o := Pop(sh, q);
    JudgeAt(sh, q, p, clock, 0, o.sh, o.q);
    NothingPicked(q);
    assert ShouldDrop(o.skb, o.sh, o.q, p, clock).sh == Books(sh, q, 1, 0, 0);
  }

  lemma NoneTaken(most: nat, ps: seq<Packet>)
    ensures ps[..0] == [] && ps[0..] == ps && Bytes(ps[..0]) == 0 && Longest(most, ps[..0]) == most
  {}

  lemma NothingPicked(q: Queue)
    ensures Pick(Lost, q.log) == Pick(Lost, q.log) + q.pkts[..0]
    ensures Pick(Flagged, q.log) == Pick(Flagged, q.log) + []
  {}

  // ---------------------------------------------------------------- dropping as long as it is due

  /** In the dropping state, packet j goes: it may be dropped, a drop is due, and it cannot be marked instead. */
  predicate Goes(sh: Shared, q: Queue, p: Params, clock: nat, j: nat) {
    && j < |q.pkts| && Standing(sh, q, p, clock, j) && LongEnough(q, clock)
    && Due(q.vars, p.interval, clock, j) && !Markable(q.pkts[j], p)
  }

  /** Packet k stays, but is marked. */
  predicate Marks(sh: Shared, q: Queue, p: Params, clock: nat, k: nat) {
    && k < |q.pkts| && Standing(sh, q, p, clock, k) && LongEnough(q, clock)
    && Due(q.vars, p.interval, clock, k) && Markable(q.pkts[k], p)
  }

  /** The outcome if the first k packets were dropped and packet k, if there is one, comes back. */
  predicate Stopped(sh: Shared, q: Queue, p: Params, clock: nat, k: nat, o: Out)
    requires 0 < k <= |q.pkts| || (k == 0 && q.pkts != [])
  {
    var n := if k < |q.pkts| then k + 1 else k;
    var v := q.vars.(ldelay := Sojourn(q.pkts[n - 1], clock));
    && o.skb == (if k < |q.pkts| then Some(q.pkts[k]) else None)
    && Took(sh, q, n, k, if Marks(sh, q, p, clock, k) then [q.pkts[k]] else [], o)
    && if k < |q.pkts| && Standing(sh, q, p, clock, k) then
         o.q.vars == Paced(v, p.interval, if Marks(sh, q, p, clock, k) then k + 1 else k)
       else
         k > 0 && var w := Paced(v, p.interval, k);
         o.q.vars == w.(dropNext := Paced(v, p.interval, k - 1).dropNext, dropping := false, firstAbove := 0)
  }

  /** In front of the loop: j packets were dropped and packet j was judged droppable. */
  predicate AtTurn(sh0: Shared, q0: Queue, p: Params, clock: nat, j: nat, sh: Shared, q: Queue)
  {
    && j < |q0.pkts| && Took(sh0, q0, j + 1, j, [], Out(None, sh, q))
    && q.vars == Paced(q0.vars.(ldelay := Sojourn(q0.pkts[j], clock)), p.interval, j)
    && q0.vars.dropping && Standing(sh0, q0, p, clock, j) && LongEnough(q0, clock)
  }

  /** Drops do not touch the variables of the window. */
  lemma PacedKeeps(v: Vars, interval: u32, n: nat, ldelay: u32)
    ensures var w := Paced(v, interval, n);
      && w.dropping == v.dropping && w.firstAbove == v.firstAbove && w.ldelay == v.ldelay && w.lastcount == v.lastcount
      && Paced(v.(ldelay := ldelay), interval, n) == w.(ldelay := ldelay)
  {
    hide NewtonStep, Gap;
    if n > 0 { PacedKeeps(v, interval, n - 1, ldelay); }
  }

  /** Dropping packet j and taking the next. */
  lemma DropAt(sh0: Shared, q0: Queue, j: nat, sh: Shared, q: Queue)
    requires j < |q0.pkts| && Took(sh0, q0, j + 1, j, [], Out(None, sh, q))
    ensures var d := DropAndPop(q0.pkts[j], sh, q); var n := if j + 1 < |q0.pkts| then j + 2 else j + 1;
      && d.skb == (if j + 1 < |q0.pkts| then Some(q0.pkts[j + 1]) else None)
      && d.q.vars == q.vars && d.q.pkts == q0.pkts[n..] && d.q.bytes == q0.bytes - Bytes(q0.pkts[..n])
      && d.sh == Books(sh0, q0, j + 1, j + 1, 0).(qlen := sh0.qlen - n)
      && Pick(Lost, d.q.log) == Pick(Lost, q0.log) + q0.pkts[..j + 1]
      && Pick(Flagged, d.q.log) == Pick(Flagged, q0.log) + []
  {
    hide Pop, Pick, Longest, Bytes;
    var q' := Log(q, Dropped(q0.pkts[j]));
    var sh' := sh.(drops := sh.drops + 1, dropCount := sh.dropCount + 1);
    PopAt(sh0, q0, j + 1, sh', q');
    DropLogged(sh0, q0, j, sh, q);
  }

  lemma DropLogged(sh0: Shared, q0: Queue, j: nat, sh: Shared, q: Queue)
    requires j < |q0.pkts| && Took(sh0, q0, j + 1, j, [], Out(None, sh, q))
    ensures var log := q.log + [Dropped(q0.pkts[j])];
      && Pick(Lost, log) == Pick(Lost, q0.log) + q0.pkts[..j + 1]
      && Pick(Flagged, log) == Pick(Flagged, q0.log) + []
  {
    hide Pick, Books;
    LogGrows(q.log, Dropped(q0.pkts[j]));
    assert q0.pkts[..j + 1] == q0.pkts[..j] + [q0.pkts[j]];
  }

  /** Raising count and refining the root; drop_next follows only if the dropping state is kept. */
  lemma EscalateIs(v: Vars, interval: u32, j: nat, p: Params)
    requires interval == p.interval
    ensures var w, next := Paced(v, interval, j), Paced(v, interval, j + 1);
      && Escalate(w) == next.(dropNext := w.dropNext)
      && ScheduleNext(Escalate(w), w.dropNext, p) == next
  {
    hide NewtonStep, Gap;
  }

  /** One turn that drops. */
  lemma TurnDrops(sh0: Shared, q0: Queue, p: Params, clock: nat, j: nat, sh: Shared, q: Queue)
    requires AtTurn(sh0, q0, p, clock, j, sh, q) && Goes(sh0, q0, p, clock, j)
    ensures var t := LoopTurn(q0.pkts[j], sh, q, p, clock);
      && !t.finished
      && if j + 1 < |q0.pkts| && Standing(sh0, q0, p, clock, j + 1) then
           t.out.skb == Some(q0.pkts[j + 1]) && AtTurn(sh0, q0, p, clock, j + 1, t.out.sh, t.out.q)
         else !t.out.q.vars.dropping && Stopped(sh0, q0, p, clock, j + 1, t.out)
  {
    hide ShouldDrop, Standing, Pick, Longest, Bytes, NewtonStep, Gap, Escalate, DropAndPop, Sojourn, Paced, ControlLaw,
      Due;
    var v := q0.vars.(ldelay := Sojourn(q0.pkts[j], clock));
    var q1 := q.(vars := Escalate(q.vars));
    EscalateIs(v, p.interval, j, p);
    TurnJudges(sh0, q0, p, clock, j, sh, q1);
    PacedKeeps(v, p.interval, j, 0);
    PacedKeeps(v, p.interval, j + 1, 0);
    if j + 1 < |q0.pkts| {
      PacedKeeps(v, p.interval, j, Sojourn(q0.pkts[j + 1], clock));
      PacedKeeps(v, p.interval, j + 1, Sojourn(q0.pkts[j + 1], clock));
    }
  }

  lemma TurnJudges(sh0: Shared, q0: Queue, p: Params, clock: nat, j: nat, sh: Shared, q: Queue)
    requires j < |q0.pkts| && Took(sh0, q0, j + 1, j, [], Out(None, sh, q))
    ensures var d := DropAndPop(q0.pkts[j], sh, q); var v := ShouldDrop(d.skb, d.sh, d.q, p, clock);
      var o := Out(d.skb, v.sh, v.q);
      if j + 1 < |q0.pkts| then
        var standing := Standing(sh0, q0, p, clock, j + 1);
        && d.skb == Some(q0.pkts[j + 1]) && Took(sh0, q0, j + 2, j + 1, [], o)
        && v.q.vars == q.vars.(ldelay := Sojourn(q0.pkts[j + 1], clock),
                               firstAbove := Reset(standing, q.vars.firstAbove, p, clock))
        && (v.ok <==> standing && LongEnough(q, clock))
      else
        && d.skb == None && Took(sh0, q0, j + 1, j + 1, [], o) && v.q.vars == q.vars.(firstAbove := 0) && !v.ok
  {
    hide Standing, Pick, Longest, Bytes, DropAndPop, Sojourn;
    DropAt(sh0, q0, j, sh, q);
    var d := DropAndPop(q0.pkts[j], sh, q);
    if j + 1 < |q0.pkts| {
      JudgeAt(sh0, q0, p, clock, j + 1, d.sh, d.q);
      hide ShouldDrop;
    } else {
      LogGrows(d.q.log, Starved);
    }
  }

  /** One turn that marks. */
  lemma TurnMarks(sh0: Shared, q0: Queue, p: Params, clock: nat, j: nat, sh: Shared, q: Queue)
    requires AtTurn(sh0, q0, p, clock, j, sh, q) && Marks(sh0, q0, p, clock, j)
    ensures var t := LoopTurn(q0.pkts[j], sh, q, p, clock);
      t.finished && Stopped(sh0, q0, p, clock, j, t.out)
  {
    hide ShouldDrop, Standing, Pick, Longest, Bytes, NewtonStep, Gap, Escalate, DropAndPop, Sojourn, Paced, ControlLaw,
      Due;
    var v := q0.vars.(ldelay := Sojourn(q0.pkts[j], clock));
    var q1 := q.(vars := Escalate(q.vars));
    EscalateIs(v, p.interval, j, p);
    LogGrows(q.log, Marked(q0.pkts[j]));
  }

  lemma GuardIs(sh0: Shared, q0: Queue, p: Params, clock: nat, j: nat, sh: Shared, q: Queue)
    requires AtTurn(sh0, q0, p, clock, j, sh, q)
    ensures LoopGuard(q, clock) <==> Due(q0.vars, p.interval, clock, j)
  {
    hide Standing, Took, Paced, LongEnough, Sojourn;
    PacedKeeps(q0.vars, p.interval, j, Sojourn(q0.pkts[j], clock));
  }

  lemma NotDueStops(sh0: Shared, q0: Queue, p: Params, clock: nat, j: nat, sh: Shared, q: Queue)
    requires AtTurn(sh0, q0, p, clock, j, sh, q) && !Due(q0.vars, p.interval, clock, j)
    ensures Stopped(sh0, q0, p, clock, j, Out(Some(q0.pkts[j]), sh, q))
  {
    hide Standing, Pick, Longest, Bytes, Sojourn, Paced, Due, Books;
  }

  lemma {:induction false} LoopExact(sh0: Shared, q0: Queue, p: Params, clock: nat, j: nat, sh: Shared, q: Queue)
      returns (k: nat)
    requires AtTurn(sh0, q0, p, clock, j, sh, q)
    ensures j <= k <= |q0.pkts| && !Goes(sh0, q0, p, clock, k)
    ensures forall i :: j <= i < k ==> Goes(sh0, q0, p, clock, i)
    ensures Stopped(sh0, q0, p, clock, k, DropLoop(Some(q0.pkts[j]), sh, q, p, clock))
    decreases |q0.pkts| - j
  {
    hide Took, Standing, LongEnough, Paced, LoopTurn, LoopGuard, Stopped;
    k := j;
    GuardIs(sh0, q0, p, clock, j, sh, q);
    if !LoopGuard(q, clock) {
      NotDueStops(sh0, q0, p, clock, j, sh, q);
    } else if Markable(q0.pkts[j], p) {
      TurnMarks(sh0, q0, p, clock, j, sh, q);
    } else {
      TurnDrops(sh0, q0, p, clock, j, sh, q);
      var t := LoopTurn(q0.pkts[j], sh, q, p, clock);
      if j + 1 < |q0.pkts| && Standing(sh0, q0, p, clock, j + 1) {
        k := LoopExact(sh0, q0, p, clock, j + 1, t.out.sh, t.out.q);
      } else {
        k := j + 1;
        LoopEnds(t.out, p, clock);
      }
    }
  }

  lemma LoopEnds(o: Out, p: Params, clock: nat)
    requires !o.q.vars.dropping
    ensures DropLoop(o.skb, o.sh, o.q, p, clock) == o
  {}

  /** In the dropping state, with a head that may be dropped: packets go from the head, each while a drop is due by
      the control law, until one does not; that one comes back, marked if only ECN saved it. Then either the
      next drop lies ahead, or it was marked, or the queue no longer stands and the dropping state is left. */
  lemma DropsWhenDue(sh: Shared, q: Queue, p: Params, clock: nat) returns (k: nat)
    requires q.pkts != [] && q.vars.dropping && Standing(sh, q, p, clock, 0) && LongEnough(q, clock)
    ensures k <= |q.pkts| && (forall i :: 0 <= i < k ==> Goes(sh, q, p, clock, i)) && !Goes(sh, q, p, clock, k)
    ensures Stopped(sh, q, p, clock, k, CodelDequeue(sh, q, p, clock))
    ensures k == 0 <==> Signed(Low32(clock) - q.vars.dropNext) < 0 || Markable(q.pkts[0], p)
    ensures var v := CodelDequeue(sh, q, p, clock).q.vars;
      v.dropping && !Marks(sh, q, p, clock, k) ==> Signed(Low32(clock) - v.dropNext) < 0
  {
    hide ShouldDrop, Pop, Standing, Pick, Longest, Bytes, Paced, DropLoop, FirstDrop;
    FirstJudged(sh, q, p, clock);
    var o := Pop(sh, q);
    var j := ShouldDrop(o.skb, o.sh, o.q, p, clock);
    PacedNone(q.vars, p.interval);
    PacedNone(q.vars.(ldelay := Sojourn(q.pkts[0], clock)), p.interval);
    k := LoopExact(sh, q, p, clock, 0, j.sh, j.q);
    var c := DropLoop(o.skb, j.sh, j.q, p, clock);
    HistStops(sh, q, p, clock, k, c);
    assert Goes(sh, q, p, clock, 0) <==> k > 0;
    if k < |q.pkts| {
      PacedKeeps(q.vars, p.interval, k, Sojourn(q.pkts[k], clock));
    }
  }

  lemma PacedNone(v: Vars, interval: u32)
    ensures Paced(v, interval, 0) == v
  {}

  lemma HistStops(sh: Shared, q: Queue, p: Params, clock: nat, k: nat, c: Out)
    requires 0 < k <= |q.pkts| || (k == 0 && q.pkts != [])
    requires Stopped(sh, q, p, clock, k, c)
    ensures Stopped(sh, q, p, clock, k, Hist(c)) && Hist(c).q.vars == c.q.vars
  {
    hide Pick, Standing, Longest, Bytes, Paced, Due, Books;
    if c.skb.Some? { LogGrows(c.q.log, Delivered(c.skb.value)); }
  }

  // ---------------------------------------------------------------- entering the dropping state

  /** Out of the dropping state, a head that may be dropped is dropped or marked, and the dropping state is
      entered whatever follows it: at the old rate if that was left less than sixteen intervals ago, else
      at one drop per interval. The next drop is set one gap from now. */
  lemma StartsDropping(sh: Shared, q: Queue, p: Params, clock: nat)
    requires q.pkts != [] && !q.vars.dropping && Standing(sh, q, p, clock, 0) && LongEnough(q, clock)
    ensures var o, mark := CodelDequeue(sh, q, p, clock), Markable(q.pkts[0], p);
      var k := if mark then 0 else 1;
      var n := if !mark && |q.pkts| > 1 then 2 else 1;
      && o.skb == (if k < |q.pkts| then Some(q.pkts[k]) else None)
      && Took(sh, q, n, k, if mark then [q.pkts[0]] else [], o)
      && var v := o.q.vars;
        && v.dropping && v.lastcount == v.count
        && v.dropNext == Low32(Low32(clock) + Gap(p.interval, v.recInvSqrt))
        && v.ldelay == Sojourn(q.pkts[n - 1], clock)
        && v.firstAbove == (if k < |q.pkts| && Standing(sh, q, p, clock, k) then q.vars.firstAbove else 0)
        && if Signed(Low32(Low32(clock) - q.vars.dropNext) - Low32(16 * p.interval)) < 0 then
             && v.count % 2 == 1 && 0 <= v.count - (q.vars.count - q.vars.lastcount) % TWO32 <= 1
             && v.recInvSqrt == NewtonStep(v.count, q.vars.recInvSqrt)
           else v.count == 1 && v.recInvSqrt == 0xffff
  {
    hide ShouldDrop, Pop, Standing, Pick, Longest, Bytes, FirstDrop, Sojourn, NewtonStep, Gap;
    FirstJudged(sh, q, p, clock);
    var o := Pop(sh, q);
    var j := ShouldDrop(o.skb, o.sh, o.q, p, clock);
    FirstDropIs(sh, q, p, clock, j.sh, j.q);
    var c := FirstDrop(q.pkts[0], j.sh, j.q, p, clock);
    var w := AfterFirst(j.sh, j.q, q.pkts[0], p, clock).q.vars;
    EnterExact(if Markable(q.pkts[0], p) then j.q.vars else w, p, clock);
    HistTook(sh, q, c);
  }

  /** What is judged second when the head is dropped. */
  function AfterFirst(sh: Shared, q: Queue, head: Packet, p: Params, clock: nat): Verdict {
    var d := DropAndPop(head, sh, q);
    ShouldDrop(d.skb, d.sh, d.q, p, clock)
  }

  lemma FirstDropIs(sh: Shared, q: Queue, p: Params, clock: nat, sh1: Shared, q1: Queue)
    requires q.pkts != [] && Took(sh, q, 1, 0, [], Out(None, sh1, q1))
    ensures var c, mark := FirstDrop(q.pkts[0], sh1, q1, p, clock), Markable(q.pkts[0], p);
      var k := if mark then 0 else 1;
      var n := if !mark && |q.pkts| > 1 then 2 else 1;
      var v := if mark then q1.vars else AfterFirst(sh1, q1, q.pkts[0], p, clock).q.vars;
      && c.skb == (if k < |q.pkts| then Some(q.pkts[k]) else None)
      && Took(sh, q, n, k, if mark then [q.pkts[0]] else [], c)
      && c.q.vars == Enter(v, p, clock)
      && v == (if mark then q1.vars
               else if |q.pkts| > 1 then
                 q1.vars.(ldelay := Sojourn(q.pkts[1], clock),
                          firstAbove := Reset(Standing(sh, q, p, clock, 1), q1.vars.firstAbove, p, clock))
               else q1.vars.(firstAbove := 0))
  {
    hide ShouldDrop, Pop, Standing, Pick, Longest, Bytes, DropAndPop, Enter, Sojourn;
    if Markable(q.pkts[0], p) {
      LogGrows(q1.log, Marked(q.pkts[0]));
    } else {
      TurnJudges(sh, q, p, clock, 0, sh1, q1);
    }
  }

  /** The variables on entering the dropping state. */
  lemma EnterExact(old_: Vars, p: Params, clock: nat)
    ensures var v := Enter(old_, p, clock);
      && v.dropping && v.lastcount == v.count && v.ldelay == old_.ldelay && v.firstAbove == old_.firstAbove
      && v.dropNext == Low32(Low32(clock) + Gap(p.interval, v.recInvSqrt))
      && if Signed(Low32(Low32(clock) - old_.dropNext) - Low32(16 * p.interval)) < 0 then
           && v.count % 2 == 1 && 0 <= v.count - (old_.count - old_.lastcount) % TWO32 <= 1
           && v.recInvSqrt == NewtonStep(v.count, old_.recInvSqrt)
         else v.count == 1 && v.recInvSqrt == 0xffff
  {
    hide NewtonStep, Gap;
  }

  /** Logging the delivery drops and marks nothing. */
  lemma HistTook(sh: Shared, q: Queue, c: Out)
    ensures forall n: nat, d: nat, marks: seq<Packet> ::
              d <= n <= |q.pkts| && Took(sh, q, n, d, marks, c) ==> Took(sh, q, n, d, marks, Hist(c))
    ensures Hist(c).q.vars == c.q.vars && Hist(c).skb == c.skb
  {
    hide Pick, Longest, Bytes, Books;
    if c.skb.Some? { LogGrows(c.q.log, Delivered(c.skb.value)); }
  }
}
