/** codel.h on objects: the shared part of the qdisc and one packet queue, updated in place.
    Every method is tied to the function of module Codel that describes it. */
module CodelQueue {
  import opened Wrappers
  import opened Newton
  import opened Codel
  import opened CodelProofs
  import opened Words

  /** struct Qdisc with the struct codel_stats beside it. */
  class Qdisc {
    var qlen: int
    var backlog: int
    var drops: nat
    var maxpacket: nat
    var dropCount: nat
    var ecnMark: nat

    constructor ()
      ensures View() == Shared(0, 0, 0, 256, 0, 0)
    {
      qlen, backlog, drops, maxpacket, dropCount, ecnMark := 0, 0, 0, 256, 0, 0;
    }

    function View(): Shared
      reads this
    {
      Shared(qlen, backlog, drops, maxpacket, dropCount, ecnMark)
    }
  }

  /** A packet queue with its codel_vars and, for fq_codel, its deficit. */
  class PacketQueue {
    var pkts: seq<Packet>
    var bytes: int
    var vars: Vars
    var deficit: s32
    var dropped: int
    ghost var log: seq<Event>

    constructor ()
      ensures View() == Queue([], 0, VARS_INIT, []) && deficit == 0 && dropped == 0
    {
      pkts, bytes, vars, deficit, dropped, log := [], 0, VARS_INIT, 0, 0, [];
    }

    ghost function View(): Queue
      reads this
    {
      Queue(pkts, bytes, vars, log)
    }

    /** The dequeue callback. */
    method Pop(sch: Qdisc) returns (skb: Option<Packet>)
      modifies this`pkts, this`bytes, sch`qlen
      ensures Out(skb, sch.View(), View()) == old(Codel.Pop(sch.View(), View()))
    {
      if pkts == [] { return None; }
      skb := Some(pkts[0]);
      pkts, bytes := pkts[1..], bytes - pkts[0].len;
      sch.qlen := sch.qlen - 1;
    }

    /** codel_Newton_step. */
    method Refine()
      modifies this`vars
      ensures vars == old(vars).(recInvSqrt := NewtonStep(old(vars).count, old(vars).recInvSqrt))
    {
      var invsqrt := vars.recInvSqrt * TWO16;
      var invsqrt2 := invsqrt * invsqrt / TWO32 % TWO32;
      var val := (3 * TWO32 - vars.count * invsqrt2) % TWO64;
      val := val / 4;
      val := val * invsqrt % TWO64 / TWO31;
      vars := vars.(recInvSqrt := val / TWO16 % TWO16);
    }

    /** codel_should_drop. */
    method Judge(skb: Option<Packet>, sch: Qdisc, p: Params, clock: nat) returns (ok: bool)
      modifies this`vars, this`log, sch`backlog, sch`maxpacket
      ensures Verdict(ok, sch.View(), View()) == old(ShouldDrop(skb, sch.View(), View(), p, clock))
    {
      if skb.None? {
        vars := vars.(firstAbove := 0);
        log := log + [Starved];
        return false;
      }
      var pkt := skb.value;
      var now := Low32(clock);
      vars := vars.(ldelay := Low32(now - Low32(pkt.enq)));
      sch.backlog := sch.backlog - pkt.len;
      if pkt.len > sch.maxpacket { sch.maxpacket := pkt.len; }
      ok := false;
      if TimeBefore(vars.ldelay, p.target) || sch.backlog <= sch.maxpacket {
        vars := vars.(firstAbove := 0);
      } else if vars.firstAbove == 0 {
        vars := vars.(firstAbove := Low32(now + p.interval));
      } else if TimeAfter(now, vars.firstAbove) {
        ok := true;
      }
      log := log + [Judged(pkt, clock, sch.backlog, sch.maxpacket, p, ok)];
    }

    /** qdisc_drop of the packet in hand. */
    method Drop(skb: Packet, sch: Qdisc)
      modifies this`log, sch`drops, sch`dropCount
      ensures View() == old(Log(View(), Dropped(skb)))
      ensures sch.View() == old(sch.View().(drops := sch.drops + 1, dropCount := sch.dropCount + 1))
    {
      sch.drops, sch.dropCount := sch.drops + 1, sch.dropCount + 1;
      log := log + [Dropped(skb)];
    }

    /** Count the drop, refine the root, then mark or drop; finished is the "goto end". */
    method DropOrMark(first: Packet, sch: Qdisc, p: Params, clock: nat) returns (finished: bool, skb: Option<Packet>)
      modifies this`pkts, this`bytes, this`vars, this`log, sch
      ensures Turn(finished, Out(skb, sch.View(), View())) == old(LoopTurn(first, sch.View(), View(), p, clock))
    {
      hide NewtonStep, ControlLaw, ShouldDrop, Codel.Pop;
      skb := Some(first);
      vars := vars.(count := (vars.count + 1) % TWO32);
      Refine();
      if p.ecn && first.ect {
        sch.ecnMark := sch.ecnMark + 1;
        log := log + [Marked(first)];
        vars := vars.(dropNext := ControlLaw(vars.dropNext, p.interval, vars.recInvSqrt));
        return true, skb;
      }
      finished := false;
      Drop(first, sch);
      skb := Pop(sch);
      var ok := Judge(skb, sch, p, clock);
      if !ok {
        vars := vars.(dropping := false);
      } else {
        vars := vars.(dropNext := ControlLaw(vars.dropNext, p.interval, vars.recInvSqrt));
      }
    }

    /** The inner loop: drop while it is time for the next drop. */
    method DropWhileDue(first: Packet, sch: Qdisc, p: Params, clock: nat) returns (skb: Option<Packet>)
      modifies this`pkts, this`bytes, this`vars, this`log, sch
      ensures Out(skb, sch.View(), View()) == old(DropLoop(Some(first), sch.View(), View(), p, clock))
    {
      hide TimeAfterEq;
      skb := Some(first);
      ghost var goal := DropLoop(skb, sch.View(), View(), p, clock);
      while vars.dropping && TimeAfterEq(Low32(clock), vars.dropNext)
        invariant vars.dropping ==> skb.Some?
        invariant DropLoop(skb, sch.View(), View(), p, clock) == goal
        decreases |pkts| + |Hand(skb)|
      {
        var finished;
        TurnShrinks(skb.value, sch.View(), View(), p, clock);
        hide LoopTurn;
        finished, skb := DropOrMark(skb.value, sch, p, clock);
        if finished { return; }
      }
    }

    /** The branch that enters the dropping state. */
    method EnterDropping(first: Packet, sch: Qdisc, p: Params, clock: nat) returns (skb: Option<Packet>)
      modifies this`pkts, this`bytes, this`vars, this`log, sch
      ensures Out(skb, sch.View(), View()) == old(FirstDrop(first, sch.View(), View(), p, clock))
    {
      hide NewtonStep, ControlLaw, ShouldDrop, TimeBefore;
      skb := Some(first);
      if p.ecn && first.ect {
        sch.ecnMark := sch.ecnMark + 1;
        log := log + [Marked(first)];
      } else {
        Drop(first, sch);
        skb := Pop(sch);
        var _ := Judge(skb, sch, p, clock);
      }
      vars := vars.(dropping := true);
      var now := Low32(clock);
      if TimeBefore(Low32(now - vars.dropNext), Low32(16 * p.interval)) {
        vars := vars.(count := OrOne((vars.count - vars.lastcount) % TWO32));
        Refine();
      } else {
        vars := vars.(count := 1, recInvSqrt := TWO16 - 1);
      }
      vars := vars.(lastcount := vars.count);
      vars := vars.(dropNext := ControlLaw(now, p.interval, vars.recInvSqrt));
    }

    /** codel_dequeue. */
    method Dequeue(sch: Qdisc, p: Params, clock: nat) returns (skb: Option<Packet>)
      modifies this`pkts, this`bytes, this`vars, this`log, sch
      ensures Out(skb, sch.View(), View()) == old(CodelDequeue(sch.View(), View(), p, clock))
    {
      hide ShouldDrop, FirstDrop, DropLoop;
      skb := Pop(sch);
      if skb.None? {
        vars := vars.(dropping := false);
        return;
      }
      var drop := Judge(skb, sch, p, clock);
      if vars.dropping {
        if !drop {
          vars := vars.(dropping := false);
        } else {
          skb := DropWhileDue(skb.value, sch, p, clock);
        }
      } else if drop {
        skb := EnterDropping(skb.value, sch, p, clock);
      }
      if skb.Some? { log := log + [Delivered(skb.value)]; }
    }
  }

  lemma TurnShrinks(skb: Packet, sh: Shared, q: Queue, p: Params, clock: nat)
    ensures var t := LoopTurn(skb, sh, q, p, clock);
      !t.finished ==> |t.out.q.pkts| + |Hand(t.out.skb)| < |q.pkts| + 1 && (t.out.q.vars.dropping ==> t.out.skb.Some?)
  {
    hide NewtonStep, ControlLaw, TimeBefore, TimeAfter;
  }
}
