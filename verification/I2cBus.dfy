/** Driving the two lines: compat/compat-3.4.c, lines 56-275 and 380-397. */
module I2cBus {
  import opened Wrappers
  import opened I2cWire
  import Bits
  import opened Words

  /** Did the other side pull SDA low in the n-th pulse that the master listened to? */
  predicate Ack(answers: nat -> bool, n: nat) {
    !answers(n)
  }

  /** The number that k pulses from the n-th on spell. */
  function Collect(answers: nat -> bool, n: nat, k: nat): (v: nat)
    ensures v < Bits.Pow2(k)
  {
    if k == 0 then 0 else 2 * Collect(answers, n, k - 1) + if answers(n + k - 1) then 1 else 0
  }

  lemma {:induction false} Pow2Grows(j: nat, k: nat)
    requires j <= k
    ensures Bits.Pow2(j) <= Bits.Pow2(k)
    decreases k - j
  {
    if j < k { Pow2Grows(j + 1, k); }
  }

  function ReadByte(answers: nat -> bool, n: nat): byte {
    assert Bits.Pow2(8) == 256;
    Collect(answers, n, 8)
  }

  /** A bus without clock stretching beyond the timeout: SCL rises whenever the master lets go of it. */
  class Bus {
    const answers: nat -> bool
    /** What the master drives, and what the other devices leave of SDA in the present pulse. */
    var sda: bool
    var scl: bool
    var others: bool
    /** How many pulses the master has listened to. */
    var asked: nat
    ghost var trace: seq<Event>
    ghost var log: seq<Frame>

    /** The analyser and the driver agree on the lines. */
    ghost predicate InStep()
      reads this
    {
      var a := Watch(trace);
      a.sda == sda && a.scl == scl && a.idle == others
    }

    ghost function Out(): seq<Symbol>
      reads this`trace
    {
      Watch(trace).out
    }

    /** SCL is high, SDA is high, and the wire so far spells the frames of the log. */
    ghost predicate Idle()
      reads this
    {
      InStep() && scl && sda && Out() == Encode(log)
    }

    /** The same inside a transfer: SCL is low. */
    ghost predicate Ready()
      reads this
    {
      InStep() && !scl && Out() == Encode(log)
    }

    constructor (answers: nat -> bool)
      ensures Idle() && log == [] && asked == 0 && this.answers == answers
    {
      this.answers := answers;
      sda, scl, others, asked := true, true, true, 0;
      trace, log := [], [];
    }

    method SetSda(v: bool)
      requires InStep()
      modifies `sda, `trace
      ensures InStep() && sda == v && Watch(trace) == Step(old(Watch(trace)), Sda(v))
    {
      sda := v;
      WatchMore(trace, Sda(v));
      trace := trace + [Event.Sda(v)];
    }

    /** sclhi; when the master listens, the other devices have their say on SDA. */
    method SclHigh(listen: bool)
      requires InStep() && !scl
      modifies `scl, `others, `asked, `trace
      ensures InStep() && scl && others == (listen ==> answers(old(asked)))
      ensures asked == old(asked) + if listen then 1 else 0
      ensures Watch(trace) == Step(old(Watch(trace)), Rise(others))
    {
      scl, others := true, listen ==> answers(asked);
      asked := if listen then asked + 1 else asked;
      WatchMore(trace, Rise(others));
      trace := trace + [Event.Rise(others)];
    }

    method SclLow()
      requires InStep()
      modifies `scl, `trace
      ensures InStep() && !scl && Watch(trace) == Step(old(Watch(trace)), Fall)
    {
      scl := false;
      WatchMore(trace, Fall);
      trace := trace + [Event.Fall];
    }

    function GetSda(): bool
      reads `sda, `others
    {
      sda && others
    }

    /** i2c_start */
    method Start()
      requires Idle()
      modifies this
      ensures Ready() && log == old(log) + [FStart] && asked == old(asked)
    {
      hide Watch, Encode;
      SetSda(false);
      SclLow();
      EncodeMore(log, FStart);
      log := log + [FStart];
    }

    /** i2c_repstart */
    method RepStart()
      requires Ready()
      modifies this
      ensures Ready() && log == old(log) + [FStart] && asked == old(asked)
    {
      hide Watch, Encode;
      SetSda(true);
      SclHigh(false);
      SetSda(false);
      SclLow();
      EncodeMore(log, FStart);
      log := log + [FStart];
    }

    /** i2c_stop */
    method Stop()
      requires Ready()
      modifies this
      ensures Idle() && log == old(log) + [FStop] && asked == old(asked)
    {
      hide Watch, Encode;
      SetSda(false);
      SclHigh(false);
      SetSda(true);
      EncodeMore(log, FStop);
      log := log + [FStop];
    }

    /** One pulse: the wire shows the driven level unless another device pulls it low. */
    method Pulse(listen: bool) returns (level: bool)
      requires InStep() && !scl
      modifies `scl, `others, `asked, `trace
      ensures InStep() && !scl && level == (sda && (listen ==> answers(old(asked))))
      ensures asked == old(asked) + if listen then 1 else 0
      ensures Out() == old(Out()) + [Bit(level)]
    {
      SclHigh(listen);
      level := GetSda();
      SclLow();
    }

    /** i2c_outb */
    method OutB(c: byte) returns (ack: bool)
      requires Ready()
      modifies this
      ensures Ready() && sda && ack == Ack(answers, old(asked)) && asked == old(asked) + 1
      ensures log == old(log) + [FWrite(c, ack)]
    {
      hide Watch, Encode, Low;
      var i := 7;
      LowNone(Shr(c, 8));
      while i >= 0
        invariant -1 <= i <= 7 && InStep() && !scl && asked == old(asked) && log == old(log)
        invariant Out() == Encode(log) + Low(Shr(c, i + 1), 7 - i)
      {
        var sb := Shr(c, i) % 2;
        SetSda(sb == 1);
        var _ := Pulse(false);
        NextLow(c, i);
        i := i - 1;
      }
      SetSda(true);
      var level := Pulse(true);
      ack := !level;
      EncodeMore(log, FWrite(c, ack));
      log := log + [FWrite(c, ack)];
    }

    /** i2c_inb; the byte's own log entry waits for the answer. */
    method InB() returns (indata: byte)
      requires Ready()
      modifies this
      ensures InStep() && !scl && sda && log == old(log)
      ensures indata == ReadByte(answers, old(asked)) && asked == old(asked) + 8
      ensures Out() == Encode(log) + Low(indata, 8)
    {
      hide Watch, Encode, Low, Collect, ReadByte;
      var v := 0;
      CollectEnds(answers, asked);
      SetSda(true);
      LowNone(0);
      var i := 0;
      while i < 8
        invariant 0 <= i <= 8 && InStep() && !scl && sda && log == old(log) && asked == old(asked) + i
        invariant v == Collect(answers, old(asked), i)
        invariant Out() == Encode(log) + Low(v, i)
      {
        NoBitLost(answers, old(asked), i);
        LowMore(v, answers(asked), i);
        var level := Pulse(true);
        v := 2 * v % 256;
        if level { v := v + 1; }
        i := i + 1;
      }
      indata := v;
    }

    /** acknak after i2c_inb: every byte is answered low or high. */
    method AckNak(ack: bool, ghost c: byte)
      requires InStep() && !scl && sda && Out() == Encode(log) + Low(c, 8)
      modifies this
      ensures Ready() && log == old(log) + [FRead(c, Some(ack))] && asked == old(asked)
    {
      hide Watch, Encode, Low;
      if ack { SetSda(false); }
      var _ := Pulse(false);
      EncodeMore(log, FRead(c, Some(ack)));
      log := log + [FRead(c, Some(ack))];
    }

    /** Leaving the answer out (I2C_M_NO_RD_ACK). */
    ghost method NoAnswer(c: byte)
      requires InStep() && !scl && Out() == Encode(log) + Low(c, 8)
      modifies `log
      ensures Ready() && log == old(log) + [FRead(c, None)]
    {
      EncodeMore(log, FRead(c, None));
      log := log + [FRead(c, None)];
    }

    /** One or the other, as the message asks. */
    method Answer(mute: bool, ack: bool, ghost c: byte)
      requires InStep() && !scl && sda && Out() == Encode(log) + Low(c, 8)
      modifies this
      ensures Ready() && log == old(log) + [FRead(c, if mute then None else Some(ack))] && asked == old(asked)
    {
      hide Watch, Encode, Low;
      if mute { NoAnswer(c); } else { AckNak(ack, c); }
    }
  }

  lemma LowNone(c: nat)
    ensures Low(c, 0) == []
  {}

  lemma NextLow(c: byte, i: nat)
    requires i <= 7
    ensures Low(Shr(c, i), 8 - i) == Low(Shr(c, i + 1), 7 - i) + [Bit(Shr(c, i) % 2 == 1)]
    ensures Shr(c, 0) == c
  {
    ShrMore(c, i);
  }

  lemma LowMore(v: nat, level: bool, i: nat)
    ensures Low(2 * v + if level then 1 else 0, i + 1) == Low(v, i) + [Bit(level)]
  {
    var w := 2 * v + if level then 1 else 0;
    assert w / 2 == v;
  }

  lemma CollectEnds(answers: nat -> bool, n: nat)
    ensures Collect(answers, n, 0) == 0 && Collect(answers, n, 8) == ReadByte(answers, n)
  {}

  /** The shift in i2c_inb does not lose bits. */
  lemma NoBitLost(answers: nat -> bool, n: nat, i: nat)
    requires i < 8
    ensures 2 * Collect(answers, n, i) < 256
    ensures Collect(answers, n, i + 1) == 2 * Collect(answers, n, i) + if answers(n + i) then 1 else 0
  {
    Pow2Grows(i + 1, 8);
    assert Bits.Pow2(8) == 256;
  }
}
