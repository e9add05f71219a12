/**
 * The two wires of an I2C bus as a logic analyser sees them, and the frames that its symbols spell.
 * Start, stop and data bits are those of the I2C-bus specification UM10204, sections 3.1.3 to 3.1.6.
 */
module I2cWire {
  import opened Wrappers
  import Bits
  import opened Words

  /**
   * What happens on the wires: the master sets SDA; SCL rises, with the other devices leaving SDA alone
   * (idle) or pulling it low for this pulse; SCL falls.
   */
  datatype Event = Sda(v: bool) | Rise(idle: bool) | Fall

  datatype Symbol = START | STOP | Bit(level: bool)

  /** An analyser: the lines, whether this pulse already held a start or stop, and the symbols so far. */
  datatype Analyser = Analyser(sda: bool, scl: bool, idle: bool, marked: bool, out: seq<Symbol>)

  const QUIET := Analyser(true, true, true, true, [])

  /**
   * A change of SDA while SCL is high is a start or a stop. A pulse without one is a data bit, with the
   * level that the wire has when SCL falls.
   */
  function Step(a: Analyser, e: Event): Analyser {
    match e
    case Sda(v) =>
      if a.scl && v != a.sda then a.(sda := v, marked := true, out := a.out + [if v then STOP else START])
      else a.(sda := v)
    case Rise(idle) => if a.scl then a else a.(scl := true, idle := idle, marked := false)
    case Fall =>
      if !a.scl then a
      else if a.marked then a.(scl := false)
      else a.(scl := false, out := a.out + [Bit(a.sda && a.idle)])
  }

  function Watch(trace: seq<Event>): Analyser {
    if trace == [] then QUIET else Step(Watch(trace[..|trace| - 1]), trace[|trace| - 1])
  }

  lemma WatchMore(trace: seq<Event>, e: Event)
    ensures Watch(trace + [e]) == Step(Watch(trace), e)
  {
    assert (trace + [e])[..|trace|] == trace;
  }

  // ---------------------------------------------------------------- bytes as bits

  /** The n low bits of c, most significant first. */
  function Low(c: nat, n: nat): (s: seq<Symbol>)
    ensures |s| == n
  {
    if n == 0 then [] else Low(c / 2, n - 1) + [Bit(c % 2 == 1)]
  }

  function Level(s: Symbol): nat {
    match s case Bit(true) => 1 case _ => 0
  }

  /** The number that bits spell, most significant first. */
  function Number(bits: seq<Symbol>): nat {
    if bits == [] then 0 else 2 * Number(bits[..|bits| - 1]) + Level(bits[|bits| - 1])
  }

  function Shr(c: nat, i: nat): nat {
    if i == 0 then c else Shr(c / 2, i - 1)
  }

  lemma {:induction false} ShrMore(c: nat, i: nat)
    ensures Shr(c, i + 1) == Shr(c, i) / 2
  {
    if i > 0 { ShrMore(c / 2, i - 1); }
  }

  lemma {:induction false} ShrSmall(c: nat, n: nat, bound: nat)
    requires c < bound && bound == Bits.Pow2(n)
    ensures Shr(c, n) == 0
  {
    if n > 0 { ShrSmall(c / 2, n - 1, bound / 2); }
  }

  lemma ShrAll(c: byte)
    ensures Shr(c, 8) == 0
  {
    ShrSmall(c, 8, 256);
  }

  lemma {:induction false} NumberOfLow(c: nat, n: nat)
    requires Shr(c, n) == 0
    ensures Number(Low(c, n)) == c
  {
    if n > 0 {
      NumberOfLow(c / 2, n - 1);
      var s := Low(c, n);
      assert s[..|s| - 1] == Low(c / 2, n - 1);
    }
  }

  // ---------------------------------------------------------------- frames

  /** A start, a stop, a byte the master wrote, or one it read and answered, if it clocked an answer at all. */
  datatype Frame = FStart | FStop | FWrite(c: byte, acked: bool) | FRead(c: byte, ack: Option<bool>)

  /** The symbols of a frame; an acknowledge is a low bit. */
  function Spell(f: Frame): seq<Symbol> {
    match f
    case FStart => [START]
    case FStop => [STOP]
    case FWrite(c, acked) => Low(c, 8) + [Bit(!acked)]
    case FRead(c, None) => Low(c, 8)
    case FRead(c, Some(ack)) => Low(c, 8) + [Bit(!ack)]
  }

  function Encode(fs: seq<Frame>): seq<Symbol> {
    if fs == [] then [] else Encode(fs[..|fs| - 1]) + Spell(fs[|fs| - 1])
  }

  lemma EncodeMore(fs: seq<Frame>, f: Frame)
    ensures Encode(fs + [f]) == Encode(fs) + Spell(f)
  {
    assert (fs + [f])[..|fs|] == fs;
  }

  /** What an observer can tell: he does not know who put the byte on the wire. */
  datatype Item = WStart | WStop | WByte(c: nat, acked: bool) | Garbage

  function Seen(f: Frame): Item {
    match f
    case FStart => WStart
    case FStop => WStop
    case FWrite(c, acked) => WByte(c, acked)
    case FRead(c, ack) => WByte(c, ack == Some(true))
  }

  function AllSeen(fs: seq<Frame>): seq<Item> {
    if fs == [] then [] else AllSeen(fs[..|fs| - 1]) + [Seen(fs[|fs| - 1])]
  }

  predicate IsBits(s: seq<Symbol>) {
    forall i :: 0 <= i < |s| ==> s[i].Bit?
  }

  /** Reading symbols as starts, stops and groups of nine bits, from the end backwards. */
  function Decode(s: seq<Symbol>): seq<Item> {
    if s == [] then []
    else
      var k := |s| - 1;
      match s[k]
      case START => Decode(s[..k]) + [WStart]
      case STOP => Decode(s[..k]) + [WStop]
      case Bit(b) =>
        if k >= 8 && IsBits(s[k - 8..k]) then Decode(s[..k - 8]) + [WByte(Number(s[k - 8..k]), !b)]
        else [Garbage]
  }

  /** The symbols determine every start, stop, byte and acknowledge, if each byte is followed by an answer. */
  lemma {:induction false} DecodeEncode(fs: seq<Frame>)
    requires forall i :: 0 <= i < |fs| && fs[i].FRead? ==> fs[i].ack.Some?
    ensures Decode(Encode(fs)) == AllSeen(fs)
  {
    if fs != [] {
      var most, f := fs[..|fs| - 1], fs[|fs| - 1];
      DecodeEncode(most);
      LastFrame(Encode(most), f);
    }
  }

  lemma LastFrame(s: seq<Symbol>, f: Frame)
    requires f.FRead? ==> f.ack.Some?
    ensures Decode(s + Spell(f)) == Decode(s) + [Seen(f)]
  {
    var t := s + Spell(f);
    if f.FStart? || f.FStop? {
      assert t[..|t| - 1] == s;
    } else {
      var c, b := f.c, if f.FWrite? then !f.acked else !f.ack.value;
      var k := |t| - 1;
      assert t == s + Low(c, 8) + [Bit(b)];
      assert t[k - 8..k] == Low(c, 8) && t[..k - 8] == s && t[k] == Bit(b);
      LowIsBits(c, 8);
      ShrAll(c);
      NumberOfLow(c, 8);
    }
  }

  lemma {:induction false} LowIsBits(c: nat, n: nat)
    ensures IsBits(Low(c, n))
  {
    if n > 0 { LowIsBits(c / 2, n - 1); }
  }
}
