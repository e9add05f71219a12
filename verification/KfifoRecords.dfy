/** Runs of record calls on a kfifo: what goes in comes out, in order and undivided. */
module KfifoRecords {
  import opened Words
  import opened Kfifo

  datatype Call = Put(buf: seq<byte>) | Get(len: nat) | Skip

  /** The bytes in the fifo, the records accepted so far, and the records taken out so far, whole. */
  datatype Trail = Trail(bytes: seq<byte>, put: seq<seq<byte>>, taken: seq<seq<byte>>)

  /** One call on a fifo of room bytes. */
  function Step(t: Trail, call: Call, room: nat, recsize: nat): Trail
    requires recsize == 1 || recsize == 2
  {
    match call
    case Put(buf) =>
      if |t.bytes| + |buf| + recsize > room then t
      else t.(bytes := t.bytes + (Header(|buf|, recsize) + buf), put := t.put + [buf])
    case _ =>
      if t.bytes == [] then t
      else Trail(FirstOf(t.bytes, recsize).1, t.put, t.taken + [FirstOf(t.bytes, recsize).0])
  }

  function Run(t: Trail, calls: seq<Call>, room: nat, recsize: nat): Trail
    requires recsize == 1 || recsize == 2
    decreases |calls|
  {
    if calls == [] then t else Run(Step(t, calls[0], room, recsize), calls[1..], room, recsize)
  }

  /** What the reads of a run hand over: each time the first record, cut to the caller's buffer. */
  function Reads(t: Trail, calls: seq<Call>, room: nat, recsize: nat): seq<seq<byte>>
    requires recsize == 1 || recsize == 2
    decreases |calls|
  {
    if calls == [] then []
    else (if calls[0].Get? then [Handed(t, calls[0].len, recsize)] else []) +
         Reads(Step(t, calls[0], room, recsize), calls[1..], room, recsize)
  }

  function Handed(t: Trail, len: nat, recsize: nat): seq<byte>
    requires recsize == 1 || recsize == 2
  {
    if t.bytes == [] then [] else
    var r := FirstOf(t.bytes, recsize).0;
    r[..Min(len, |r|)]
  }

  /** The calls put in only records whose length the field can hold. */
  predicate Fit(calls: seq<Call>, recsize: nat) {
    forall i :: 0 <= i < |calls| && calls[i].Put? ==> |calls[i].buf| <= MaxLen(recsize)
  }

  /** The bytes are the records put in and not taken out yet. */
  predicate InOrder(t: Trail, recsize: nat)
    requires recsize == 1 || recsize == 2
  {
    t.taken <= t.put && RecordsOk(t.put[|t.taken|..], recsize) && t.bytes == Encode(t.put[|t.taken|..], recsize)
  }

  lemma StepKeeps(t: Trail, call: Call, room: nat, recsize: nat)
    requires recsize == 1 || recsize == 2
    requires InOrder(t, recsize) && (call.Put? ==> |call.buf| <= MaxLen(recsize))
    ensures InOrder(Step(t, call, room, recsize), recsize)
  {
    hide InOrder, Header, FirstOf;
    match call
    case Put(buf) => PutKeeps(t, buf, recsize);
    case _ => if t.bytes != [] { TakeKeeps(t, recsize); }
  }

  lemma PutKeeps(t: Trail, buf: seq<byte>, recsize: nat)
    requires recsize == 1 || recsize == 2
    requires InOrder(t, recsize) && |buf| <= MaxLen(recsize)
    ensures InOrder(t.(bytes := t.bytes + (Header(|buf|, recsize) + buf), put := t.put + [buf]), recsize)
  {
    hide Header, Encode, RecordsOk;
    var rs := t.put[|t.taken|..];
    EncodeSnoc(rs, buf, recsize);
    RecordsSnoc(rs, buf, recsize);
    assert (t.put + [buf])[|t.taken|..] == rs + [buf];
  }

  lemma TakeKeeps(t: Trail, recsize: nat)
    requires recsize == 1 || recsize == 2
    requires InOrder(t, recsize) && t.bytes != []
    ensures InOrder(Trail(FirstOf(t.bytes, recsize).1, t.put, t.taken + [FirstOf(t.bytes, recsize).0]), recsize)
  {
    hide FirstOf, Encode;
    var rs := t.put[|t.taken|..];
    QueueFacts(rs, recsize);
    assert rs[1..] == t.put[|t.taken| + 1..] && t.put[..|t.taken| + 1] == t.taken + [rs[0]];
  }

  /** Over every run of calls from an empty fifo the records taken out, by reading or by skipping, are the
      first ones put in, each whole, and the bytes left are those of the others. */
  lemma {:induction false} RecordsAreQueued(t: Trail, calls: seq<Call>, room: nat, recsize: nat)
    requires recsize == 1 || recsize == 2
    requires InOrder(t, recsize) && Fit(calls, recsize)
    ensures InOrder(Run(t, calls, room, recsize), recsize)
    decreases |calls|
  {
    hide InOrder, Step;
    if calls != [] {
      StepKeeps(t, calls[0], room, recsize);
      RecordsAreQueued(Step(t, calls[0], room, recsize), calls[1..], room, recsize);
    }
  }

  /** One record that is too long breaks this: nothing else in the fifo, and it does not come back. */
  lemma TooLongIsLost(buf: seq<byte>, room: nat, recsize: nat, len: nat)
    requires recsize == 1 || recsize == 2
    requires |buf| + recsize <= room
    ensures var t := Run(Trail([], [], []), [Put(buf), Get(len)], room, recsize);
      t.put == [buf] && (t.taken == [buf] && t.bytes == [] <==> |buf| <= MaxLen(recsize))
  {
    var start := Trail([], [], []);
    var one := Step(start, Put(buf), room, recsize);
    var two := Step(one, Get(len), room, recsize);
    assert one.bytes == Header(|buf|, recsize) + buf + [];
    ReadsBack(buf, recsize, []);
    assert [Put(buf), Get(len)][1..] == [Get(len)] && [Get(len)][1..] == [];
    assert Run(start, [Put(buf), Get(len)], room, recsize) == Run(one, [Get(len)], room, recsize);
    assert Run(one, [Get(len)], room, recsize) == Run(two, [], room, recsize);
  }

  /** One call on the object itself; the bytes are those that Step says. */
  method ServeOne(f: Fifo, call: Call, recsize: nat, ghost t: Trail) returns (buf: seq<byte>)
    requires f.Valid() && f.esize == 1 && (recsize == 1 || recsize == 2)
    requires f.Contents() == t.bytes && InOrder(t, recsize) && (call.Put? ==> |call.buf| <= MaxLen(recsize))
    modifies f`inIdx, f`outIdx, f.data
    ensures f.Valid() && f.Contents() == Step(t, call, f.mask + 1, recsize).bytes
    ensures call.Get? ==> buf == Handed(t, call.len, recsize)
  {
    hide Encode, FirstOf, Header, RecordsOk;
    ghost var rs := t.put[|t.taken|..];
    QueueFacts(rs, recsize);
    buf := [];
    match call {
      case Put(r) =>
        var _ := f.InR(r, recsize, rs);
      case Get(len) =>
        var _, b := f.OutR(len, recsize, rs);
        buf := b;
      case Skip =>
        if f.inIdx != f.outIdx { f.SkipR(recsize, rs); }
    }
  }

  /** Any sequence of calls on the object does what the run of the same calls does. */
  method Serve(f: Fifo, calls: seq<Call>, recsize: nat) returns (read: seq<seq<byte>>, ghost t: Trail)
    requires f.Valid() && f.esize == 1 && (recsize == 1 || recsize == 2) && f.Contents() == []
    requires Fit(calls, recsize)
    modifies f`inIdx, f`outIdx, f.data
    ensures f.Valid() && t == Run(Trail([], [], []), calls, f.mask + 1, recsize)
    ensures f.Contents() == t.bytes && InOrder(t, recsize)
    ensures read == Reads(Trail([], [], []), calls, f.mask + 1, recsize)
  {
    hide Step, Handed, InOrder, Run, Reads;
    ghost var room := f.mask + 1;
    t := Trail([], [], []);
    NoRecords(recsize);
    assert calls[0..] == calls;
    read := [];
    var i := 0;
    while i < |calls|
      invariant 0 <= i <= |calls| && f.Valid() && f.Contents() == t.bytes && InOrder(t, recsize)
      invariant Run(t, calls[i..], room, recsize) == Run(Trail([], [], []), calls, room, recsize)
      invariant read + Reads(t, calls[i..], room, recsize) == Reads(Trail([], [], []), calls, room, recsize)
    {
      OneMore(t, calls, i, room, recsize);
      StepKeeps(t, calls[i], room, recsize);
      var buf := ServeOne(f, calls[i], recsize, t);
      if calls[i].Get? { read := read + [buf]; }
      t := Step(t, calls[i], room, recsize);
      i := i + 1;
    }
    NoMore(t, calls[i..], room, recsize);
  }

  lemma OneMore(t: Trail, calls: seq<Call>, i: nat, room: nat, recsize: nat)
    requires (recsize == 1 || recsize == 2) && i < |calls|
    ensures Run(t, calls[i..], room, recsize) == Run(Step(t, calls[i], room, recsize), calls[i + 1..], room, recsize)
    ensures Reads(t, calls[i..], room, recsize) ==
            (if calls[i].Get? then [Handed(t, calls[i].len, recsize)] else []) +
            Reads(Step(t, calls[i], room, recsize), calls[i + 1..], room, recsize)
  {
    assert calls[i..][0] == calls[i] && calls[i..][1..] == calls[i + 1..];
  }

  lemma NoMore(t: Trail, calls: seq<Call>, room: nat, recsize: nat)
    requires (recsize == 1 || recsize == 2) && calls == []
    ensures Run(t, calls, room, recsize) == t && Reads(t, calls, room, recsize) == []
  {}

  lemma NoRecords(recsize: nat)
    requires recsize == 1 || recsize == 2
    ensures InOrder(Trail([], [], []), recsize)
  {}

  lemma QueueFacts(rs: seq<seq<byte>>, recsize: nat)
    requires recsize == 1 || recsize == 2
    requires RecordsOk(rs, recsize)
    ensures Encode(rs, recsize) == [] <==> rs == []
    ensures rs != [] ==> FirstOf(Encode(rs, recsize), recsize) == (rs[0], Encode(rs[1..], recsize))
  {
    if rs != [] { FirstOfQueue(rs, recsize); }
  }
}
