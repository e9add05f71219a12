/** One writer and one reader on a kfifo without a lock (include/linux/kfifo.h:47-55).

    Both sides are cut into the steps another CPU can observe: read the other side's index,
    copy single elements in any order, publish the own index. The barriers of the C code keep
    the copies of one call between its first and its last step. produced and consumed are
    history: every element ever published and every element ever taken or skipped. */
module KfifoSpsc {
  import opened Bits
  import opened Kfifo
  import opened Words

  datatype Writer<T> = WIdle | WCopying(items: seq<T>, done: set<nat>)
  datatype Reader<T> = RIdle | RCopying(n: nat, got: map<nat, T>)

  datatype State<T> = State(order: nat, inIdx: u32, outIdx: u32, cells: seq<T>, w: Writer<T>, r: Reader<T>,
                            produced: seq<T>, consumed: seq<T>)

  datatype Move<T> =
    | ReadOut(want: seq<T>)   // writer: kfifo_unused
    | CopyIn(j: nat)          // writer: one element of the copy
    | PublishIn               // writer: fifo->in += len
    | ReadIn(max: nat)        // reader: in - out
    | CopyOut(k: nat)         // reader: one element of the copy
    | PublishOut              // reader: fifo->out += len
    | SkipOut                 // reader: kfifo_reset_out, out = the in it has read

  function Size<T>(s: State<T>): nat { Pow2(s.order) }

  /** The cell the code addresses for the j-th element from a free-running index. */
  function Cell<T>(s: State<T>, idx: u32, j: nat): nat {
    And(Advance(idx, j), Size(s) - 1)
  }

  predicate Enabled<T>(s: State<T>, m: Move<T>) {
    match m
    case ReadOut(_) => s.w.WIdle?
    case CopyIn(j) => s.w.WCopying? && j < |s.w.items| && Cell(s, s.inIdx, j) < |s.cells|
    case PublishIn => s.w.WCopying? && forall j: nat :: j < |s.w.items| ==> j in s.w.done
    case ReadIn(_) => s.r.RIdle?
    case CopyOut(k) => s.r.RCopying? && k < s.r.n && Cell(s, s.outIdx, k) < |s.cells|
    case SkipOut => s.r.RCopying? && |s.consumed| + s.r.n <= |s.produced|
    case PublishOut => s.r.RCopying? && forall k: nat :: k < s.r.n ==> k in s.r.got
  }

  function Step<T>(s: State<T>, m: Move<T>): State<T>
    requires Enabled(s, m)
  {
    match m
    case ReadOut(want) =>
      var free := Size(s) - Used(s.inIdx, s.outIdx);
      s.(w := WCopying(if 0 <= free < |want| then want[..free] else want, {}))
    case CopyIn(j) =>
      s.(cells := s.cells[Cell(s, s.inIdx, j) := s.w.items[j]], w := s.w.(done := s.w.done + {j}))
    case PublishIn =>
      s.(inIdx := Advance(s.inIdx, |s.w.items|), produced := s.produced + s.w.items, w := WIdle)
    case ReadIn(max) =>
      s.(r := RCopying(Min(max, Used(s.inIdx, s.outIdx)), map[]))
    case CopyOut(k) =>
      s.(r := s.r.(got := s.r.got[k := s.cells[Cell(s, s.outIdx, k)]]))
    case SkipOut =>
      s.(outIdx := Advance(s.outIdx, s.r.n),
         consumed := s.consumed + s.produced[|s.consumed|..|s.consumed| + s.r.n], r := RIdle)
    case PublishOut =>
      s.(outIdx := Advance(s.outIdx, s.r.n),
         consumed := s.consumed + seq(s.r.n, k requires 0 <= k < s.r.n && k in s.r.got => s.r.got[k]), r := RIdle)
  }

  /** Any schedule of both sides; a move that is not enabled does nothing. */
  function Run<T>(s: State<T>, moves: seq<Move<T>>): State<T>
    decreases |moves|
  {
    if moves == [] then s
    else Run(if Enabled(s, moves[0]) then Step(s, moves[0]) else s, moves[1..])
  }

  // ---------------------------------------------------------------- the invariant

  ghost predicate IndicesOk<T>(s: State<T>) {
    && 1 <= s.order <= 31 && |s.cells| == Size(s)
    && s.inIdx == |s.produced| % TWO32 && s.outIdx == |s.consumed| % TWO32
    && |s.consumed| <= |s.produced| <= |s.consumed| + Size(s)
  }

  /** The i-th element of the stream lives in this cell. */
  function Home<T>(s: State<T>, i: nat): (h: nat)
    ensures h < Size(s)
  {
    i % Size(s)
  }

  /** Every unread element is in its cell. */
  ghost predicate UnreadOk<T>(s: State<T>)
    requires IndicesOk(s)
  {
    forall i: nat :: |s.consumed| <= i < |s.produced| ==> s.cells[Home(s, i)] == s.produced[i]
  }

  ghost predicate WriterOk<T>(s: State<T>)
    requires IndicesOk(s)
  {
    s.w.WCopying? ==>
      (|s.produced| + |s.w.items| <= |s.consumed| + Size(s) &&
       forall j :: j in s.w.done ==> j < |s.w.items| && s.cells[Home(s, |s.produced| + j)] == s.w.items[j])
  }

  ghost predicate ReaderOk<T>(s: State<T>) {
    s.r.RCopying? ==>
      (|s.consumed| + s.r.n <= |s.produced| &&
       forall k :: k in s.r.got ==> k < s.r.n && s.r.got[k] == s.produced[|s.consumed| + k])
  }

  ghost predicate Inv<T>(s: State<T>) {
    IndicesOk(s) && UnreadOk(s) && WriterOk(s) && ReaderOk(s) && s.consumed == s.produced[..|s.consumed|]
  }

  /** The 32-bit indices tell the true fill level. */
  lemma FillLevel<T>(s: State<T>)
    requires IndicesOk(s)
    ensures Used(s.inIdx, s.outIdx) == |s.produced| - |s.consumed|
  {
    SizeBound(s.order);
  }

  lemma SizeBound(order: nat)
    requires order <= 31
    ensures 2 * Pow2(order) <= TWO32
  {
    PowOf32();
    Pow2Mono(order, 31);
    assert Pow2(32) == 2 * Pow2(31);
  }

  /** The cell the code computes from a wrapped index is the home of the true position. */
  lemma CellIsHome<T>(s: State<T>, base: nat, idx: u32, j: nat)
    requires s.order <= 31 && idx == base % TWO32 && j <= Size(s)
    ensures Cell(s, idx, j) == Home(s, base + j)
  {
    hide Pow2, And;
    SizeBound(s.order);
    AndMask(Advance(idx, j), s.order);
    SlotAdvance(idx, j, s.order);
    BaseSlot(base, s.order);
    AddMod(base, j, Size(s));
  }

  lemma BaseSlot(base: nat, order: nat)
    requires order <= 32
    ensures base % TWO32 % Pow2(order) == base % Pow2(order)
  {
    hide Pow2;
    var q, c, size := base / TWO32, Pow2(32 - order), Pow2(order);
    PowersDivide(order, 32);
    PowOf32();
    assert base == base % TWO32 + q * c * size by { assert q * (c * size) == q * c * size; }
    ModShift(base % TWO32, size, q * c);
  }

  /** Two positions less than one lap apart have different homes. */
  lemma HomesDiffer<T>(s: State<T>, i: nat, k: nat)
    requires i < k < i + Size(s)
    ensures Home(s, i) != Home(s, k)
  {
    hide Pow2;
    var m := Size(s);
    if i % m == k % m {
      var d := k / m - i / m;
      assert k - i == d * m by {
        assert k == m * (k / m) + k % m && i == m * (i / m) + i % m;
        assert m * d == m * (k / m) - m * (i / m);
      }
      SmallMultiple(d, m);
    }
  }

  // ---------------------------------------------------------------- safety of single moves

  /** The writer never touches a cell that holds an unread element. */
  lemma WriterNeverOverwrites<T>(s: State<T>, j: nat, i: nat)
    requires Inv(s) && s.w.WCopying? && j < |s.w.items|
    requires |s.consumed| <= i < |s.produced|
    ensures Cell(s, s.inIdx, j) != Home(s, i)
  {
    CellIsHome(s, |s.produced|, s.inIdx, j);
    HomesDiffer(s, i, |s.produced| + j);
  }

  /** The reader only reads cells of published elements, and gets those elements. */
  lemma ReaderSeesPublished<T>(s: State<T>, k: nat)
    requires Inv(s) && s.r.RCopying? && k < s.r.n
    ensures |s.consumed| + k < |s.produced|
    ensures Cell(s, s.outIdx, k) < |s.cells| && s.cells[Cell(s, s.outIdx, k)] == s.produced[|s.consumed| + k]
  {
    CellIsHome(s, |s.consumed|, s.outIdx, k);
  }
}
