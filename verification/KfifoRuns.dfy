/** Every schedule of one writer and one reader: no move breaks the invariant, nothing is lost. */
module KfifoRuns {
  import opened Bits
  import opened Kfifo
  import opened KfifoSpsc
  import opened Words

  // ---------------------------------------------------------------- every move keeps the invariant

  lemma CopyInKeeps<T>(s: State<T>, j: nat)
    requires Inv(s) && Enabled(s, CopyIn(j))
    ensures Inv(Step(s, CopyIn(j)))
  {
    hide Pow2, And, Home, Cell, Advance;
    var t := Step(s, CopyIn(j));
    HomesSame(s, t);
    CellIsHome(s, |s.produced|, s.inIdx, j);
    forall i: nat | |s.consumed| <= i < |s.produced| ensures t.cells[Home(t, i)] == t.produced[i] {
      WriterNeverOverwrites(s, j, i);
      assert t.cells[Home(s, i)] == s.cells[Home(s, i)];
    }
    forall d | d in t.w.done ensures d < |t.w.items| && t.cells[Home(t, |t.produced| + d)] == t.w.items[d] {
      if d == j {
        assert t.cells[Home(s, |s.produced| + j)] == s.w.items[j];
      } else {
        assert d in s.w.done;
        if d < j { HomesDiffer(s, |s.produced| + d, |s.produced| + j); }
        else { HomesDiffer(s, |s.produced| + j, |s.produced| + d); }
        assert t.cells[Home(s, |s.produced| + d)] == s.cells[Home(s, |s.produced| + d)];
      }
    }
  }

  lemma PublishInKeeps<T>(s: State<T>)
    requires Inv(s) && Enabled(s, PublishIn)
    ensures Inv(Step(s, PublishIn))
  {
    hide Pow2, And, Advance, Home;
    var t := Step(s, PublishIn);
    AdvanceCounts(|s.produced|, |s.w.items|);
    HomesSame(s, t);
    forall i: nat | |t.consumed| <= i < |t.produced| ensures t.cells[Home(t, i)] == t.produced[i] {
      if i >= |s.produced| { assert i - |s.produced| in s.w.done; }
    }
  }

  lemma HomesSame<T>(s: State<T>, t: State<T>)
    requires t.order == s.order
    ensures Size(t) == Size(s) && forall i: nat :: Home(t, i) == Home(s, i)
  {}

  lemma AdvanceCounts(n: nat, k: nat)
    ensures Advance(n % TWO32, k) == (n + k) % TWO32
  {
    AddMod(n, k, TWO32);
  }

  lemma CopyOutKeeps<T>(s: State<T>, k: nat)
    requires Inv(s) && Enabled(s, CopyOut(k))
    ensures Inv(Step(s, CopyOut(k)))
  {
    hide Pow2, And;
    ReaderSeesPublished(s, k);
  }

  lemma PublishOutKeeps<T>(s: State<T>)
    requires Inv(s) && Enabled(s, PublishOut)
    ensures Inv(Step(s, PublishOut))
  {
    hide Pow2, And, Advance, Home;
    HomesSame(s, Step(s, PublishOut));
    var t := Step(s, PublishOut);
    AdvanceCounts(|s.consumed|, s.r.n);
    var c := |s.consumed|;
    forall i | 0 <= i < |t.consumed| ensures t.consumed[i] == t.produced[..|t.consumed|][i] {
      if i >= c { assert s.r.got[i - c] == s.produced[c + (i - c)]; }
      else { assert s.consumed[i] == s.produced[..c][i]; }
    }
  }

  /** Skipping is possible whenever the reader has read the other index, and keeps the invariant. */
  lemma SkipOutKeeps<T>(s: State<T>)
    requires Inv(s) && s.r.RCopying?
    ensures Enabled(s, SkipOut) && Inv(Step(s, SkipOut))
  {
    hide Pow2, And;
    AdvanceCounts(|s.consumed|, s.r.n);
    var n := |s.consumed| + s.r.n;
    assert s.produced[..|s.consumed|] + s.produced[|s.consumed|..n] == s.produced[..n];
  }

  lemma StepKeeps<T>(s: State<T>, m: Move<T>)
    requires Inv(s) && Enabled(s, m)
    ensures Inv(Step(s, m)) && Step(s, m).order == s.order
  {
    hide Pow2, And, Used;
    match m
    case ReadOut(_) => FillLevel(s);
    case CopyIn(j) => CopyInKeeps(s, j);
    case PublishIn => PublishInKeeps(s);
    case ReadIn(_) => FillLevel(s);
    case CopyOut(k) => CopyOutKeeps(s, k);
    case PublishOut => PublishOutKeeps(s);
    case SkipOut => SkipOutKeeps(s);
  }

  // ---------------------------------------------------------------- the theorem

  /** A fifo whose indices start anywhere, nothing in it. */
  ghost predicate Fresh<T>(s: State<T>) {
    && 1 <= s.order <= 31 && |s.cells| == Size(s) && s.w.WIdle? && s.r.RIdle?
    && s.consumed == s.produced && s.inIdx == s.outIdx == |s.produced| % TWO32
  }

  /** Without any lock: after every schedule of both sides, what the reader has taken is a
      prefix of what the writer has published, nothing is missing in between, the fill level
      is within the size, and the 32-bit indices tell it, however often they have wrapped. */
  lemma {:induction false} SingleProducerSingleConsumer<T>(s: State<T>, moves: seq<Move<T>>)
    requires Inv(s)
    ensures var t := Run(s, moves);
      && Inv(t)
      && t.consumed <= t.produced
      && Used(t.inIdx, t.outIdx) == |t.produced| - |t.consumed| <= Size(t)
      && (forall i: nat :: |t.consumed| <= i < |t.produced| ==> t.cells[Home(t, i)] == t.produced[i])
    decreases |moves|
  {
    hide Pow2, And, Used, Home, Enabled, Step;
    if moves == [] {
      FillLevel(s);
    } else {
      if Enabled(s, moves[0]) { StepKeeps(s, moves[0]); }
      SingleProducerSingleConsumer(if Enabled(s, moves[0]) then Step(s, moves[0]) else s, moves[1..]);
    }
  }

  lemma FreshInv<T>(s: State<T>)
    requires Fresh(s)
    ensures Inv(s)
  {}

  /** The histories only grow. */
  lemma {:induction false} StreamsGrow<T>(s: State<T>, moves: seq<Move<T>>)
    ensures s.produced <= Run(s, moves).produced && s.consumed <= Run(s, moves).consumed
    decreases |moves|
  {
    if moves != [] {
      var t := if Enabled(s, moves[0]) then Step(s, moves[0]) else s;
      assert s.produced <= t.produced && s.consumed <= t.consumed;
      StreamsGrow(t, moves[1..]);
    }
  }

  // ---------------------------------------------------------------- whole calls

  /** kfifo_unused: the writer takes as much of what it wants as there is room for, whatever the indices. */
  lemma WriterStarts<T>(s: State<T>, want: seq<T>)
    requires Inv(s) && s.w.WIdle?
    ensures Enabled(s, ReadOut(want))
    ensures var room, t := Size(s) - (|s.produced| - |s.consumed|), Step(s, ReadOut(want));
      && t == s.(w := t.w) && t.w.WCopying? && t.w.done == {}
      && t.w.items == want[..if |want| <= room then |want| else room]
  {
    hide Pow2, And, Used;
    FillLevel(s);
  }

  /** The reader is promised as many of the elements it asks for as there are. */
  lemma ReaderStarts<T>(s: State<T>, max: nat)
    requires Inv(s) && s.r.RIdle?
    ensures Enabled(s, ReadIn(max))
    ensures var level, t := |s.produced| - |s.consumed|, Step(s, ReadIn(max));
      t == s.(r := RCopying(if max <= level then max else level, map[]))
  {
    hide Pow2, And, Used;
    FillLevel(s);
  }

  /** What a call in progress is to publish is published as it is, by some continuation of its own. */
  lemma {:induction false} WriterFinishes<T>(s: State<T>, j: nat) returns (moves: seq<Move<T>>)
    requires Inv(s) && s.w.WCopying? && j <= |s.w.items| && forall d: nat :: d < j ==> d in s.w.done
    ensures var t := Run(s, moves);
      && t.produced == s.produced + s.w.items && t.w.WIdle? && t.consumed == s.consumed && t.r == s.r
      && t.outIdx == s.outIdx && Inv(t)
    decreases |s.w.items| - j
  {
    hide Pow2, And, Used, Home, Advance;
    if j == |s.w.items| {
      moves := [PublishIn];
      StepKeeps(s, PublishIn);
      var none: seq<Move<T>> := [];
      assert moves[1..] == none;
    } else {
      CellIsHome(s, |s.produced|, s.inIdx, j);
      StepKeeps(s, CopyIn(j));
      var rest := WriterFinishes(Step(s, CopyIn(j)), j + 1);
      moves := [CopyIn(j)] + rest;
    }
  }

  /** The elements a reader was promised are the next published ones, and some continuation of its own takes
      them all. */
  lemma {:induction false} ReaderFinishes<T>(s: State<T>, k: nat) returns (moves: seq<Move<T>>)
    requires Inv(s) && s.r.RCopying? && k <= s.r.n && forall d: nat :: d < k ==> d in s.r.got
    ensures var t := Run(s, moves);
      && |s.consumed| + s.r.n <= |s.produced|
      && t.consumed == s.produced[..|s.consumed| + s.r.n] && t.r.RIdle? && t.produced == s.produced && t.w == s.w
      && t.inIdx == s.inIdx && Inv(t)
    decreases s.r.n - k
  {
    hide Pow2, And, Used, Home, Advance;
    if k == s.r.n {
      moves := [PublishOut];
      StepKeeps(s, PublishOut);
      var none: seq<Move<T>> := [];
      assert moves[1..] == none;
    } else {
      ReaderSeesPublished(s, k);
      StepKeeps(s, CopyOut(k));
      var rest := ReaderFinishes(Step(s, CopyOut(k)), k + 1);
      moves := [CopyOut(k)] + rest;
    }
  }
}
