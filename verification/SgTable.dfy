/** Chained scatterlist tables (compat/compat-2.6.25.c): allocation that may fail at any
    chunk, and the free that must agree with it on every chunk and its size. */
module SgTable {
  /** One scatterlist entry: usable, or the link to the next chunk. */
  datatype Entry = Plain(isEnd: bool) | Chain(next: array<Entry>)

  type Chunk = array<Entry>

  // ---------------------------------------------------------------- sizes

  /** The chunk sizes that n entries need when a chunk holds at most max entries. */
  function ChunkSizes(n: nat, max: nat): (sizes: seq<nat>)
    requires n >= 1 && max >= 2
    ensures sizes != []
  {
    if n > max then [max] + ChunkSizes(n - (max - 1), max) else [n]
  }

  /** The chunk sizes that __sg_free_table passes on for a given orig_nents. */
  function FreeSizes(n: nat, max: nat): seq<nat>
    requires max >= 2
  {
    if n == 0 then [] else ChunkSizes(n, max)
  }

  function Copies(k: nat, x: nat): seq<nat> { seq(k, _ => x) }

  /** After a failure behind k full chunks, orig_nents = k(max-1)+1 makes free see k chunks
      of exactly max entries. */
  lemma {:induction false} FailureSizes(k: nat, max: nat)
    requires k >= 1 && max >= 2
    ensures ChunkSizes(k * (max - 1) + 1, max) == Copies(k, max)
  {
    if k == 1 {
    } else {
      FailureSizes(k - 1, max);
      Expand(k, max);
      assert Copies(k, max) == [max] + Copies(k - 1, max);
    }
  }

  lemma Expand(k: nat, max: nat)
    requires k >= 2 && max >= 2
    ensures k * (max - 1) + 1 > max
    ensures k * (max - 1) + 1 - (max - 1) == (k - 1) * (max - 1) + 1
  {}

  /** The entries a chain of chunks offers: all but the link of every chunk before the last. */
  function Usable(sizes: seq<nat>): int {
    if sizes == [] then 0
    else if |sizes| == 1 then sizes[0]
    else sizes[0] - 1 + Usable(sizes[1..])
  }

  /** The chunks offer exactly the entries asked for. */
  lemma {:induction false} ChunksHoldAll(n: nat, max: nat)
    requires n >= 1 && max >= 2
    ensures Usable(ChunkSizes(n, max)) == n
    ensures forall i :: 0 <= i < |ChunkSizes(n, max)| - 1 ==> ChunkSizes(n, max)[i] == max
    ensures 1 <= ChunkSizes(n, max)[|ChunkSizes(n, max)| - 1] <= max
  {
    if n > max { ChunksHoldAll(n - (max - 1), max); }
  }

  // ---------------------------------------------------------------- tables

  function Sizes(chunks: seq<Chunk>): seq<nat> {
    seq(|chunks|, i requires 0 <= i < |chunks| => chunks[i].Length)
  }

  ghost predicate LinkAt(chunks: seq<Chunk>, i: int, max: nat)
    requires 0 <= i < |chunks| - 1
    reads chunks
  {
    chunks[i].Length == max >= 1 && chunks[i][max - 1] == Chain(chunks[i + 1])
  }

  /** Every chunk but the last is full and linked to the next. */
  ghost predicate Linked(chunks: seq<Chunk>, max: nat)
    reads chunks
  {
    forall i :: 0 <= i < |chunks| - 1 ==> LinkAt(chunks, i, max)
  }

  /** Apart from its last entry the chunk is made of usable entries that are not an end. */
  ghost predicate Body(c: Chunk)
    reads c
  {
    c.Length >= 1 && forall j :: 0 <= j < c.Length - 1 ==> c[j] == Plain(false)
  }

  /** Links aside, all entries are usable, and only the last of all is an end. */
  ghost predicate Marked(chunks: seq<Chunk>)
    reads chunks
  {
    (forall i :: 0 <= i < |chunks| ==> Body(chunks[i])) &&
    (chunks != [] ==>
      chunks[|chunks| - 1].Length >= 1 && chunks[|chunks| - 1][chunks[|chunks| - 1].Length - 1] == Plain(true))
  }

  predicate Apart(chunks: seq<Chunk>) {
    forall i, j :: 0 <= i < j < |chunks| ==> chunks[i] != chunks[j]
  }

  /** The state of the allocation loop: sizes allocated so far, left entries to go. */
  predicate Progress(n: nat, max: nat, left: nat, sizes: seq<nat>)
    requires n >= 1 && max >= 2
  {
    if left == 0 then sizes == ChunkSizes(n, max)
    else
      left <= n && sizes == Copies(|sizes|, max) && n - left == |sizes| * (max - 1) &&
      ChunkSizes(n, max) == sizes + ChunkSizes(left, max)
  }

  function NextSize(left: nat, max: nat): nat { if left > max then max else left }

  lemma ProgressStart(n: nat, max: nat)
    requires n >= 1 && max >= 2
    ensures Progress(n, max, n, [])
  {}

  lemma ProgressStep(n: nat, max: nat, left: nat, sizes: seq<nat>)
    requires n >= 1 && max >= 2 && left >= 1 && Progress(n, max, left, sizes)
    ensures Progress(n, max, if left > max then left - (max - 1) else 0, sizes + [NextSize(left, max)])
  {
    if left > max {
      assert (|sizes| + 1) * (max - 1) == |sizes| * (max - 1) + (max - 1);
      assert Copies(|sizes| + 1, max) == Copies(|sizes|, max) + [max];
      assert sizes + [max] + ChunkSizes(left - (max - 1), max) == sizes + ChunkSizes(left, max);
    }
  }

  /** Stopping early: only full chunks, and fewer than needed. */
  lemma ProgressStop(n: nat, max: nat, left: nat, sizes: seq<nat>)
    requires n >= 1 && max >= 2 && left >= 1 && Progress(n, max, left, sizes)
    ensures sizes == Copies(|sizes|, max) && |sizes| < |ChunkSizes(n, max)| && sizes == ChunkSizes(n, max)[..|sizes|]
    ensures n - left == |sizes| * (max - 1)
    ensures sizes != [] ==> sizes[|sizes| - 1] == max
  {}

  class Table {
    var sgl: array?<Entry>
    var nents: nat
    var origNents: nat

    constructor ()
      ensures sgl == null && nents == 0 && origNents == 0
    {
      sgl, nents, origNents := null, 0, 0;
    }

    /** The chunks hang off the table. */
    ghost predicate Heads(chunks: seq<Chunk>)
      reads this
    {
      sgl == if chunks == [] then null else chunks[0]
    }

    /** __sg_alloc_table with chained tables available; the allocator grants budget chunks. */
    method Alloc(n: nat, max: nat, budget: nat) returns (ok: bool, ghost chunks: seq<Chunk>)
      requires n >= 1 && max >= 2
      modifies this
      ensures fresh(chunks) && Apart(chunks) && Heads(chunks) && Linked(chunks, max) && Marked(chunks)
      ensures ok <==> budget >= |ChunkSizes(n, max)|
      ensures nents == origNents
      ensures ok ==> Sizes(chunks) == ChunkSizes(n, max) && origNents == n
      ensures !ok ==> Sizes(chunks) == Copies(budget, max) == ChunkSizes(n, max)[..budget]
      ensures !ok ==> origNents == if budget == 0 then 0 else budget * (max - 1) + 1
    {
      hide Progress, Linked, Marked, ChunkSizes, Copies;
      sgl, nents, origNents := null, 0, 0;
      var left := n;
      var prv: array?<Entry> := null;
      var granted := 0;
      chunks := [];
      ProgressStart(n, max);
      EmptyTable(max);
      assert Sizes(chunks) == [];
      while left > 0
        invariant |chunks| == granted <= budget && fresh(chunks) && Apart(chunks) && Heads(chunks)
        invariant Linked(chunks, max) && Marked(chunks)
        invariant prv == if chunks == [] then null else chunks[granted - 1]
        invariant 0 <= left <= n && origNents == nents == n - left
        invariant Progress(n, max, left, Sizes(chunks))
      {
        ProgressStop(n, max, left, Sizes(chunks));
        ProgressStep(n, max, left, Sizes(chunks));
        var allocSize := left;
        var sgSize;
        if allocSize > max {
          allocSize := max;
          sgSize := allocSize - 1;
        } else {
          sgSize := allocSize;
        }
        left := left - sgSize;
        if granted == budget {
          if prv != null {
            origNents := origNents + 1;
            nents := origNents;
          }
          return false, chunks;
        }
        var sg := NewChunk(prv, chunks, allocSize, max);
        if prv == null { sgl := sg; }
        granted := granted + 1;
        origNents := origNents + sgSize;
        nents := origNents;
        prv := sg;
        assert Sizes(chunks + [sg]) == Sizes(chunks) + [allocSize];
        chunks := chunks + [sg];
      }
      ProgressDone(n, max, Sizes(chunks));
      ok := true;
    }

    /** __sg_free_table: what is handed to the free function, chunk by chunk. */
    method Free(max: nat, ghost chunks: seq<Chunk>) returns (freed: seq<(Chunk, nat)>)
      requires max >= 2 && Heads(chunks) && Linked(chunks, max)
      requires FreeSizes(origNents, max) == Sizes(chunks)
      modifies this
      ensures sgl == null && origNents == 0
      ensures |freed| == |chunks|
      ensures forall i :: 0 <= i < |chunks| ==> freed[i] == (chunks[i], chunks[i].Length)
    {
      hide FreeSizes, Sizes, Linked;
      SizesAt(chunks);
      freed := [];
      if sgl == null {
        NoChunks(origNents, max);
        origNents := 0;
        return;
      }
      var cur: array?<Entry> := sgl;
      assert Sizes(chunks)[0..] == Sizes(chunks);
      NoChunks(origNents, max);
      while origNents > 0
        invariant |freed| <= |chunks|
        invariant FreeSizes(origNents, max) == Sizes(chunks)[|freed|..]
        invariant origNents == 0 <==> |freed| == |chunks|
        invariant origNents > 0 ==> cur == chunks[|freed|]
        invariant forall i :: 0 <= i < |freed| ==> freed[i] == (chunks[i], chunks[i].Length)
      {
        Unfold(origNents, max);
        SliceHead(Sizes(chunks), |freed|, NextSize(origNents, max),
                  FreeSizes(origNents - (if origNents > max then max - 1 else origNents), max));
        var allocSize := origNents;
        var sgSize;
        var next: array?<Entry> := null;
        if allocSize > max {
          LinkOf(chunks, |freed|, max);
          next := cur[max - 1].next;
          allocSize := max;
          sgSize := allocSize - 1;
        } else {
          sgSize := allocSize;
        }
        origNents := origNents - sgSize;
        freed := freed + [(cur, allocSize)];
        cur := next;
        NoChunks(origNents, max);
      }
      sgl := null;
    }
  }

  lemma SizesAt(chunks: seq<Chunk>)
    ensures |Sizes(chunks)| == |chunks| && forall i :: 0 <= i < |chunks| ==> Sizes(chunks)[i] == chunks[i].Length
  {}

  lemma LinkOf(chunks: seq<Chunk>, i: nat, max: nat)
    requires Linked(chunks, max) && i < |chunks| - 1
    ensures LinkAt(chunks, i, max)
  {}

  lemma SliceHead(s: seq<nat>, k: nat, a: nat, rest: seq<nat>)
    requires k <= |s| && s[k..] == [a] + rest
    ensures k < |s| && s[k] == a && s[k + 1..] == rest && |rest| == |s| - k - 1
  {
    assert s[k..][1..] == rest;
  }

  lemma NoChunks(n: nat, max: nat)
    requires max >= 2
    ensures FreeSizes(n, max) == [] <==> n == 0
  {}

  lemma Unfold(n: nat, max: nat)
    requires n >= 1 && max >= 2
    ensures FreeSizes(n, max) == [NextSize(n, max)] + FreeSizes(n - (if n > max then max - 1 else n), max)
    ensures n > max ==> |FreeSizes(n, max)| >= 2
  {}

  lemma ProgressDone(n: nat, max: nat, sizes: seq<nat>)
    requires n >= 1 && max >= 2 && Progress(n, max, 0, sizes)
    ensures sizes == ChunkSizes(n, max)
  {}

  lemma EmptyTable(max: nat)
    ensures Linked([], max) && Marked([])
  {}

  /** sg_init_table on a new chunk, and sg_chain from the previous one. */
  method NewChunk(prv: array?<Entry>, ghost chunks: seq<Chunk>, size: nat, max: nat) returns (sg: Chunk)
    requires size >= 1 && max >= 2 && Apart(chunks) && Linked(chunks, max) && Marked(chunks)
    requires prv == if chunks == [] then null else chunks[|chunks| - 1]
    requires prv != null ==> prv.Length == max
    modifies prv
    ensures fresh(sg) && sg.Length == size && Linked(chunks + [sg], max) && Marked(chunks + [sg])
  {
    sg := new Entry[size](i => Plain(i == size - 1));
    if prv != null { prv[max - 1] := Chain(sg); }
    ghost var all := chunks + [sg];
    forall i | 0 <= i < |all| - 1 ensures LinkAt(all, i, max) {
      if i < |chunks| - 1 { assert old(LinkAt(chunks, i, max)); }
    }
    forall i | 0 <= i < |all| ensures Body(all[i]) {
      if i < |chunks| { assert old(Body(chunks[i])); }
    }
  }

  /** Whatever the allocator refuses, the free that follows gives back every chunk it granted,
      once, in order, with the size it was allocated with. */
  method AllocThenFree(n: nat, max: nat, budget: nat)
      returns (ok: bool, ghost chunks: seq<Chunk>, freed: seq<(Chunk, nat)>)
    requires n >= 1 && max >= 2
    ensures ok <==> budget >= |ChunkSizes(n, max)|
    ensures fresh(chunks) && Apart(chunks) && |freed| == |chunks|
    ensures forall i :: 0 <= i < |chunks| ==> freed[i] == (chunks[i], chunks[i].Length)
    ensures Sizes(chunks) == if ok then ChunkSizes(n, max) else ChunkSizes(n, max)[..budget]
  {
    var table := new Table();
    ok, chunks := table.Alloc(n, max, budget);
    if !ok && budget > 0 { FailureSizes(budget, max); }
    freed := table.Free(max, chunks);
  }

  /** sg_next. */
  method Next(c: Chunk, i: nat) returns (next: array?<Entry>, j: nat)
    requires i < c.Length && c[i].Plain?
    requires !c[i].isEnd ==> i + 1 < c.Length
    ensures c[i].isEnd ==> next == null
    ensures !c[i].isEnd ==>
              next == (if c[i + 1].Plain? then c else c[i + 1].next) && j == (if c[i + 1].Plain? then i + 1 else 0)
  {
    if c[i].isEnd { return null, 0; }
    j := i + 1;
    next := c;
    if c[j].Chain? {
      next := c[j].next;
      j := 0;
    }
  }

  /** Walking a complete table with sg_next meets exactly as many usable entries as were asked
      for, and stops at the only end mark. */
  method Walk(first: Chunk, ghost chunks: seq<Chunk>, ghost n: nat, max: nat) returns (count: nat)
    requires n >= 1 && max >= 2 && chunks != [] && first == chunks[0]
    requires Linked(chunks, max) && Marked(chunks) && Sizes(chunks) == ChunkSizes(n, max)
    ensures count == n
  {
    hide ChunkSizes, Usable;
    ChunksHoldAll(n, max);
    var cur: array?<Entry>, i: nat := first, 0;
    if |chunks| > 1 { assert LinkAt(chunks, 0, max); }
    assert Body(chunks[0]);
    assert Sizes(chunks)[0..] == Sizes(chunks);
    count := 0;
    ghost var k := 0;
    while cur != null
      invariant 0 <= k < |chunks|
      invariant cur != null ==> cur == chunks[k] && i < cur.Length && (k < |chunks| - 1 ==> i < cur.Length - 1)
      invariant cur != null ==> count + Usable(Sizes(chunks)[k..]) == n + i
      invariant cur == null ==> count == n
      decreases |chunks| - k, if cur != null then cur.Length - i else 0
    {
      assert Body(chunks[k]);
      assert Sizes(chunks)[k] == chunks[k].Length;
      UsableStep(Sizes(chunks), k);
      if k < |chunks| - 1 {
        assert LinkAt(chunks, k, max) && Body(chunks[k + 1]);
        assert Sizes(chunks)[k + 1] == chunks[k + 1].Length;
        assert k + 1 < |chunks| - 1 ==> LinkAt(chunks, k + 1, max);
      }
      count := count + 1;
      var next, j := Next(cur, i);
      if k < |chunks| - 1 && i + 2 == cur.Length { k := k + 1; }
      cur, i := next, j;
    }
  }

  lemma UsableStep(sizes: seq<nat>, k: nat)
    requires k < |sizes|
    ensures Usable(sizes[k..]) == if k == |sizes| - 1 then sizes[k] else sizes[k] - 1 + Usable(sizes[k + 1..])
  {
    assert sizes[k..][1..] == sizes[k + 1..];
  }
}
