/** Building a scatterlist from an array of pages (compat/compat-3.6.c:72-113) and walking it
    page by page again (compat/compat-3.9.c:16-51). Pages are page frame numbers. */
module SgPages {
  import opened Words

  const PAGE: int := 4096

  /** struct scatterlist; offset and length have 32 bits. */
  datatype Seg = Seg(pfn: nat, length: nat, offset: nat)

  // ---------------------------------------------------------------- runs of pages

  /** A new run starts at page i. */
  predicate Breaks(pages: seq<nat>, i: nat)
    requires 1 <= i < |pages|
  {
    pages[i] != pages[i - 1] + 1
  }

  /** The end of the run that starts at cur, searching from j on. */
  function RunEnd(pages: seq<nat>, j: nat): (e: nat)
    requires 1 <= j <= |pages|
    ensures j <= e <= |pages|
    ensures forall i :: j <= i < e ==> !Breaks(pages, i)
    ensures e < |pages| ==> Breaks(pages, e)
    decreases |pages| - j
  {
    if j < |pages| && !Breaks(pages, j) then RunEnd(pages, j + 1) else j
  }

  /** Runs from page j on that are still to start, plus one. */
  function CountRuns(pages: seq<nat>, j: nat): nat
    requires 1 <= j <= |pages|
    decreases |pages| - j
  {
    if j == |pages| then 1 else (if Breaks(pages, j) then 1 else 0) + CountRuns(pages, j + 1)
  }

  lemma {:induction false} CountFromEnd(pages: seq<nat>, j: nat)
    requires 1 <= j <= |pages|
    ensures CountRuns(pages, j) == if RunEnd(pages, j) == |pages| then 1 else 1 + CountRuns(pages, RunEnd(pages, j) + 1)
    decreases |pages| - j
  {
    if j < |pages| && !Breaks(pages, j) { CountFromEnd(pages, j + 1); }
  }

  /** Runs of this many pages do not fit the 32 bits in which their bytes are counted. */
  const LONG_RUN := 0x10_0000

  /** Every run from page cur on is shorter than that. */
  predicate ShortRuns(pages: seq<nat>, cur: nat)
    requires cur <= |pages|
    decreases |pages| - cur
  {
    cur == |pages| || (RunEnd(pages, cur + 1) - cur < LONG_RUN && ShortRuns(pages, RunEnd(pages, cur + 1)))
  }

  // ---------------------------------------------------------------- the table

  function Min(a: int, b: int): int { if a < b then a else b }

  /** The bytes of pages cur..j after the offset: the page count is shifted as an unsigned int, the
      offset subtracted in unsigned long. */
  function ChunkSize(cur: nat, j: nat, offset: u64): u64 { ((j - cur) * PAGE % TWO32 - offset) % TWO64 }

  /** What the second loop stores, from page cur on; size wraps like an unsigned long. */
  function Build(pages: seq<nat>, cur: nat, offset: u64, size: u64): seq<Seg>
    requires cur <= |pages|
    decreases |pages| - cur
  {
    if cur == |pages| then []
    else
      var j := RunEnd(pages, cur + 1);
      var chunk := ChunkSize(cur, j, offset);
      [Seg(pages[cur], Min(size, chunk) % TWO32, offset % TWO32)] + Build(pages, j, 0, (size - chunk) % TWO64)
  }

  /** The first loop counts exactly the entries the second loop fills. */
  lemma {:induction false} CountMatchesBuild(pages: seq<nat>, cur: nat, offset: u64, size: u64)
    requires cur < |pages|
    ensures |Build(pages, cur, offset, size)| == CountRuns(pages, cur + 1)
    decreases |pages| - cur
  {
    var j := RunEnd(pages, cur + 1);
    CountFromEnd(pages, cur + 1);
    if j < |pages| { CountMatchesBuild(pages, j, 0, (size - ChunkSize(cur, j, offset)) % TWO64); }
  }

  /** The first loop: how many entries to allocate. */
  method CountChunks(pages: seq<nat>) returns (chunks: nat)
    requires |pages| >= 1
    ensures chunks == CountRuns(pages, 1)
  {
    chunks := 1;
    var i := 1;
    while i < |pages|
      invariant 1 <= i <= |pages| && chunks >= 1
      invariant chunks - 1 + CountRuns(pages, i) == CountRuns(pages, 1)
    {
      if pages[i] != pages[i - 1] + 1 { chunks := chunks + 1; }
      i := i + 1;
    }
  }

  /** The inner search for the end of the run that starts at cur. */
  method FindEnd(pages: seq<nat>, cur: nat) returns (j: nat)
    requires cur < |pages|
    ensures j == RunEnd(pages, cur + 1)
  {
    j := cur + 1;
    while j < |pages| && pages[j] == pages[j - 1] + 1
      invariant cur + 1 <= j <= |pages|
      invariant RunEnd(pages, j) == RunEnd(pages, cur + 1)
    {
      j := j + 1;
    }
  }

  /** sg_alloc_table_from_pages, once the entries are allocated: the second loop goes over
      exactly the counted entries and uses up exactly the pages. */
  method FromPages(pages: seq<nat>, offset0: u64, size0: u64) returns (sgl: seq<Seg>)
    requires |pages| >= 1
    ensures sgl == Build(pages, 0, offset0, size0)
  {
    var offset: u64, size: u64 := offset0, size0;
    var chunks := CountChunks(pages);
    CountMatchesBuild(pages, 0, offset, size);
    sgl := [];
    var cur: nat, i := 0, 0;
    while i < chunks
      invariant 0 <= i == |sgl| <= chunks && cur <= |pages|
      invariant sgl + Build(pages, cur, offset, size) == Build(pages, 0, offset0, size0)
    {
      var j := FindEnd(pages, cur);
      var chunk := ChunkSize(cur, j, offset);
      var s := Seg(pages[cur], Min(size, chunk) % TWO32, offset % TWO32);
      BuildStep(pages, cur, offset, size, sgl);
      sgl := sgl + [s];
      size := (size - chunk) % TWO64;
      offset := 0;
      cur := j;
      i := i + 1;
    }
  }

  lemma BuildStep(pages: seq<nat>, cur: nat, offset: u64, size: u64, done: seq<Seg>)
    requires cur <= |pages|
    ensures cur < |pages| ==>
      var j := RunEnd(pages, cur + 1); var chunk := ChunkSize(cur, j, offset);
      done + Build(pages, cur, offset, size)
        == (done + [Seg(pages[cur], Min(size, chunk) % TWO32, offset % TWO32)])
           + Build(pages, j, 0, (size - chunk) % TWO64)
    ensures cur == |pages| ==> Build(pages, cur, offset, size) == []
  {}

  // ---------------------------------------------------------------- lengths

  function Total(sgl: seq<Seg>): nat {
    if sgl == [] then 0 else sgl[0].length + Total(sgl[1..])
  }

  /** Bytes from the offset into page cur up to the start of the last run. */
  function BeforeLast(pages: seq<nat>, cur: nat, offset: u64): int
    requires cur < |pages|
    decreases |pages| - cur
  {
    var j := RunEnd(pages, cur + 1);
    if j == |pages| then 0 else (j - cur) * PAGE - offset + BeforeLast(pages, j, 0)
  }

  /** Bytes from the offset into page cur to the end of the pages. */
  function Room(pages: seq<nat>, cur: nat, offset: u64): int
    requires cur <= |pages|
  {
    (|pages| - cur) * PAGE - offset
  }

  /** One entry, with all widths resolved: the first run has chunk bytes, the entry gets what
      is left of the size, and an exhausted size wraps to something larger than any table. */
  lemma FirstEntry(pages: seq<nat>, cur: nat, offset: u64, size: u64) returns (j: nat, chunk: nat, rest: u64)
    requires cur < |pages| && RunEnd(pages, cur + 1) - cur < LONG_RUN && offset < PAGE
    ensures j == RunEnd(pages, cur + 1) && cur < j <= |pages| && chunk == (j - cur) * PAGE - offset >= 1
    ensures rest == if size >= chunk then size - chunk else size - chunk + TWO64
    ensures Build(pages, cur, offset, size) == [Seg(pages[cur], Min(size, chunk), offset)] + Build(pages, j, 0, rest)
  {
    hide RunEnd, ChunkSize, Build;
    j := RunEnd(pages, cur + 1);
    chunk := ChunkSize(cur, j, offset);
    rest := (size - chunk) % TWO64;
    BuildStep(pages, cur, offset, size, []);
    NothingBefore(Build(pages, cur, offset, size), Build(pages, j, 0, rest));
    Widths(cur, j, offset, size);
  }

  lemma NothingBefore(a: seq<Seg>, b: seq<Seg>)
    ensures [] + a == a && forall s: Seg :: ([] + [s]) + b == [s] + b
  {}

  lemma Widths(cur: nat, j: nat, offset: u64, size: u64)
    requires 1 <= j - cur < LONG_RUN && offset < PAGE
    ensures var chunk := ChunkSize(cur, j, offset);
      && chunk == (j - cur) * PAGE - offset >= 1 && offset % TWO32 == offset
      && Min(size, chunk) % TWO32 == Min(size, chunk)
      && (size - chunk) % TWO64 == if size >= chunk then size - chunk else size - chunk + TWO64
  {
    var bytes := (j - cur) * PAGE;
    assert PAGE <= bytes < TWO32;
    assert bytes % TWO32 == bytes;
    Wraps(bytes - offset, size);
  }

  lemma Wraps(chunk: nat, size: u64)
    requires chunk < TWO32
    ensures chunk % TWO64 == chunk && Min(size, chunk) % TWO32 == Min(size, chunk)
    ensures (size - chunk) % TWO64 == if size >= chunk then size - chunk else size - chunk + TWO64
  {}

  /** The entry lengths add up to the size exactly when the size reaches the last run and does
      not exceed the pages; below they overshoot, because the remaining size wraps, above they
      fall short. (Each run holds less than 2^32 bytes, as the length field demands.) */
  lemma {:induction false} LengthsAddUp(pages: seq<nat>, cur: nat, offset: u64, size: u64)
    requires cur < |pages| < TWO32 && ShortRuns(pages, cur) && offset < PAGE
    ensures var t := Total(Build(pages, cur, offset, size));
      && (size < BeforeLast(pages, cur, offset) ==> t > size)
      && (BeforeLast(pages, cur, offset) <= size <= Room(pages, cur, offset) ==> t == size)
      && (Room(pages, cur, offset) < size ==> t == Room(pages, cur, offset) < size)
    ensures 0 <= BeforeLast(pages, cur, offset) <= Room(pages, cur, offset)
    decreases |pages| - cur
  {
    hide Build, RunEnd;
    var j, chunk, rest := FirstEntry(pages, cur, offset, size);
    var s := Seg(pages[cur], Min(size, chunk), offset);
    assert Total([s] + Build(pages, j, 0, rest)) == s.length + Total(Build(pages, j, 0, rest)) by {
      assert ([s] + Build(pages, j, 0, rest))[1..] == Build(pages, j, 0, rest);
    }
    if j < |pages| {
      LengthsAddUp(pages, j, 0, rest);
    } else {
      assert Build(pages, j, 0, rest) == [] by { BuildStep(pages, j, 0, rest, []); }
    }
  }

  /** The entry lengths add up to the size iff it ends within the last run. */
  lemma LengthsExact(pages: seq<nat>, offset: u64, size: u64)
    requires 1 <= |pages| < TWO32 && ShortRuns(pages, 0) && offset < PAGE
    ensures Total(Build(pages, 0, offset, size)) == size
       <==> BeforeLast(pages, 0, offset) <= size <= |pages| * PAGE - offset
  {
    LengthsAddUp(pages, 0, offset, size);
  }

  // ---------------------------------------------------------------- pages again

  /** sg_page_count: the sum and its rounding up are done in unsigned int. */
  function PageCount(s: Seg): nat { ((s.offset + s.length) % TWO32 + PAGE - 1) % TWO32 / PAGE }

  function Consecutive(pfn: nat, n: nat): seq<nat> { seq(n, k => pfn + k) }

  /** The pages an iterator meets. */
  function PagesOf(sgl: seq<Seg>): seq<nat> {
    if sgl == [] then [] else Consecutive(sgl[0].pfn, PageCount(sgl[0])) + PagesOf(sgl[1..])
  }

  lemma {:induction false} RunValue(pages: seq<nat>, cur: nat, i: nat)
    requires cur <= i < |pages| && forall k :: cur < k <= i ==> !Breaks(pages, k)
    ensures pages[i] == pages[cur] + (i - cur)
    decreases i
  {
    if i > cur { RunValue(pages, cur, i - 1); assert !Breaks(pages, i); }
  }

  lemma RunIsConsecutive(pages: seq<nat>, cur: nat, j: nat)
    requires cur < j <= |pages| && forall i :: cur < i < j ==> !Breaks(pages, i)
    ensures pages[cur..j] == Consecutive(pages[cur], j - cur)
  {
    forall k | 0 <= k < j - cur ensures pages[cur..j][k] == Consecutive(pages[cur], j - cur)[k] {
      RunValue(pages, cur, cur + k);
    }
  }

  lemma PagesOfCons(s: Seg, rest: seq<Seg>)
    ensures PagesOf([s] + rest) == Consecutive(s.pfn, PageCount(s)) + PagesOf(rest)
  {
    assert ([s] + rest)[1..] == rest;
  }

  /** An entry covers all n pages of its run iff its bytes reach the last of them. */
  lemma CountExact(pfn: nat, length: nat, offset: nat, n: nat)
    requires offset + length <= n * PAGE < TWO32 && n >= 1
    ensures PageCount(Seg(pfn, length, offset)) == n <==> offset + length > (n - 1) * PAGE
  {}

  /** The data that starts at page cur and takes that many bytes, the offset included, fills all pages or
      ends strictly inside a page that is the last of its run. */
  predicate EndsWell(pages: seq<nat>, cur: nat, bytes: nat) {
    var p := cur + bytes / PAGE;
    p >= |pages| || (bytes % PAGE != 0 && (p + 1 == |pages| || Breaks(pages, p + 1)))
  }

  /** Round trip, for every page array and every size: walking the table yields the pages in order if and only
      if the data ends well and no run is too long. (A size that ends earlier wraps, so that the runs after its
      end are full again.) */
  lemma PagesRoundTrip(pages: seq<nat>, offset: u64, size: u64)
    requires 1 <= |pages| < TWO32 && offset < PAGE
    ensures PagesOf(Build(pages, 0, offset, size)) == pages <==>
            EndsWell(pages, 0, offset + size) && ShortRuns(pages, 0)
  {
    assert pages[0..] == pages;
    if ShortRuns(pages, 0) { ShortRoundTrip(pages, 0, offset, size); } else { FewerPages(pages, 0, offset, size); }
  }

  lemma {:induction false} ShortRoundTrip(pages: seq<nat>, cur: nat, offset: u64, size: u64)
    requires cur < |pages| < TWO32 && ShortRuns(pages, cur) && offset < PAGE
    ensures PagesOf(Build(pages, cur, offset, size)) == pages[cur..] <==> EndsWell(pages, cur, offset + size)
    decreases |pages| - cur
  {
    hide Build, PageCount, PagesOf, RunEnd, EndsWell;
    var j, chunk, rest := FirstEntry(pages, cur, offset, size);
    var s := Seg(pages[cur], Min(size, chunk), offset);
    var tail := Build(pages, j, 0, rest);
    PagesOfCons(s, tail);
    RunIsConsecutive(pages, cur, j);
    CountExact(pages[cur], s.length, offset, j - cur);
    assert pages[cur..] == pages[cur..j] + pages[j..];
    if j < |pages| {
      ShortRoundTrip(pages, j, 0, rest);
    } else {
      BuildStep(pages, j, 0, rest, []);
      NoPages();
    }
    if size >= chunk {
      EndsLater(pages, cur, offset + size, j);
      SamePrefix(pages[cur..j], PagesOf(tail), pages[j..]);
    } else {
      AllPages(pages, j, rest);
      EndsHere(pages, cur, offset + size, j);
      SameLength(pages[cur], PageCount(s), j - cur, pages[j..]);
    }
  }

  /** No run yields more pages than it has, and one that is too long yields fewer. */
  lemma {:induction false} FewerPages(pages: seq<nat>, cur: nat, offset: u64, size: u64)
    requires cur <= |pages| && offset < PAGE
    ensures var n := |PagesOf(Build(pages, cur, offset, size))|;
      n <= |pages| - cur && (!ShortRuns(pages, cur) ==> n < |pages| - cur)
    decreases |pages| - cur
  {
    hide PageCount, PagesOf, RunEnd, ChunkSize;
    if cur == |pages| {
      NoPages();
    } else {
      var j := RunEnd(pages, cur + 1);
      var chunk := ChunkSize(cur, j, offset);
      var s := Seg(pages[cur], Min(size, chunk) % TWO32, offset % TWO32);
      var rest := (size - chunk) % TWO64;
      PagesOfCons(s, Build(pages, j, 0, rest));
      FewerPages(pages, j, 0, rest);
      if j - cur < LONG_RUN {
        Widths(cur, j, offset, size);
        CountAtMost(pages[cur], s.length, offset, j - cur);
      }
      CountBelow(s);
    }
  }

  lemma CountAtMost(pfn: nat, length: nat, offset: nat, n: nat)
    requires offset + length <= n * PAGE < TWO32
    ensures PageCount(Seg(pfn, length, offset)) <= n
  {}

  lemma CountBelow(s: Seg)
    ensures PageCount(s) < LONG_RUN
  {}

  /** 2^20 consecutive pages filled completely: the byte count of the run wraps to zero, and so does its entry. */
  lemma LongRunIsLost(first: nat)
    ensures var pages := Consecutive(first, LONG_RUN);
      EndsWell(pages, 0, TWO32) && PagesOf(Build(pages, 0, 0, TWO32)) == []
  {
    hide EndsWell, Build;
    var pages := Consecutive(first, LONG_RUN);
    assert EndsWell(pages, 0, TWO32) by { EndsBeyond(pages); }
    assert forall i :: 1 <= i < |pages| ==> !Breaks(pages, i);
    assert RunEnd(pages, 1) == |pages|;
    var s, rest := Seg(first, 0, 0), TWO32;
    assert ChunkSize(0, LONG_RUN, 0) == 0;
    BuildStep(pages, 0, 0, TWO32, []);
    BuildStep(pages, LONG_RUN, 0, TWO32, []);
    NothingBefore(Build(pages, 0, 0, TWO32), Build(pages, LONG_RUN, 0, TWO32));
    assert Build(pages, 0, 0, TWO32) == [s];
    PagesOfCons(s, []);
    NoPages();
    assert PageCount(s) == 0 && [s] + [] == [s];
  }

  lemma EndsBeyond(pages: seq<nat>)
    requires |pages| == LONG_RUN
    ensures EndsWell(pages, 0, TWO32)
  {}

  /** Where the data ends does not depend on the run it is counted from. */
  lemma EndsLater(pages: seq<nat>, cur: nat, bytes: nat, j: nat)
    requires cur < j <= |pages| && bytes >= (j - cur) * PAGE
    ensures EndsWell(pages, cur, bytes) <==> EndsWell(pages, j, bytes - (j - cur) * PAGE)
    ensures j == |pages| ==> EndsWell(pages, cur, bytes)
  {}

  /** Within the first run, only the last page of the run will do. */
  lemma EndsHere(pages: seq<nat>, cur: nat, bytes: nat, j: nat)
    requires cur < j <= |pages| && bytes < (j - cur) * PAGE
    requires forall i :: cur < i < j ==> !Breaks(pages, i)
    requires j < |pages| ==> Breaks(pages, j)
    ensures EndsWell(pages, cur, bytes) <==> bytes > (j - cur - 1) * PAGE
  {
    var p := cur + bytes / PAGE;
    assert cur <= p < j;
    if p + 1 < j { assert !Breaks(pages, p + 1); }
  }

  /** A size that has wrapped is larger than any table. */
  lemma AllPages(pages: seq<nat>, j: nat, rest: nat)
    requires |pages| < TWO32 && rest >= TWO64 - TWO32
    ensures EndsWell(pages, j, rest)
  {}

  lemma SameLength(pfn: nat, n: nat, m: nat, tail: seq<nat>)
    ensures Consecutive(pfn, n) + tail == Consecutive(pfn, m) + tail <==> n == m
  {
    assert |Consecutive(pfn, n) + tail| == n + |tail| && |Consecutive(pfn, m) + tail| == m + |tail|;
  }

  lemma NoPages()
    ensures PagesOf([]) == [] && forall n: nat :: Drop([], n) == []
  {}

  lemma SamePrefix(p: seq<nat>, a: seq<nat>, b: seq<nat>)
    ensures p + a == p + b <==> a == b
  {
    if p + a == p + b { assert (p + a)[|p|..] == a && (p + b)[|p|..] == b; }
  }

  // ---------------------------------------------------------------- the page iterator

  /** struct sg_page_iter over a list of entries; pos == |sgl| is the null pointer. */
  class PageIter {
    const sgl: seq<Seg>
    var pos: nat
    var pgoffset: nat
    var left: nat
    var advance: nat
    var page: nat

    /** __sg_page_iter_start. */
    constructor Start(sgl: seq<Seg>, nents: nat, pgoffset: nat)
      ensures this.sgl == sgl && Ok()
      ensures pgoffset == 0 ==> Remaining() == PagesOf(sgl[..Least(nents, |sgl|)])
    {
      this.sgl := sgl;
      pos, this.pgoffset, left, advance, page := 0, pgoffset, nents, 0, 0;
    }

    ghost predicate Ok()
      reads this
    {
      pos <= |sgl|
    }

    /** The pages still to come. */
    ghost function Remaining(): seq<nat>
      requires Ok()
      reads this
    {
      Drop(PagesOf(sgl[pos..pos + Least(left, |sgl| - pos)]), pgoffset + advance)
    }

    /** __sg_page_iter_next: the next page, or false when there is none left. */
    method Next() returns (ok: bool)
      requires Ok()
      modifies this
      ensures Ok()
      ensures ok <==> old(Remaining()) != []
      ensures ok ==> page == old(Remaining())[0] && Remaining() == old(Remaining())[1..]
    {
      hide PagesOf, PageCount, Drop;
      if left == 0 || pos == |sgl| {
        NoPages();
        assert sgl[pos..pos + Least(left, |sgl| - pos)] == [];
        return false;
      }
      ghost var before := Remaining();
      assert before == old(Remaining());
      pgoffset := pgoffset + advance;
      advance := 1;
      while pgoffset >= PageCount(sgl[pos])
        invariant pos < |sgl| && left > 0 && advance == 1
        invariant before == Drop(PagesOf(sgl[pos..pos + Least(left, |sgl| - pos)]), pgoffset)
        decreases |sgl| - pos
      {
        SkipEntry(sgl, pos, left, pgoffset);
        pgoffset := pgoffset - PageCount(sgl[pos]);
        pos := pos + 1;
        left := left - 1;
        if left == 0 || pos == |sgl| {
          NoPages();
          assert sgl[pos..pos + Least(left, |sgl| - pos)] == [];
          assert before == [];
          return false;
        }
      }
      page := sgl[pos].pfn + pgoffset;
      TakePage(sgl, pos, left, pgoffset);
      ok := true;
    }
  }

  function Least(a: nat, b: nat): nat { if a < b then a else b }

  function Drop(s: seq<nat>, n: nat): seq<nat> { if n <= |s| then s[n..] else [] }

  lemma SkipEntry(sgl: seq<Seg>, pos: nat, left: nat, off: nat)
    requires pos < |sgl| && left > 0 && off >= PageCount(sgl[pos])
    ensures Drop(PagesOf(sgl[pos..pos + Least(left, |sgl| - pos)]), off)
         == Drop(PagesOf(sgl[pos + 1..pos + 1 + Least(left - 1, |sgl| - pos - 1)]), off - PageCount(sgl[pos]))
  {
    var w := sgl[pos..pos + Least(left, |sgl| - pos)];
    assert w[1..] == sgl[pos + 1..pos + 1 + Least(left - 1, |sgl| - pos - 1)];
    assert w[0] == sgl[pos];
  }

  lemma TakePage(sgl: seq<Seg>, pos: nat, left: nat, off: nat)
    requires pos < |sgl| && left > 0 && off < PageCount(sgl[pos])
    ensures var all := PagesOf(sgl[pos..pos + Least(left, |sgl| - pos)]);
      Drop(all, off) != [] && Drop(all, off)[0] == sgl[pos].pfn + off && Drop(all, off + 1) == Drop(all, off)[1..]
  {
    var w := sgl[pos..pos + Least(left, |sgl| - pos)];
    assert w[0] == sgl[pos];
    assert PagesOf(w) == Consecutive(w[0].pfn, PageCount(w[0])) + PagesOf(w[1..]);
  }

  /** for_each_sg_page: the pages of a table, in the order the iterator gives them. */
  method Collect(sgl: seq<Seg>) returns (pages: seq<nat>)
    ensures pages == PagesOf(sgl)
  {
    hide PagesOf, PageCount, Drop;
    var it := new PageIter.Start(sgl, |sgl|, 0);
    assert sgl[..|sgl|] == sgl;
    pages := [];
    var more := it.Next();
    ghost var rest := if more then it.Remaining() else [];
    while more
      invariant it.Ok()
      invariant more ==> rest == it.Remaining() && pages + [it.page] + rest == PagesOf(sgl)
      invariant !more ==> pages == PagesOf(sgl)
      decreases |rest|, more
    {
      pages := pages + [it.page];
      more := it.Next();
      if more { assert [it.page] + rest[1..] == rest; rest := rest[1..]; }
    }
  }

  /** Building a table from pages and iterating over it gives the pages back. */
  method BuildThenIterate(pages: seq<nat>, offset: u64, size: u64) returns (seen: seq<nat>, total: nat)
    requires 1 <= |pages| < TWO32 && ShortRuns(pages, 0) && offset < PAGE
    requires (|pages| - 1) * PAGE < offset + size <= |pages| * PAGE
    ensures seen == pages && total == size
  {
    hide Build, PagesOf, BeforeLast;
    var sgl := FromPages(pages, offset, size);
    LastRunReached(pages, 0, offset);
    EndsInLast(pages, offset + size);
    LengthsAddUp(pages, 0, offset, size);
    PagesRoundTrip(pages, offset, size);
    seen := Collect(sgl);
    total := Total(sgl);
  }

  lemma EndsInLast(pages: seq<nat>, bytes: nat)
    requires (|pages| - 1) * PAGE < bytes <= |pages| * PAGE
    ensures EndsWell(pages, 0, bytes)
  {}

  /** The last run starts no later than the last page. */
  lemma {:induction false} LastRunReached(pages: seq<nat>, cur: nat, offset: u64)
    requires cur < |pages| && offset < PAGE
    ensures BeforeLast(pages, cur, offset) <= 0 || BeforeLast(pages, cur, offset) <= (|pages| - 1 - cur) * PAGE - offset
    decreases |pages| - cur
  {
    var j := RunEnd(pages, cur + 1);
    if j < |pages| { LastRunReached(pages, j, 0); }
  }

  // ---------------------------------------------------------------- bytes

  /** The physical address of byte b of the buffer that a table describes. */
  function AddressOf(sgl: seq<Seg>, b: nat): int {
    if sgl == [] then -1
    else if b < sgl[0].length then sgl[0].pfn * PAGE + sgl[0].offset + b
    else AddressOf(sgl[1..], b - sgl[0].length)
  }

  /** Every byte of the buffer is where the page array says: byte b lies offset + b bytes into the pages. */
  lemma {:induction false} BytesInPlace(pages: seq<nat>, cur: nat, offset: u64, size: u64, b: nat)
    requires cur < |pages| < TWO32 && ShortRuns(pages, cur) && offset < PAGE
    requires b < size && offset + b < (|pages| - cur) * PAGE
    ensures cur + (offset + b) / PAGE < |pages|
    ensures AddressOf(Build(pages, cur, offset, size), b) ==
            pages[cur + (offset + b) / PAGE] * PAGE + (offset + b) % PAGE
    decreases |pages| - cur
  {
    hide Build;
    var j, chunk, rest := FirstEntry(pages, cur, offset, size);
    var s := Seg(pages[cur], Min(size, chunk), offset);
    AddressStep(s, Build(pages, j, 0, rest), b);
    if b < chunk {
      InRun(pages, cur, j, (offset + b) / PAGE);
    } else {
      assert offset + b == (j - cur) * PAGE + (b - chunk);
      BytesInPlace(pages, j, 0, rest, b - chunk);
    }
  }

  lemma AddressStep(s: Seg, rest: seq<Seg>, b: nat)
    ensures AddressOf([s] + rest, b) ==
            if b < s.length then s.pfn * PAGE + s.offset + b else AddressOf(rest, b - s.length)
  {}

  lemma InRun(pages: seq<nat>, cur: nat, j: nat, k: nat)
    requires cur + 1 <= j <= |pages| && forall i :: cur + 1 <= i < j ==> !Breaks(pages, i)
    requires cur + k < j
    ensures pages[cur + k] == pages[cur] + k
  {
    if k > 0 { InRun(pages, cur, j, k - 1); assert !Breaks(pages, cur + k); }
  }
}
