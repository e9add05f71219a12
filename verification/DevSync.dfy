/**
 * Synchronising one address list into another: __dev_addr_sync and __dev_addr_unsync
 * (compat/compat-2.6.32.c, lines 72-118), and runs in which the owners of both lists go on using them.
 */
module DevSync {
  import opened Wrappers
  import opened DevAddr
  import opened Errno

  // ---------------------------------------------------------------- one visit, many visits

  /** What visiting a source entry does to the destination when memory suffices. */
  function PushOne(to: seq<Entry>, e: Entry): seq<Entry> {
    if !e.synced then Added(to, e.addr, false, true).1
    else if e.users == 1 then Deleted(to, e.addr, false).1
    else to
  }

  function Pushed(to: seq<Entry>, es: seq<Entry>): seq<Entry>
    decreases |es|
  {
    if es == [] then to else Pushed(PushOne(to, es[0]), es[1..])
  }

  /** What is left of a visited source entry. */
  function RefreshOne(e: Entry): seq<Entry> {
    if !e.synced then [e.(synced := true, users := e.users + 1)]
    else if e.users == 1 then []
    else [e]
  }

  function Refreshed(es: seq<Entry>): seq<Entry> {
    if es == [] then [] else RefreshOne(es[0]) + Refreshed(es[1..])
  }

  /** Does visiting e need memory that is not there? */
  predicate Stuck(to: seq<Entry>, e: Entry, mem: Addr -> bool) {
    !e.synced && Get(to, e.addr) == None && !mem(e.addr)
  }

  /** How many source entries are visited before an allocation fails. */
  function SyncStop(to: seq<Entry>, es: seq<Entry>, mem: Addr -> bool): (k: nat)
    ensures k <= |es|
    decreases |es|
  {
    if es == [] || Stuck(to, es[0], mem) then 0 else 1 + SyncStop(PushOne(to, es[0]), es[1..], mem)
  }

  function PullOne(to: seq<Entry>, e: Entry): seq<Entry> {
    if e.synced then Deleted(to, e.addr, false).1 else to
  }

  function Pulled(to: seq<Entry>, es: seq<Entry>): seq<Entry>
    decreases |es|
  {
    if es == [] then to else Pulled(PullOne(to, es[0]), es[1..])
  }

  function ReleaseOne(e: Entry): seq<Entry> {
    if !e.synced then [e]
    else if e.users == 1 then []
    else [e.(synced := false, users := e.users - 1)]
  }

  function Released(es: seq<Entry>): seq<Entry> {
    if es == [] then [] else ReleaseOne(es[0]) + Released(es[1..])
  }

  lemma {:induction false} PushedSnoc(to: seq<Entry>, es: seq<Entry>, i: nat)
    requires i < |es|
    ensures Pushed(to, es[..i + 1]) == PushOne(Pushed(to, es[..i]), es[i])
    decreases i
  {
    if i > 0 {
      PushedSnoc(PushOne(to, es[0]), es[1..], i - 1);
      assert es[..i + 1][1..] == es[1..][..i] && es[..i][1..] == es[1..][..i - 1];
    } else {
      assert es[..1] == [es[0]] && es[..0] == [];
      assert Pushed(to, [es[0]]) == Pushed(PushOne(to, es[0]), []);
    }
  }

  lemma {:induction false} PulledSnoc(to: seq<Entry>, es: seq<Entry>, i: nat)
    requires i < |es|
    ensures Pulled(to, es[..i + 1]) == PullOne(Pulled(to, es[..i]), es[i])
    decreases i
  {
    if i > 0 {
      PulledSnoc(PullOne(to, es[0]), es[1..], i - 1);
      assert es[..i + 1][1..] == es[1..][..i] && es[..i][1..] == es[1..][..i - 1];
    } else {
      assert es[..1] == [es[0]] && es[..0] == [];
      assert Pulled(to, [es[0]]) == Pulled(PullOne(to, es[0]), []);
    }
  }

  lemma {:induction false} RefreshedSnoc(es: seq<Entry>, i: nat)
    requires i < |es|
    ensures Refreshed(es[..i + 1]) == Refreshed(es[..i]) + RefreshOne(es[i])
    decreases i
  {
    if i > 0 {
      RefreshedSnoc(es[1..], i - 1);
      assert es[..i + 1][1..] == es[1..][..i] && es[..i][1..] == es[1..][..i - 1];
    } else {
      assert es[..1] == [es[0]] && es[..0] == [];
      assert Refreshed([es[0]]) == RefreshOne(es[0]) + Refreshed([]);
    }
  }

  lemma {:induction false} ReleasedSnoc(es: seq<Entry>, i: nat)
    requires i < |es|
    ensures Released(es[..i + 1]) == Released(es[..i]) + ReleaseOne(es[i])
    decreases i
  {
    if i > 0 {
      ReleasedSnoc(es[1..], i - 1);
      assert es[..i + 1][1..] == es[1..][..i] && es[..i][1..] == es[1..][..i - 1];
    } else {
      assert es[..1] == [es[0]] && es[..0] == [];
      assert Released([es[0]]) == ReleaseOne(es[0]) + Released([]);
    }
  }

  /** Replacing the entry at pos by zero or one entries. */
  function Splice(l: seq<Entry>, pos: nat, sub: seq<Entry>): seq<Entry>
    requires pos < |l|
  {
    l[..pos] + sub + l[pos + 1..]
  }

  lemma SplicePrefix(done: seq<Entry>, es: seq<Entry>, i: nat, sub: seq<Entry>)
    requires i < |es|
    ensures var l := done + es[i..];
      l[|done|] == es[i] && Splice(l, |done|, sub) == done + sub + es[i + 1..]
  {
    var l := done + es[i..];
    assert l[..|done|] == done && l[|done| + 1..] == es[i + 1..];
  }

  lemma SpliceOne(l: seq<Entry>, pos: nat, e: Entry)
    requires pos < |l|
    ensures Splice(l, pos, [e]) == l[pos := e] && Splice(l, pos, []) == l[..pos] + l[pos + 1..]
  {}

  // ---------------------------------------------------------------- the two loops

  /** The entry a cursor is at, counted from the end: a removal at or before it leaves the rest in place. */
  method Sync(to: AddrList, from: AddrList, mem: Addr -> bool) returns (err: int)
    requires to != from && to.Valid() && from.Valid()
    modifies to, from
    ensures to.Valid() && from.Valid()
    ensures var es, k := old(from.list), SyncStop(old(to.list), old(from.list), mem);
      && err == (if k == |es| then 0 else -ENOMEM)
      && from.list == Refreshed(es[..k]) + es[k..]
      && to.list == Pushed(old(to.list), es[..k])
  {
    hide Wf, Added, Deleted, PushOne, Pushed, RefreshOne, Refreshed, Splice, SyncStop, Stuck;
    ghost var es, dst := from.list, to.list;
    ghost var i := 0;
    var left := |from.list|;
    err := 0;
    LoopEnds(dst, es);
    while left > 0
      invariant 0 <= left && i + left == |es| && err == 0
      invariant to.Valid() && from.Valid()
      invariant from.list == Refreshed(es[..i]) + es[i..]
      invariant to.list == Pushed(dst, es[..i])
      invariant SyncStop(dst, es, mem) == i + SyncStop(to.list, es[i..], mem)
    {
      var pos := |from.list| - left;
      var da := from.list[pos];
      var next := left - 1;
      SyncVisit(dst, es, i, mem);
      VisitMemory(to.list, da, mem);
      if !da.synced {
        VisitFresh(from.list, pos);
        err := to.Add(da.addr, false, mem(da.addr));
        if err < 0 { break; }
        from.list := from.list[pos := da.(synced := true, users := da.users + 1)];
      } else if da.users == 1 {
        VisitStale(from.list, pos);
        var _ := to.Delete(da.addr, false);
        var _ := from.Delete(da.addr, false);
      } else {
        VisitKept(from.list, pos);
      }
      left := next;
      i := i + 1;
    }
  }

  lemma LoopEnds(to: seq<Entry>, es: seq<Entry>)
    ensures es[..0] == [] && es[0..] == es && es[..|es|] == es && es[|es|..] == []
    ensures Pushed(to, es[..0]) == to && Refreshed(es[..0]) + es[0..] == es
    ensures Pulled(to, es[..0]) == to && Released(es[..0]) + es[0..] == es
    ensures forall to', mem :: SyncStop(to', es[|es|..], mem) == 0
  {}

  /** The loop invariant, one visit further. */
  lemma SyncVisit(dst: seq<Entry>, es: seq<Entry>, i: nat, mem: Addr -> bool)
    requires i < |es|
    ensures var from, to, pos := Refreshed(es[..i]) + es[i..], Pushed(dst, es[..i]), |Refreshed(es[..i])|;
      && from[pos] == es[i]
      && Splice(from, pos, RefreshOne(es[i])) == Refreshed(es[..i + 1]) + es[i + 1..]
      && PushOne(to, es[i]) == Pushed(dst, es[..i + 1])
      && SyncStop(to, es[i..], mem) ==
         if Stuck(to, es[i], mem) then 0 else 1 + SyncStop(PushOne(to, es[i]), es[i + 1..], mem)
  {
    hide Wf, PushOne, Pushed, RefreshOne, Refreshed, Splice, Stuck;
    SplicePrefix(Refreshed(es[..i]), es, i, RefreshOne(es[i]));
    PushedSnoc(dst, es, i);
    RefreshedSnoc(es, i);
    assert es[i..][1..] == es[i + 1..];
  }

  lemma VisitFresh(l: seq<Entry>, pos: nat)
    requires Wf(l) && pos < |l| && !l[pos].synced
    ensures var l' := l[pos := l[pos].(synced := true, users := l[pos].users + 1)];
      Wf(l') && l' == Splice(l, pos, RefreshOne(l[pos]))
  {
    hide Wf;
    HoldsOne(l, pos);
    WfUpdate(l, pos, l[pos].(synced := true, users := l[pos].users + 1));
  }

  lemma VisitStale(l: seq<Entry>, pos: nat)
    requires Wf(l) && pos < |l| && l[pos].synced && l[pos].users == 1
    ensures Deleted(l, l[pos].addr, false) == (0, Splice(l, pos, RefreshOne(l[pos])))
  {
    GetAt(l, pos);
    SpliceOne(l, pos, l[pos]);
  }

  lemma VisitKept(l: seq<Entry>, pos: nat)
    requires pos < |l| && l[pos].synced && l[pos].users != 1
    ensures l == Splice(l, pos, RefreshOne(l[pos]))
  {}

  lemma VisitMemory(to: seq<Entry>, e: Entry, mem: Addr -> bool)
    ensures !e.synced ==> Added(to, e.addr, false, mem(e.addr)) ==
                          if Stuck(to, e, mem) then (-ENOMEM, to) else (0, PushOne(to, e))
    ensures e.synced ==> !Stuck(to, e, mem)
    ensures e.synced && e.users == 1 ==> PushOne(to, e) == Deleted(to, e.addr, false).1
    ensures e.synced && e.users != 1 ==> PushOne(to, e) == to
  {}

  method Unsync(to: AddrList, from: AddrList)
    requires to != from && to.Valid() && from.Valid()
    modifies to, from
    ensures to.Valid() && from.Valid()
    ensures to.list == Pulled(old(to.list), old(from.list))
    ensures from.list == Released(old(from.list))
  {
    hide Wf, Added, Deleted, PullOne, Pulled, ReleaseOne, Released, Splice;
    ghost var es, dst := from.list, to.list;
    ghost var i := 0;
    var left := |from.list|;
    LoopEnds(dst, es);
    while left > 0
      invariant 0 <= left && i + left == |es|
      invariant to.Valid() && from.Valid()
      invariant from.list == Released(es[..i]) + es[i..]
      invariant to.list == Pulled(dst, es[..i])
    {
      var pos := |from.list| - left;
      var da := from.list[pos];
      var next := left - 1;
      UnsyncVisit(dst, es, i);
      PullOneIs(to.list, da);
      if da.synced {
        VisitRelease(from.list, pos);
        var _ := to.Delete(da.addr, false);
        from.list := from.list[pos := da.(synced := false)];
        var _ := from.Delete(da.addr, false);
      } else {
        VisitForeign(from.list, pos);
      }
      left := next;
      i := i + 1;
    }
  }

  lemma UnsyncVisit(dst: seq<Entry>, es: seq<Entry>, i: nat)
    requires i < |es|
    ensures var from, pos := Released(es[..i]) + es[i..], |Released(es[..i])|;
      && from[pos] == es[i]
      && Splice(from, pos, ReleaseOne(es[i])) == Released(es[..i + 1]) + es[i + 1..]
      && PullOne(Pulled(dst, es[..i]), es[i]) == Pulled(dst, es[..i + 1])
  {
    hide Wf, PullOne, Pulled, ReleaseOne, Released, Splice;
    SplicePrefix(Released(es[..i]), es, i, ReleaseOne(es[i]));
    PulledSnoc(dst, es, i);
    ReleasedSnoc(es, i);
  }

  lemma PullOneIs(to: seq<Entry>, e: Entry)
    ensures PullOne(to, e) == if e.synced then Deleted(to, e.addr, false).1 else to
  {}

  lemma VisitRelease(l: seq<Entry>, pos: nat)
    requires Wf(l) && pos < |l| && l[pos].synced
    ensures var l' := l[pos := l[pos].(synced := false)];
      Wf(l') && Deleted(l', l[pos].addr, false).1 == Splice(l, pos, ReleaseOne(l[pos]))
  {
    var e := l[pos].(synced := false);
    var l' := l[pos := e];
    assert Wf(l') && Find(l', e.addr) == pos by {
      HoldsOne(l, pos);
      WfUpdate(l, pos, e);
      GetAt(l', pos);
    }
    hide Wf;
    SpliceOne(l, pos, Leave(e, false));
    assert l'[pos := Leave(e, false)] == l[pos := Leave(e, false)];
  }

  lemma VisitForeign(l: seq<Entry>, pos: nat)
    requires pos < |l| && !l[pos].synced
    ensures l == Splice(l, pos, ReleaseOne(l[pos]))
  {}
}
