/** What each call does to every single address of both lists, and to their order. */
module DevExact {
  import opened Wrappers
  import opened DevAddr
  import opened DevSync
  import opened Errno

  function Addrs(l: seq<Entry>): seq<Addr> {
    seq(|l|, i requires 0 <= i < |l| => l[i].addr)
  }

  /** A new address comes first; otherwise the order stays. */
  lemma AddOrder(l: seq<Entry>, a: Addr, glbl: bool, mem: bool)
    ensures Addrs(Added(l, a, glbl, mem).1) == (if Get(l, a) == None && mem then [a] else []) + Addrs(l)
  {
    var l' := Added(l, a, glbl, mem).1;
    if Get(l, a) == None && mem {
      assert Addrs(l')[1..] == Addrs(l);
    } else {
      assert Addrs(l') == Addrs(l);
    }
  }

  /** A delete takes out the address with its last reference, and leaves the others in their order. */
  lemma DeleteOrder(l: seq<Entry>, a: Addr, glbl: bool)
    ensures var k, l' := Find(l, a), Deleted(l, a, glbl).1;
      Addrs(l') == if k < |l| && l[k].users == 1 && (glbl ==> l[k].global) then Addrs(l)[..k] + Addrs(l)[k + 1..]
                   else Addrs(l)
  {}

  // ---------------------------------------------------------------- sync

  /** A visit leaves every other address alone. */
  lemma PushOther(to: seq<Entry>, e: Entry, b: Addr)
    requires Wf(to) && b != e.addr
    ensures Wf(PushOne(to, e)) && Get(PushOne(to, e), b) == Get(to, b)
  {
    hide Wf;
    AddCounts(to, e.addr, false, true, b);
    DeleteCounts(to, e.addr, false, b);
    AddOther(to, e.addr, false, true, b);
    DeleteOther(to, e.addr, false, b);
  }

  lemma AddOther(l: seq<Entry>, a: Addr, glbl: bool, mem: bool, b: Addr)
    requires Wf(l) && b != a
    ensures Get(Added(l, a, glbl, mem).1, b) == Get(l, b)
  {
    hide Wf;
    var k := Find(l, a);
    if k < |l| { GetUpdate(l, k, Join(l[k], glbl), b); }
    else { GetPush(l, Entry(a, 1, glbl, false), b); }
  }

  lemma DeleteOther(l: seq<Entry>, a: Addr, glbl: bool, b: Addr)
    requires Wf(l) && b != a
    ensures Get(Deleted(l, a, glbl).1, b) == Get(l, b)
  {
    hide Wf;
    var k := Find(l, a);
    if k < |l| {
      GetUpdate(l, k, Leave(l[k], glbl), b);
      GetRemove(l, k, b);
    }
  }

  /** The destination's entry for b after the visits: untouched, or as the visit to b alone leaves it. */
  lemma {:induction false} PushedAt(to: seq<Entry>, es: seq<Entry>, b: Addr)
    requires Wf(to) && Wf(es)
    ensures var i := Find(es, b);
      && Wf(Pushed(to, es))
      && Get(Pushed(to, es), b) == if i < |es| then Get(PushOne(to, es[i]), b) else Get(to, b)
    decreases |es|
  {
    if es != [] {
      WfTail(es);
      var to' := PushOne(to, es[0]);
      PushWf(to, es[0]);
      if es[0].addr != b { PushOther(to, es[0], b); }
      PushedAt(to', es[1..], b);
      if es[0].addr != b && Find(es[1..], b) < |es| - 1 {
        PushLocal(to', to, es[1..][Find(es[1..], b)]);
      } else if es[0].addr == b {
        assert Find(es[1..], b) == |es| - 1;
      }
    }
  }

  lemma WfTail(es: seq<Entry>)
    requires Wf(es) && es != []
    ensures Wf(es[1..]) && Find(es[1..], es[0].addr) == |es| - 1
  {}

  lemma PushWf(to: seq<Entry>, e: Entry)
    requires Wf(to)
    ensures Wf(PushOne(to, e))
  {
    hide Wf;
    AddCounts(to, e.addr, false, true, e.addr);
    DeleteCounts(to, e.addr, false, e.addr);
  }

  /** What a visit does to its own address depends on that address only. */
  lemma PushLocal(to: seq<Entry>, to': seq<Entry>, e: Entry)
    requires Wf(to) && Wf(to') && Get(to, e.addr) == Get(to', e.addr)
    ensures Get(PushOne(to, e), e.addr) == Get(PushOne(to', e), e.addr)
  {
    AddAt(to, e.addr);
    AddAt(to', e.addr);
    DeleteAt(to, e.addr);
    DeleteAt(to', e.addr);
    hide Wf;
  }

  /** A plain reference more. */
  lemma AddAt(l: seq<Entry>, a: Addr)
    requires Wf(l)
    ensures Get(Added(l, a, false, true).1, a) ==
      match Get(l, a)
      case None => Some(Entry(a, 1, false, false))
      case Some(e) => Some(e.(users := e.users + 1))
  {
    hide Wf;
    var k := Find(l, a);
    if k < |l| { GetUpdate(l, k, Join(l[k], false), a); }
    else { GetPush(l, Entry(a, 1, false, false), a); }
  }

  /** A plain reference less. */
  lemma DeleteAt(l: seq<Entry>, a: Addr)
    requires Wf(l)
    ensures Get(Deleted(l, a, false).1, a) ==
      match Get(l, a)
      case None => None
      case Some(e) => if e.users == 1 then None else Some(e.(users := e.users - 1))
  {
    hide Wf;
    var k := Find(l, a);
    if k < |l| {
      GetUpdate(l, k, Leave(l[k], false), a);
      GetRemove(l, k, a);
    }
  }

  lemma FrontAt(es: seq<Entry>, r: seq<Entry>, rest: seq<Entry>, b: Addr)
    requires es != [] && (r == [] || (|r| == 1 && r[0].addr == es[0].addr))
    ensures Get(r + rest, b) == if r != [] && b == es[0].addr then Some(r[0]) else Get(rest, b)
    ensures Find(es, b) == if b == es[0].addr then 0 else 1 + Find(es[1..], b)
    ensures Find(es[1..], b) == |es[1..]| ==> b == es[0].addr || Find(es, b) == |es|
    ensures b != es[0].addr && Find(es, b) < |es| ==> es[Find(es, b)] == es[1..][Find(es[1..], b)]
  {
    if r == [] { assert r + rest == rest; } else { GetPush(rest, r[0], b); }
  }

  /** What is left of the visited source entries: their marks and counts, and their order. */
  lemma {:induction false} RefreshedAt(es: seq<Entry>, b: Addr)
    requires Wf(es)
    ensures var i := Find(es, b);
      Get(Refreshed(es), b) ==
      if i == |es| || (es[i].synced && es[i].users == 1) then None
      else if es[i].synced then Some(es[i])
      else Some(es[i].(synced := true, users := es[i].users + 1))
    decreases |es|
  {
    if es != [] {
      WfTail(es);
      hide Wf, Get, Find;
      RefreshedAt(es[1..], b);
      FrontAt(es, RefreshOne(es[0]), Refreshed(es[1..]), b);
    }
  }

  /** The remaining entries are in the order they had. */
  predicate InOrder(es: seq<Entry>, rest: seq<Entry>) {
    && (forall x :: 0 <= x < |rest| ==> Find(es, rest[x].addr) < |es|)
    && forall x, y :: 0 <= x < y < |rest| ==> Find(es, rest[x].addr) < Find(es, rest[y].addr)
  }

  lemma {:induction false} RefreshedOrder(es: seq<Entry>)
    requires Wf(es)
    ensures InOrder(es, Refreshed(es))
    decreases |es|
  {
    if es != [] {
      WfTail(es);
      RefreshedOrder(es[1..]);
      OrderLonger(es, RefreshOne(es[0]), Refreshed(es[1..]));
    }
  }

  lemma OrderLonger(es: seq<Entry>, r: seq<Entry>, rest: seq<Entry>)
    requires Wf(es) && es != [] && InOrder(es[1..], rest)
    requires r == [] || (|r| == 1 && r[0].addr == es[0].addr)
    ensures InOrder(es, r + rest)
  {
    WfTail(es);
    hide Wf;
    forall x | 0 <= x < |rest| ensures Find(es, rest[x].addr) == 1 + Find(es[1..], rest[x].addr) {
      assert es[1..][Find(es[1..], rest[x].addr)].addr == rest[x].addr;
    }
  }

  /** Where an allocation fails: at the first source entry that is not synced yet, is absent from the destination and
      for which there is no memory. */
  lemma {:induction false} StopAt(to: seq<Entry>, es: seq<Entry>, mem: Addr -> bool)
    requires Wf(to) && Wf(es)
    ensures var k := SyncStop(to, es, mem);
      && (forall i :: 0 <= i < k ==> es[i].synced || Get(to, es[i].addr) != None || mem(es[i].addr))
      && (k < |es| ==> !es[k].synced && Get(to, es[k].addr) == None && !mem(es[k].addr))
    decreases |es|
  {
    if es != [] && !Stuck(to, es[0], mem) {
      var to' := PushOne(to, es[0]);
      WfTail(es);
      PushWf(to, es[0]);
      StopAt(to', es[1..], mem);
      forall i | 1 <= i < |es| ensures Get(to', es[i].addr) == Get(to, es[i].addr) {
        assert es[i].addr != es[0].addr;
        PushOther(to, es[0], es[i].addr);
      }
      var k := SyncStop(to, es, mem);
      forall i | 0 <= i < k ensures es[i].synced || Get(to, es[i].addr) != None || mem(es[i].addr) {
        if i > 0 { assert es[1..][i - 1] == es[i]; }
      }
    }
  }

  /** Synchronising, address by address: an entry that is not synced yet is marked and counted once more, and the
      destination counts one more reference; a synced one that nobody else uses any more leaves both; every other
      address stays as it is in both. Entries behind a failed allocation are not visited. */
  lemma SyncExact(to: seq<Entry>, from: seq<Entry>, mem: Addr -> bool, b: Addr)
    requires Wf(to) && Wf(from)
    ensures var k, i := SyncStop(to, from, mem), Find(from, b);
      var to', from' := Pushed(to, from[..k]), Refreshed(from[..k]) + from[k..];
      && Wf(to')
      && if i >= k then Get(to', b) == Get(to, b) && Get(from', b) == Get(from, b)
         else if !from[i].synced then
           && Get(from', b) == Some(from[i].(synced := true, users := from[i].users + 1))
           && Get(to', b) == (match Get(to, b)
                              case None => Some(Entry(b, 1, false, false))
                              case Some(e) => Some(e.(users := e.users + 1)))
         else if from[i].users == 1 then
           && Get(from', b) == None
           && Get(to', b) == (match Get(to, b)
                              case None => None
                              case Some(e) => if e.users == 1 then None else Some(e.(users := e.users - 1)))
         else Get(to', b) == Get(to, b) && Get(from', b) == Get(from, b)
  {
    var k, i := SyncStop(to, from, mem), Find(from, b);
    SplitWf(from, k, b);
    PushedAt(to, from[..k], b);
    RefreshedAt(from[..k], b);
    AddAt(to, b);
    DeleteAt(to, b);
    AfterFront(Refreshed(from[..k]), from[k..], b);
    hide Wf;
    if i < k { assert from[..k][i] == from[i]; }
  }

  lemma SplitWf(l: seq<Entry>, k: nat, b: Addr)
    requires Wf(l) && k <= |l|
    ensures Wf(l[..k]) && Wf(l[k..])
    ensures var i := Find(l, b);
      && Find(l[..k], b) == (if i < k then i else k)
      && Get(l[k..], b) == (if i < k then None else Get(l, b))
  {
    var i, x, y := Find(l, b), Find(l[..k], b), Find(l[k..], b);
    if i < k {
      assert l[..k][i] == l[i];
      assert forall j :: 0 <= j < |l[k..]| ==> l[k..][j].addr != b;
    } else if i < |l| {
      assert l[k..][i - k] == l[i];
    }
  }

  lemma {:induction false} AfterFront(front: seq<Entry>, back: seq<Entry>, b: Addr)
    ensures Get(front + back, b) == if Get(front, b) != None then Get(front, b) else Get(back, b)
    decreases |front|
  {
    if front == [] {
      assert front + back == back;
    } else {
      assert (front + back)[1..] == front[1..] + back;
      AfterFront(front[1..], back, b);
    }
  }

  // ---------------------------------------------------------------- unsync

  lemma {:induction false} PulledAt(to: seq<Entry>, es: seq<Entry>, b: Addr)
    requires Wf(to) && Wf(es)
    ensures var i := Find(es, b);
      && Wf(Pulled(to, es))
      && Get(Pulled(to, es), b) ==
         if i < |es| && es[i].synced then Get(Deleted(to, b, false).1, b) else Get(to, b)
    decreases |es|
  {
    if es != [] {
      WfTail(es);
      var to' := PullOne(to, es[0]);
      DeleteCounts(to, es[0].addr, false, b);
      if es[0].addr != b { DeleteOther(to, es[0].addr, false, b); }
      PulledAt(to', es[1..], b);
      DeleteAt(to, b);
      DeleteAt(to', b);
    }
  }

  lemma {:induction false} ReleasedAt(es: seq<Entry>, b: Addr)
    requires Wf(es)
    ensures var i := Find(es, b);
      Get(Released(es), b) ==
      if i == |es| || (es[i].synced && es[i].users == 1) then None
      else if !es[i].synced then Some(es[i])
      else Some(es[i].(synced := false, users := es[i].users - 1))
    decreases |es|
  {
    if es != [] {
      WfTail(es);
      hide Wf, Get, Find;
      ReleasedAt(es[1..], b);
      FrontAt(es, ReleaseOne(es[0]), Released(es[1..]), b);
    }
  }

  lemma {:induction false} ReleasedOrder(es: seq<Entry>)
    requires Wf(es)
    ensures InOrder(es, Released(es))
    decreases |es|
  {
    if es != [] {
      WfTail(es);
      ReleasedOrder(es[1..]);
      OrderLonger(es, ReleaseOne(es[0]), Released(es[1..]));
    }
  }

  /** Taking synchronisation back, address by address: a synced entry loses its mark and a reference, and the
      destination a reference; every other address stays as it is in both. */
  lemma UnsyncExact(to: seq<Entry>, from: seq<Entry>, b: Addr)
    requires Wf(to) && Wf(from)
    ensures var i, to', from' := Find(from, b), Pulled(to, from), Released(from);
      && Wf(to')
      && if i < |from| && from[i].synced then
           && Get(from', b) == (if from[i].users == 1 then None
                                else Some(from[i].(synced := false, users := from[i].users - 1)))
           && Get(to', b) == (match Get(to, b)
                              case None => None
                              case Some(e) => if e.users == 1 then None else Some(e.(users := e.users - 1)))
         else Get(to', b) == Get(to, b) && Get(from', b) == Get(from, b)
  {
    PulledAt(to, from, b);
    ReleasedAt(from, b);
    DeleteAt(to, b);
  }
}
