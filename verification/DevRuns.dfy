/** What synchronising address lists amounts to: the round trip, and the books over whole runs. */
module DevRuns {
  import opened Wrappers
  import opened DevAddr
  import opened DevSync

  // ---------------------------------------------------------------- sync, then unsync

  predicate Unsynced(es: seq<Entry>) {
    forall i :: 0 <= i < |es| ==> !es[i].synced
  }

  /**
   * From a source without synced entries, unsync after sync restores both lists exactly, order and counts
   * included, also when an allocation failed and only k entries were visited.
   */
  lemma RoundTrip(to: seq<Entry>, from: seq<Entry>, mem: Addr -> bool)
    requires Wf(to) && Wf(from) && Unsynced(from)
    ensures var k := SyncStop(to, from, mem);
      var to', from' := Pushed(to, from[..k]), Refreshed(from[..k]) + from[k..];
      Released(from') == from && Pulled(to', from') == to
  {
    var k := SyncStop(to, from, mem);
    ReleaseBack(from, k);
    PullBack(to, from, k);
  }

  lemma {:induction false} ReleaseBack(es: seq<Entry>, k: nat)
    requires k <= |es| && Unsynced(es) && Wf(es)
    ensures Released(Refreshed(es[..k]) + es[k..]) == es
    decreases |es|
  {
    hide Refreshed;
    if k == 0 {
      LoopEnds([], es);
      ReleaseNothing(es);
    } else {
      MarkFirst(es, k);
      ReleaseBack(es[1..], k - 1);
    }
  }

  lemma {:induction false} ReleaseNothing(es: seq<Entry>)
    requires Unsynced(es)
    ensures Released(es) == es
    decreases |es|
  {
    if es != [] { ReleaseNothing(es[1..]); }
  }

  /** A visited source list, split at its first entry. */
  lemma MarkFirst(es: seq<Entry>, k: nat)
    requires 1 <= k <= |es| && !es[0].synced
    ensures var m := es[0].(synced := true, users := es[0].users + 1);
      var rest := Refreshed(es[1..][..k - 1]) + es[1..][k - 1..];
      var l := Refreshed(es[..k]) + es[k..];
      l == [m] + rest && l[0] == m && l[1..] == rest && es[..k][1..] == es[1..][..k - 1]
  {
    assert es[..k][1..] == es[1..][..k - 1] && es[1..][k - 1..] == es[k..];
    assert Refreshed(es[..k]) == RefreshOne(es[0]) + Refreshed(es[..k][1..]);
  }

  lemma {:induction false} PullNothing(to: seq<Entry>, es: seq<Entry>)
    requires Unsynced(es)
    ensures Pulled(to, es) == to
    decreases |es|
  {
    if es != [] { PullNothing(to, es[1..]); }
  }

  lemma {:induction false} PullBack(to: seq<Entry>, es: seq<Entry>, k: nat)
    requires k <= |es| && Wf(to) && Wf(es) && Unsynced(es)
    ensures Pulled(Pushed(to, es[..k]), Refreshed(es[..k]) + es[k..]) == to
    decreases k
  {
    hide Added, Deleted, Refreshed;
    if k == 0 {
      LoopEnds(to, es);
      assert Refreshed(es[..0]) + es[0..] == es by { LoopEnds(to, es); }
      PullNothing(to, es);
    } else {
      var a, rest := es[0].addr, es[1..];
      var one := Added(to, a, false, true).1;
      AddCounts(to, a, false, true, a);
      MarkFirst(es, k);
      DeleteThrough(one, a, rest[..k - 1]);
      AddThenDelete(to, a);
      PullBack(to, rest, k - 1);
    }
  }

  lemma {:induction false} DeleteThrough(l: seq<Entry>, a: Addr, es: seq<Entry>)
    requires Wf(l) && Users(l, a) > 0 && Unsynced(es)
    requires forall i :: 0 <= i < |es| ==> es[i].addr != a
    ensures Deleted(Pushed(l, es), a, false).1 == Pushed(Deleted(l, a, false).1, es)
    decreases |es|
  {
    hide Added, Deleted, Wf;
    if es != [] {
      var b := es[0].addr;
      AddCounts(l, b, false, true, a);
      Swap(l, a, b);
      DeleteThrough(Added(l, b, false, true).1, a, es[1..]);
    }
  }

  /** Giving back one address and taking another commute. */
  lemma Swap(l: seq<Entry>, a: Addr, b: Addr)
    requires Wf(l) && Users(l, a) > 0 && a != b
    ensures Deleted(Added(l, b, false, true).1, a, false).1 == Added(Deleted(l, a, false).1, b, false, true).1
  {
    hide Wf;
    var k, j := Find(l, a), Find(l, b);
    if j == |l| {
      SwapPush(l, k, b);
    } else if l[k].users != 1 {
      SwapUpdates(l, k, j);
    } else {
      SwapRemove(l, k, j);
    }
  }

  lemma SwapPush(l: seq<Entry>, k: nat, b: Addr)
    requires Wf(l) && k < |l| && Find(l, b) == |l|
    ensures Deleted(Added(l, b, false, true).1, l[k].addr, false).1 ==
            Added(Deleted(l, l[k].addr, false).1, b, false, true).1
  {
    hide Wf, Find, Get;
    var a, e := l[k].addr, Entry(b, 1, false, false);
    FindPushed(l, k, e);
    DeleteKeepsOut(l, a, b);
    PushLists(l, k, e, Leave(l[k], false));
  }

  lemma FindPushed(l: seq<Entry>, k: nat, e: Entry)
    requires Wf(l) && k < |l| && Find(l, e.addr) == |l|
    ensures Find([e] + l, l[k].addr) == k + 1 && Find(l, l[k].addr) == k
  {
    GetAt(l, k);
    assert ([e] + l)[1..] == l;
  }

  lemma DeleteKeepsOut(l: seq<Entry>, a: Addr, b: Addr)
    requires Wf(l) && Find(l, b) == |l|
    ensures var l' := Deleted(l, a, false).1; Find(l', b) == |l'|
  {
    hide Wf;
    DeleteCounts(l, a, false, b);
  }

  lemma PushLists(l: seq<Entry>, k: nat, e: Entry, x: Entry)
    requires k < |l|
    ensures var l' := [e] + l;
      l'[k + 1] == l[k] && l'[k + 1 := x] == [e] + l[k := x] && l'[..k + 1] + l'[k + 2..] == [e] + (l[..k] + l[k + 1..])
  {}

  lemma SwapUpdates(l: seq<Entry>, k: nat, j: nat)
    requires Wf(l) && k < |l| && j < |l| && k != j && l[k].users != 1
    ensures Deleted(Added(l, l[j].addr, false, true).1, l[k].addr, false).1 ==
            Added(Deleted(l, l[k].addr, false).1, l[j].addr, false, true).1
  {
    GetAt(l, k);
    GetAt(l, j);
    var one, two := l[j := Join(l[j], false)], l[k := Leave(l[k], false)];
    HoldsOne(l, j);
    HoldsOne(l, k);
    WfUpdate(l, j, Join(l[j], false));
    WfUpdate(l, k, Leave(l[k], false));
    GetAt(one, k);
    GetAt(two, j);
    assert one[k := Leave(l[k], false)] == two[j := Join(l[j], false)];
  }

  lemma SwapRemove(l: seq<Entry>, k: nat, j: nat)
    requires Wf(l) && k < |l| && j < |l| && k != j && l[k].users == 1
    ensures Deleted(Added(l, l[j].addr, false, true).1, l[k].addr, false).1 ==
            Added(Deleted(l, l[k].addr, false).1, l[j].addr, false, true).1
  {
    hide Wf, Find;
    var up := Join(l[j], false);
    var one := l[j := up];
    GetAt(l, k);
    GetAt(l, j);
    HoldsOne(l, j);
    WfUpdate(l, j, up);
    GetAt(one, k);
    WfRemove(l, k);
    RemoveLists(l, k, j, up);
    GetAt(l[..k] + l[k + 1..], if j < k then j else j - 1);
  }

  lemma RemoveLists(l: seq<Entry>, k: nat, j: nat, x: Entry)
    requires k < |l| && j < |l| && j != k
    ensures var one, two, j' := l[j := x], l[..k] + l[k + 1..], if j < k then j else j - 1;
      two[j'] == l[j] && one[..k] + one[k + 1..] == two[j' := x]
  {}

  // ---------------------------------------------------------------- the books over whole runs

  /** Both lists, and how many plain references the users of each list hold on each address. */
  datatype World = World(to: seq<Entry>, from: seq<Entry>, toHeld: map<Addr, nat>, fromHeld: map<Addr, nat>)

  function Held(m: map<Addr, nat>, a: Addr): nat {
    if a in m then m[a] else 0
  }

  function One(b: bool): nat {
    if b then 1 else 0
  }

  /** Every reference on a is one user's, the global one, or the one that synchronising took. */
  predicate Account(w: World, a: Addr) {
    Users(w.to, a) == Held(w.toHeld, a) + One(Global(w.to, a)) + One(Synced(w.from, a)) &&
    Users(w.from, a) == Held(w.fromHeld, a) + One(Global(w.from, a)) + One(Synced(w.from, a))
  }

  ghost predicate Books(w: World) {
    Wf(w.to) && Wf(w.from) && forall a :: Account(w, a)
  }

  datatype Op =
    | TakeTo(a: Addr, glbl: bool, mem: bool)
    | GiveTo(a: Addr, glbl: bool)
    | TakeFrom(a: Addr, glbl: bool, mem: bool)
    | GiveFrom(a: Addr, glbl: bool)
    | SyncAll(has: Addr -> bool)
    | UnsyncAll

  /** Users give back only plain references they hold; everything else is allowed at any time. */
  predicate Allowed(w: World, op: Op) {
    match op
    case GiveTo(a, glbl) => glbl || Held(w.toHeld, a) > 0
    case GiveFrom(a, glbl) => glbl || Held(w.fromHeld, a) > 0
    case _ => true
  }

  /** The references held on a after a call: one more or one fewer if it was plain and succeeded. */
  function Booked(m: map<Addr, nat>, a: Addr, plain: bool, change: int): map<Addr, nat>
    requires plain ==> Held(m, a) + change >= 0
  {
    if plain then m[a := Held(m, a) + change] else m
  }

  function SyncedWorld(w: World, k: nat): World
    requires k <= |w.from|
  {
    w.(to := Pushed(w.to, w.from[..k]), from := Refreshed(w.from[..k]) + w.from[k..])
  }

  function UnsyncedWorld(w: World, k: nat): World
    requires k <= |w.from|
  {
    w.(to := Pulled(w.to, w.from[..k]), from := Released(w.from[..k]) + w.from[k..])
  }

  function Apply(w: World, op: Op): World
    requires Allowed(w, op)
  {
    match op
    case TakeTo(a, glbl, mem) =>
      var (err, l) := Added(w.to, a, glbl, mem);
      w.(to := l, toHeld := Booked(w.toHeld, a, err == 0 && !glbl, 1))
    case GiveTo(a, glbl) =>
      var (err, l) := Deleted(w.to, a, glbl);
      w.(to := l, toHeld := Booked(w.toHeld, a, err == 0 && !glbl, -1))
    case TakeFrom(a, glbl, mem) =>
      var (err, l) := Added(w.from, a, glbl, mem);
      w.(from := l, fromHeld := Booked(w.fromHeld, a, err == 0 && !glbl, 1))
    case GiveFrom(a, glbl) =>
      var (err, l) := Deleted(w.from, a, glbl);
      w.(from := l, fromHeld := Booked(w.fromHeld, a, err == 0 && !glbl, -1))
    case SyncAll(has) => SyncedWorld(w, SyncStop(w.to, w.from, has))
    case UnsyncAll => UnsyncedWorld(w, |w.from|)
  }

  lemma TakeKeeps(w: World, op: Op)
    requires Books(w) && (op.TakeTo? || op.TakeFrom?)
    ensures Books(Apply(w, op))
  {
    hide Wf, Added;
    var w' := Apply(w, op);
    var l := if op.TakeTo? then w.to else w.from;
    AddCounts(l, op.a, op.glbl, op.mem, op.a);
    forall b ensures Account(w', b) {
      AddCounts(l, op.a, op.glbl, op.mem, b);
      assert Account(w, b);
    }
  }

  lemma GiveKeeps(w: World, op: Op)
    requires Books(w) && Allowed(w, op) && (op.GiveTo? || op.GiveFrom?)
    ensures Books(Apply(w, op))
  {
    hide Wf, Deleted;
    var w' := Apply(w, op);
    var l := if op.GiveTo? then w.to else w.from;
    DeleteCounts(l, op.a, op.glbl, op.a);
    forall b ensures Account(w', b) {
      DeleteCounts(l, op.a, op.glbl, b);
      assert Account(w, b);
    }
  }

  /** One visit of sync keeps the books. */
  lemma VisitKeeps(w: World, pos: nat)
    requires Books(w) && pos < |w.from|
    ensures var e := w.from[pos];
      Books(w.(to := PushOne(w.to, e), from := Splice(w.from, pos, RefreshOne(e))))
  {
    var e := w.from[pos];
    GetAt(w.from, pos);
    assert Account(w, e.addr);
    if !e.synced {
      VisitFreshKeeps(w, pos);
    } else if e.users == 1 {
      VisitStaleKeeps(w, pos);
    } else {
      VisitKept(w.from, pos);
    }
  }

  lemma VisitFreshKeeps(w: World, pos: nat)
    requires Books(w) && pos < |w.from| && !w.from[pos].synced
    ensures var e := w.from[pos];
      Books(w.(to := PushOne(w.to, e), from := Splice(w.from, pos, RefreshOne(e))))
  {
    hide Wf, Added, Splice, RefreshOne;
    var e := w.from[pos];
    var w' := w.(to := PushOne(w.to, e), from := Splice(w.from, pos, RefreshOne(e)));
    VisitFresh(w.from, pos);
    GetAt(w.from, pos);
    AddCounts(w.to, e.addr, false, true, e.addr);
    forall b ensures Account(w', b) {
      assert Account(w, b);
      FreshAccount(w, pos, b);
    }
  }

  lemma FreshAccount(w: World, pos: nat, b: Addr)
    requires Wf(w.to) && Wf(w.from) && pos < |w.from| && !w.from[pos].synced && Account(w, b)
    ensures var e := w.from[pos];
      Account(w.(to := PushOne(w.to, e), from := w.from[pos := e.(synced := true, users := e.users + 1)]), b)
  {
    hide Wf, Added, Held, Get, Find;
    var e := w.from[pos];
    AddCounts(w.to, e.addr, false, true, b);
    GetAt(w.from, pos);
    GetUpdate(w.from, pos, e.(synced := true, users := e.users + 1), b);
  }

  lemma VisitStaleKeeps(w: World, pos: nat)
    requires Books(w) && pos < |w.from| && w.from[pos].synced && w.from[pos].users == 1
    ensures var e := w.from[pos];
      Books(w.(to := PushOne(w.to, e), from := Splice(w.from, pos, RefreshOne(e))))
  {
    hide Wf, Deleted, Splice, RefreshOne;
    var e := w.from[pos];
    var w' := w.(to := PushOne(w.to, e), from := Splice(w.from, pos, RefreshOne(e)));
    VisitStale(w.from, pos);
    GetAt(w.from, pos);
    DeleteCounts(w.to, e.addr, false, e.addr);
    DeleteCounts(w.from, e.addr, false, e.addr);
    forall b ensures Account(w', b) {
      DeleteCounts(w.to, e.addr, false, b);
      DeleteCounts(w.from, e.addr, false, b);
      assert Account(w, b) && Account(w, e.addr);
    }
  }

  lemma {:induction false} SyncKeeps(w: World, k: nat)
    requires Books(w) && k <= |w.from|
    ensures Books(SyncedWorld(w, k))
  {
    hide Books, Pushed, Refreshed, PushOne, RefreshOne, Splice;
    if k == 0 {
      LoopEnds(w.to, w.from);
      assert SyncedWorld(w, 0) == w;
    } else {
      SyncKeeps(w, k - 1);
      SyncVisit(w.to, w.from, k - 1, _ => true);
      VisitKeeps(SyncedWorld(w, k - 1), |Refreshed(w.from[..k - 1])|);
    }
  }

  /** One visit of unsync keeps the books. */
  lemma ReleaseKeeps(w: World, pos: nat)
    requires Books(w) && pos < |w.from|
    ensures var e := w.from[pos];
      Books(w.(to := PullOne(w.to, e), from := Splice(w.from, pos, ReleaseOne(e))))
  {
    hide Wf, Deleted, Splice, ReleaseOne;
    var e := w.from[pos];
    var w' := w.(to := PullOne(w.to, e), from := Splice(w.from, pos, ReleaseOne(e)));
    if e.synced {
      VisitRelease(w.from, pos);
      GetAt(w.from, pos);
      var off := e.(synced := false);
      var l := w.from[pos := off];
      DeleteCounts(w.to, e.addr, false, e.addr);
      DeleteCounts(l, e.addr, false, e.addr);
      forall b ensures Account(w', b) {
        DeleteCounts(w.to, e.addr, false, b);
        DeleteCounts(l, e.addr, false, b);
        GetUpdate(w.from, pos, off, b);
        assert Account(w, b) && Account(w, e.addr);
      }
    } else {
      VisitForeign(w.from, pos);
    }
  }

  lemma {:induction false} UnsyncKeeps(w: World, k: nat)
    requires Books(w) && k <= |w.from|
    ensures Books(UnsyncedWorld(w, k))
  {
    hide Books, Pulled, Released, PullOne, ReleaseOne, Splice;
    if k == 0 {
      LoopEnds(w.to, w.from);
      assert UnsyncedWorld(w, 0) == w;
    } else {
      UnsyncKeeps(w, k - 1);
      UnsyncVisit(w.to, w.from, k - 1);
      ReleaseKeeps(UnsyncedWorld(w, k - 1), |Released(w.from[..k - 1])|);
    }
  }

  /** A run: every operation is allowed when its turn comes. */
  predicate Legal(w: World, ops: seq<Op>)
    decreases |ops|
  {
    ops == [] || (Allowed(w, ops[0]) && Legal(Apply(w, ops[0]), ops[1..]))
  }

  function Run(w: World, ops: seq<Op>): World
    requires Legal(w, ops)
    decreases |ops|
  {
    if ops == [] then w else Run(Apply(w, ops[0]), ops[1..])
  }

  const START: World := World([], [], map[], map[])

  /** In every run every reference is accounted for, and both lists have unique addresses in use. */
  lemma {:induction false} BooksBalance(w: World, ops: seq<Op>)
    requires Books(w) && Legal(w, ops)
    ensures Books(Run(w, ops))
    decreases |ops|
  {
    hide Books, Apply, Allowed;
    if ops != [] {
      StepKeeps(w, ops[0]);
      BooksBalance(Apply(w, ops[0]), ops[1..]);
    }
  }

  lemma StepKeeps(w: World, op: Op)
    requires Books(w) && Allowed(w, op)
    ensures Books(Apply(w, op))
  {
    hide Books, SyncedWorld, UnsyncedWorld, Allowed;
    match op
    case TakeTo(_, _, _) => TakeKeeps(w, op);
    case TakeFrom(_, _, _) => TakeKeeps(w, op);
    case GiveTo(_, _) => GiveKeeps(w, op);
    case GiveFrom(_, _) => GiveKeeps(w, op);
    case SyncAll(has) => SyncKeeps(w, SyncStop(w.to, w.from, has));
    case UnsyncAll => UnsyncKeeps(w, |w.from|);
  }

  lemma StartBalances()
    ensures Books(START)
  {
    forall a ensures Account(START, a) {}
  }

  /**
   * After any run and a sync without failed allocation, every address left in the source is synced and
   * present in the destination.
   */
  lemma SyncReaches(ops: seq<Op>, has: Addr -> bool, i: nat)
    requires Legal(START, ops)
    requires var w := Run(START, ops);
      SyncStop(w.to, w.from, has) == |w.from| && i < |Refreshed(w.from)|
    ensures var w := Run(START, ops);
      var w' := Apply(w, SyncAll(has));
      w'.from == Refreshed(w.from) && w'.from[i].synced && Users(w'.to, w'.from[i].addr) >= 1
  {
    hide Legal, Run, Pushed;
    var w := Run(START, ops);
    StartBalances();
    BooksBalance(START, ops);
    SyncKeeps(w, |w.from|);
    LoopEnds(w.to, w.from);
    var w' := Apply(w, SyncAll(has));
    AllSynced(w.from, i);
    var e := w'.from[i];
    GetAt(w'.from, i);
    assert Account(w', e.addr);
  }

  lemma {:induction false} AllSynced(es: seq<Entry>, i: nat)
    requires i < |Refreshed(es)|
    ensures Refreshed(es)[i].synced
    decreases |es|
  {
    var n := |RefreshOne(es[0])|;
    if i >= n { AllSynced(es[1..], i - n); }
  }

  /**
   * After any run, unsync leaves each list with exactly its own users' references: nothing that
   * synchronising ever took stays behind.
   */
  lemma UnsyncLeavesNothing(ops: seq<Op>, a: Addr)
    requires Legal(START, ops)
    ensures var w := Apply(Run(START, ops), UnsyncAll);
      && Users(w.to, a) == Held(w.toHeld, a) + One(Global(w.to, a))
      && Users(w.from, a) == Held(w.fromHeld, a) + One(Global(w.from, a))
  {
    hide Legal, Run, Pulled;
    var w := Run(START, ops);
    StartBalances();
    BooksBalance(START, ops);
    UnsyncKeeps(w, |w.from|);
    LoopEnds(w.to, w.from);
    NoneSynced(w.from, a);
    assert Apply(w, UnsyncAll).from == Released(w.from);
    assert Account(Apply(w, UnsyncAll), a);
  }

  lemma {:induction false} NoneSynced(es: seq<Entry>, a: Addr)
    ensures !Synced(Released(es), a)
    decreases |es|
  {
    if es != [] {
      NoneSynced(es[1..], a);
      var one, rest := ReleaseOne(es[0]), Released(es[1..]);
      if one == [] { assert one + rest == rest; } else { GetPush(rest, one[0], a); }
    }
  }
}
