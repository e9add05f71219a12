/** Reference-counted device address lists: compat/compat-2.6.32.c, lines 14-118. */
module DevAddr {
  import opened Wrappers
  import opened Errno

  type Addr = seq<bv8>

  /** One list entry: da_addr, da_users, da_gusers and da_synced. */
  datatype Entry = Entry(addr: Addr, users: int, global: bool, synced: bool)

  predicate Wf(l: seq<Entry>) {
    (forall i, j :: 0 <= i < j < |l| ==> l[i].addr != l[j].addr) &&
    (forall i :: 0 <= i < |l| ==> l[i].users >= 1)
  }

  // ---------------------------------------------------------------- one list

  /** The position of the first entry for a, or the length of the list. */
  function Find(l: seq<Entry>, a: Addr): (k: nat)
    ensures k <= |l| && (k < |l| ==> l[k].addr == a)
    ensures forall j :: 0 <= j < k ==> l[j].addr != a
  {
    if l == [] || l[0].addr == a then 0 else 1 + Find(l[1..], a)
  }

  function Get(l: seq<Entry>, a: Addr): Option<Entry> {
    var k := Find(l, a);
    if k < |l| then Some(l[k]) else None
  }

  function Join(e: Entry, glbl: bool): Entry {
    if glbl && e.global then e else e.(users := e.users + 1, global := e.global || glbl)
  }

  /** __dev_addr_add on values: error code and new list. */
  function Added(l: seq<Entry>, a: Addr, glbl: bool, mem: bool): (int, seq<Entry>) {
    var k := Find(l, a);
    if k < |l| then (0, l[k := Join(l[k], glbl)])
    else if !mem then (-ENOMEM, l)
    else (0, [Entry(a, 1, glbl, false)] + l)
  }

  function Leave(e: Entry, glbl: bool): Entry {
    e.(users := e.users - 1, global := e.global && !glbl)
  }

  /** __dev_addr_delete on values. */
  function Deleted(l: seq<Entry>, a: Addr, glbl: bool): (int, seq<Entry>) {
    var k := Find(l, a);
    if k == |l| || (glbl && !l[k].global) then (-ENOENT, l)
    else if l[k].users != 1 then (0, l[k := Leave(l[k], glbl)])
    else (0, l[..k] + l[k + 1..])
  }

  lemma GetUpdate(l: seq<Entry>, k: nat, e: Entry, b: Addr)
    requires Wf(l) && k < |l| && e.addr == l[k].addr
    ensures Get(l[k := e], b) == if b == e.addr then Some(e) else Get(l, b)
  {
    assert forall i :: 0 <= i < |l| ==> l[k := e][i].addr == l[i].addr;
    var n, m := Find(l[k := e], b), Find(l, b);
    assert n == m;
    if b == e.addr { assert n == k; }
  }

  lemma GetPush(l: seq<Entry>, e: Entry, b: Addr)
    ensures Get([e] + l, b) == if b == e.addr then Some(e) else Get(l, b)
  {
    assert ([e] + l)[1..] == l;
  }

  lemma GetRemove(l: seq<Entry>, k: nat, b: Addr)
    requires Wf(l) && k < |l|
    ensures Get(l[..k] + l[k + 1..], b) == if b == l[k].addr then None else Get(l, b)
  {
    var l' := l[..k] + l[k + 1..];
    assert forall i :: 0 <= i < |l'| ==> l'[i] == l[if i < k then i else i + 1];
    var n, m := Find(l', b), Find(l, b);
    if b == l[k].addr {
      assert n == |l'|;
    } else if m < k {
      assert l'[m] == l[m];
    } else if m < |l| {
      assert l'[m - 1] == l[m];
      assert n == m - 1;
    } else {
      assert n == |l'|;
    }
  }

  lemma GetAt(l: seq<Entry>, k: nat)
    requires Wf(l) && k < |l|
    ensures Find(l, l[k].addr) == k && Get(l, l[k].addr) == Some(l[k])
  {}

  /** How many references a list holds on an address; zero when the address is absent. */
  function Users(l: seq<Entry>, a: Addr): int {
    match Get(l, a) case None => 0 case Some(e) => e.users
  }

  predicate Global(l: seq<Entry>, a: Addr) {
    match Get(l, a) case None => false case Some(e) => e.global
  }

  predicate Synced(l: seq<Entry>, a: Addr) {
    match Get(l, a) case None => false case Some(e) => e.synced
  }

  /** An add takes one reference, unless it repeats a global one or memory runs out. */
  lemma AddCounts(l: seq<Entry>, a: Addr, glbl: bool, mem: bool, b: Addr)
    requires Wf(l)
    ensures var (err, l') := Added(l, a, glbl, mem);
      && Wf(l')
      && (err == 0 <==> (mem || Users(l, a) > 0))
      && (err != 0 ==> err == -ENOMEM && l' == l)
      && Users(l', b) == Users(l, b) + (if b == a && err == 0 && !(glbl && Global(l, a)) then 1 else 0)
      && Global(l', b) == (Global(l, b) || (b == a && glbl && err == 0))
      && Synced(l', b) == Synced(l, b)
  {
    hide Wf;
    var k := Find(l, a);
    HoldsSome(l, a);
    if k < |l| {
      HoldsOne(l, k);
      GetUpdate(l, k, Join(l[k], glbl), b);
      WfUpdate(l, k, Join(l[k], glbl));
    } else {
      GetPush(l, Entry(a, 1, glbl, false), b);
      WfPush(l, Entry(a, 1, glbl, false));
    }
  }

  lemma WfPush(l: seq<Entry>, e: Entry)
    requires Wf(l) && Find(l, e.addr) == |l| && e.users >= 1
    ensures Wf([e] + l)
  {}

  /** A delete gives back one reference; the entry goes with its last one. */
  lemma DeleteCounts(l: seq<Entry>, a: Addr, glbl: bool, b: Addr)
    requires Wf(l)
    ensures var (err, l') := Deleted(l, a, glbl);
      && Wf(l')
      && (err == 0 <==> Users(l, a) > 0 && (glbl ==> Global(l, a)))
      && (err != 0 ==> err == -ENOENT && l' == l)
      && Users(l', b) == Users(l, b) - (if b == a && err == 0 then 1 else 0)
      && (Get(l', b) == None <==> Users(l', b) == 0)
      && (Get(l', b) != None ==> Global(l', b) == (Global(l, b) && !(b == a && glbl)))
      && (Get(l', b) != None ==> Synced(l', b) == Synced(l, b))
  {
    hide Wf;
    var k := Find(l, a);
    if k < |l| {
      GetAt(l, k);
      HoldsOne(l, k);
      HoldsSome(l, b);
      if !glbl || l[k].global {
        if l[k].users != 1 {
          GetUpdate(l, k, Leave(l[k], glbl), b);
          WfUpdate(l, k, Leave(l[k], glbl));
        } else {
          GetRemove(l, k, b);
          WfRemove(l, k);
        }
      }
    } else {
      HoldsSome(l, b);
    }
  }

  lemma HoldsOne(l: seq<Entry>, k: nat)
    requires Wf(l) && k < |l|
    ensures l[k].users >= 1
  {}

  lemma HoldsSome(l: seq<Entry>, a: Addr)
    requires Wf(l)
    ensures Get(l, a) == None || Users(l, a) >= 1
  {}

  lemma WfUpdate(l: seq<Entry>, k: nat, e: Entry)
    requires Wf(l) && k < |l| && e.addr == l[k].addr && e.users >= 1
    ensures Wf(l[k := e])
  {}

  lemma WfRemove(l: seq<Entry>, k: nat)
    requires Wf(l) && k < |l|
    ensures Wf(l[..k] + l[k + 1..])
  {
    var l' := l[..k] + l[k + 1..];
    assert forall i :: 0 <= i < |l'| ==> l'[i] == l[if i < k then i else i + 1];
  }

  /** Taking a plain reference and giving it back restores the list, order included. */
  lemma AddThenDelete(l: seq<Entry>, a: Addr)
    requires Wf(l)
    ensures Deleted(Added(l, a, false, true).1, a, false) == (0, l)
  {
    hide Wf;
    var k := Find(l, a);
    if k < |l| {
      AddThenDeletePresent(l, k);
    } else {
      var l' := [Entry(a, 1, false, false)] + l;
      assert Find(l', a) == 0;
      assert l'[..0] + l'[1..] == l;
    }
  }

  lemma AddThenDeletePresent(l: seq<Entry>, k: nat)
    requires Wf(l) && k < |l| && Find(l, l[k].addr) == k
    ensures Deleted(l[k := Join(l[k], false)], l[k].addr, false) == (0, l)
  {
    var e := Join(l[k], false);
    var l' := l[k := e];
    assert Find(l', e.addr) == k by {
      hide Wf;
      assert forall j :: 0 <= j < |l| ==> l'[j].addr == l[j].addr;
    }
    assert Leave(e, false) == l[k];
    assert l'[k := l[k]] == l;
  }

  // ---------------------------------------------------------------- the list and its counter

  class AddrList {
    var list: seq<Entry>
    var count: int

    ghost predicate Valid()
      reads this
    {
      Wf(list) && count == |list|
    }

    constructor ()
      ensures Valid() && list == []
    {
      list, count := [], 0;
    }

    /** __dev_addr_add; mem says whether the allocation would succeed. */
    method Add(addr: Addr, glbl: bool, mem: bool) returns (err: int)
      requires Valid()
      modifies this
      ensures Valid() && (err, list) == Added(old(list), addr, glbl, mem)
    {
      hide Wf;
      AddCounts(list, addr, glbl, mem, addr);
      var k := 0;
      while k < |list|
        invariant k <= |list| && Valid() && list == old(list)
        invariant forall j :: 0 <= j < k ==> list[j].addr != addr
      {
        if list[k].addr == addr {
          if glbl {
            var oldGlobal := list[k].global;
            list := list[k := list[k].(global := true)];
            if oldGlobal {
              assert list[k] == Join(old(list)[k], glbl);
              return 0;
            }
          }
          list := list[k := list[k].(users := list[k].users + 1)];
          assert list == old(list)[k := Join(old(list)[k], glbl)];
          return 0;
        }
        k := k + 1;
      }
      if !mem { return -ENOMEM; }
      list := [Entry(addr, 1, glbl, false)] + list;
      count := count + 1;
      return 0;
    }

    /** __dev_addr_delete. */
    method Delete(addr: Addr, glbl: bool) returns (err: int)
      requires Valid()
      modifies this
      ensures Valid() && (err, list) == Deleted(old(list), addr, glbl)
    {
      hide Wf;
      DeleteCounts(list, addr, glbl, addr);
      var k := 0;
      while k < |list|
        invariant k <= |list| && Valid() && list == old(list)
        invariant forall j :: 0 <= j < k ==> list[j].addr != addr
      {
        if list[k].addr == addr {
          if glbl {
            var oldGlobal := list[k].global;
            list := list[k := list[k].(global := false)];
            if !oldGlobal {
              assert list == old(list);
              break;
            }
          }
          list := list[k := list[k].(users := list[k].users - 1)];
          assert list == old(list)[k := Leave(old(list)[k], glbl)];
          if list[k].users != 0 { return 0; }
          list := list[..k] + list[k + 1..];
          assert list == old(list)[..k] + old(list)[k + 1..];
          count := count - 1;
          return 0;
        }
        k := k + 1;
      }
      return -ENOENT;
    }
  }
}
