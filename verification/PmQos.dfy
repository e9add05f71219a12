/** Aggregated power-management requirements: compat/pm_qos_params.c, lines 144-322. */
module PmQos {
  import opened Errno

  /** One named requirement on the list of a class. */
  datatype Requirement = Requirement(name: string, value: int)

  const PM_QOS_DEFAULT_VALUE := -1

  /** What sets the classes apart: the default, and whether the largest or the smallest request counts. */
  datatype Class = Class(defaultValue: int, max: bool) {
    function Compare(v1: int, v2: int): int {
      if max then (if v1 < v2 then v2 else v1) else (if v1 < v2 then v1 else v2)
    }

    /** v1 asks for at least as much as v2. */
    predicate Covers(v1: int, v2: int) {
      if max then v1 >= v2 else v1 <= v2
    }

    function Asked(value: int): int {
      if value == PM_QOS_DEFAULT_VALUE then defaultValue else value
    }
  }

  /** v is the default or a live request, and covers the default and every live request. */
  ghost predicate Aggregate(c: Class, reqs: seq<Requirement>, v: int) {
    && (v == c.defaultValue || exists r :: r in reqs && r.value == v)
    && c.Covers(v, c.defaultValue)
    && forall r :: r in reqs ==> c.Covers(v, r.value)
  }

  /** There is only one such value, whatever the order of the list. */
  lemma AggregateUnique(c: Class, reqs: seq<Requirement>, reqs': seq<Requirement>, v: int, v': int)
    requires Aggregate(c, reqs, v) && Aggregate(c, reqs', v') && multiset(reqs) == multiset(reqs')
    ensures v == v'
  {
    forall r ensures r in reqs <==> r in reqs' {
      assert r in multiset(reqs) <==> r in multiset(reqs');
    }
  }

  /** The first requirement with that name, or the length of the list. */
  function Find(reqs: seq<Requirement>, name: string): (k: nat)
    ensures k <= |reqs| && (k < |reqs| ==> reqs[k].name == name)
    ensures forall i :: 0 <= i < k ==> reqs[i].name != name
  {
    if reqs == [] || reqs[0].name == name then 0 else 1 + Find(reqs[1..], name)
  }

  // ---------------------------------------------------------------- the calls, one after the other

  class QosObject {
    const class_: Class
    var requirements: seq<Requirement>
    var target: int

    constructor (c: Class)
      ensures class_ == c && requirements == [] && target == c.defaultValue
    {
      class_, requirements, target := c, [], c.defaultValue;
    }

    /** update_target; news is what the notifier chain is called with, if it is. */
    method UpdateTarget() returns (notify: bool, news: int)
      modifies this`target
      ensures Aggregate(class_, requirements, target)
      ensures notify == (target != old(target)) && news == target
      ensures Next(class_, State(requirements, old(target), 1, [], [], []), DoTarget(target)) ==
              State(requirements, target, 0, if notify then [news] else [], if notify then [news] else [], [])
    {
      var extreme := class_.defaultValue;
      var i := 0;
      while i < |requirements|
        invariant 0 <= i <= |requirements| && target == old(target)
        invariant Aggregate(class_, requirements[..i], extreme)
      {
        var r := requirements[i];
        assert requirements[..i + 1] == requirements[..i] + [r];
        AggregateMore(class_, requirements[..i], r, extreme);
        extreme := class_.Compare(extreme, r.value);
        i := i + 1;
      }
      assert requirements[..i] == requirements;
      notify := false;
      if target != extreme {
        notify := true;
        target := extreme;
      }
      news := extreme;
    }

    /** pm_qos_add_requirement; mem says whether both allocations succeed. */
    method Add(name: string, value: int, mem: bool) returns (err: int)
      modifies this
      ensures err == if mem then 0 else -ENOMEM
      ensures requirements == (if mem then [Requirement(name, class_.Asked(value))] else []) + old(requirements)
      ensures if mem then Aggregate(class_, requirements, target) else target == old(target)
      ensures mem ==> requirements[0].value == if value == -1 then class_.defaultValue else value
      ensures mem ==> Changes(class_, old(requirements), DoAdd(name, value), requirements)
    {
      hide Changes;
      StepChanges(class_, requirements, name, value);
      if !mem { return -ENOMEM; }
      requirements := [Requirement(name, class_.Asked(value))] + requirements;
      var _, _ := UpdateTarget();
      return 0;
    }

    /** pm_qos_update_requirement: the first requirement of that name, if any. */
    method Update(name: string, value: int)
      modifies this
      ensures var k := Find(old(requirements), name);
        if k == |old(requirements)| then requirements == old(requirements) && target == old(target)
        else requirements == old(requirements)[k := Requirement(name, class_.Asked(value))] &&
             requirements[k].value == (if value == -1 then class_.defaultValue else value) &&
             Aggregate(class_, requirements, target)
      ensures Changes(class_, old(requirements), DoUpdate(name, value), requirements)
    {
      hide Changes;
      StepChanges(class_, requirements, name, value);
      var k := 0;
      while k < |requirements|
        invariant k <= |requirements| && requirements == old(requirements) && target == old(target)
        invariant forall i :: 0 <= i < k ==> requirements[i].name != name
      {
        if requirements[k].name == name {
          requirements := requirements[k := requirements[k].(value := class_.Asked(value))];
          var _, _ := UpdateTarget();
          return;
        }
        k := k + 1;
      }
    }

    /** pm_qos_remove_requirement. */
    method Remove(name: string)
      modifies this
      ensures var k := Find(old(requirements), name);
        if k == |old(requirements)| then requirements == old(requirements) && target == old(target)
        else requirements == old(requirements)[..k] + old(requirements)[k + 1..] &&
             Aggregate(class_, requirements, target)
      ensures Changes(class_, old(requirements), DoRemove(name), requirements)
    {
      hide Changes;
      StepChanges(class_, requirements, name, 0);
      var k := 0;
      while k < |requirements|
        invariant k <= |requirements| && requirements == old(requirements) && target == old(target)
        invariant forall i :: 0 <= i < k ==> requirements[i].name != name
      {
        if requirements[k].name == name {
          requirements := requirements[..k] + requirements[k + 1..];
          var _, _ := UpdateTarget();
          return;
        }
        k := k + 1;
      }
    }
  }

  lemma AggregateMore(c: Class, reqs: seq<Requirement>, r: Requirement, v: int)
    requires Aggregate(c, reqs, v)
    ensures Aggregate(c, reqs + [r], c.Compare(v, r.value))
  {
    assert r in reqs + [r];
    if v != c.defaultValue {
      var q :| q in reqs && q.value == v;
      assert q in reqs + [r];
    }
  }

  // ---------------------------------------------------------------- the calls, interleaved

  /**
   * Any number of threads inside the calls. The lock is dropped between the change to the list and
   * update_target, and again before the notifier chain is called, so these are three atomic steps:
   * `changed` counts the threads between the first two, `telling` holds the news of those before the third.
   * `changes` and `news` record the values target took and the values the watchers were told, in order.
   */
  datatype State = State(reqs: seq<Requirement>, target: int, changed: nat, telling: seq<int>,
                         changes: seq<int>, news: seq<int>)

  datatype Step =
    | DoAdd(name: string, value: int)
    | DoUpdate(name: string, value: int)
    | DoRemove(name: string)
    | DoTarget(v: int)
    | DoTell(k: nat)

  /** A thread recomputes the target with the value that the list then has. */
  ghost predicate Enabled(c: Class, s: State, step: Step) {
    match step
    case DoTarget(v) => s.changed > 0 && Aggregate(c, s.reqs, v)
    case DoTell(k) => k < |s.telling|
    case _ => true
  }

  function Next(c: Class, s: State, step: Step): State
    requires step.DoTarget? ==> s.changed > 0
    requires step.DoTell? ==> step.k < |s.telling|
  {
    match step
    case DoAdd(name, value) =>
      s.(reqs := [Requirement(name, c.Asked(value))] + s.reqs, changed := s.changed + 1)
    case DoUpdate(name, value) =>
      var k := Find(s.reqs, name);
      if k == |s.reqs| then s
      else s.(reqs := s.reqs[k := Requirement(name, c.Asked(value))], changed := s.changed + 1)
    case DoRemove(name) =>
      var k := Find(s.reqs, name);
      if k == |s.reqs| then s
      else s.(reqs := s.reqs[..k] + s.reqs[k + 1..], changed := s.changed + 1)
    case DoTarget(v) =>
      if s.target == v then s.(changed := s.changed - 1)
      else s.(target := v, changed := s.changed - 1, telling := s.telling + [v], changes := s.changes + [v])
    case DoTell(k) =>
      s.(telling := s.telling[..k] + s.telling[k + 1..], news := s.news + [s.telling[k]])
  }

  /** The step takes the list reqs to after, and promises an update of the target iff the name was on the list
      or is now. It changes nothing else. */
  ghost predicate Changes(c: Class, reqs: seq<Requirement>, step: Step, after: seq<Requirement>)
    requires !step.DoTarget? && !step.DoTell?
  {
    forall target: int, changed: nat, telling: seq<int> ::
      Next(c, State(reqs, target, changed, telling, [], []), step) ==
      State(after, target, changed + if step.DoAdd? || Find(reqs, step.name) < |reqs| then 1 else 0, telling, [], [])
  }

  lemma StepChanges(c: Class, reqs: seq<Requirement>, name: string, value: int)
    ensures var k := Find(reqs, name);
      && Changes(c, reqs, DoAdd(name, value), [Requirement(name, c.Asked(value))] + reqs)
      && Changes(c, reqs, DoUpdate(name, value),
                 if k == |reqs| then reqs else reqs[k := Requirement(name, c.Asked(value))])
      && Changes(c, reqs, DoRemove(name), if k == |reqs| then reqs else reqs[..k] + reqs[k + 1..])
  {}

  function Start(c: Class): State {
    State([], c.defaultValue, 0, [], [], [])
  }

  ghost predicate Legal(c: Class, s: State, steps: seq<Step>)
    decreases |steps|
  {
    steps == [] || (Enabled(c, s, steps[0]) && Legal(c, Next(c, s, steps[0]), steps[1..]))
  }

  ghost function Run(c: Class, s: State, steps: seq<Step>): State
    requires Legal(c, s, steps)
    decreases |steps|
  {
    if steps == [] then s else Run(c, Next(c, s, steps[0]), steps[1..])
  }

  /** From the first value on, each value differs from the one before. */
  ghost predicate AllChanges(first: int, changes: seq<int>) {
    var all := [first] + changes;
    forall i :: 0 <= i < |changes| ==> all[i] != all[i + 1]
  }

  ghost predicate Inv(c: Class, s: State) {
    && (s.changed == 0 ==> Aggregate(c, s.reqs, s.target))
    && s.target == ([c.defaultValue] + s.changes)[|s.changes|]
    && AllChanges(c.defaultValue, s.changes)
    && multiset(s.news) + multiset(s.telling) == multiset(s.changes)
  }

  lemma StepKeeps(c: Class, s: State, step: Step)
    requires Inv(c, s) && Enabled(c, s, step)
    ensures Inv(c, Next(c, s, step))
  {
    hide Aggregate, AllChanges;
    match step
    case DoTell(k) => Pick(s.telling, k);
    case DoTarget(v) => OneMoreChange(c.defaultValue, s, v);
    case _ =>
  }

  lemma OneMoreChange(first: int, s: State, v: int)
    requires AllChanges(first, s.changes) && s.target == ([first] + s.changes)[|s.changes|]
    ensures s.target != v ==> AllChanges(first, s.changes + [v])
    ensures ([first] + (s.changes + [v]))[|s.changes| + 1] == v
    ensures multiset(s.telling + [v]) == multiset(s.telling) + multiset{v}
    ensures multiset(s.changes + [v]) == multiset(s.changes) + multiset{v}
  {
    assert [first] + (s.changes + [v]) == [first] + s.changes + [v];
  }

  lemma Pick(l: seq<int>, k: nat)
    requires k < |l|
    ensures multiset(l) == multiset(l[..k] + l[k + 1..]) + multiset{l[k]}
  {
    assert l == l[..k] + [l[k]] + l[k + 1..];
  }

  lemma {:induction false} RunKeeps(c: Class, s: State, steps: seq<Step>)
    requires Inv(c, s) && Legal(c, s, steps)
    ensures Inv(c, Run(c, s, steps))
    decreases |steps|
  {
    hide Inv, Next;
    if steps != [] {
      StepKeeps(c, s, steps[0]);
      RunKeeps(c, Next(c, s, steps[0]), steps[1..]);
    }
  }

  /** From every reachable state the threads inside the calls can finish: all updates made, all news told. */
  lemma {:induction false} CallsFinish(c: Class, s: State) returns (steps: seq<Step>)
    requires Inv(c, s)
    ensures Legal(c, s, steps) && (forall i :: 0 <= i < |steps| ==> steps[i].DoTarget? || steps[i].DoTell?)
    ensures var t := Run(c, s, steps);
      t.reqs == s.reqs && t.changed == 0 && t.telling == [] && Aggregate(c, t.reqs, t.target)
    decreases s.changed, |s.telling|
  {
    if s.changed > 0 {
      var v := SomeAggregate(c, s.reqs);
      StepKeeps(c, s, DoTarget(v));
      var rest := CallsFinish(c, Next(c, s, DoTarget(v)));
      steps := [DoTarget(v)] + rest;
    } else if s.telling != [] {
      StepKeeps(c, s, DoTell(0));
      var rest := CallsFinish(c, Next(c, s, DoTell(0)));
      steps := [DoTell(0)] + rest;
    } else {
      steps := [];
    }
  }

  lemma {:induction false} SomeAggregate(c: Class, reqs: seq<Requirement>) returns (v: int)
    ensures Aggregate(c, reqs, v)
    decreases |reqs|
  {
    if reqs == [] {
      v := c.defaultValue;
    } else {
      var n := |reqs| - 1;
      var w := SomeAggregate(c, reqs[..n]);
      AggregateMore(c, reqs[..n], reqs[n], w);
      v := c.Compare(w, reqs[n].value);
      assert reqs == reqs[..n] + [reqs[n]];
    }
  }

  /** Whenever no thread is between its change and its update, the target is the aggregate of the list. */
  lemma TargetIsAggregate(c: Class, steps: seq<Step>)
    requires Legal(c, Start(c), steps) && Run(c, Start(c), steps).changed == 0
    ensures var s := Run(c, Start(c), steps); Aggregate(c, s.reqs, s.target)
  {
    RunKeeps(c, Start(c), steps);
  }

  /** Once all threads are done, every change of the target was told once, and nothing else was. */
  lemma EveryChangeTold(c: Class, steps: seq<Step>)
    requires Legal(c, Start(c), steps) && Run(c, Start(c), steps).telling == []
    ensures var s := Run(c, Start(c), steps); multiset(s.news) == multiset(s.changes)
  {
    RunKeeps(c, Start(c), steps);
  }

  /** What the watchers heard last; before any news they know the default. */
  function LastHeard(c: Class, s: State): int {
    ([c.defaultValue] + s.news)[|s.news|]
  }

  /** The outstanding news told in some order, with no call in between. */
  ghost predicate Tellings(c: Class, s: State, steps: seq<Step>) {
    Legal(c, s, steps) && |steps| == |s.telling| && forall i :: 0 <= i < |steps| ==> steps[i].DoTell?
  }

  /** Nothing else than the target is outstanding; or nothing is, and the target was heard last. */
  predicate Settled(c: Class, s: State) {
    if s.telling == [] then LastHeard(c, s) == s.target
    else forall i :: 0 <= i < |s.telling| ==> s.telling[i] == s.target
  }

  lemma {:induction false} SettledEnds(c: Class, s: State, steps: seq<Step>)
    requires Tellings(c, s, steps) && Settled(c, s)
    ensures var t := Run(c, s, steps); t.telling == [] && LastHeard(c, t) == s.target == t.target
    decreases |steps|
  {
    if steps != [] {
      assert Enabled(c, s, steps[0]) && steps[0].DoTell?;
      SettledEnds(c, Next(c, s, steps[0]), steps[1..]);
    }
  }

  /** Any outstanding news can be the last to be told. */
  lemma {:induction false} ToldLast(c: Class, s: State, i: nat) returns (steps: seq<Step>)
    requires i < |s.telling|
    ensures Tellings(c, s, steps) && LastHeard(c, Run(c, s, steps)) == s.telling[i]
    decreases |s.telling|
  {
    var k := if |s.telling| == 1 || i > 0 then 0 else 1;
    var t := Next(c, s, DoTell(k));
    if |s.telling| == 1 {
      RunOf(c, t);
      Prepend(c, s, DoTell(0), []);
      steps := [DoTell(0)] + [];
    } else {
      var rest := ToldLast(c, t, if k < i then i - 1 else i);
      Prepend(c, s, DoTell(k), rest);
      steps := [DoTell(k)] + rest;
    }
  }

  /** In every reachable state in which no thread has changed the list without updating the target: however
      the outstanding news are told, the watchers end up with the target, iff the state is settled. */
  lemma WatchersEndWithTarget(c: Class, before: seq<Step>)
    requires Legal(c, Start(c), before) && Run(c, Start(c), before).changed == 0
    ensures var s := Run(c, Start(c), before);
      && Aggregate(c, s.reqs, s.target)
      && ((forall steps :: Tellings(c, s, steps) ==> LastHeard(c, Run(c, s, steps)) == s.target) <==> Settled(c, s))
  {
    hide Legal, Aggregate;
    TargetIsAggregate(c, before);
    var s := Run(c, Start(c), before);
    SettledExactly(c, s);
  }

  lemma SettledExactly(c: Class, s: State)
    ensures (forall steps :: Tellings(c, s, steps) ==> LastHeard(c, Run(c, s, steps)) == s.target) <==> Settled(c, s)
  {
    if Settled(c, s) {
      forall steps | Tellings(c, s, steps) ensures LastHeard(c, Run(c, s, steps)) == s.target {
        SettledEnds(c, s, steps);
      }
    } else if s.telling == [] {
      assert Tellings(c, s, []) && Run(c, s, []) == s;
    } else {
      var i :| 0 <= i < |s.telling| && s.telling[i] != s.target;
      var steps := ToldLast(c, s, i);
      assert Tellings(c, s, steps);
    }
  }

  predicate FirstUntold(s: State, k: nat) {
    k < |s.telling| && |s.news| < |s.changes| && s.telling[k] == s.changes[|s.news|]
  }

  /** Every news of the run is, when it is told, the first change not told yet. */
  ghost predicate InTurn(c: Class, s: State, steps: seq<Step>)
    requires Legal(c, s, steps)
    decreases |steps|
  {
    steps == [] ||
    ((steps[0].DoTell? ==> FirstUntold(s, steps[0].k)) &&
     InTurn(c, Next(c, s, steps[0]), steps[1..]))
  }

  lemma {:induction false} HistoriesGrow(c: Class, s: State, steps: seq<Step>)
    requires Legal(c, s, steps)
    ensures s.news <= Run(c, s, steps).news && s.changes <= Run(c, s, steps).changes
    decreases |steps|
  {
    if steps != [] {
      var t := Next(c, s, steps[0]);
      assert s.news <= t.news && s.changes <= t.changes;
      HistoriesGrow(c, t, steps[1..]);
    }
  }

  /** Over every run the watchers hear the changes in their order iff each is told in its turn. */
  lemma {:induction false} OrderedTelling(c: Class, s: State, steps: seq<Step>)
    requires Legal(c, s, steps) && Inv(c, s) && s.news <= s.changes
    ensures Run(c, s, steps).news <= Run(c, s, steps).changes <==> InTurn(c, s, steps)
    decreases |steps|
  {
    if steps != [] {
      hide Inv, Aggregate, FirstUntold;
      var t := Next(c, s, steps[0]);
      StepKeeps(c, s, steps[0]);
      if steps[0].DoTell? && !FirstUntold(s, steps[0].k) {
        OutOfTurn(c, s, steps[0].k, steps[1..]);
      } else {
        InTurnStep(c, s, steps[0]);
        OrderedTelling(c, t, steps[1..]);
      }
    }
  }

  lemma InTurnStep(c: Class, s: State, step: Step)
    requires Enabled(c, s, step) && s.news <= s.changes && (step.DoTell? ==> FirstUntold(s, step.k))
    ensures Next(c, s, step).news <= Next(c, s, step).changes
  {}

  lemma OutOfTurn(c: Class, s: State, k: nat, steps: seq<Step>)
    requires Inv(c, s) && k < |s.telling| && !FirstUntold(s, k) && Legal(c, Next(c, s, DoTell(k)), steps)
    ensures var t := Run(c, Next(c, s, DoTell(k)), steps); !(t.news <= t.changes)
  {
    hide Aggregate;
    var t, n := Next(c, s, DoTell(k)), |s.news|;
    MoreToTell(c, s, k);
    HistoriesGrow(c, t, steps);
    var end := Run(c, t, steps);
    assert end.news[n] == t.news[n] == s.telling[k] && end.changes[n] == s.changes[n];
  }

  lemma MoreToTell(c: Class, s: State, k: nat)
    requires Inv(c, s) && k < |s.telling|
    ensures |s.news| < |s.changes|
  {
    assert |multiset(s.news) + multiset(s.telling)| == |s.news| + |s.telling|;
    assert |multiset(s.changes)| == |s.changes|;
  }

  /** If news is always told oldest first, watchers hear the changes in order and last of all the target. */
  lemma {:induction false} OldestFirst(c: Class, s: State, steps: seq<Step>)
    requires Legal(c, s, steps) && s.news + s.telling == s.changes
    requires forall i :: 0 <= i < |steps| && steps[i].DoTell? ==> steps[i].k == 0
    ensures var s' := Run(c, s, steps); s'.news + s'.telling == s'.changes
    decreases |steps|
  {
    if steps != [] {
      var one := Next(c, s, steps[0]);
      assert one.news + one.telling == one.changes;
      OldestFirst(c, one, steps[1..]);
    }
  }

  /**
   * Otherwise the watchers can be left with old news for good: two threads raise the target to 5 and then 7,
   * and the notifier calls happen the other way round.
   */
  lemma LastNewsCanBeOld()
    ensures exists steps ::
      && Legal(Class(0, true), Start(Class(0, true)), steps)
      && var s := Run(Class(0, true), Start(Class(0, true)), steps);
        s.changed == 0 && s.telling == [] && s.target == 7 && s.news == [7, 5]
  {
    hide Aggregate, Next, Enabled, Legal, Run;
    var c, ra, rb := Class(0, true), Requirement("a", 5), Requirement("b", 7);
    var s1, s2 := State([ra], 0, 1, [], [], []), State([ra], 5, 0, [5], [5], []);
    var s3, s4 := State([rb, ra], 5, 1, [5], [5], []), State([rb, ra], 7, 0, [5, 7], [5, 7], []);
    var s5, s6 := State([rb, ra], 7, 0, [5], [5, 7], [7]), State([rb, ra], 7, 0, [], [5, 7], [7, 5]);
    FirstRaise(c, ra, s1, s2);
    SecondRaise(c, ra, rb, s2, s3, s4);
    TwoTellings(c, s4, s5, s6);
    RunOf(c, s6);
    Prepend(c, s5, DoTell(0), []);
    var t5 := [DoTell(0)] + [];
    Prepend(c, s4, DoTell(1), t5);
    var t4 := [DoTell(1)] + t5;
    Prepend(c, s3, DoTarget(7), t4);
    var t3 := [DoTarget(7)] + t4;
    Prepend(c, s2, DoAdd("b", 7), t3);
    var t2 := [DoAdd("b", 7)] + t3;
    Prepend(c, s1, DoTarget(5), t2);
    Prepend(c, Start(c), DoAdd("a", 5), [DoTarget(5)] + t2);
  }

  lemma FirstRaise(c: Class, ra: Requirement, s1: State, s2: State)
    requires c == Class(0, true) && ra == Requirement("a", 5)
    requires s1 == State([ra], 0, 1, [], [], []) && s2 == State([ra], 5, 0, [5], [5], [])
    ensures Enabled(c, Start(c), DoAdd("a", 5)) && Next(c, Start(c), DoAdd("a", 5)) == s1
    ensures Enabled(c, s1, DoTarget(5)) && Next(c, s1, DoTarget(5)) == s2
  {
    assert ra in s1.reqs;
  }

  lemma SecondRaise(c: Class, ra: Requirement, rb: Requirement, s2: State, s3: State, s4: State)
    requires c == Class(0, true) && ra == Requirement("a", 5) && rb == Requirement("b", 7)
    requires s2 == State([ra], 5, 0, [5], [5], []) && s3 == State([rb, ra], 5, 1, [5], [5], [])
    requires s4 == State([rb, ra], 7, 0, [5, 7], [5, 7], [])
    ensures Enabled(c, s2, DoAdd("b", 7)) && Next(c, s2, DoAdd("b", 7)) == s3
    ensures Enabled(c, s3, DoTarget(7)) && Next(c, s3, DoTarget(7)) == s4
  {
    assert rb in s3.reqs;
  }

  lemma TwoTellings(c: Class, s4: State, s5: State, s6: State)
    requires s4.telling == [5, 7] && s4.news == []
    requires s5 == s4.(telling := [5], news := [7]) && s6 == s5.(telling := [], news := [7, 5])
    ensures Enabled(c, s4, DoTell(1)) && Next(c, s4, DoTell(1)) == s5
    ensures Enabled(c, s5, DoTell(0)) && Next(c, s5, DoTell(0)) == s6
  {}

  lemma RunOf(c: Class, s: State)
    ensures Legal(c, s, []) && Run(c, s, []) == s
  {}

  lemma Prepend(c: Class, s: State, step: Step, steps: seq<Step>)
    requires Enabled(c, s, step) && Legal(c, Next(c, s, step), steps)
    ensures Legal(c, s, [step] + steps) && Run(c, s, [step] + steps) == Run(c, Next(c, s, step), steps)
  {
    assert ([step] + steps)[1..] == steps;
  }
}
