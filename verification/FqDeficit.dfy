/** The deficit of a flow as the 32-bit int that it is (compat/sch_fq_codel_core.c:49): quantum
    is unsigned, and adding it wraps around. */
module FqDeficit {
  import opened Words

  /** The deficit after k refills. */
  function Refilled(d: s32, q: u32, k: nat): s32
    decreases k
  {
    if k == 0 then d else Refilled(Signed(d + q), q, k - 1)
  }

  /** How far a deficit is from being positive: upwards, or for a quantum above 2^31, which
      counts as a negative number, downwards and around. */
  function Shortage(d: s32, q: u32): nat {
    if d > 0 then 0
    else if q < TWO31 then 1 - d
    else d + TWO31 + 1
  }

  /** The quanta with which refilling always ends. */
  predicate GoodQuantum(q: u32) { q != 0 && q != TWO31 }

  lemma RefillGains(d: s32, q: u32)
    requires GoodQuantum(q) && d <= 0
    ensures Shortage(Signed(d + q), q) < Shortage(d, q)
  {}

  lemma {:induction false} RefillReaches(d: s32, q: u32) returns (k: nat)
    requires GoodQuantum(q)
    ensures Refilled(d, q, k) > 0
    decreases Shortage(d, q)
  {
    if d > 0 {
      k := 0;
    } else {
      RefillGains(d, q);
      var rest := RefillReaches(Signed(d + q), q);
      k := rest + 1;
    }
  }

  /** Deficits from which no number of refills leads to a positive one. */
  predicate Trapped(d: s32, q: u32) {
    (q == 0 && d <= 0) || (q == TWO31 && (d == 0 || d == -TWO31))
  }

  lemma {:induction false} TrappedStays(d: s32, q: u32, k: nat)
    requires Trapped(d, q)
    ensures Trapped(Refilled(d, q, k), q) && Refilled(d, q, k) <= 0
    decreases k
  {
    if k > 0 { TrappedStays(Signed(d + q), q, k - 1); }
  }

  ghost predicate Ends(d: s32, q: u32) { exists k: nat :: Refilled(d, q, k) > 0 }

  /** Refilling ends from d iff d is not trapped. */
  lemma RefillEnds(d: s32, q: u32)
    ensures Ends(d, q) <==> !Trapped(d, q)
  {
    if Trapped(d, q) {
      forall k: nat ensures Refilled(d, q, k) <= 0 { TrappedStays(d, q, k); }
    } else if d > 0 {
      assert Refilled(d, q, 0) > 0;
    } else if GoodQuantum(q) {
      var k := RefillReaches(d, q);
    } else {
      assert Signed(d + q) > 0;
      assert Refilled(Signed(d + q), q, 0) > 0;
      assert Refilled(d, q, 1) > 0;
    }
  }

  /** It ends from every deficit iff the quantum is neither 0 nor 2^31. */
  lemma RefillEndsAlways(q: u32)
    ensures (forall d: s32 :: Ends(d, q)) <==> GoodQuantum(q)
  {
    forall d: s32 ensures Ends(d, q) <==> !Trapped(d, q) { RefillEnds(d, q); }
    assert Ends(0, q) <==> !Trapped(0, q);
  }

  /** The three assignments to a deficit: to a quantum, by a refill, by a packet. */
  predicate Listing(q: u32) { Signed(q) == q }
  predicate Refilling(d: s32, q: u32) { d <= 0 ==> Signed(d + q) == d + q }
  predicate Charging(d: s32, len: nat) { d > 0 ==> Signed(d - len) == d - len }

  /** None of them wraps as long as quanta are below 2^31 and packets at most 2^31 + 1 bytes. */
  lemma NoWrap(q: u32, len: nat)
    ensures Listing(q) && (forall d: s32 :: Refilling(d, q)) <==> q < TWO31
    ensures (forall d: s32 :: Charging(d, len)) <==> len <= TWO31 + 1
  {
    assert Charging(1, len) ==> len <= TWO31 + 1;
  }
}
