/** The fixed-point reciprocal square root of CoDel (include/net/codel.h:193-228).
    Every machine operation is written with the width it has in C, so that the lemmas
    below can say that no width is ever exceeded in a reachable state. */
module Newton {
  import opened Words

  /** One step of codel_Newton_step on the 16-bit estimate r of 1/sqrt(count). */
  function NewtonStep(count: u32, r: u16): u16 {
    var invsqrt := r * TWO16;
    var invsqrt2 := invsqrt * invsqrt / TWO32 % TWO32;
    var val := (3 * TWO32 - count * invsqrt2) % TWO64;
    var quarter := val / 4;
    var product := quarter * invsqrt % TWO64 / TWO31;
    product / TWO16 % TWO16
  }

  /** codel_control_law: reciprocal_divide multiplies and keeps the upper word. */
  function Gap(interval: u32, r: u16): u32 {
    interval * (r * TWO16) / TWO32 % TWO32
  }

  function ControlLaw(t: u32, interval: u32, r: u16): u32 {
    (t + Gap(interval, r)) % TWO32
  }

  /** The estimate is never above the true reciprocal root. */
  predicate Under(count: int, r: int) {
    count * (r * r) <= TWO32
  }

  /** The step in plain arithmetic, without any machine width. */
  function IdealStep(count: int, r: int): int {
    (3 * TWO32 - count * (r * r)) / 4 * r / TWO31
  }

  /** The step is Newton's for the reciprocal root, r (3 - count r^2) / 2 with r a fraction of 2^16, but for rounding:
      it is below that by less than one unit of r and a 2^15-th. */
  lemma IdealIsNewton(count: int, r: u16)
    requires 0 <= count * (r * r) <= 3 * TWO32
    ensures var exact := (3 * TWO32 - count * (r * r)) * r;
      0 <= exact - 2 * TWO32 * IdealStep(count, r) < 2 * TWO32 + 4 * r
  {
    var t := 3 * TWO32 - count * (r * r);
    var q := t / 4;
    assert t == 4 * q + t % 4;
    assert t * r == 4 * (q * r) + t % 4 * r;
    assert 0 <= t % 4 * r <= 3 * r;
  }

  lemma SquareShift(r: u16)
    ensures (r * TWO16) * (r * TWO16) / TWO32 % TWO32 == r * r
  {
    var s := r * r;
    assert (r * TWO16) * (r * TWO16) == s * TWO32;
    assert s * TWO32 / TWO32 == s;
    SquareBelow(r, TWO16);
  }

  lemma SquareBelow(a: int, b: int)
    requires 0 <= a < b
    ensures 0 <= a * a < b * b
  {
    assert a * a <= a * b;
    assert a * b < b * b;
  }

  lemma MulMono(a: int, b: int, c: int)
    requires a <= b && 0 <= c
    ensures a * c <= b * c
  {}

  lemma FloorMul(a: int, r: int)
    requires 0 <= a && 0 <= r
    ensures 0 <= a / 4 * r / TWO31
    ensures 4 * TWO31 * (a / 4 * r / TWO31) <= a * r
  {
    var q := a / 4;
    var p := q * r;
    assert 0 <= p by { MulMono(0, q, r); }
    assert 4 * q * r <= a * r by { MulMono(4 * q, a, r); }
    assert TWO31 * (p / TWO31) <= p;
  }

  lemma MulCancel(x: int, y: int, k: int)
    requires k > 0 && k * x <= k * y
    ensures x <= y
  {
    if x > y { MulMono(y + 1, x, k); }
  }

  /** With a = W - n: n(3W-n)^2 = (W-a)(2W+a)^2 = 4W^3 - a^2(3W+a). */
  lemma CubicIdentity(W: int, a: int)
    ensures (W - a) * ((2 * W + a) * (2 * W + a)) == 4 * (W * (W * W)) - a * a * (3 * W + a)
  {}

  lemma CubicBound(W: int, n: int)
    requires 0 <= n <= 4 * W
    ensures n * ((3 * W - n) * (3 * W - n)) <= 4 * (W * (W * W))
  {
    var a := W - n;
    assert 3 * W - n == 2 * W + a && n == W - a;
    CubicIdentity(W, a);
    MulMono(0, 3 * W + a, a * a);
  }

  lemma SquareMono(a: int, b: int)
    requires 0 <= a <= b
    ensures a * a <= b * b
  {}

  lemma SquareOfProduct(a: int, b: int)
    ensures (a * b) * (a * b) == (a * a) * (b * b)
  {}

  lemma Assoc(a: int, b: int, c: int)
    ensures a * b * c == a * (b * c)
    ensures a * (b * c) == b * (a * c)
  {}

  /** From 2W r' <= (3W - c r^2) r conclude c r'^2 <= W. */
  lemma NewtonAlgebra(W: int, c: int, r: int, r': int)
    requires W > 0 && c >= 0 && r >= 0 && r' >= 0
    requires c * (r * r) <= 3 * W
    requires 2 * W * r' <= (3 * W - c * (r * r)) * r
    ensures c * (r' * r') <= W
  {
    var s, s', n := r * r, r' * r', c * (r * r);
    var k := 3 * W - n;
    MulMono(0, 2 * W, r');
    SquareMono(2 * W * r', k * r);
    SquareOfProduct(2 * W, r');
    SquareOfProduct(k, r);
    assert 2 * W * (2 * W) * s' <= k * k * s;
    MulMono(2 * W * (2 * W) * s', k * k * s, c);
    Assoc(2 * W * (2 * W), s', c);
    Assoc(k * k, s, c);
    assert 2 * W * (2 * W) * (s' * c) <= k * k * (s * c);
    assert s * c == n && s' * c == c * s';
    MulMono(0, s, c);
    CubicBound(W, n);
    Finish(W, c * s', k * k * n);
  }

  lemma Finish(W: int, L: int, rhs: int)
    requires W > 0 && 2 * W * (2 * W) * L <= rhs <= 4 * (W * (W * W))
    ensures L <= W
  {
    var f := 2 * W * (2 * W);
    assert f == 4 * (W * W);
    assert W * W > 0;
    assert 4 * (W * (W * W)) == f * W;
    MulCancel(L, W, f);
  }

  /** As long as count*r^2 is at most 3*2^32 the step lands under the root. */
  lemma IdealLandsUnder(count: int, r: int)
    requires count >= 0 && r >= 0 && count * (r * r) <= 3 * TWO32
    ensures IdealStep(count, r) >= 0
    ensures Under(count, IdealStep(count, r))
  {
    var V := 3 * TWO32 - count * (r * r);
    FloorMul(V, r);
    NewtonAlgebra(TWO32, count, r, IdealStep(count, r));
  }

  /** From below the step never moves down. */
  lemma IdealNeverDown(count: int, r: int)
    requires count >= 0 && r >= 0 && Under(count, r)
    ensures IdealStep(count, r) >= r
  {
    var quarter := (3 * TWO32 - count * (r * r)) / 4;
    assert quarter >= TWO31;
    MulMono(TWO31, quarter, r);
    assert TWO31 * r / TWO31 == r;
  }

  lemma UnderBound(count: int, r: int)
    requires count >= 1 && r >= 0 && Under(count, r)
    ensures r <= TWO16
    ensures count >= 2 ==> r < TWO16
    ensures count >= TWO32 - 1 ==> r <= 1
  {
    var s := r * r;
    if r > TWO16 { SquareMono(TWO16 + 1, r); MulMono(1, count, s); }
    if count >= 2 && r == TWO16 { MulMono(2, count, s); }
    if count >= TWO32 - 1 && r >= 2 {
      SquareMono(2, r);
      MulMono(TWO32 - 1, count, s);
    }
  }

  /** The result fits sixteen bits. */
  lemma IdealFits(count: int, r: u16)
    requires count >= 1 && count * (r * r) <= 3 * TWO32
    ensures IdealStep(count, r) < TWO16
  {
    IdealLandsUnder(count, r);
    var r' := IdealStep(count, r);
    UnderBound(count, r');
    if count == 1 && r' == TWO16 {
      // r' = 2^16 would need 2^49 <= (3*2^32 - r^2) r, impossible for r < 2^16
      var V := 3 * TWO32 - r * r;
      FloorMul(V, r);
      CubicStrict(r);
      assert false;
    }
  }

  /** 2^49 - 3*2^32*r + r^3 = (2^16 - r)^2 (2^17 + r) > 0 below 2^16. */
  lemma CubicStrict(r: u16)
    ensures (3 * TWO32 - r * r) * r < 2 * TWO32 * TWO16
  {
    var e := TWO16 - r;
    var d := e * e;
    assert d >= 1 by { SquareMono(1, e); }
    MulMono(1, d, 2 * TWO16 + r);
    assert d * (2 * TWO16 + r) == 2 * TWO32 * TWO16 - (3 * TWO32 - r * r) * r;
  }

  /** Exactness: while count*r^2 <= 3*2^32 the machine computes the ideal step: the 64-bit
      subtraction does not underflow, the product does not overflow, the 16-bit store does
      not truncate. */
  lemma MachineStepIsIdeal(count: u32, r: u16)
    requires count * (r * r) <= 3 * TWO32
    requires count >= 1 || r <= 1
    ensures NewtonStep(count, r) == IdealStep(count, r)
  {
    Unfolded(count, r);
    hide NewtonStep;
    IdealInRange(count, r);
    Narrow(3 * TWO32 - count * (r * r), r);
  }

  lemma IdealInRange(count: u32, r: u16)
    requires count * (r * r) <= 3 * TWO32
    requires count >= 1 || r <= 1
    ensures 0 <= 3 * TWO32 - count * (r * r) <= 3 * TWO32
    ensures IdealStep(count, r) < TWO16
  {
    MulMono(0, r * r, count);
    if count >= 1 { IdealFits(count, r); } else { assert count * (r * r) == 0; }
  }

  lemma Narrow(V: int, r: u16)
    requires 0 <= V <= 3 * TWO32
    requires V / 4 * r / TWO31 < TWO16
    ensures V % TWO64 / 4 * (r * TWO16) % TWO64 / TWO31 / TWO16 % TWO16 == V / 4 * r / TWO31
  {
    SmallMod(V, TWO64);
    Tail(V / 4, r);
    SmallMod(V / 4 * r / TWO31, TWO16);
  }

  lemma SmallMod(x: int, m: int)
    requires 0 <= x < m
    ensures x % m == x
  {}

  lemma Unfolded(count: u32, r: u16)
    ensures NewtonStep(count, r)
         == (3 * TWO32 - count * (r * r)) % TWO64 / 4 * (r * TWO16) % TWO64 / TWO31 / TWO16 % TWO16
  {
    SquareShift(r);
  }

  lemma Tail(quarter: int, r: u16)
    requires 0 <= quarter <= 3 * TWO31 / 2
    ensures 0 <= quarter * r / TWO31
    ensures quarter * (r * TWO16) % TWO64 / TWO31 / TWO16 == quarter * r / TWO31
  {
    ProductFits(quarter, r);
    ShiftTogether(quarter * r);
  }

  lemma ProductFits(quarter: int, r: u16)
    requires 0 <= quarter <= 3 * TWO31 / 2
    ensures 0 <= quarter * r
    ensures quarter * (r * TWO16) % TWO64 == quarter * r * TWO16
  {
    var p := quarter * r;
    MulMono(0, quarter, r);
    MulMono(quarter, 3 * TWO31 / 2, r);
    assert quarter * (r * TWO16) == p * TWO16;
    assert p <= 3 * TWO31 / 2 * TWO16;
  }

  lemma ShiftTogether(p: int)
    requires p >= 0
    ensures p * TWO16 / TWO31 / TWO16 == p / TWO31
  {
    var q := p / TWO31;
    var rem := p % TWO31;
    assert p * TWO16 == q * TWO16 * TWO31 + rem * TWO16;
    var t := rem * TWO16 / TWO31;
    assert p * TWO16 / TWO31 == q * TWO16 + t;
    assert 0 <= t < TWO16;
  }

  /** d^2 * count <= interval^2 for every gap d that the control law schedules. */
  lemma GapBound(interval: u32, count: int, r: u16)
    requires count >= 0 && Under(count, r)
    ensures Gap(interval, r) == interval * r / TWO16
    ensures Gap(interval, r) * Gap(interval, r) * count <= interval * interval
  {
    var m := interval * r;
    var d := m / TWO16;
    GapExact(interval, r);
    SquareMono(d * TWO16, m);
    var I, s, D := interval * interval, r * r, d * d;
    assert D * TWO32 <= I * s by {
      assert (d * TWO16) * (d * TWO16) == D * TWO32;
      assert m * m == I * s;
    }
    assert D * TWO32 * count <= I * s * count by { MulMono(D * TWO32, I * s, count); }
    assert I * s * count == I * (count * s);
    assert I * (count * s) <= I * TWO32 by { MulMono(count * s, TWO32, I); }
    var lhs := D * count;
    assert D * TWO32 * count == lhs * TWO32;
  }

  lemma GapExact(interval: u32, r: u16)
    ensures 0 <= interval * r
    ensures Gap(interval, r) == interval * r / TWO16
  {
    var m := interval * r;
    assert interval * (r * TWO16) == m * TWO16;
    MulMono(0, interval, r);
    MulMono(r, TWO16 - 1, interval);
    var d := m / TWO16;
    assert m * TWO16 / TWO32 == d;
  }
}
