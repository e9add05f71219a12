/** The laws of exclusive or, and carry-less multiplication: polynomials over GF(2). */
module XorLaws {
  import opened Bits

  lemma {:induction false} XorComm(x: nat, y: nat)
    ensures Xor(x, y) == Xor(y, x)
    decreases x + y
  {
    if x != 0 || y != 0 { XorComm(x / 2, y / 2); }
  }

  lemma {:induction false} XorZero(x: nat)
    ensures Xor(x, 0) == x && Xor(0, x) == x
  {
    if x != 0 { XorZero(x / 2); }
  }

  lemma {:induction false} XorSelf(x: nat)
    ensures Xor(x, x) == 0
  {
    if x != 0 { XorSelf(x / 2); }
  }

  lemma {:induction false} XorAssoc(x: nat, y: nat, z: nat)
    ensures Xor(Xor(x, y), z) == Xor(x, Xor(y, z))
    decreases x + y + z
  {
    if x != 0 || y != 0 || z != 0 {
      XorAssoc(x / 2, y / 2, z / 2);
      XorHalf(x, y);
      XorHalf(y, z);
    }
  }

  lemma XorHalf(x: nat, y: nat)
    ensures Xor(x, y) / 2 == Xor(x / 2, y / 2)
    ensures Xor(x, y) % 2 == if x % 2 != y % 2 then 1 else 0
  {}

  /** (a ^ b) ^ (c ^ d) == (a ^ c) ^ (b ^ d). */
  lemma XorSwap(a: nat, b: nat, c: nat, d: nat)
    ensures Xor(Xor(a, b), Xor(c, d)) == Xor(Xor(a, c), Xor(b, d))
  {
    XorAssoc(a, b, Xor(c, d));
    XorAssoc(b, c, d);
    XorComm(b, c);
    XorAssoc(c, b, d);
    XorAssoc(a, c, Xor(b, d));
  }

  /** (x ^ y) ^ y == x. */
  lemma XorCancel(x: nat, y: nat)
    ensures Xor(Xor(x, y), y) == x
  {
    XorAssoc(x, y, y);
    XorSelf(y);
    XorZero(x);
  }

  lemma XorDouble(x: nat, y: nat)
    ensures Xor(2 * x, 2 * y) == 2 * Xor(x, y)
  {
    XorHalf(2 * x, 2 * y);
  }

  /** High and low parts do not mix. */
  lemma {:induction false} XorSplit(a: nat, x: nat, b: nat, y: nat, k: nat)
    requires x < Pow2(k) && y < Pow2(k)
    ensures Xor(x, y) < Pow2(k)
    ensures Xor(a * Pow2(k) + x, b * Pow2(k) + y) == Xor(a, b) * Pow2(k) + Xor(x, y)
  {
    hide Xor;
    if k == 0 {
      XorZero(0);
      assert a * Pow2(0) == a && b * Pow2(0) == b && Xor(a, b) * Pow2(0) == Xor(a, b);
    } else {
      var m := Pow2(k - 1);
      Halves(a, x, m);
      Halves(b, y, m);
      XorSplit(a, x / 2, b, y / 2, k - 1);
      XorParts(a * (2 * m) + x, b * (2 * m) + y);
      XorParts(x, y);
      assert Xor(a, b) * (2 * m) == 2 * (Xor(a, b) * m);
    }
  }

  lemma XorParts(x: nat, y: nat)
    ensures Xor(x, y) == 2 * Xor(x / 2, y / 2) + (if x % 2 != y % 2 then 1 else 0)
  {}

  lemma Halves(a: nat, x: nat, m: nat)
    requires m >= 1 && x < 2 * m
    ensures (a * (2 * m) + x) / 2 == a * m + x / 2 && (a * (2 * m) + x) % 2 == x % 2
    ensures x / 2 < m
  {
    assert a * (2 * m) == 2 * (a * m);
  }

  lemma XorBound(x: nat, y: nat, k: nat)
    requires x < Pow2(k) && y < Pow2(k)
    ensures Xor(x, y) < Pow2(k)
  {
    hide Xor, Pow2;
    XorSplit(0, x, 0, y, k);
  }

  /** Numbers without common bits add. */
  lemma XorDisjoint(a: nat, x: nat, k: nat)
    requires x < Pow2(k)
    ensures Xor(a * Pow2(k), x) == a * Pow2(k) + x
  {
    hide Xor, Pow2;
    XorSplit(a, 0, 0, x, k);
    XorZero(a);
    XorZero(x);
  }

  /** Complementing k bits is exclusive or with ones. */
  lemma {:induction false} XorComplement(x: nat, k: nat)
    requires x < Pow2(k)
    ensures Xor(x, Pow2(k) - 1 - x) == Pow2(k) - 1
  {
    if k > 0 {
      XorComplement(x / 2, k - 1);
      XorHalf(x, Pow2(k) - 1 - x);
      assert (Pow2(k) - 1 - x) / 2 == Pow2(k - 1) - 1 - x / 2;
    }
  }

  // ---------------------------------------------------------------- carry-less products

  function ClMul(q: nat, g: nat): nat {
    if q == 0 then 0 else Xor(if q % 2 == 1 then g else 0, 2 * ClMul(q / 2, g))
  }

  lemma {:induction false} ClMulXor(q: nat, r: nat, g: nat)
    ensures ClMul(Xor(q, r), g) == Xor(ClMul(q, g), ClMul(r, g))
    decreases q + r
  {
    XorZero(ClMul(q, g));
    XorZero(ClMul(r, g));
    XorZero(q);
    XorZero(r);
    if q != 0 && r != 0 {
      ClMulXor(q / 2, r / 2, g);
      XorHalf(q, r);
      var a, b := if q % 2 == 1 then g else 0, if r % 2 == 1 then g else 0;
      var x, y := ClMul(q / 2, g), ClMul(r / 2, g);
      XorDouble(x, y);
      XorSwap(a, 2 * x, b, 2 * y);
      XorSelf(g);
      XorZero(g);
      ClMulUnfold(Xor(q, r), g);
    }
  }

  lemma ClMulZero(g: nat)
    ensures ClMul(0, g) == 0
  {}

  lemma ClMulUnfold(q: nat, g: nat)
    ensures ClMul(q, g) == Xor(if q % 2 == 1 then g else 0, 2 * ClMul(q / 2, g))
  {
    if q == 0 { XorZero(0); }
  }

  /** A non-zero multiple of a polynomial of degree k has degree at least k. */
  lemma {:induction false} ClMulDegree(q: nat, g: nat, k: nat)
    requires q >= 1 && Pow2(k) <= g < 2 * Pow2(k)
    ensures ClMul(q, g) >= Pow2(k)
  {
    hide ClMul, Xor;
    var rest := ClMul(q / 2, g);
    var low := if q % 2 == 1 then g else 0;
    ClMulUnfold(q, g);
    if q == 1 {
      ClMulZero(g);
      XorZero(g);
    } else {
      ClMulDegree(q / 2, g, k);
      HighBitStays(low, 2 * rest, k + 1);
    }
  }

  /** A number above 2^k stays above it when lower bits are changed. */
  lemma HighBitStays(low: nat, y: nat, k: nat)
    requires low < Pow2(k) <= y
    ensures Xor(low, y) >= Pow2(k)
  {
    hide Xor, Pow2;
    var m := Pow2(k);
    var h := y / m;
    HighPart(y, m);
    XorSplit(0, low, h, y % m, k);
    XorZero(h);
  }

  lemma HighPart(y: nat, m: nat)
    requires 0 < m <= y
    ensures y / m >= 1 && y == y / m * m + y % m && y / m * m >= m
  {}

  /** Remainders below the degree are unique. */
  lemma RemainderUnique(q: nat, r: nat, q': nat, r': nat, g: nat, k: nat)
    requires Pow2(k) <= g < 2 * Pow2(k) && r < Pow2(k) && r' < Pow2(k)
    requires Xor(ClMul(q, g), r) == Xor(ClMul(q', g), r')
    ensures r == r'
  {
    var a, b := ClMul(q, g), ClMul(q', g);
    XorSwap(a, r, b, r');
    XorSelf(Xor(a, r));
    ClMulXor(q, q', g);
    var d := Xor(a, b);
    XorBound(r, r', k);
    assert Xor(d, Xor(r, r')) == 0;
    XorCancel(d, Xor(r, r'));
    XorZero(Xor(r, r'));
    if Xor(q, q') >= 1 { ClMulDegree(Xor(q, q'), g, k); }
    assert Xor(r, r') == 0;
    XorCancel(r, r');
    XorZero(r');
  }
}
