/** Bitwise operations on naturals, bit by bit. */
module Bits {
  function Pow2(k: nat): (p: nat)
    ensures p >= 1
  {
    if k == 0 then 1 else 2 * Pow2(k - 1)
  }

  /** Bit `k` of `n`. */
  function Bit(n: nat, k: nat): (b: nat)
    ensures b <= 1
    decreases k
  {
    if k == 0 then n % 2 else Bit(n / 2, k - 1)
  }

  function And(a: nat, b: nat): nat
    decreases a, b
  {
    if a == 0 then 0 else (if a % 2 == 1 && b % 2 == 1 then 1 else 0) + 2 * And(a / 2, b / 2)
  }

  function Or(a: nat, b: nat): nat
    decreases a + b
  {
    if a == 0 && b == 0 then 0 else (if a % 2 == 1 || b % 2 == 1 then 1 else 0) + 2 * Or(a / 2, b / 2)
  }

  lemma ZeroHasNoBits(k: nat)
    ensures Bit(0, k) == 0
  {
  }

  lemma {:induction false} AndBits(a: nat, b: nat, k: nat)
    ensures Bit(And(a, b), k) == if Bit(a, k) == 1 && Bit(b, k) == 1 then 1 else 0
    decreases k
  {
    ZeroHasNoBits(k);
    if k > 0 {
      AndBits(a / 2, b / 2, k - 1);
    }
  }

  lemma {:induction false} OrBits(a: nat, b: nat, k: nat)
    ensures Bit(Or(a, b), k) == if Bit(a, k) == 1 || Bit(b, k) == 1 then 1 else 0
    decreases k
  {
    ZeroHasNoBits(k);
    if k > 0 {
      OrBits(a / 2, b / 2, k - 1);
    }
  }

  /** Numbers below two to the `n` with the same first `n` bits are equal. */
  lemma {:induction false} BitsDetermine(a: nat, b: nat, n: nat)
    requires a < Pow2(n) && b < Pow2(n) && forall k: nat :: k < n ==> Bit(a, k) == Bit(b, k)
    ensures a == b
    decreases n
  {
    if n > 0 {
      assert Bit(a, 0) == Bit(b, 0);
      forall k: nat | k < n - 1 ensures Bit(a / 2, k) == Bit(b / 2, k) {
        assert Bit(a, k + 1) == Bit(b, k + 1);
      }
      BitsDetermine(a / 2, b / 2, n - 1);
    }
  }

  lemma {:induction false} AndBound(a: nat, b: nat, n: nat)
    requires a < Pow2(n)
    ensures And(a, b) < Pow2(n)
    decreases n
  {
    if n > 0 && a > 0 {
      AndBound(a / 2, b / 2, n - 1);
    }
  }

  lemma {:induction false} OrBound(a: nat, b: nat, n: nat)
    requires a < Pow2(n) && b < Pow2(n)
    ensures Or(a, b) < Pow2(n)
    decreases n
  {
    if n > 0 && (a > 0 || b > 0) {
      OrBound(a / 2, b / 2, n - 1);
    }
  }

  lemma AndEven(a: nat, b: nat)
    ensures And(a, 2 * b) == 2 * And(a / 2, b)
  {
  }

  lemma Pow2Of16()
    ensures Pow2(16) == 0x1_0000
  {
    assert Pow2(2) == 4 && Pow2(4) == 16 && Pow2(6) == 64 && Pow2(8) == 256;
    assert Pow2(10) == 1024 && Pow2(12) == 4096 && Pow2(14) == 16384;
  }

  lemma {:induction false} ShiftedBits(n: nat, j: nat, k: nat)
    ensures Bit(n * Pow2(j), k) == if k < j then 0 else Bit(n, k - j)
    decreases j
  {
    if j > 0 {
      assert n * Pow2(j) == 2 * (n * Pow2(j - 1));
      if k > 0 {
        ShiftedBits(n, j - 1, k - 1);
      }
    }
  }

  function Xor(a: nat, b: nat): nat
    decreases a + b
  {
    if a == 0 && b == 0 then 0 else (if a % 2 != b % 2 then 1 else 0) + 2 * Xor(a / 2, b / 2)
  }

  lemma {:induction false} XorBound(a: nat, b: nat, n: nat)
    requires a < Pow2(n) && b < Pow2(n)
    ensures Xor(a, b) < Pow2(n)
    decreases n
  {
    if n > 0 && (a > 0 || b > 0) {
      XorBound(a / 2, b / 2, n - 1);
    }
  }

  lemma {:induction false} XorBits(a: nat, b: nat, k: nat)
    ensures Bit(Xor(a, b), k) == if Bit(a, k) != Bit(b, k) then 1 else 0
    decreases k
  {
    if a == 0 && b == 0 {
      ZeroHasNoBits(k);
    } else if k > 0 {
      XorBits(a / 2, b / 2, k - 1);
    }
  }

  lemma {:induction false} XorZero(a: nat)
    ensures Xor(a, 0) == a
  {
    if a > 0 {
      XorZero(a / 2);
    }
  }

  /** Only the low `k` bits change when the other word has no higher ones. */
  lemma {:induction false} XorLow(h: nat, k: nat, a: nat, b: nat)
    requires a < Pow2(k) && b < Pow2(k)
    ensures Xor(h * Pow2(k) + a, b) == h * Pow2(k) + Xor(a, b)
    decreases k
  {
    if k == 0 {
      XorZero(h);
    } else {
      var p := Pow2(k - 1);
      assert h * Pow2(k) == 2 * (h * p);
      XorLow(h, k - 1, a / 2, b / 2);
      assert (h * Pow2(k) + a) / 2 == h * p + a / 2 && (h * Pow2(k) + a) % 2 == a % 2;
    }
  }

  // ---------- Masks and shifts as arithmetic ----------

  lemma {:induction false} Pow2Sum(a: nat, b: nat)
    ensures Pow2(a + b) == Pow2(a) * Pow2(b)
    decreases a
  {
    if a > 0 {
      Pow2Sum(a - 1, b);
      assert Pow2(a + b) == 2 * Pow2(a - 1 + b) == 2 * (Pow2(a - 1) * Pow2(b)) == (2 * Pow2(a - 1)) * Pow2(b);
    }
  }

  /** `v` with its low part below `p` dropped. */
  function Quotient(v: nat, p: nat): (q: nat)
    requires p > 0
  {
    v / p
  }

  /** Dividing in two steps. */
  lemma DivDiv(v: nat, a: nat, b: nat)
    requires a > 0 && b > 0
    ensures a * b > 0 && v / a / b == v / (a * b)
  {
    var q, r := v / a, v % a;
    var q2, r2 := q / b, q % b;
    assert v == a * q + r && q == b * q2 + r2;
    QuotientInSteps(v, a, b, q, r, q2, r2);
  }

  lemma QuotientInSteps(v: nat, a: nat, b: nat, q: nat, r: nat, q2: nat, r2: nat)
    requires v == a * q + r && r < a && q == b * q2 + r2 && r2 < b
    ensures a * b > 0 && v / (a * b) == q2
  {
    Regroup(a, b, q2, r2);
    RemaindersFit(a, b, r2, r);
    QuotientIs(v, a * b, q2, a * r2 + r);
  }

  lemma Regroup(a: nat, b: nat, q: nat, r: nat)
    ensures a * (b * q + r) == (a * b) * q + a * r
  {
    assert a * (b * q + r) == a * (b * q) + a * r;
    assert a * (b * q) == (a * b) * q;
  }

  lemma RemaindersFit(a: nat, b: nat, r2: nat, r: nat)
    requires r2 < b && r < a
    ensures a * b > 0 && a * r2 + r < a * b
  {
    assert a * (r2 + 1) == a * r2 + a;
    ProductsAscend(a, r2 + 1, b);
  }

  lemma ProductsAscend(d: nat, x: nat, y: nat)
    ensures x <= y ==> d * x <= d * y
  {
  }

  lemma QuotientIs(v: nat, d: nat, q: nat, r: nat)
    requires d > 0 && v == d * q + r && r < d
    ensures v / d == q && v % d == r
  {
    var e: int := v / d - q;
    assert v == d * (v / d) + v % d;
    assert d * e == r - v % d by {
      assert d * (v / d) == d * q + d * e;
    }
    MultiplesAreFar(d, e);
  }

  lemma MultiplesAreFar(d: nat, e: int)
    requires d > 0
    ensures e > 0 ==> d * e >= d
    ensures e < 0 ==> d * e + d <= 0
  {
  }

  lemma AndOdd(a: nat, b: nat)
    ensures And(a, 2 * b + 1) == a % 2 + 2 * And(a / 2, b)
  {
    if a == 0 {
      assert And(a / 2, b) == 0;
    }
  }

  lemma HalfRemainder(a: nat, p: nat)
    requires p > 0
    ensures a % (2 * p) == a % 2 + 2 * (a / 2 % p)
  {
    var half := a / 2;
    var q, r := half / p, half % p;
    assert half == p * q + r;
    assert a == (2 * p) * q + (2 * r + a % 2) by {
      assert 2 * (p * q) == (2 * p) * q;
    }
    QuotientIs(a, 2 * p, q, 2 * r + a % 2);
  }

  /** A mask of the low `k` bits takes the remainder. */
  lemma {:induction false} AndLowMask(a: nat, k: nat)
    ensures And(a, Pow2(k) - 1) == a % Pow2(k)
    decreases k
  {
    if k == 0 {
      AndZero(a);
    } else {
      var p := Pow2(k - 1);
      AndLowMask(a / 2, k - 1);
      AndOdd(a, p - 1);
      HalfRemainder(a, p);
    }
  }

  lemma {:induction false} AndZero(a: nat)
    ensures And(a, 0) == 0
  {
    if a > 0 {
      AndZero(a / 2);
    }
  }

  lemma OrStep(h: nat, low: nat)
    ensures Or(2 * h, low) == low % 2 + 2 * Or(h, low / 2)
  {
  }

  /** Numbers with no bit in common are joined by adding them. */
  lemma {:induction false} OrDisjoint(high: nat, k: nat, low: nat)
    requires low < Pow2(k)
    ensures Or(high * Pow2(k), low) == high * Pow2(k) + low
    decreases k
  {
    if k == 0 {
      OrZero(high);
    } else {
      var h := high * Pow2(k - 1);
      assert high * Pow2(k) == 2 * h;
      OrDisjoint(high, k - 1, low / 2);
      OrStep(h, low);
    }
  }

  lemma {:induction false} OrZero(a: nat)
    ensures Or(a, 0) == a
  {
    if a > 0 {
      OrZero(a / 2);
    }
  }

  lemma AndFullMask(a: nat, n: nat)
    requires a < Pow2(n)
    ensures And(a, Pow2(n) - 1) == a
  {
    AndLowMask(a, n);
    QuotientIs(a, Pow2(n), 0, a);
  }

  /** A mask of all bits of `a` from `k` upwards clears the low bits. */
  lemma {:induction false} AndHighMask(a: nat, n: nat, k: nat, mask: nat)
    requires a < Pow2(n + k) && mask == (Pow2(n) - 1) * Pow2(k)
    ensures And(a, mask) == Quotient(a, Pow2(k)) * Pow2(k)
    decreases k
  {
    if k == 0 {
      AndFullMask(a, n);
      assert mask == Pow2(n) - 1 && Quotient(a, 1) * 1 == a;
    } else {
      var p, c := Pow2(k - 1), Pow2(n) - 1;
      assert Pow2(n + k) == 2 * Pow2(n + (k - 1));
      assert mask == 2 * (c * p) by { assert c * (2 * p) == 2 * (c * p); }
      AndHighMask(a / 2, n, k - 1, c * p);
      AndEven(a, c * p);
      QuotientDoubles(a, p);
    }
  }

  lemma QuotientDoubles(a: nat, p: nat)
    requires p > 0
    ensures Quotient(a, 2 * p) * (2 * p) == 2 * (Quotient(a / 2, p) * p)
  {
    DivDiv(a, 2, p);
    var q := a / 2 / p;
    assert q * (2 * p) == 2 * (q * p);
  }

  const TWO_32: nat := 0x1_0000_0000
  const TWO_48: nat := 0x1_0000_0000_0000
  const TWO_64: nat := 0x1_0000_0000_0000_0000
  const TWO_80: nat := 0x1_0000_0000_0000_0000_0000

  function Sixteens(j: nat): nat {
    if j == 0 then 1 else 0x1_0000 * Sixteens(j - 1)
  }

  lemma {:induction false} Pow2OfSixteens(j: nat)
    ensures Pow2(16 * j) == Sixteens(j)
  {
    if j > 0 {
      Pow2OfSixteens(j - 1);
      Pow2Of16();
      Pow2Sum(16, 16 * (j - 1));
    }
  }

  lemma PowersOfTwo(k: nat)
    ensures k == 32 ==> Pow2(k) == TWO_32
    ensures k == 48 ==> Pow2(k) == TWO_48
    ensures k == 64 ==> Pow2(k) == TWO_64
    ensures k == 80 ==> Pow2(k) == TWO_80
  {
    if k % 16 == 0 {
      Pow2OfSixteens(k / 16);
      assert Sixteens(2) == TWO_32 && Sixteens(3) == TWO_48 && Sixteens(4) == TWO_64 && Sixteens(5) == TWO_80;
    }
  }
}
