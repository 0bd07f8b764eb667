/** Natural numbers as bit strings. */
module Bits {
  function Pow2(k: nat): (r: nat)
    ensures r >= 1 && (k > 0 ==> r % 2 == 0)
  {
    if k == 0 then 1 else 2 * Pow2(k - 1)
  }

  predicate Bit(n: nat, k: nat) {
    if k == 0 then n % 2 == 1 else Bit(n / 2, k - 1)
  }

  function Xor(a: nat, b: nat): nat {
    if a == 0 && b == 0 then 0 else (if a % 2 == b % 2 then 0 else 1) + 2 * Xor(a / 2, b / 2)
  }

  function And(a: nat, b: nat): nat {
    if a == 0 || b == 0 then 0 else (if a % 2 == 1 && b % 2 == 1 then 1 else 0) + 2 * And(a / 2, b / 2)
  }

  /** Whether the number of ones is odd. */
  predicate Parity(n: nat) {
    n != 0 && ((n % 2 == 1) != Parity(n / 2))
  }

  lemma {:induction false} ZeroBits(k: nat)
    ensures !Bit(0, k)
  {
    if k > 0 { ZeroBits(k - 1); }
  }

  lemma {:induction false} XorBits(a: nat, b: nat, k: nat)
    ensures Bit(Xor(a, b), k) <==> Bit(a, k) != Bit(b, k)
  {
    if a == 0 && b == 0 {
      ZeroBits(k);
    } else if k > 0 {
      assert Xor(a, b) / 2 == Xor(a / 2, b / 2);
      XorBits(a / 2, b / 2, k - 1);
    }
  }

  /** Numbers with the same bits are equal. */
  lemma {:induction false} SameBits(a: nat, b: nat)
    requires forall k: nat :: Bit(a, k) == Bit(b, k)
    ensures a == b
    decreases a + b
  {
    if a != 0 || b != 0 {
      assert Bit(a, 0) == Bit(b, 0);
      forall k: nat
        ensures Bit(a / 2, k) == Bit(b / 2, k)
      {
        assert Bit(a, k + 1) == Bit(b, k + 1);
      }
      SameBits(a / 2, b / 2);
    }
  }

  lemma {:induction false} PowBits(k: nat, j: nat)
    ensures Bit(Pow2(k), j) <==> j == k
  {
    if k == 0 {
      if j > 0 { ZeroBits(j - 1); }
    } else if j > 0 {
      assert Pow2(k) / 2 == Pow2(k - 1);
      PowBits(k - 1, j - 1);
    }
  }

  lemma XorAssociative(a: nat, b: nat, c: nat)
    ensures Xor(Xor(a, b), c) == Xor(a, Xor(b, c))
  {
    forall k: nat
      ensures Bit(Xor(Xor(a, b), c), k) == Bit(Xor(a, Xor(b, c)), k)
    {
      XorBits(Xor(a, b), c, k);
      XorBits(a, b, k);
      XorBits(a, Xor(b, c), k);
      XorBits(b, c, k);
    }
    SameBits(Xor(Xor(a, b), c), Xor(a, Xor(b, c)));
  }

  lemma XorCommutes(a: nat, b: nat)
    ensures Xor(a, b) == Xor(b, a)
  {
    forall k: nat
      ensures Bit(Xor(a, b), k) == Bit(Xor(b, a), k)
    {
      XorBits(a, b, k);
      XorBits(b, a, k);
    }
    SameBits(Xor(a, b), Xor(b, a));
  }

  lemma {:induction false} XorZero(a: nat)
    ensures Xor(a, 0) == a && Xor(0, a) == a
  {
    if a != 0 { XorZero(a / 2); }
  }

  lemma {:induction false} XorSelf(a: nat)
    ensures Xor(a, a) == 0
  {
    if a != 0 { XorSelf(a / 2); }
  }

  /** The exclusive or is zero only of equal numbers. */
  lemma XorIsZero(a: nat, b: nat)
    ensures Xor(a, b) == 0 <==> a == b
  {
    XorSelf(a);
    if Xor(a, b) == 0 {
      XorAssociative(a, b, b);
      XorSelf(b);
      XorZero(a);
      XorZero(b);
    }
  }

  /** A third number may join either side of an exclusive or, and cancels when it joins both. */
  lemma XorJoin(x: nat, y: nat, p: nat)
    ensures Xor(Xor(x, p), y) == Xor(Xor(x, y), p)
    ensures Xor(x, Xor(y, p)) == Xor(Xor(x, y), p)
    ensures Xor(Xor(x, p), Xor(y, p)) == Xor(x, y)
  {
    XorAssociative(x, y, p);
    XorAssociative(x, p, y);
    XorCommutes(p, y);
    XorAssociative(Xor(x, p), y, p);
    XorAssociative(Xor(x, y), p, p);
    XorSelf(p);
    XorZero(Xor(x, y));
  }

  lemma {:induction false} XorParity(a: nat, b: nat)
    ensures Parity(Xor(a, b)) <==> Parity(a) != Parity(b)
  {
    if a != 0 || b != 0 {
      assert Xor(a, b) / 2 == Xor(a / 2, b / 2);
      XorParity(a / 2, b / 2);
    }
  }

  lemma {:induction false} XorBelow(a: nat, b: nat, k: nat)
    requires a < Pow2(k) && b < Pow2(k)
    ensures Xor(a, b) < Pow2(k)
  {
    if k > 0 { XorBelow(a / 2, b / 2, k - 1); }
  }

  /** The low `k` bits. */
  function Low(n: nat, k: nat): nat {
    if k == 0 then 0 else n % 2 + 2 * Low(n / 2, k - 1)
  }

  lemma {:induction false} LowBits(n: nat, k: nat, j: nat)
    ensures Bit(Low(n, k), j) <==> j < k && Bit(n, j)
  {
    if k == 0 {
      ZeroBits(j);
    } else {
      assert Low(n, k) / 2 == Low(n / 2, k - 1);
      if j > 0 { LowBits(n / 2, k - 1, j - 1); }
    }
  }

  lemma {:induction false} LowAll(n: nat, k: nat)
    requires n < Pow2(k)
    ensures Low(n, k) == n
  {
    if k > 0 { LowAll(n / 2, k - 1); }
  }

  /** One more low bit. */
  lemma LowStep(v: nat, k: nat)
    ensures Low(v, k + 1) == Xor(Low(v, k), if Bit(v, k) then Pow2(k) else 0)
  {
    var top := if Bit(v, k) then Pow2(k) else 0;
    forall j: nat
      ensures Bit(Low(v, k + 1), j) == Bit(Xor(Low(v, k), top), j)
    {
      LowBits(v, k + 1, j);
      LowBits(v, k, j);
      XorBits(Low(v, k), top, j);
      PowBits(k, j);
      ZeroBits(j);
    }
    SameBits(Low(v, k + 1), Xor(Low(v, k), top));
  }

  lemma {:induction false} PowParity(k: nat)
    ensures Parity(Pow2(k))
  {
    if k > 0 { PowParity(k - 1); }
  }

  // ---------------------------------------------------------------- powers of two

  /** The usual test: clearing the lowest one leaves nothing. */
  predicate IsPowerOfTwo(v: nat) { v != 0 && And(v, v - 1) == 0 }

  lemma {:induction false} AndSelf(v: nat)
    ensures And(v, v) == v
  {
    if v != 0 { AndSelf(v / 2); }
  }

  lemma {:induction false} PowerTestStep(v: nat)
    requires v > 0
    ensures IsPowerOfTwo(2 * v) <==> IsPowerOfTwo(v)
    ensures !IsPowerOfTwo(2 * v + 1)
  {
    AndSelf(v);
    var even, odd := 2 * v, 2 * v + 1;
    assert even / 2 == v && (even - 1) / 2 == v - 1 && odd / 2 == v;
    assert And(even, even - 1) == 2 * And(v, v - 1);
    assert And(odd, even) == 2 * And(v, v);
  }

  lemma {:induction false} PowersPass(k: nat)
    ensures IsPowerOfTwo(Pow2(k))
  {
    if k == 0 {
      assert And(1, 0) == 0;
    } else {
      PowersPass(k - 1);
      PowerTestStep(Pow2(k - 1));
    }
  }

  lemma {:induction false} PassingIsPower(v: nat) returns (k: nat)
    requires IsPowerOfTwo(v)
    ensures v == Pow2(k)
  {
    if v == 1 {
      k := 0;
    } else {
      PowerTestStep(v / 2);
      k := PassingIsPower(v / 2);
      k := k + 1;
    }
  }

  /** The test holds exactly of the powers of two. */
  lemma PowerTestExact(v: nat)
    ensures IsPowerOfTwo(v) <==> exists k: nat :: v == Pow2(k)
  {
    if IsPowerOfTwo(v) { var k := PassingIsPower(v); }
    if k: nat :| v == Pow2(k) { PowersPass(k); }
  }

  lemma {:induction false} PowMonotone(a: nat, b: nat)
    requires a <= b
    ensures Pow2(a) <= Pow2(b) && (a < b ==> 2 * Pow2(a) <= Pow2(b))
  {
    if a < b { PowMonotone(a, b - 1); }
  }

  /** Strictly between two neighbouring powers there is no other. */
  lemma NoPowerBetween(k: nat, v: nat)
    requires Pow2(k) < v < Pow2(k + 1)
    ensures !IsPowerOfTwo(v)
  {
    PowerTestExact(v);
    if j: nat :| v == Pow2(j) {
      if j <= k { PowMonotone(j, k); } else { PowMonotone(k + 1, j); }
    }
  }
}
