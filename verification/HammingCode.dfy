/** Where data bits stand in the code: the positions from one up that are not powers of two, in order. */
module HammingCode {
  import opened Bits
  import opened Wrappers

  /** How many of the positions from 1 up to, and not including, `p` hold data. */
  function DataBefore(p: nat): nat {
    if p <= 1 then 0 else DataBefore(p - 1) + if IsPowerOfTwo(p - 1) then 0 else 1
  }

  /** Position `p` holds data bit `d`. */
  predicate Holds(p: nat, d: nat) { p >= 1 && !IsPowerOfTwo(p) && DataBefore(p) == d }

  lemma {:induction false} DataBeforeMonotone(p: nat, q: nat)
    requires p <= q
    ensures DataBefore(p) <= DataBefore(q)
    ensures 1 <= p < q && !IsPowerOfTwo(p) ==> DataBefore(p) < DataBefore(q)
  {
    if p < q { DataBeforeMonotone(p, q - 1); }
  }

  lemma HoldsUnique(p: nat, q: nat, d: nat, e: nat)
    requires Holds(p, d) && Holds(q, e)
    ensures p == q <==> d == e
    ensures p < q <==> d < e
  {
    if p < q { DataBeforeMonotone(p, q); }
    if q < p { DataBeforeMonotone(q, p); }
  }

  /** Below the `k`-th power there are `k` powers. */
  lemma {:induction false} DataBeforePower(k: nat, p: nat)
    requires Pow2(k) < p <= Pow2(k + 1)
    ensures DataBefore(p) == p - 2 - k
    decreases p
  {
    PowersPass(k);
    if p == Pow2(k) + 1 {
      if k == 0 {
        assert DataBefore(1) == 0 && DataBefore(2) == 0;
      } else {
        DataBeforePower(k - 1, Pow2(k));
      }
    } else {
      NoPowerBetween(k, p - 1);
      DataBeforePower(k, p - 1);
    }
  }

  /** The first data position at or after `p`. */
  function FirstDataFrom(p: nat): (q: nat)
    requires p >= 3
    ensures q >= p && q >= 3 && !IsPowerOfTwo(q) && DataBefore(q) == DataBefore(p)
  {
    if IsPowerOfTwo(p) then (PowerIsIsolated(p); p + 1) else p
  }

  lemma PowerIsIsolated(p: nat)
    requires p >= 3 && IsPowerOfTwo(p)
    ensures !IsPowerOfTwo(p + 1)
  {
    var k := PassingIsPower(p);
    NoPowerBetween(k, p + 1);
  }

  /** The position of data bit `d`. */
  function CodePosition(d: nat): (p: nat)
    ensures Holds(p, d) && p >= 3
  {
    if d == 0 then (ThreeIsFirst(); 3) else FirstDataFrom(CodePosition(d - 1) + 1)
  }

  lemma ThreeIsFirst()
    ensures Holds(3, 0)
  {
    NoPowerBetween(1, 3);
    PowersPass(0);
    PowersPass(1);
    assert Pow2(1) == 2 && Pow2(0) == 1;
    assert DataBefore(2) == 0 && DataBefore(3) == 0;
  }

  /** The data bit at a position, if it is one of the first `bits`. */
  function DataBitAt(position: nat, bits: nat): (d: Option<nat>)
    ensures d.Some? ==> d.value < bits && position == CodePosition(d.value)
    ensures d.None? ==> forall k: nat | k < bits :: position != CodePosition(k)
  {
    if position >= 1 && !IsPowerOfTwo(position) && DataBefore(position) < bits then
      (HoldsUnique(position, CodePosition(DataBefore(position)), DataBefore(position), DataBefore(position));
       Some(DataBefore(position)))
    else None
  }

  // ---------------------------------------------------------------- the parity width

  predicate Wide(bits: nat, r: nat) { r >= 1 && Pow2(r) >= bits + r + 1 }

  /** Every data bit's position fits in a wide enough parity width. */
  lemma PositionFits(bits: nat, r: nat, d: nat)
    requires Wide(bits, r) && d < bits
    ensures CodePosition(d) < Pow2(r)
  {
    var p := CodePosition(d);
    if p >= Pow2(r) {
      DataBeforePower(r - 1, Pow2(r));
      DataBeforeMonotone(Pow2(r), p);
    }
  }

  /** A narrower width than the least wide one leaves the last position out. */
  lemma NarrowMisses(bits: nat, r: nat)
    requires bits > 0 && r >= 1 && !Wide(bits, r)
    ensures CodePosition(bits - 1) >= Pow2(r)
  {
    var p := CodePosition(bits - 1);
    DataBeforePower(r - 1, Pow2(r));
    if p < Pow2(r) { DataBeforeMonotone(p, Pow2(r)); }
  }

  // ---------------------------------------------------------------- the loops

  /** The least width, at least one, whose code has room for the data bits. */
  method ParityBitsForDataBits(bits: nat) returns (r: nat)
    ensures Wide(bits, r) && forall k | 1 <= k < r :: !Wide(bits, k)
  {
    r := 1;
    while Pow2(r) < bits + r + 1
      invariant r >= 1 && forall k | 1 <= k < r :: !Wide(bits, k)
      decreases bits + 2 - (Pow2(r) - r)
    {
      PowGrows(r);
      r := r + 1;
    }
  }

  lemma PowGrows(r: nat)
    requires r >= 1
    ensures Pow2(r + 1) - (r + 1) > Pow2(r) - r
  {
    PowMonotone(1, r);
    assert Pow2(1) == 2;
  }

  /** Counts data positions until the wanted one. */
  method CodePositionForDataBit(d: nat) returns (position: nat)
    ensures Holds(position, d) && position == CodePosition(d)
  {
    var seen := 0;
    var p := 1;
    while true
      invariant 1 <= p <= CodePosition(d) && seen == DataBefore(p)
      decreases CodePosition(d) - p
    {
      if !IsPowerOfTwo(p) {
        if seen == d {
          HoldsUnique(p, CodePosition(d), d, d);
          return p;
        }
        seen := seen + 1;
      }
      p := p + 1;
    }
  }

  /** The data bit at a position, if it is one of the first `bits`. */
  method DataBitForCodePosition(position: nat, bits: nat) returns (d: Option<nat>)
    ensures d == DataBitAt(position, bits)
  {
    var seen := 0;
    var p := 1;
    while seen < bits
      invariant p >= 1 && seen == DataBefore(p) && seen <= bits
      invariant 1 <= position < p ==> IsPowerOfTwo(position)
      decreases (if bits == 0 then 0 else CodePosition(bits - 1)) + 1 - p
    {
      if bits > 0 && p > CodePosition(bits - 1) { DataBeforeMonotone(CodePosition(bits - 1), p); }
      if !IsPowerOfTwo(p) {
        if p == position { return Some(seen); }
        seen := seen + 1;
      }
      p := p + 1;
    }
    if p <= position { DataBeforeMonotone(p, position); }
    return None;
  }
}
