/** Overlap of byte ranges in 64-bit addresses, where the end of a range is capped at the largest address. */
module AddressRanges {
  import MixedRadix

  const MAX_ADDRESS: nat := 0xFFFF_FFFF_FFFF_FFFF

  type Address = x: int | 0 <= x <= MAX_ADDRESS

  function RangeEnd(start: Address, size: nat): Address {
    if size > MAX_ADDRESS - start then MAX_ADDRESS else start + size
  }

  predicate Overlap(a: Address, aSize: nat, b: Address, bSize: nat) {
    aSize != 0 && bSize != 0 && a < RangeEnd(b, bSize) && b < RangeEnd(a, aSize)
  }

  predicate Covers(start: Address, size: nat, x: Address) { start <= x < start + size }

  /** Ranges overlap exactly if they share a byte other than the last one of the address space. */
  lemma OverlapExact(a: Address, aSize: nat, b: Address, bSize: nat)
    ensures Overlap(a, aSize, b, bSize) <==>
            exists x: Address | x < MAX_ADDRESS :: Covers(a, aSize, x) && Covers(b, bSize, x)
  {
    if Overlap(a, aSize, b, bSize) {
      var x: Address := if a >= b then a else b;
      assert Covers(a, aSize, x) && Covers(b, bSize, x);
    }
  }

  /** Aligned transactions of one size overlap only with themselves: comparing addresses is enough. */
  lemma AlignedOverlap(size: nat, a: Address, b: Address)
    requires size > 0 && a % size == 0 && b % size == 0
    ensures Overlap(a, size, b, size) <==> a == b && a < MAX_ADDRESS
  {
    if a < b { AlignedApart(size, a, b); }
    if b < a { AlignedApart(size, b, a); }
  }

  lemma AlignedApart(size: nat, a: nat, b: nat)
    requires size > 0 && a % size == 0 && b % size == 0 && a < b
    ensures a + size <= b
  {
    var i, j := a / size, b / size;
    MixedRadix.DigitSplit(size, a);
    MixedRadix.DigitSplit(size, b);
    if j <= i {
      MixedRadix.MulMonotone(size, j, i);
    } else {
      MixedRadix.MulMonotone(size, i + 1, j);
      assert (i + 1) * size == i * size + size;
    }
  }
}
