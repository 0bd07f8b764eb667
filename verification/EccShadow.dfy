/** The error-checking shadow of a line: what a read check does about every possible difference. */
module EccShadow {
  import opened Bits
  import opened HammingCode
  import opened Lines

  predicate ByteBit(line: Bytes, k: nat) {
    k / 8 < |line| && Bit(line[k / 8] as nat, k % 8)
  }

  function XorByte(a: byte, b: byte): byte {
    ByteWidth();
    XorBelow(a as nat, b as nat, 8);
    Xor(a as nat, b as nat) as byte
  }

  lemma ByteWidth()
    ensures Pow2(8) == 256
  {
    assert Pow2(4) == 16;
    assert Pow2(6) == 64;
  }

  function FlipByteBit(line: Bytes, k: nat): Bytes {
    if k / 8 < |line| then
      (ByteWidth();
       PowMonotone(k % 8, 7);
       assert Pow2(8) == 2 * Pow2(7);
       line[k / 8 := XorByte(line[k / 8], Pow2(k % 8) as byte)])
    else line
  }

  lemma FlippedBits(line: Bytes, k: nat, j: nat)
    requires k < 8 * |line|
    ensures ByteBit(FlipByteBit(line, k), j) <==> ByteBit(line, j) != (j == k)
  {
    if j / 8 == k / 8 {
      XorBits(line[k / 8] as nat, Pow2(k % 8), j % 8);
      PowBits(k % 8, j % 8);
    }
  }

  lemma FlipTwice(line: Bytes, k: nat)
    requires k < 8 * |line|
    ensures FlipByteBit(FlipByteBit(line, k), k) == line
  {
    var x, m := line[k / 8] as nat, Pow2(k % 8);
    XorAssociative(x, m, m);
    XorSelf(m);
    XorZero(x);
  }

  // ---------------------------------------------------------------- the shadow

  /** The positions of the ones among the first `n` bits, combined by exclusive or. */
  function Hash(line: Bytes, n: nat): nat {
    if n == 0 then 0
    else if ByteBit(line, n - 1) then Xor(Hash(line, n - 1), CodePosition(n - 1))
    else Hash(line, n - 1)
  }

  /** Whether the number of ones among the first `n` bits is odd. */
  predicate OddOnes(line: Bytes, n: nat) {
    n != 0 && (OddOnes(line, n - 1) != ByteBit(line, n - 1))
  }

  datatype Shadow = Shadow(hamming: nat, overall: bool)

  function Bitcount(line: Bytes): nat { 8 * |line| }

  function ShadowOf(line: Bytes): Shadow {
    var h := Hash(line, Bitcount(line));
    Shadow(h, OddOnes(line, Bitcount(line)) != Parity(h))
  }

  lemma {:induction false} HashFits(line: Bytes, n: nat, r: nat)
    requires forall d: nat | d < n :: CodePosition(d) < Pow2(r)
    ensures Hash(line, n) < Pow2(r)
  {
    if n > 0 {
      HashFits(line, n - 1, r);
      assert CodePosition(n - 1) < Pow2(r);
      if ByteBit(line, n - 1) { XorBelow(Hash(line, n - 1), CodePosition(n - 1), r); }
    }
  }

  lemma ShadowFits(line: Bytes, r: nat)
    requires Wide(Bitcount(line), r)
    ensures Hash(line, Bitcount(line)) < Pow2(r)
  {
    forall d: nat | d < Bitcount(line)
      ensures CodePosition(d) < Pow2(r)
    {
      PositionFits(Bitcount(line), r, d);
    }
    HashFits(line, Bitcount(line), r);
  }

  /** Adds one data bit's position to the parity bits, one parity bit at a time. */
  method AddPosition(hamming: nat, position: nat, r: nat) returns (h: nat)
    requires position < Pow2(r)
    ensures h == Xor(hamming, position)
  {
    h := hamming;
    XorZero(hamming);
    for parity := 0 to r
      invariant h == Xor(hamming, Low(position, parity))
    {
      LowStep(position, parity);
      XorAssociative(hamming, Low(position, parity), Pow2(parity));
      XorZero(Low(position, parity));
      if Bit(position, parity) { h := Xor(h, Pow2(parity)); }
    }
    LowAll(position, r);
  }

  /** Counts the parity bits into the overall bit. */
  method AddParity(hamming: nat, odd: bool, r: nat) returns (overall: bool)
    requires hamming < Pow2(r)
    ensures overall == (odd != Parity(hamming))
  {
    overall := odd;
    for parity := 0 to r
      invariant overall == (odd != Parity(Low(hamming, parity)))
    {
      LowStep(hamming, parity);
      XorParity(Low(hamming, parity), if Bit(hamming, parity) then Pow2(parity) else 0);
      PowParity(parity);
      if Bit(hamming, parity) { overall := !overall; }
    }
    LowAll(hamming, r);
  }

  method ComputeSecdedShadow(line: Bytes) returns (shadow: Shadow, parityBits: nat)
    ensures shadow == ShadowOf(line)
    ensures Wide(Bitcount(line), parityBits) && forall k | 1 <= k < parityBits :: !Wide(Bitcount(line), k)
    ensures shadow.hamming < Pow2(parityBits)
  {
    parityBits := ParityBitsForDataBits(Bitcount(line));
    var hamming, overall := 0, false;
    for bit := 0 to Bitcount(line)
      invariant hamming == Hash(line, bit) && overall == OddOnes(line, bit)
    {
      if ByteBit(line, bit) {
        overall := !overall;
        var position := CodePositionForDataBit(bit);
        PositionFits(Bitcount(line), parityBits, bit);
        hamming := AddPosition(hamming, position, parityBits);
      }
    }
    ShadowFits(line, parityBits);
    overall := AddParity(hamming, overall, parityBits);
    shadow := Shadow(hamming, overall);
  }

  // ---------------------------------------------------------------- only the difference counts

  function Difference(a: Bytes, b: Bytes): (e: Bytes)
    requires |a| == |b|
    ensures |e| == |a|
  {
    seq(|a|, i requires 0 <= i < |a| => XorByte(a[i], b[i]))
  }

  lemma DifferenceBits(a: Bytes, b: Bytes, k: nat)
    requires |a| == |b|
    ensures ByteBit(Difference(a, b), k) <==> ByteBit(a, k) != ByteBit(b, k)
  {
    if k / 8 < |a| { XorBits(a[k / 8] as nat, b[k / 8] as nat, k % 8); }
  }

  lemma {:induction false} HashLinear(a: Bytes, b: Bytes, n: nat)
    requires |a| == |b|
    ensures Hash(Difference(a, b), n) == Xor(Hash(a, n), Hash(b, n))
    ensures OddOnes(Difference(a, b), n) == (OddOnes(a, n) != OddOnes(b, n))
  {
    if n > 0 {
      HashLinear(a, b, n - 1);
      DifferenceBits(a, b, n - 1);
      XorJoin(Hash(a, n - 1), Hash(b, n - 1), CodePosition(n - 1));
    }
  }

  function Syndrome(kept: Shadow, now: Shadow): nat { Xor(kept.hamming, now.hamming) }

  /** Syndrome and overall mismatch depend only on which bits differ from the line the shadow was taken of. */
  lemma SyndromeOfDifference(original: Bytes, line: Bytes)
    requires |original| == |line|
    ensures
      var e := Difference(original, line);
      && Syndrome(ShadowOf(original), ShadowOf(line)) == Hash(e, Bitcount(e))
      && ((ShadowOf(original).overall != ShadowOf(line).overall) == (OddOnes(e, Bitcount(e)) != Parity(Hash(e, Bitcount(e)))))
  {
    HashLinear(original, line, Bitcount(line));
    XorParity(Hash(original, Bitcount(line)), Hash(line, Bitcount(line)));
  }

  // ---------------------------------------------------------------- the check on read

  datatype Options = Options(enabled: bool, checkOnRead: bool, correctSingleBit: bool)

  datatype Block = Block(bytes: Bytes, shadow: Shadow, valid: bool, uncorrectable: bool)

  datatype Verdict = Skipped | Clean | ParityRepaired | Corrected | Uncorrectable

  datatype Checked = Checked(block: Block, verdict: Verdict)

  function Check(o: Options, b: Block): Checked {
    if !o.enabled || !o.checkOnRead || !b.valid then Checked(b, Skipped)
    else
      var now := ShadowOf(b.bytes);
      var syndrome := Syndrome(b.shadow, now);
      var mismatch := b.shadow.overall != now.overall;
      if syndrome == 0 && !mismatch then Checked(b, Clean)
      else if syndrome == 0 then Checked(b.(shadow := b.shadow.(overall := now.overall)), ParityRepaired)
      else if !mismatch then Checked(b.(uncorrectable := true), Uncorrectable)
      else if IsPowerOfTwo(syndrome) then Checked(b.(shadow := now), ParityRepaired)
      else
        var bit := DataBitAt(syndrome, Bitcount(b.bytes));
        if bit.None? || !o.correctSingleBit then Checked(b.(uncorrectable := true), Uncorrectable)
        else
          var fixed := FlipByteBit(b.bytes, bit.value);
          Checked(Block(fixed, ShadowOf(fixed), true, false), Corrected)
  }

  /** The block checked in place. */
  class EccBlock {
    var bytes: Bytes
    var shadow: Shadow
    var valid: bool
    var uncorrectable: bool

    function Now(): Block
      reads this
    {
      Block(bytes, shadow, valid, uncorrectable)
    }

    constructor (bytes: Bytes)
      ensures Now() == Block(bytes, Shadow(0, false), false, false)
    {
      this.bytes, shadow, valid, uncorrectable := bytes, Shadow(0, false), false, false;
    }

    method RefreshShadow(o: Options)
      modifies this
      ensures Now() == (if o.enabled then Block(old(bytes), ShadowOf(old(bytes)), true, false)
                        else Block(old(bytes), old(shadow), false, false))
    {
      uncorrectable := false;
      valid := o.enabled;
      if o.enabled {
        var parityBits;
        shadow, parityBits := ComputeSecdedShadow(bytes);
      }
    }

    method CheckShadow(o: Options) returns (verdict: Verdict)
      modifies this
      ensures Checked(Now(), verdict) == Check(o, old(Now()))
    {
      if !o.enabled || !o.checkOnRead || !valid { return Skipped; }
      var now, parityBits := ComputeSecdedShadow(bytes);
      var syndrome := Xor(shadow.hamming, now.hamming);
      var mismatch := shadow.overall != now.overall;
      if syndrome == 0 && !mismatch { return Clean; }
      if syndrome == 0 {
        shadow := shadow.(overall := now.overall);
        return ParityRepaired;
      }
      if !mismatch {
        uncorrectable := true;
        return Uncorrectable;
      }
      if IsPowerOfTwo(syndrome) {
        shadow := now;
        return ParityRepaired;
      }
      var bit := DataBitForCodePosition(syndrome, Bitcount(bytes));
      if bit.None? || !o.correctSingleBit {
        uncorrectable := true;
        return Uncorrectable;
      }
      bytes := FlipByteBit(bytes, bit.value);
      RefreshShadow(o);
      return Corrected;
    }
  }

  // ---------------------------------------------------------------- what the check achieves

  /** The block's shadow is that of `original`, and the check is on. */
  predicate Guards(o: Options, b: Block, original: Bytes) {
    o.enabled && o.checkOnRead && b.valid && |b.bytes| == |original| && b.shadow == ShadowOf(original)
  }

  /** An intact line passes unchanged. */
  lemma IntactPasses(o: Options, b: Block)
    requires Guards(o, b, b.bytes)
    ensures Check(o, b) == Checked(b, Clean)
  {
    XorSelf(b.shadow.hamming);
  }

  lemma {:induction false} HashOfFlip(line: Bytes, d: nat, n: nat)
    requires d < Bitcount(line)
    ensures Hash(FlipByteBit(line, d), n) == if d < n then Xor(Hash(line, n), CodePosition(d)) else Hash(line, n)
    ensures OddOnes(FlipByteBit(line, d), n) == (OddOnes(line, n) != (d < n))
  {
    if n > 0 {
      HashOfFlip(line, d, n - 1);
      FlippedBits(line, d, n - 1);
      var h, p, q := Hash(line, n - 1), CodePosition(n - 1), CodePosition(d);
      XorAssociative(h, p, q);
      XorAssociative(h, q, p);
      XorCommutes(p, q);
      XorAssociative(h, p, p);
      XorSelf(p);
      XorZero(h);
    }
  }

  /** Flipping a bit moves the parity bits by its position, and the overall bit unless that position is odd. */
  lemma ShadowOfFlip(line: Bytes, d: nat)
    requires d < Bitcount(line)
    ensures
      var after, p := ShadowOf(FlipByteBit(line, d)), CodePosition(d);
      after.hamming == Xor(ShadowOf(line).hamming, p) && after.overall == (ShadowOf(line).overall == Parity(p))
  {
    HashOfFlip(line, d, Bitcount(line));
    XorParity(ShadowOf(line).hamming, CodePosition(d));
  }

  lemma XorCancels(a: nat, b: nat)
    ensures Xor(a, Xor(a, b)) == b
  {
    XorAssociative(a, a, b);
    XorSelf(a);
    XorZero(b);
  }

  /**
    One flipped data bit is never missed and never miscorrected: it is restored exactly when its position has an
    even number of ones and correction is on, and otherwise flagged.
   */
  lemma OneFlip(o: Options, b: Block, original: Bytes, d: nat)
    requires d < Bitcount(original) && b.bytes == FlipByteBit(original, d) && Guards(o, b, original)
    ensures
      var r := Check(o, b);
      if !Parity(CodePosition(d)) && o.correctSingleBit then
        r.verdict.Corrected? && r.block == Block(original, ShadowOf(original), true, false)
      else r.verdict.Uncorrectable? && r.block == b.(uncorrectable := true)
  {
    ShadowOfFlip(original, d);
    XorCancels(ShadowOf(original).hamming, CodePosition(d));
    FlipTwice(original, d);
    HoldsUnique(CodePosition(d), CodePosition(d), d, d);
  }

  /** Whatever changed, the check leaves the original bytes exactly if nothing did, or one correctable bit did. */
  lemma RestoredExactly(o: Options, b: Block, original: Bytes)
    requires Guards(o, b, original)
    ensures Check(o, b).block.bytes == original <==>
            b.bytes == original
            || (o.correctSingleBit
                && exists d: nat | d < Bitcount(original) && !Parity(CodePosition(d)) :: b.bytes == FlipByteBit(original, d))
  {
    var r := Check(o, b);
    if b.bytes == original {
      IntactPasses(o, b);
    } else {
      if r.block.bytes == original {
        var d := DataBitAt(Syndrome(b.shadow, ShadowOf(b.bytes)), Bitcount(b.bytes)).value;
        FlipTwice(b.bytes, d);
        OneFlip(o, b, original, d);
      }
      if d: nat :| d < Bitcount(original) && !Parity(CodePosition(d)) && b.bytes == FlipByteBit(original, d) {
        OneFlip(o, b, original, d);
      }
    }
  }

  /** Exactly these changes are let pass with the data wrong: parity alone, or what looks like a fault in one check bit. */
  lemma PassedWrongExactly(o: Options, b: Block, original: Bytes)
    requires Guards(o, b, original) && b.bytes != original
    ensures
      var e := Difference(original, b.bytes);
      var h, odd := Hash(e, Bitcount(e)), OddOnes(e, Bitcount(e));
      var v := Check(o, b).verdict;
      && (v.Clean? || v.ParityRepaired? <==> h == 0 || (odd != Parity(h) && IsPowerOfTwo(h)))
      && (v.Uncorrectable? <==>
            h != 0 && (odd == Parity(h) || (!IsPowerOfTwo(h) && (DataBitAt(h, Bitcount(e)).None? || !o.correctSingleBit))))
  {
    SyndromeOfDifference(original, b.bytes);
  }

  /**
    Two flipped bits are never restored. They are flagged exactly when their positions differ in an even number of
    digits, or in an odd number that names neither a check bit nor a correctable data bit.
   */
  lemma TwoFlips(o: Options, b: Block, original: Bytes, d: nat, f: nat)
    requires d < Bitcount(original) && f < Bitcount(original) && d != f
    requires b.bytes == FlipByteBit(FlipByteBit(original, d), f) && Guards(o, b, original)
    ensures
      var h := Xor(CodePosition(d), CodePosition(f));
      && (Check(o, b).verdict.Uncorrectable? <==>
            !Parity(h) || (!IsPowerOfTwo(h) && (DataBitAt(h, Bitcount(original)).None? || !o.correctSingleBit)))
      && (Check(o, b).verdict.ParityRepaired? <==> Parity(h) && IsPowerOfTwo(h))
      && !Check(o, b).verdict.Clean?
      && Check(o, b).block.bytes != original
  {
    var once, p, q := FlipByteBit(original, d), CodePosition(d), CodePosition(f);
    ShadowOfFlip(original, d);
    ShadowOfFlip(once, f);
    var kept := ShadowOf(original);
    XorAssociative(kept.hamming, p, q);
    XorCancels(kept.hamming, Xor(p, q));
    XorParity(p, q);
    XorIsZero(p, q);
    HoldsUnique(p, q, d, f);
    NotOneFlip(original, d, f);
    RestoredExactly(o, b, original);
  }

  lemma NotOneFlip(original: Bytes, d: nat, f: nat)
    requires d < Bitcount(original) && f < Bitcount(original) && d != f
    ensures FlipByteBit(FlipByteBit(original, d), f) != original
    ensures forall k: nat | k < Bitcount(original) :: FlipByteBit(FlipByteBit(original, d), f) != FlipByteBit(original, k)
  {
    var once := FlipByteBit(original, d);
    var twice := FlipByteBit(once, f);
    FlippedBits(original, d, d);
    FlippedBits(original, d, f);
    FlippedBits(once, f, d);
    FlippedBits(once, f, f);
    forall k: nat | k < Bitcount(original)
      ensures twice != FlipByteBit(original, k)
    {
      FlippedBits(original, k, d);
      FlippedBits(original, k, f);
    }
  }

  /** Two flips that pass as the repair of a check bit: data bits 0 and 3, at positions 3 and 7. */
  lemma TwoFlipsCanPass(o: Options, original: Bytes)
    requires o.enabled && o.checkOnRead && original != []
    ensures
      var b := Block(FlipByteBit(FlipByteBit(original, 0), 3), ShadowOf(original), true, false);
      Check(o, b).verdict.ParityRepaired? && Check(o, b).block.bytes != original
  {
    var b := Block(FlipByteBit(FlipByteBit(original, 0), 3), ShadowOf(original), true, false);
    FirstPositions();
    FourIsChecked();
    TwoFlips(o, b, original, 0, 3);
  }

  /** Positions 3 and 7 differ by the position of a check bit. */
  lemma FourIsChecked()
    ensures Xor(3, 7) == 4 && IsPowerOfTwo(4) && Parity(4)
  {
    PowersPass(2);
    PowParity(2);
    assert Pow2(2) == 4;
  }

  lemma FirstPositions()
    ensures CodePosition(0) == 3 && CodePosition(3) == 7
  {
    ThreeIsFirst();
    PowersPass(2);
    assert Pow2(2) == 4 && Pow2(3) == 8;
    NoPowerBetween(2, 5);
    NoPowerBetween(2, 6);
    NoPowerBetween(2, 7);
    assert DataBefore(4) == 1 && DataBefore(5) == 1;
    assert DataBefore(6) == 2 && DataBefore(7) == 3;
    HoldsUnique(7, CodePosition(3), 3, 3);
  }
}
