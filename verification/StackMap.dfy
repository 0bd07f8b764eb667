/** System addresses split into a stack and an address inside it, in 64-bit arithmetic. */
module StackMap {
  import opened Dram
  import opened AddressMap
  import opened Wrappers
  import MixedRadix

  const MAX_ADDRESS: nat := 0xFFFF_FFFF_FFFF_FFFF

  datatype Fault = OutOfRange | Overflow

  datatype Kind = Interleaved | Blocked

  /** A capacity of zero means that none was given. */
  datatype Mapper = Mapper(stacks: pos, interleave: pos, capacity: nat, kind: Kind)

  datatype StackAddress = StackAddress(stack: int, local: nat)

  /** What the constructor demands: blocks need a size. */
  predicate Valid(m: Mapper) { m.kind.Blocked? ==> m.capacity > 0 }

  function CheckedMultiply(a: nat, b: nat): (r: Result<nat, Fault>)
    ensures r == if a * b <= MAX_ADDRESS then Ok(a * b) else Err(Overflow)
  {
    if a != 0 && b > MAX_ADDRESS / a then
      (MixedRadix.DigitSplit(a, MAX_ADDRESS);
       MixedRadix.MulMonotone(a, MAX_ADDRESS / a + 1, b);
       assert (MAX_ADDRESS / a + 1) * a == (MAX_ADDRESS / a) * a + a;
       Err(Overflow))
    else
      (if a != 0 then (MixedRadix.DigitSplit(a, MAX_ADDRESS); MixedRadix.MulMonotone(a, b, MAX_ADDRESS / a); Ok(a * b)) else Ok(0))
  }

  function CheckedAdd(a: nat, b: nat): Result<nat, Fault> {
    if b > MAX_ADDRESS - a then Err(Overflow) else Ok(a + b)
  }

  /** `high * m + low`, checked at both steps. */
  function CheckedJoin(high: nat, m: nat, low: nat): Result<nat, Fault> {
    var product := CheckedMultiply(high, m);
    if product.Ok? then CheckedAdd(product.value, low) else Err(Overflow)
  }

  function Decode(m: Mapper, system: nat): Result<StackAddress, Fault>
    requires Valid(m)
  {
    if m.stacks == 1 then
      if m.capacity != 0 && system >= m.capacity then Err(OutOfRange) else Ok(StackAddress(0, system))
    else if m.kind.Blocked? then
      var stack := system / m.capacity;
      if stack >= m.stacks then Err(OutOfRange) else Ok(StackAddress(stack, system % m.capacity))
    else
      var stripe, offset := system / m.interleave, system % m.interleave;
      var local := CheckedJoin(stripe / m.stacks, m.interleave, offset);
      if !local.Ok? then Err(Overflow)
      else if m.capacity != 0 && local.value >= m.capacity then Err(OutOfRange)
      else Ok(StackAddress(stripe % m.stacks, local.value))
  }

  function Encode(m: Mapper, stack: int, local: nat): Result<nat, Fault>
    requires Valid(m)
  {
    if stack < 0 || stack >= m.stacks then Err(OutOfRange)
    else if m.capacity != 0 && local >= m.capacity then Err(OutOfRange)
    else if m.stacks == 1 then Ok(local)
    else if m.kind.Blocked? then CheckedJoin(stack, m.capacity, local)
    else
      var stripe := CheckedJoin(local / m.interleave, m.stacks, stack);
      if stripe.Ok? then CheckedJoin(stripe.value, m.interleave, local % m.interleave) else Err(Overflow)
  }

  // ---------------------------------------------------------------- the two are inverse

  lemma JoinExact(high: nat, m: nat, low: nat)
    ensures CheckedJoin(high, m, low) == if high * m + low <= MAX_ADDRESS then Ok(high * m + low) else Err(Overflow)
  {
  }

  /** A stripe number that fits follows from an address that fits. */
  lemma StripeFits(stripe: nat, interleave: pos, offset: nat, bound: nat)
    requires stripe * interleave + offset <= bound
    ensures stripe <= bound
  {
    MixedRadix.MulMonotone(stripe, 1, interleave);
  }

  lemma DecodeThenEncode(m: Mapper, system: nat)
    requires Valid(m) && system <= MAX_ADDRESS && Decode(m, system).Ok?
    ensures
      var r := Decode(m, system).value;
      r.local <= MAX_ADDRESS && Encode(m, r.stack, r.local) == Ok(system)
  {
    if m.stacks > 1 {
      if m.kind.Blocked? {
        MixedRadix.DigitSplit(m.capacity, system);
        JoinExact(system / m.capacity, m.capacity, system % m.capacity);
      } else {
        var stripe, offset := system / m.interleave, system % m.interleave;
        MixedRadix.DigitSplit(m.interleave, system);
        MixedRadix.DigitSplit(m.stacks, stripe);
        JoinExact(stripe / m.stacks, m.interleave, offset);
        MixedRadix.DigitTake(m.interleave, offset, stripe / m.stacks);
        StripeFits(stripe, m.interleave, offset, MAX_ADDRESS);
        JoinExact(stripe / m.stacks, m.stacks, stripe % m.stacks);
        JoinExact(stripe, m.interleave, offset);
      }
    }
  }

  lemma EncodeThenDecode(m: Mapper, stack: int, local: nat)
    requires Valid(m) && local <= MAX_ADDRESS && Encode(m, stack, local).Ok?
    ensures
      var system := Encode(m, stack, local).value;
      system <= MAX_ADDRESS && Decode(m, system) == Ok(StackAddress(stack, local))
  {
    if m.stacks > 1 {
      if m.kind.Blocked? {
        JoinExact(stack, m.capacity, local);
        MixedRadix.DigitTake(m.capacity, local, stack);
      } else {
        var own, offset := local / m.interleave, local % m.interleave;
        MixedRadix.DigitSplit(m.interleave, local);
        JoinExact(own, m.stacks, stack);
        var stripe := own * m.stacks + stack;
        MixedRadix.DigitTake(m.stacks, stack, own);
        JoinExact(stripe, m.interleave, offset);
        MixedRadix.DigitTake(m.interleave, offset, stripe);
        JoinExact(own, m.interleave, offset);
      }
    }
  }

  /** Decoding and encoding are inverse for both kinds: each succeeds with the other's input exactly when the other does. */
  lemma StackMappingInverse(m: Mapper, system: nat, stack: int, local: nat)
    requires Valid(m) && system <= MAX_ADDRESS && local <= MAX_ADDRESS
    ensures Decode(m, system) == Ok(StackAddress(stack, local)) <==> Encode(m, stack, local) == Ok(system)
  {
    if Decode(m, system).Ok? { DecodeThenEncode(m, system); }
    if Encode(m, stack, local).Ok? { EncodeThenDecode(m, stack, local); }
  }

  lemma BelowProduct(m: pos, n: nat, x: nat)
    ensures x / m < n <==> x < n * m
  {
    MixedRadix.DigitSplit(m, x);
    if x / m < n { MixedRadix.DigitBelow(m, n, x % m, x / m); }
    if x < n * m { MixedRadix.DigitBound(m, n, x); }
  }

  /** Comparing two numbers of two digits. */
  lemma JoinBelow(m: pos, high: nat, low: nat, h: nat, l: nat)
    requires low < m && l < m
    ensures high * m + low < h * m + l <==> high < h || (high == h && low < l)
  {
    if high < h { MixedRadix.MulMonotone(m, high + 1, h); }
    if h < high { MixedRadix.MulMonotone(m, h + 1, high); }
  }

  /**
    The address inside the stack is below a capacity of some stripes and a rest exactly if the system stripe is
    below all whole stripes, or among the next ones with its offset below the rest.
   */
  lemma StripedDomain(stacks: pos, interleave: pos, stripes: nat, rest: nat, stripe: nat, offset: nat)
    requires offset < interleave && rest < interleave
    ensures (stripe / stacks) * interleave + offset < stripes * interleave + rest
            <==> stripe < stripes * stacks || (stripe < (stripes + 1) * stacks && offset < rest)
  {
    JoinBelow(interleave, stripe / stacks, offset, stripes, rest);
    BelowProduct(stacks, stripes, stripe);
    BelowProduct(stacks, stripes + 1, stripe);
  }

  /** The address inside the stack is no larger than the system address. */
  lemma StripedBelow(stacks: pos, interleave: pos, stripe: nat, offset: nat)
    ensures 0 <= (stripe / stacks) * interleave + offset <= stripe * interleave + offset
  {
    MixedRadix.DigitSplit(stacks, stripe);
    var own := stripe / stacks;
    MixedRadix.MulMonotone(own, 1, stacks);
    MixedRadix.MulMonotone(interleave, own, stripe);
    MixedRadix.MulMonotone(interleave, 0, own);
  }

  /** Decoding cannot overflow. */
  lemma InterleavedDecode(m: Mapper, system: nat, local: int)
    requires Valid(m) && system <= MAX_ADDRESS && m.kind.Interleaved? && m.stacks > 1
    requires local == (system / m.interleave / m.stacks) * m.interleave + system % m.interleave
    ensures 0 <= local && Decode(m, system) ==
      if m.capacity != 0 && local >= m.capacity then Err(OutOfRange)
      else Ok(StackAddress(system / m.interleave % m.stacks, local))
  {
    var stripe, offset := system / m.interleave, system % m.interleave;
    MixedRadix.DigitSplit(m.interleave, system);
    MixedRadix.DigitSplit(m.stacks, stripe);
    StripedBelow(m.stacks, m.interleave, stripe, offset);
    JoinExact(stripe / m.stacks, m.interleave, offset);
  }

  /** The addresses of the first `rows` stripes of every stack. */
  predicate InStripes(m: Mapper, rows: nat, system: nat) { system < rows * m.stacks * m.interleave }

  /**
    The addresses that lie in some stack. The last stripe of an interleaved stack may be cut off; then only the
    addresses below the cut, out of one more stripe of each stack, are in.
   */
  predicate InDomain(m: Mapper, system: nat) {
    if m.kind.Blocked? || m.stacks == 1 then system < m.stacks * m.capacity
    else
      var rows := m.capacity / m.interleave;
      InStripes(m, rows, system) || (InStripes(m, rows + 1, system) && system % m.interleave < m.capacity % m.interleave)
  }

  lemma InterleavedDomain(m: Mapper, system: nat)
    requires Valid(m) && system <= MAX_ADDRESS && m.capacity > 0 && m.kind.Interleaved? && m.stacks > 1
    ensures Decode(m, system).Ok? <==> InDomain(m, system)
    ensures !Decode(m, system).Ok? ==> Decode(m, system) == Err(OutOfRange)
  {
    var stripe, offset := system / m.interleave, system % m.interleave;
    var rows, rest := m.capacity / m.interleave, m.capacity % m.interleave;
    MixedRadix.DigitSplit(m.interleave, system);
    MixedRadix.DigitSplit(m.interleave, m.capacity);
    StripedDomain(m.stacks, m.interleave, rows, rest, stripe, offset);
    BelowProduct(m.interleave, rows * m.stacks, system);
    BelowProduct(m.interleave, (rows + 1) * m.stacks, system);
    InterleavedDecode(m, system, (stripe / m.stacks) * m.interleave + offset);
  }

  /** With a given capacity, decoding succeeds exactly for the addresses that lie in some stack. */
  lemma DecodeDomain(m: Mapper, system: nat)
    requires Valid(m) && system <= MAX_ADDRESS && m.capacity > 0
    ensures Decode(m, system).Ok? <==> InDomain(m, system)
    ensures !Decode(m, system).Ok? ==> Decode(m, system) == Err(OutOfRange)
  {
    if m.stacks > 1 {
      if m.kind.Blocked? {
        BelowProduct(m.capacity, m.stacks, system);
      } else {
        InterleavedDomain(m, system);
      }
    }
  }

  lemma Reassociate(a: int, b: int, c: int)
    ensures (a * b) * c == b * (a * c)
  {
  }

  /** The domain is everything below the capacity of all stacks exactly if no stripe is cut off. */
  lemma DomainIsWhole(m: Mapper)
    requires Valid(m) && m.capacity > 0
    ensures (forall system: nat :: InDomain(m, system) <==> system < m.stacks * m.capacity)
            <==> m.kind.Blocked? || m.stacks == 1 || m.capacity % m.interleave == 0
  {
    if m.kind.Interleaved? && m.stacks > 1 {
      var rows, rest := m.capacity / m.interleave, m.capacity % m.interleave;
      MixedRadix.DigitSplit(m.interleave, m.capacity);
      if rest == 0 {
        Reassociate(rows, m.stacks, m.interleave);
      } else {
        CutOff(m, rows, rest);
      }
    }
  }

  /** The first address above the cut is out although addresses of the next stack follow. */
  lemma CutOff(m: Mapper, rows: nat, rest: nat)
    requires m.stacks > 1 && m.kind.Interleaved? && m.capacity == rows * m.interleave + rest && 0 < rest < m.interleave
    ensures
      var hole := rows * m.stacks * m.interleave + rest;
      !InDomain(m, hole) && hole < m.stacks * m.capacity
  {
    var whole := rows * m.stacks;
    MixedRadix.DigitTake(m.interleave, rest, rows);
    MixedRadix.DigitTake(m.interleave, rest, whole);
    MixedRadix.MulMonotone(rest, 2, m.stacks);
    Reassociate(rows, m.stacks, m.interleave);
    assert m.stacks * m.capacity == m.stacks * (rows * m.interleave) + m.stacks * rest;
  }

  // ---------------------------------------------------------------- the whole path

  /** Two system addresses that reach the same byte of the same transaction of the same stack are equal. */
  lemma SystemMapInjective(m: Mapper, o: Organization, k: Mapping, transactionBytes: pos, a: nat, b: nat)
    requires Valid(m) && a <= MAX_ADDRESS && b <= MAX_ADDRESS && Decode(m, a).Ok? && Decode(m, b).Ok?
    requires Decode(m, a).value.stack == Decode(m, b).value.stack
    requires SameByte(o, k, transactionBytes, Decode(m, a).value.local, Decode(m, b).value.local)
    ensures a == b
  {
    SameByteIsEqual(o, k, transactionBytes, Decode(m, a).value.local, Decode(m, b).value.local);
    DecodeThenEncode(m, a);
    DecodeThenEncode(m, b);
  }

  /** Both addresses are inside the stack, at the same coordinate and the same byte of its transaction. */
  ghost predicate SameByte(o: Organization, k: Mapping, transactionBytes: pos, x: nat, y: nat) {
    MixedRadix.DigitSplit(transactionBytes, x);
    MixedRadix.DigitSplit(transactionBytes, y);
    && x / transactionBytes < Capacity(o, k) && y / transactionBytes < Capacity(o, k)
    && x % transactionBytes == y % transactionBytes
    && Decoded(o, k, x / transactionBytes) == Decoded(o, k, y / transactionBytes)
  }

  lemma SameByteIsEqual(o: Organization, k: Mapping, transactionBytes: pos, x: nat, y: nat)
    requires SameByte(o, k, transactionBytes, x, y)
    ensures x == y
  {
    MixedRadix.DigitSplit(transactionBytes, x);
    MixedRadix.DigitSplit(transactionBytes, y);
    DecodedInjective(o, k, x / transactionBytes, y / transactionBytes);
  }
}
