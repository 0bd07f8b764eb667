/** Transaction numbers as mixed-radix coordinates, in the four digit orders. */
module AddressMap {
  import opened Dram
  import MixedRadix

  datatype Mapping = DefaultOrder | RoBaRaCoCh | ChRaBaRoCo | RoCoRaBaCh

  datatype Field = Column | Bank | BankGroup | PseudoChannel | Sid | Rank | Channel | Row

  function Size(o: Organization, f: Field): pos {
    match f
    case Column => o.columns
    case Bank => o.banksPerGroup
    case BankGroup => o.bankGroups
    case PseudoChannel => o.pseudoChannels
    case Sid => o.sids
    case Rank => o.ranks
    case Channel => o.channels
    case Row => o.rows
  }

  function Get(d: Coordinate, f: Field): int {
    match f
    case Column => d.column
    case Bank => d.bank
    case BankGroup => d.bankGroup
    case PseudoChannel => d.pseudoChannel
    case Sid => d.sid
    case Rank => d.rank
    case Channel => d.channel
    case Row => d.row
  }

  function Set(d: Coordinate, f: Field, x: int): (r: Coordinate)
    ensures forall g: Field :: Get(r, g) == if g == f then x else Get(d, g)
  {
    match f
    case Column => d.(column := x)
    case Bank => d.(bank := x)
    case BankGroup => d.(bankGroup := x)
    case PseudoChannel => d.(pseudoChannel := x)
    case Sid => d.(sid := x)
    case Rank => d.(rank := x)
    case Channel => d.(channel := x)
    case Row => d.(row := x)
  }

  lemma SameFields(a: Coordinate, b: Coordinate)
    requires forall f: Field :: Get(a, f) == Get(b, f)
    ensures a == b
  {
    assert Get(a, Column) == Get(b, Column) && Get(a, Bank) == Get(b, Bank) && Get(a, BankGroup) == Get(b, BankGroup);
    assert Get(a, PseudoChannel) == Get(b, PseudoChannel) && Get(a, Sid) == Get(b, Sid) && Get(a, Rank) == Get(b, Rank);
    assert Get(a, Channel) == Get(b, Channel) && Get(a, Row) == Get(b, Row);
  }

  /** The place of each field, the lowest digit first; bank, bank group, pseudo-channel and stack level go together. */
  function PlaceOf(k: Mapping, f: Field): (i: nat)
    ensures i < 8 && FieldAt(k, i) == f
  {
    var composite := if f.Bank? then 0 else if f.BankGroup? then 1 else if f.PseudoChannel? then 2 else 3;
    match k
    case DefaultOrder =>
      if f.Column? then 0 else if f.Rank? then 5 else if f.Channel? then 6 else if f.Row? then 7 else 1 + composite
    case RoBaRaCoCh =>
      if f.Channel? then 0 else if f.Column? then 1 else if f.Rank? then 2 else if f.Row? then 7 else 3 + composite
    case ChRaBaRoCo =>
      if f.Column? then 0 else if f.Row? then 1 else if f.Rank? then 6 else if f.Channel? then 7 else 2 + composite
    case RoCoRaBaCh =>
      if f.Channel? then 0 else if f.Rank? then 5 else if f.Column? then 6 else if f.Row? then 7 else 1 + composite
  }

  function CompositeAt(i: nat): Field {
    if i == 0 then Bank else if i == 1 then BankGroup else if i == 2 then PseudoChannel else Sid
  }

  function FieldAt(k: Mapping, i: nat): Field
    requires i < 8
  {
    match k
    case DefaultOrder =>
      if i == 0 then Column else if i == 5 then Rank else if i == 6 then Channel else if i == 7 then Row else CompositeAt(i - 1)
    case RoBaRaCoCh =>
      if i == 0 then Channel else if i == 1 then Column else if i == 2 then Rank else if i == 7 then Row else CompositeAt(i - 3)
    case ChRaBaRoCo =>
      if i == 0 then Column else if i == 1 then Row else if i == 6 then Rank else if i == 7 then Channel else CompositeAt(i - 2)
    case RoCoRaBaCh =>
      if i == 0 then Channel else if i == 5 then Rank else if i == 6 then Column else if i == 7 then Row else CompositeAt(i - 1)
  }

  lemma PlacesExact(k: Mapping, i: nat)
    requires i < 8
    ensures PlaceOf(k, FieldAt(k, i)) == i
  {
  }

  // ---------------------------------------------------------------- numbers and coordinates

  function CapacityFrom(o: Organization, k: Mapping, i: nat): (r: pos)
    requires i <= 8
    decreases 8 - i
  {
    if i == 8 then 1
    else
      var rest := CapacityFrom(o, k, i + 1);
      MixedRadix.MulMonotone(Size(o, FieldAt(k, i)), 1, rest);
      rest * Size(o, FieldAt(k, i))
  }

  /** Transactions that the organization holds. */
  function Capacity(o: Organization, k: Mapping): pos { CapacityFrom(o, k, 0) }

  /** The number that the digits from place `i` on stand for. */
  function NumberFrom(o: Organization, k: Mapping, i: nat, d: Coordinate): int
    requires i <= 8
    decreases 8 - i
  {
    if i == 8 then 0 else Get(d, FieldAt(k, i)) + NumberFrom(o, k, i + 1, d) * Size(o, FieldAt(k, i))
  }

  /** The transaction number of a coordinate. */
  function LineOf(o: Organization, k: Mapping, d: Coordinate): int { NumberFrom(o, k, 0, d) }

  /** Taking the digits from place `i` on off `line`. */
  function DigitsFrom(o: Organization, k: Mapping, i: nat, line: nat, d: Coordinate): Coordinate
    requires i <= 8
    decreases 8 - i
  {
    if i == 8 then d
    else
      var f := FieldAt(k, i);
      DigitsFrom(o, k, i + 1, line / Size(o, f), Set(d, f, line % Size(o, f)))
  }

  function Origin(): Coordinate { Coordinate(0, 0, 0, 0, 0, 0, 0, 0) }

  function Decoded(o: Organization, k: Mapping, line: nat): Coordinate { DigitsFrom(o, k, 0, line, Origin()) }

  ghost predicate FieldsInRange(o: Organization, k: Mapping, i: nat, d: Coordinate) {
    forall f: Field | i <= PlaceOf(k, f) :: 0 <= Get(d, f) < Size(o, f)
  }

  lemma InRangeIsFields(o: Organization, k: Mapping, d: Coordinate)
    ensures InRange(o, d) <==> FieldsInRange(o, k, 0, d)
  {
    if FieldsInRange(o, k, 0, d) {
      assert 0 <= Get(d, Column) < o.columns && 0 <= Get(d, Bank) < o.banksPerGroup && 0 <= Get(d, BankGroup) < o.bankGroups;
      assert 0 <= Get(d, PseudoChannel) < o.pseudoChannels && 0 <= Get(d, Sid) < o.sids && 0 <= Get(d, Rank) < o.ranks;
      assert 0 <= Get(d, Channel) < o.channels && 0 <= Get(d, Row) < o.rows;
    }
  }

  /** Taking digits from place `i` on leaves the lower places alone. */
  lemma {:induction false} DigitsKeepLower(o: Organization, k: Mapping, i: nat, line: nat, d: Coordinate)
    requires i <= 8
    ensures forall f: Field | PlaceOf(k, f) < i :: Get(DigitsFrom(o, k, i, line, d), f) == Get(d, f)
    decreases 8 - i
  {
    if i < 8 {
      var f := FieldAt(k, i);
      PlacesExact(k, i);
      DigitsKeepLower(o, k, i + 1, line / Size(o, f), Set(d, f, line % Size(o, f)));
    }
  }

  lemma {:induction false} DigitsInRange(o: Organization, k: Mapping, i: nat, line: nat, d: Coordinate)
    requires i <= 8
    ensures FieldsInRange(o, k, i, DigitsFrom(o, k, i, line, d))
    decreases 8 - i
  {
    if i < 8 {
      var f := FieldAt(k, i);
      var n := Size(o, f);
      PlacesExact(k, i);
      MixedRadix.DigitSplit(n, line);
      DigitsKeepLower(o, k, i + 1, line / n, Set(d, f, line % n));
      DigitsInRange(o, k, i + 1, line / n, Set(d, f, line % n));
      forall g: Field | i <= PlaceOf(k, g)
        ensures 0 <= Get(DigitsFrom(o, k, i, line, d), g) < Size(o, g)
      {
        if PlaceOf(k, g) == i { assert g == f; }
      }
    }
  }

  /** The digits stand for the line modulo the capacity. */
  lemma {:induction false} DigitsExact(o: Organization, k: Mapping, i: nat, line: nat, d: Coordinate)
    requires i <= 8
    ensures NumberFrom(o, k, i, DigitsFrom(o, k, i, line, d)) == line % CapacityFrom(o, k, i)
    decreases 8 - i
  {
    if i < 8 {
      var f := FieldAt(k, i);
      var n := Size(o, f);
      PlacesExact(k, i);
      MixedRadix.DigitSplit(n, line);
      DigitsKeepLower(o, k, i + 1, line / n, Set(d, f, line % n));
      DigitsExact(o, k, i + 1, line / n, Set(d, f, line % n));
      MixedRadix.RemainderSplit(n, CapacityFrom(o, k, i + 1), line);
    }
  }

  lemma {:induction false} NumberInside(o: Organization, k: Mapping, i: nat, d: Coordinate)
    requires i <= 8 && FieldsInRange(o, k, i, d)
    ensures 0 <= NumberFrom(o, k, i, d) < CapacityFrom(o, k, i)
    decreases 8 - i
  {
    if i < 8 {
      PlacesExact(k, i);
      var f := FieldAt(k, i);
      NumberInside(o, k, i + 1, d);
      MixedRadix.DigitBelow(Size(o, f), CapacityFrom(o, k, i + 1), Get(d, f), NumberFrom(o, k, i + 1, d));
    }
  }

  /** Taking the digits off the number of an in-range coordinate gives its fields back. */
  lemma {:induction false} DigitsOfNumber(o: Organization, k: Mapping, i: nat, d: Coordinate, e: Coordinate)
    requires i <= 8 && FieldsInRange(o, k, i, d) && (forall f: Field | PlaceOf(k, f) < i :: Get(e, f) == Get(d, f))
    ensures NumberFrom(o, k, i, d) >= 0 && DigitsFrom(o, k, i, NumberFrom(o, k, i, d), e) == d
    decreases 8 - i
  {
    NumberInside(o, k, i, d);
    if i == 8 {
      SameFields(e, d);
    } else {
      PlacesExact(k, i);
      var f := FieldAt(k, i);
      MixedRadix.DigitTake(Size(o, f), Get(d, f), NumberFrom(o, k, i + 1, d));
      DigitsOfNumber(o, k, i + 1, d, Set(e, f, Get(d, f)));
    }
  }

  /**
    Each template is a bijection between the transactions below the capacity and the in-range coordinates;
    larger transaction numbers wrap around.
   */
  lemma MappingIsBijection(o: Organization, k: Mapping)
    ensures forall line: nat ::
              InRange(o, Decoded(o, k, line)) && LineOf(o, k, Decoded(o, k, line)) == line % Capacity(o, k)
    ensures forall d: Coordinate | InRange(o, d) ::
              0 <= LineOf(o, k, d) < Capacity(o, k) && Decoded(o, k, LineOf(o, k, d)) == d
  {
    forall line: nat
      ensures InRange(o, Decoded(o, k, line)) && LineOf(o, k, Decoded(o, k, line)) == line % Capacity(o, k)
    {
      DigitsExact(o, k, 0, line, Origin());
      DigitsInRange(o, k, 0, line, Origin());
      InRangeIsFields(o, k, Decoded(o, k, line));
    }
    forall d: Coordinate | InRange(o, d)
      ensures 0 <= LineOf(o, k, d) < Capacity(o, k) && Decoded(o, k, LineOf(o, k, d)) == d
    {
      InRangeIsFields(o, k, d);
      NumberInside(o, k, 0, d);
      DigitsOfNumber(o, k, 0, d, Origin());
    }
  }

  lemma DecodedInjective(o: Organization, k: Mapping, a: nat, b: nat)
    requires a < Capacity(o, k) && b < Capacity(o, k) && Decoded(o, k, a) == Decoded(o, k, b)
    ensures a == b
  {
    DigitsExact(o, k, 0, a, Origin());
    DigitsExact(o, k, 0, b, Origin());
    MixedRadix.DigitTake(Capacity(o, k), a, 0);
    MixedRadix.DigitTake(Capacity(o, k), b, 0);
  }

  // ---------------------------------------------------------------- the decoder

  /** Takes the low digit off a number in place. */
  method TakeMod(value: nat, mod: pos) returns (digit: nat, rest: nat)
    ensures value == digit + rest * mod && digit < mod
  {
    MixedRadix.DigitSplit(mod, value);
    digit := value % mod;
    rest := value / mod;
  }

  lemma DigitsStep(o: Organization, k: Mapping, i: nat, line: nat, d: Coordinate, digit: nat, rest: nat)
    requires i < 8 && digit < Size(o, FieldAt(k, i)) && line == digit + rest * Size(o, FieldAt(k, i))
    ensures DigitsFrom(o, k, i, line, d) == DigitsFrom(o, k, i + 1, rest, Set(d, FieldAt(k, i), digit))
  {
    MixedRadix.DigitTake(Size(o, FieldAt(k, i)), digit, rest);
  }

  /** Takes one field of the coordinate; `i` is its place. */
  method TakeField(o: Organization, f: Field, line: nat, d: Coordinate, ghost k: Mapping, ghost i: nat)
    returns (rest: nat, e: Coordinate)
    requires i < 8 && FieldAt(k, i) == f
    ensures DigitsFrom(o, k, i, line, d) == DigitsFrom(o, k, i + 1, rest, e)
  {
    var digit;
    digit, rest := TakeMod(line, Size(o, f));
    e := Set(d, f, digit);
    DigitsStep(o, k, i, line, d, digit, rest);
  }

  method TakeBankComposite(o: Organization, line: nat, d: Coordinate, ghost k: Mapping, ghost i: nat)
    returns (rest: nat, e: Coordinate)
    requires i <= 4 && forall j: nat | j < 4 :: FieldAt(k, i + j) == CompositeAt(j)
    ensures DigitsFrom(o, k, i, line, d) == DigitsFrom(o, k, i + 4, rest, e)
  {
    rest, e := line, d;
    assert CompositeAt(0) == Bank && FieldAt(k, i + 0) == Bank;
    rest, e := TakeField(o, Bank, rest, e, k, i);
    assert CompositeAt(1) == BankGroup;
    rest, e := TakeField(o, BankGroup, rest, e, k, i + 1);
    assert CompositeAt(2) == PseudoChannel;
    rest, e := TakeField(o, PseudoChannel, rest, e, k, i + 2);
    assert CompositeAt(3) == Sid;
    rest, e := TakeField(o, Sid, rest, e, k, i + 3);
  }

  /** Decodes a byte address in the template's digit order. */
  method Decode(o: Organization, k: Mapping, transactionBytes: pos, address: nat) returns (d: Coordinate)
    ensures d == Decoded(o, k, address / transactionBytes)
  {
    MixedRadix.DigitSplit(transactionBytes, address);
    var line := address / transactionBytes;
    d := Origin();
    match k {
      case DefaultOrder =>
        line, d := TakeField(o, Column, line, d, k, 0);
        line, d := TakeBankComposite(o, line, d, k, 1);
        line, d := TakeField(o, Rank, line, d, k, 5);
        line, d := TakeField(o, Channel, line, d, k, 6);
        line, d := TakeField(o, Row, line, d, k, 7);
      case RoBaRaCoCh =>
        line, d := TakeField(o, Channel, line, d, k, 0);
        line, d := TakeField(o, Column, line, d, k, 1);
        line, d := TakeField(o, Rank, line, d, k, 2);
        line, d := TakeBankComposite(o, line, d, k, 3);
        line, d := TakeField(o, Row, line, d, k, 7);
      case ChRaBaRoCo =>
        line, d := TakeField(o, Column, line, d, k, 0);
        line, d := TakeField(o, Row, line, d, k, 1);
        line, d := TakeBankComposite(o, line, d, k, 2);
        line, d := TakeField(o, Rank, line, d, k, 6);
        line, d := TakeField(o, Channel, line, d, k, 7);
      case RoCoRaBaCh =>
        line, d := TakeField(o, Channel, line, d, k, 0);
        line, d := TakeBankComposite(o, line, d, k, 1);
        line, d := TakeField(o, Rank, line, d, k, 5);
        line, d := TakeField(o, Column, line, d, k, 6);
        line, d := TakeField(o, Row, line, d, k, 7);
    }
  }

  // ---------------------------------------------------------------- the sweep script's encoder

  lemma StrideStep(line: int, stride: int, x: int, n: int, size: int)
    ensures line + stride * (x + n * size) == (line + stride * x) + (stride * size) * n
  {
    assert stride * (x + n * size) == stride * x + stride * (n * size);
    assert stride * (n * size) == (stride * size) * n;
  }

  /** Adds one field with its stride. */
  method AddField(o: Organization, f: Field, line: int, stride: int, d: Coordinate, ghost i: nat)
    returns (more: int, wider: int)
    requires i < 8 && FieldAt(DefaultOrder, i) == f
    ensures more + wider * NumberFrom(o, DefaultOrder, i + 1, d) == line + stride * NumberFrom(o, DefaultOrder, i, d)
  {
    more := line + stride * Get(d, f);
    wider := stride * Size(o, f);
    StrideStep(line, stride, Get(d, f), NumberFrom(o, DefaultOrder, i + 1, d), Size(o, f));
  }

  /** The byte address of a coordinate in the default order. */
  method DefaultAddress(o: Organization, transactionBytes: pos, d: Coordinate) returns (address: int)
    ensures address == LineOf(o, DefaultOrder, d) * transactionBytes
  {
    var line, stride := 0, 1;
    line, stride := AddField(o, Column, line, stride, d, 0);
    line, stride := AddField(o, Bank, line, stride, d, 1);
    line, stride := AddField(o, BankGroup, line, stride, d, 2);
    line, stride := AddField(o, PseudoChannel, line, stride, d, 3);
    line, stride := AddField(o, Sid, line, stride, d, 4);
    line, stride := AddField(o, Rank, line, stride, d, 5);
    line, stride := AddField(o, Channel, line, stride, d, 6);
    line, stride := AddField(o, Row, line, stride, d, 7);
    address := line * transactionBytes;
  }

  /** The decoder undoes the sweep script's encoder, for every in-range coordinate. */
  lemma DefaultAddressDecodes(o: Organization, transactionBytes: pos, d: Coordinate)
    requires InRange(o, d)
    ensures
      var address := LineOf(o, DefaultOrder, d) * transactionBytes;
      address >= 0 && Decoded(o, DefaultOrder, address / transactionBytes) == d
  {
    MappingIsBijection(o, DefaultOrder);
    MixedRadix.DigitTake(transactionBytes, 0, LineOf(o, DefaultOrder, d));
    MixedRadix.MulMonotone(transactionBytes, 0, LineOf(o, DefaultOrder, d));
  }
}
