/** Bit maps kept in bytes: one bit per line, set, cleared, counted and listed in order. */
module Bitmaps {
  import opened Lines
  import opened Bits
  import opened EccShadow

  /** The bits of a map, one after the other. */
  function View(map_: Bytes): (v: seq<bool>)
    ensures |v| == 8 * |map_|
  {
    seq(8 * |map_|, k requires 0 <= k < 8 * |map_| => ByteBit(map_, k))
  }

  function SetBit(map_: Bytes, k: nat, value: bool): (r: Bytes)
    ensures |r| == |map_|
  {
    if ByteBit(map_, k) == value then map_ else FlipByteBit(map_, k)
  }

  lemma SetBitAt(map_: Bytes, k: nat, value: bool, j: nat)
    requires k < 8 * |map_|
    ensures ByteBit(SetBit(map_, k, value), j) == if j == k then value else ByteBit(map_, j)
  {
    if ByteBit(map_, k) != value { FlippedBits(map_, k, j); }
  }

  lemma SetBitExact(map_: Bytes, k: nat, value: bool)
    requires k < 8 * |map_|
    ensures View(SetBit(map_, k, value)) == View(map_)[k := value]
  {
    var after := SetBit(map_, k, value);
    forall j: nat | j < 8 * |map_|
      ensures View(after)[j] == View(map_)[k := value][j]
    {
      SetBitAt(map_, k, value, j);
    }
  }

  /** The set bits below `n`, in increasing order. */
  function Listed(v: seq<bool>, n: nat): seq<nat>
    requires n <= |v|
  {
    if n == 0 then [] else if v[n - 1] then Listed(v, n - 1) + [n - 1] else Listed(v, n - 1)
  }

  lemma {:induction false} ListedExact(v: seq<bool>, n: nat)
    requires n <= |v|
    ensures forall k: nat :: k in Listed(v, n) <==> k < n && v[k]
    ensures forall i, j | 0 <= i < j < |Listed(v, n)| :: Listed(v, n)[i] < Listed(v, n)[j]
    ensures |Listed(v, n)| == Counted(v, n)
  {
    if n > 0 {
      var before := Listed(v, n - 1);
      ListedExact(v, n - 1);
      forall i | 0 <= i < |before|
        ensures before[i] < n - 1
      {
        assert before[i] in before;
      }
    }
  }

  function Counted(v: seq<bool>, n: nat): nat
    requires n <= |v|
  {
    if n == 0 then 0 else Counted(v, n - 1) + if v[n - 1] then 1 else 0
  }

  /** Setting or clearing a bit changes the number of set bits by what it changes. */
  lemma {:induction false} UpdateCounts(v: seq<bool>, k: nat, value: bool, n: nat)
    requires k < |v| && n <= |v|
    ensures Counted(v[k := value], n) == Counted(v, n) + if k >= n || v[k] == value then 0 else if value then 1 else -1
  {
    if n > 0 { UpdateCounts(v, k, value, n - 1); }
  }

  /** Clear bits are not listed. */
  lemma {:induction false} ListedSkips(v: seq<bool>, a: nat, b: nat)
    requires a <= b <= |v| && forall k | a <= k < b :: !v[k]
    ensures Listed(v, b) == Listed(v, a)
  {
    if a < b { ListedSkips(v, a, b - 1); }
  }

  // ---------------------------------------------------------------- the lowest set bit

  function Lowest(v: nat): nat
    requires v != 0
  {
    if v % 2 == 1 then 0 else 1 + Lowest(v / 2)
  }

  lemma {:induction false} LowestExact(v: nat)
    requires v != 0
    ensures Bit(v, Lowest(v)) && forall k: nat | k < Lowest(v) :: !Bit(v, k)
  {
    if v % 2 == 0 {
      LowestExact(v / 2);
      forall k: nat | k < Lowest(v)
        ensures !Bit(v, k)
      {
        if k > 0 { assert !Bit(v / 2, k - 1); }
      }
    }
  }

  /** Clearing the lowest set bit the usual way. */
  lemma {:induction false} ClearLowest(v: nat, k: nat)
    requires v != 0
    ensures Bit(And(v, v - 1), k) <==> Bit(v, k) && k != Lowest(v)
    ensures And(v, v - 1) < v
  {
    if v % 2 == 1 {
      AndSelf(v / 2);
      assert And(v, v - 1) == 2 * (v / 2);
    } else {
      ClearLowest(v / 2, if k == 0 then 0 else k - 1);
      assert (v - 1) / 2 == v / 2 - 1;
      assert And(v, v - 1) == 2 * And(v / 2, v / 2 - 1);
    }
  }

  lemma {:induction false} HighBitsClear(v: nat, n: nat, k: nat)
    requires v < Pow2(n) && n <= k
    ensures !Bit(v, k)
  {
    if n == 0 { ZeroBits(k); } else { HighBitsClear(v / 2, n - 1, k - 1); }
  }

  lemma BitInByte(map_: Bytes, b: nat, k: nat)
    requires b < |map_| && k < 8
    ensures View(map_)[8 * b + k] <==> Bit(map_[b] as nat, k)
  {
    assert (8 * b + k) / 8 == b && (8 * b + k) % 8 == k;
  }

  /** `value` holds the bits of a byte from `from` on. */
  ghost predicate Rest(value: nat, whole: nat, from: nat) {
    forall k: nat :: Bit(value, k) <==> Bit(whole, k) && k >= from
  }

  lemma RestStep(value: nat, whole: nat, from: nat)
    requires value != 0 && Rest(value, whole, from)
    ensures from <= Lowest(value) && Bit(whole, Lowest(value))
    ensures ByteClear(whole, from, Lowest(value))
    ensures Rest(And(value, value - 1), whole, Lowest(value) + 1)
  {
    LowestExact(value);
    assert Bit(value, Lowest(value));
    forall k: nat | from <= k < Lowest(value)
      ensures !Bit(whole, k)
    {
      assert !Bit(value, k);
    }
    RestCleared(value, whole, from);
  }

  lemma RestCleared(value: nat, whole: nat, from: nat)
    requires value != 0 && Rest(value, whole, from)
    ensures Rest(And(value, value - 1), whole, Lowest(value) + 1)
  {
    LowestExact(value);
    forall k: nat {:trigger Bit(whole, k)}
      ensures Bit(And(value, value - 1), k) <==> Bit(whole, k) && k >= Lowest(value) + 1
    {
      ClearLowest(value, k);
      assert Bit(value, k) <==> Bit(whole, k) && k >= from;
    }
  }

  lemma RestGone(whole: nat, from: nat, k: nat)
    requires Rest(0, whole, from) && k >= from
    ensures !Bit(whole, k)
  {
    ZeroBits(k);
    assert Bit(0, k) <==> Bit(whole, k) && k >= from;
  }

  ghost predicate ByteClear(whole: nat, from: nat, to: nat) {
    forall k: nat :: from <= k < to ==> !Bit(whole, k)
  }

  /** Clear bits of a byte are not listed. */
  lemma ByteSkips(map_: Bytes, b: nat, from: nat, to: nat)
    requires b < |map_| && from <= to <= 8 && ByteClear(map_[b] as nat, from, to)
    ensures Listed(View(map_), 8 * b + to) == Listed(View(map_), 8 * b + from)
  {
    forall j | 8 * b + from <= j < 8 * b + to
      ensures !View(map_)[j]
    {
      BitInByte(map_, b, j - 8 * b);
    }
    ListedSkips(View(map_), 8 * b + from, 8 * b + to);
  }

  /** The lowest remaining bit of a byte is the next to list. */
  lemma NextListed(map_: Bytes, b: nat, from: nat, value: nat)
    requires b < |map_| && value != 0 && Rest(value, map_[b] as nat, from)
    ensures from <= Lowest(value) < 8
    ensures Listed(View(map_), 8 * b + Lowest(value)) == Listed(View(map_), 8 * b + from)
    ensures Listed(View(map_), 8 * b + Lowest(value) + 1) == Listed(View(map_), 8 * b + from) + [8 * b + Lowest(value)]
  {
    var bit := Lowest(value);
    RestStep(value, map_[b] as nat, from);
    ByteWidth();
    if bit >= 8 { HighBitsClear(map_[b] as nat, 8, bit); }
    ByteSkips(map_, b, from, bit);
    BitInByte(map_, b, bit);
  }

  /** Nothing is left to list in a byte whose remaining bits are gone. */
  lemma NothingListed(map_: Bytes, b: nat, from: nat, to: nat)
    requires b < |map_| && from <= to <= 8 && Rest(0, map_[b] as nat, from)
    ensures Listed(View(map_), 8 * b + to) == Listed(View(map_), 8 * b + from)
  {
    var whole := map_[b] as nat;
    forall k: nat | from <= k < to
      ensures !Bit(whole, k)
    {
      RestGone(whole, from, k);
    }
    assert ByteClear(whole, from, to);
    ByteSkips(map_, b, from, to);
  }

  lemma StopsListed(map_: Bytes, b: nat, from: nat, value: nat, to: nat)
    requires b < |map_| && value != 0 && Rest(value, map_[b] as nat, from) && from <= to <= Lowest(value) && to <= 8
    ensures Listed(View(map_), 8 * b + to) == Listed(View(map_), 8 * b + from)
  {
    RestStep(value, map_[b] as nat, from);
    ByteSkips(map_, b, from, to);
  }

  /** Lists the set bits of one byte, lowest first, up to `count`. */
  method VisitByte(map_: Bytes, b: nat, count: nat, before: seq<nat>) returns (visited: seq<nat>)
    requires b < |map_| && 8 * b < count <= 8 * |map_| && before == Listed(View(map_), 8 * b)
    ensures visited == Listed(View(map_), if 8 * b + 8 < count then 8 * b + 8 else count)
  {
    var value: nat := map_[b] as nat;
    ghost var from: nat := 0;
    visited := before;
    while value != 0
      invariant from <= 8 && 8 * b + from <= count && Rest(value, map_[b] as nat, from)
      invariant visited == Listed(View(map_), 8 * b + from)
      decreases value
    {
      var bit := Lowest(value);
      var index := b * 8 + bit;
      NextListed(map_, b, from, value);
      if index >= count {
        StopsListed(map_, b, from, value, count - 8 * b);
        return;
      }
      RestStep(value, map_[b] as nat, from);
      ClearLowest(value, 0);
      visited := visited + [index];
      value := And(value, value - 1);
      from := bit + 1;
    }
    NothingListed(map_, b, from, if 8 * b + 8 < count then 8 else count - 8 * b);
  }

  /** Bytes that hold `n` bits. */
  function CeilDiv8(n: nat): (r: nat)
    ensures n <= 8 * r < n + 8
  {
    n / 8 + if n % 8 == 0 then 0 else 1
  }

  /** Lists the set bits below `count`, byte by byte. */
  method VisitSetBits(map_: Bytes, count: nat) returns (visited: seq<nat>)
    requires count <= 8 * |map_|
    ensures visited == Listed(View(map_), count)
  {
    visited := [];
    var bytes := CeilDiv8(count);
    for b := 0 to bytes
      invariant visited == Listed(View(map_), if 8 * b < count then 8 * b else count)
    {
      visited := VisitByte(map_, b, count, visited);
    }
  }
}
