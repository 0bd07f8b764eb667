/** Timing scopes: which commands share a bucket, and which buckets are siblings. */
module TimingScopes {
  import opened Dram
  import MixedRadix

  datatype TimingScope = Channel | PseudoChannel | Sid | Rank | BankGroup | Bank

  function Level(s: TimingScope): nat {
    match s
    case Channel => 0
    case PseudoChannel => 1
    case Sid => 2
    case Rank => 3
    case BankGroup => 4
    case Bank => 5
  }

  function Dimension(o: Organization, level: nat): pos {
    if level == 0 then o.channels else if level == 1 then o.pseudoChannels else if level == 2 then o.sids
    else if level == 3 then o.ranks else if level == 4 then o.bankGroups else o.banksPerGroup
  }

  function Field(d: Coordinate, level: nat): int {
    if level == 0 then d.channel else if level == 1 then d.pseudoChannel else if level == 2 then d.sid
    else if level == 3 then d.rank else if level == 4 then d.bankGroup else d.bank
  }

  /** A coordinate outside the organization counts as the nearest one inside. */
  function Clamped(o: Organization, d: Coordinate, level: nat): (x: nat)
    ensures x < Dimension(o, level)
  {
    Min(Max(Field(d, level), 0), Dimension(o, level) - 1)
  }

  /** The bucket number of `d` at a level: a mixed-radix number, one digit per level. */
  function Index(o: Organization, level: nat, d: Coordinate): nat {
    if level == 0 then Clamped(o, d, 0)
    else Clamped(o, d, level) + Index(o, level - 1, d) * Dimension(o, level)
  }

  function Count(o: Organization, level: nat): nat {
    if level == 0 then Dimension(o, 0) else Count(o, level - 1) * Dimension(o, level)
  }

  /** `a` and `b` agree in every coordinate down to `level`. */
  predicate SameBucket(o: Organization, level: nat, a: Coordinate, b: Coordinate) {
    forall l: nat | l <= level :: Clamped(o, a, l) == Clamped(o, b, l)
  }

  /** `a` and `b` lie under the same bucket of the next coarser level; all channels are siblings. */
  predicate SameParent(o: Organization, level: nat, a: Coordinate, b: Coordinate) {
    level == 0 || SameBucket(o, level - 1, a, b)
  }

  lemma {:induction false} IndexInside(o: Organization, level: nat, d: Coordinate)
    ensures Index(o, level, d) < Count(o, level)
  {
    if level > 0 {
      IndexInside(o, level - 1, d);
      MixedRadix.DigitBelow(Dimension(o, level), Count(o, level - 1), Clamped(o, d, level), Index(o, level - 1, d));
    }
  }

  lemma SameBucketStep(o: Organization, level: nat, a: Coordinate, b: Coordinate)
    requires level > 0
    ensures SameBucket(o, level, a, b) <==> SameBucket(o, level - 1, a, b) && Clamped(o, a, level) == Clamped(o, b, level)
  {
  }

  /** Bucket numbers are equal exactly when the coordinates agree down to that level. */
  lemma {:induction false} IndexExact(o: Organization, level: nat, a: Coordinate, b: Coordinate)
    ensures Index(o, level, a) == Index(o, level, b) <==> SameBucket(o, level, a, b)
  {
    if level > 0 {
      IndexExact(o, level - 1, a, b);
      SameBucketStep(o, level, a, b);
      if Index(o, level, a) == Index(o, level, b) {
        MixedRadix.DigitUnique(Dimension(o, level), Clamped(o, a, level), Index(o, level - 1, a),
                               Clamped(o, b, level), Index(o, level - 1, b));
      }
    }
  }

  /** The numbers of the buckets under the same parent as `d`: from the first up to the second. */
  function SiblingRange(o: Organization, level: nat, d: Coordinate): (nat, nat) {
    var begin := if level == 0 then 0 else Index(o, level - 1, d) * Dimension(o, level);
    (Min(begin, Count(o, level)), Min(begin + Dimension(o, level), Count(o, level)))
  }

  /** With `n` children each, child `low` of parent `q` is in parent `p`'s range exactly if `q` is `p`. */
  lemma ChildRange(n: pos, p: nat, q: nat, low: nat, parents: nat)
    requires low < n && p < parents && q < parents
    ensures p * n + n <= parents * n
    ensures p * n <= low + q * n < p * n + n <==> p == q
  {
    MixedRadix.MulMonotone(n, p + 1, parents);
    assert (p + 1) * n == p * n + n;
    if p < q { MixedRadix.DigitOrder(n, n - 1, p, low, q); }
    if q < p { MixedRadix.DigitOrder(n, low, q, 0, p); }
  }

  /** The sibling range holds exactly the buckets of coordinates under the same parent. */
  lemma SiblingExact(o: Organization, level: nat, d: Coordinate, e: Coordinate)
    ensures
      var (begin, end) := SiblingRange(o, level, d);
      begin <= Index(o, level, e) < end <==> SameParent(o, level, d, e)
  {
    if level == 0 { IndexInside(o, level, e); } else { ChildExact(o, level, d, e); }
  }

  lemma ChildExact(o: Organization, level: nat, d: Coordinate, e: Coordinate)
    requires level > 0
    ensures
      var (begin, end) := SiblingRange(o, level, d);
      begin <= Index(o, level, e) < end <==> SameBucket(o, level - 1, d, e)
  {
    IndexInside(o, level - 1, d);
    IndexInside(o, level - 1, e);
    IndexExact(o, level - 1, d, e);
    var (begin, end) := SiblingRange(o, level, d);
    ChildSlots(Dimension(o, level), Index(o, level - 1, d), Index(o, level - 1, e), Clamped(o, e, level), Count(o, level - 1),
               Index(o, level, e), Count(o, level), begin, end);
  }

  /** The same of a range cut off at all children there are. */
  lemma ChildSlots(n: pos, p: nat, q: nat, low: nat, parents: nat, x: int, total: int, begin: int, end: int)
    requires low < n && p < parents && q < parents && x == low + q * n && total == parents * n
    requires begin == Min(p * n, total) && end == Min(p * n + n, total)
    ensures begin <= x < end <==> p == q
  {
    ChildRange(n, p, q, low, parents);
  }

  /** Rank buckets are pseudo-channel buckets times the ranks in each, plus the rank's place in it. */
  lemma RankWithinPseudoChannel(o: Organization, d: Coordinate)
    ensures Index(o, 3, d) == Clamped(o, d, 3) + Clamped(o, d, 2) * o.ranks + Index(o, 1, d) * (o.sids * o.ranks)
    ensures 0 <= Clamped(o, d, 3) + Clamped(o, d, 2) * o.ranks < o.sids * o.ranks
    ensures Count(o, 3) == Count(o, 1) * (o.sids * o.ranks)
  {
    MixedRadix.DigitJoin(Clamped(o, d, 3), Clamped(o, d, 2), Index(o, 1, d), o.ranks, o.sids);
    MixedRadix.DigitBelow(o.ranks, o.sids, Clamped(o, d, 3), Clamped(o, d, 2));
    MixedRadix.DigitJoin(0, 0, Count(o, 1), o.ranks, o.sids);
    assert Index(o, 2, d) == Clamped(o, d, 2) + Index(o, 1, d) * o.sids;
    assert Count(o, 2) == Count(o, 1) * o.sids;
  }

  /** The ranks of a channel are the ranks of its pseudo-channel range. */
  lemma ChannelRanks(o: Organization, a: Coordinate, d: Coordinate)
    ensures
      var (begin, end) := SiblingRange(o, 1, a);
      begin * (o.sids * o.ranks) <= Index(o, 3, d) < end * (o.sids * o.ranks) <==> SameBucket(o, 0, a, d)
  {
    var (begin, end) := SiblingRange(o, 1, a);
    var r := o.sids * o.ranks;
    var low := Clamped(o, d, 3) + Clamped(o, d, 2) * o.ranks;
    RankWithinPseudoChannel(o, d);
    SiblingExact(o, 1, a, d);
    var i := Index(o, 1, d);
    if begin <= i { MixedRadix.MulMonotone(r, begin, i); } else { MixedRadix.DigitOrder(r, low, i, 0, begin); }
    if i < end { MixedRadix.DigitOrder(r, low, i, 0, end); } else { MixedRadix.MulMonotone(r, end, i); }
  }

  lemma RanksInside(o: Organization, a: Coordinate)
    ensures
      var (begin, end) := SiblingRange(o, 1, a);
      0 <= begin * (o.sids * o.ranks) <= end * (o.sids * o.ranks) <= Count(o, 3)
  {
    var (begin, end) := SiblingRange(o, 1, a);
    var r := o.sids * o.ranks;
    RankWithinPseudoChannel(o, a);
    SiblingExact(o, 1, a, a);
    MixedRadix.MulMonotone(r, 0, begin);
    MixedRadix.MulMonotone(r, begin, end);
    MixedRadix.MulMonotone(r, end, Count(o, 1));
  }
}
