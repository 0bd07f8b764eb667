/**
  Dual-bank refresh: each command refreshes a pair of banks, and no pair may be refreshed again
  before the sweep over all pairs of the rank completes or is synchronised.
 */
module RefdbSweep {
  import opened Dram
  import opened TimingScopes
  import opened TimingHistory
  import MixedRadix

  /** Dual-bank refresh needs an even number of bank groups. */
  predicate Paired(o: Organization) { o.bankGroups % 2 == 0 }

  function Pairs(o: Organization): nat { (o.bankGroups / 2) * o.banksPerGroup }

  function PairOf(o: Organization, d: Coordinate): int {
    (d.bankGroup / 2) * o.banksPerGroup + d.bank
  }

  lemma PairInside(o: Organization, d: Coordinate)
    requires Paired(o) && BankInRange(o, d)
    ensures 0 <= PairOf(o, d) < Pairs(o)
  {
    MixedRadix.DigitBelow(o.banksPerGroup, o.bankGroups / 2, d.bank, d.bankGroup / 2);
  }

  /** The partner is another bank of the same rank, and is its partner's partner. */
  lemma PartnerIsInvolution(o: Organization, d: Coordinate)
    requires Paired(o) && BankInRange(o, d)
    ensures
      var p := RefdbPartner(o, d);
      && BankInRange(o, p) && p.bankGroup != d.bankGroup && p == d.(bankGroup := p.bankGroup)
      && RefdbPartner(o, p) == d
  {
  }

  /** Two banks of a rank carry the same pair number exactly when they are equal or partners. */
  lemma PairExact(o: Organization, d: Coordinate, e: Coordinate)
    requires Paired(o) && BankInRange(o, d) && BankInRange(o, e)
    ensures PairOf(o, d) == PairOf(o, e) <==>
            d.bank == e.bank && (d.bankGroup == e.bankGroup || RefdbPartner(o, d).bankGroup == e.bankGroup)
  {
    if PairOf(o, d) == PairOf(o, e) {
      MixedRadix.DigitUnique(o.banksPerGroup, d.bank, d.bankGroup / 2, e.bank, e.bankGroup / 2);
    }
  }

  predicate InRank(s: Spec, e: Event, d: Coordinate) { SameBucket(s.org, 3, e.at, d) }

  predicate InChannel(s: Spec, e: Event, d: Coordinate) { SameBucket(s.org, 0, e.at, d) }

  /** The numbers below `n`. */
  function Below(n: nat): (r: set<nat>)
    ensures forall p: nat :: p in r <==> p < n
    ensures |r| == n
  {
    if n == 0 then {} else Below(n - 1) + {n - 1}
  }

  function AllPairs(o: Organization): set<nat> { Below(Pairs(o)) }

  function AddPair(s: Spec, before: set<nat>, e: Event): set<nat>
    requires 0 <= PairOf(s.org, e.at)
  {
    var now := before + {PairOf(s.org, e.at)};
    if now == AllPairs(s.org) then {} else now
  }

  predicate PlainEvent(s: Spec, e: Event) { e.command.REFDB? ==> BankInRange(s.org, e.at) && Paired(s.org) }

  function SweepStep(s: Spec, before: set<nat>, e: Event, d: Coordinate): set<nat>
    requires PlainEvent(s, e)
  {
    if e.command.REFDB? && InRank(s, e, d) then (PairInside(s.org, e.at); AddPair(s, before, e))
    else if e.command.REFAB? && InRank(s, e, d) then {}
    else if e.command.SREFEX? && InChannel(s, e, d) then {}
    else before
  }

  /** The pairs of the rank of `d` refreshed since its last completed sweep or synchronisation. */
  function Sweep(s: Spec, history: seq<Event>, d: Coordinate): set<nat>
    requires forall i | 0 <= i < |history| :: PlainEvent(s, history[i])
  {
    if history == [] then {}
    else SweepStep(s, Sweep(s, history[..|history| - 1], d), history[|history| - 1], d)
  }

  function ShortGap(s: Spec): int { if s.refdbShort > 0 then s.refdbShort else s.nRRDL }

  function LongGap(s: Spec): int { if s.refdbLong > 0 then s.refdbLong else ShortGap(s) }

  function GateStep(s: Spec, before: nat, sweep: set<nat>, e: Event, d: Coordinate): nat {
    if e.command.REFDB? && InRank(s, e, d) then
      e.cycle + Delay(s.multiplier, if sweep == {} then LongGap(s) else ShortGap(s))
    else if e.command.REFAB? && InRank(s, e, d) then e.cycle + Delay(s.multiplier, s.nRFC)
    else if e.command.SREFEX? && InChannel(s, e, d) then 0
    else before
  }

  /** The earliest cycle of the next dual-bank refresh of the rank of `d`, repeats aside. */
  function RefdbGate(s: Spec, history: seq<Event>, d: Coordinate): nat
    requires forall i | 0 <= i < |history| :: PlainEvent(s, history[i])
  {
    if history == [] then 0
    else GateStep(s, RefdbGate(s, history[..|history| - 1], d), Sweep(s, history, d), history[|history| - 1], d)
  }

  lemma SomePair(o: Organization)
    requires Paired(o)
    ensures Pairs(o) > 0 && 0 in AllPairs(o)
  {
    MixedRadix.MulMonotone(o.banksPerGroup, 1, o.bankGroups / 2);
  }

  lemma {:induction false} SweepInside(s: Spec, history: seq<Event>, d: Coordinate)
    requires forall i | 0 <= i < |history| :: PlainEvent(s, history[i])
    ensures forall p | p in Sweep(s, history, d) :: p < Pairs(s.org)
    ensures Paired(s.org) ==> Sweep(s, history, d) != AllPairs(s.org)
  {
    if history == [] {
      if Paired(s.org) { SomePair(s.org); }
    } else {
      var n := |history| - 1;
      SweepInside(s, history[..n], d);
      if history[n].command.REFDB? { PairInside(s.org, history[n].at); }
      if Paired(s.org) { SomePair(s.org); }
    }
  }

  /** No dual-bank refresh in the history repeated a pair of its sweep. */
  ghost predicate Admitted(s: Spec, history: seq<Event>) {
    && (forall i | 0 <= i < |history| :: PlainEvent(s, history[i]))
    && forall i | 0 <= i < |history| && history[i].command.REFDB? ::
         PairOf(s.org, history[i].at) !in Sweep(s, history[..i], history[i].at)
  }

  /** Until the sweep empties, a refreshed pair stays in it. */
  lemma {:induction false} PairStays(s: Spec, history: seq<Event>, d: Coordinate, i: nat, j: nat)
    requires forall k | 0 <= k < |history| :: PlainEvent(s, history[k])
    requires i < j <= |history| && history[i].command.REFDB? && InRank(s, history[i], d)
    requires forall k | i < k <= j :: Sweep(s, history[..k], d) != {}
    ensures PairOf(s.org, history[i].at) in Sweep(s, history[..j], d)
    decreases j
  {
    assert history[..j][..j - 1] == history[..j - 1];
    if i + 1 < j { PairStays(s, history, d, i, j - 1); }
  }

  /** Between two admitted refreshes of one pair of a rank, its sweep was completed or synchronised. */
  lemma NoRepeatWithinSweep(s: Spec, history: seq<Event>, i: nat, j: nat)
    requires Admitted(s, history) && i < j < |history|
    requires history[i].command.REFDB? && history[j].command.REFDB? && InRank(s, history[i], history[j].at)
    requires PairOf(s.org, history[i].at) == PairOf(s.org, history[j].at)
    ensures exists k | i < k <= j :: Sweep(s, history[..k], history[j].at) == {}
  {
    if forall k | i < k <= j :: Sweep(s, history[..k], history[j].at) != {} {
      PairStays(s, history, history[j].at, i, j);
    }
  }

  // ---------------------------------------------------------------- counting

  /** A set of `n` distinct numbers below `n` is all of them. */
  lemma {:induction false} FullSet(t: set<nat>, n: nat)
    requires forall p | p in t :: p < n
    ensures |t| <= n && (|t| == n <==> t == Below(n))
    decreases n
  {
    if n == 0 {
      assert t == {};
    } else {
      var u := t - {n - 1};
      FullSet(u, n - 1);
      if n - 1 in t { assert t == u + {n - 1}; } else { assert t == u; }
    }
  }

  // ---------------------------------------------------------------- the state kept per rank

  /** Refreshes counted in this sweep, the earliest next one, and which pairs were visited. */
  datatype RefdbState = RefdbState(count: nat, ready: nat, visited: seq<bool>)

  ghost predicate SweepTracks(o: Organization, r: RefdbState, sweep: set<nat>) {
    && |r.visited| == Pairs(o) && r.count == |sweep|
    && forall p: nat | p < |r.visited| :: r.visited[p] <==> p in sweep
  }

  /** The state of the rank of `d` is what the history calls for. */
  ghost predicate RankTracks(s: Spec, refdb: seq<RefdbState>, history: seq<Event>, d: Coordinate)
    requires forall i | 0 <= i < |history| :: PlainEvent(s, history[i])
  {
    var r := Index(s.org, 3, d);
    r < |refdb| && SweepTracks(s.org, refdb[r], Sweep(s, history, d)) && refdb[r].ready == RefdbGate(s, history, d)
  }

  function AfterRefdb(s: Spec, r: RefdbState, pair: int, cycle: nat): RefdbState {
    if Pairs(s.org) == 0 || !(0 <= pair < |r.visited|) then r
    else
      var count := (r.count + 1) % Pairs(s.org);
      if count == 0 then RefdbState(0, cycle + Delay(s.multiplier, LongGap(s)), seq(|r.visited|, _ => false))
      else RefdbState(count, cycle + Delay(s.multiplier, ShortGap(s)), r.visited[pair := true])
  }

  function Cleared(r: RefdbState, ready: nat): RefdbState {
    RefdbState(0, ready, seq(|r.visited|, _ => false))
  }

  /** The state of rank bucket `b` after an event. */
  function AfterEvent(s: Spec, r: RefdbState, e: Event, b: nat): RefdbState {
    var channel := SiblingRange(s.org, 1, e.at);
    if e.command.REFDB? then
      if b == Index(s.org, 3, e.at) then AfterRefdb(s, r, PairOf(s.org, e.at), e.cycle) else r
    else if e.command.REFAB? then
      if b == Index(s.org, 3, e.at) then Cleared(r, e.cycle + Delay(s.multiplier, s.nRFC)) else r
    else if e.command.SREFEX? && channel.0 * (s.org.sids * s.org.ranks) <= b < channel.1 * (s.org.sids * s.org.ranks) then
      Cleared(r, 0)
    else r
  }

  lemma AfterRefdbTracks(s: Spec, r: RefdbState, sweep: set<nat>, pair: nat, cycle: nat)
    requires Paired(s.org) && SweepTracks(s.org, r, sweep) && pair < Pairs(s.org) && pair !in sweep
    requires sweep != AllPairs(s.org) && forall p | p in sweep :: p < Pairs(s.org)
    ensures
      var now := sweep + {pair};
      var next := AfterRefdb(s, r, pair, cycle);
      && SweepTracks(s.org, next, if now == AllPairs(s.org) then {} else now)
      && next.ready == cycle + Delay(s.multiplier, if now == AllPairs(s.org) then LongGap(s) else ShortGap(s))
  {
    var n := Pairs(s.org);
    var now := sweep + {pair};
    assert |now| == |sweep| + 1;
    FullSet(now, n);
    FullSet(sweep, n);
    assert r.count + 1 == n <==> now == AllPairs(s.org);
    MixedRadix.CyclicStep(r.count, n);
  }

  lemma NonEmptySweep(s: Spec, before: set<nat>, e: Event)
    requires 0 <= PairOf(s.org, e.at)
    ensures AddPair(s, before, e) == {} <==> before + {PairOf(s.org, e.at)} == AllPairs(s.org)
  {
    assert PairOf(s.org, e.at) in before + {PairOf(s.org, e.at)};
  }

  lemma AdmittedExtend(s: Spec, history: seq<Event>, e: Event)
    requires Admitted(s, history) && PlainEvent(s, e)
    requires e.command.REFDB? ==> PairOf(s.org, e.at) !in Sweep(s, history, e.at)
    ensures Admitted(s, history + [e])
  {
    var more := history + [e];
    forall i | 0 <= i < |more| && more[i].command.REFDB?
      ensures PairOf(s.org, more[i].at) !in Sweep(s, more[..i], more[i].at)
    {
      if i < |history| { assert more[..i] == history[..i]; } else { assert more[..i] == history; }
    }
  }

  lemma SameRankSweep(s: Spec, history: seq<Event>, d: Coordinate, e: Coordinate)
    requires forall i | 0 <= i < |history| :: PlainEvent(s, history[i])
    requires SameBucket(s.org, 3, d, e)
    ensures Sweep(s, history, d) == Sweep(s, history, e)
  {
    if history != [] { SameRankSweep(s, history[..|history| - 1], d, e); }
  }

  /** What an event does to the state of the rank of `d`. */
  lemma AfterEventExact(s: Spec, r: RefdbState, e: Event, d: Coordinate)
    ensures AfterEvent(s, r, e, Index(s.org, 3, d)) ==
            if e.command.REFDB? && InRank(s, e, d) then AfterRefdb(s, r, PairOf(s.org, e.at), e.cycle)
            else if e.command.REFAB? && InRank(s, e, d) then Cleared(r, e.cycle + Delay(s.multiplier, s.nRFC))
            else if e.command.SREFEX? && InChannel(s, e, d) then Cleared(r, 0)
            else r
  {
    IndexExact(s.org, 3, e.at, d);
    ChannelRanks(s.org, e.at, d);
  }

  /** A rank's state follows its sweep and its gate through one event. */
  lemma EventTracked(s: Spec, r: RefdbState, sweep: set<nat>, e: Event, d: Coordinate)
    requires Paired(s.org) && PlainEvent(s, e) && SweepTracks(s.org, r, sweep)
    requires sweep != AllPairs(s.org) && forall p | p in sweep :: p < Pairs(s.org)
    requires e.command.REFDB? && InRank(s, e, d) ==> PairOf(s.org, e.at) !in sweep
    ensures
      var next := AfterEvent(s, r, e, Index(s.org, 3, d));
      SweepTracks(s.org, next, SweepStep(s, sweep, e, d)) && next.ready == GateStep(s, r.ready, SweepStep(s, sweep, e, d), e, d)
  {
    AfterEventExact(s, r, e, d);
    if e.command.REFDB? && InRank(s, e, d) {
      PairInside(s.org, e.at);
      AfterRefdbTracks(s, r, sweep, PairOf(s.org, e.at), e.cycle);
      NonEmptySweep(s, sweep, e);
    }
  }

  lemma SweepExtends(s: Spec, history: seq<Event>, e: Event, d: Coordinate)
    requires (forall i | 0 <= i < |history| :: PlainEvent(s, history[i])) && PlainEvent(s, e)
    ensures Sweep(s, history + [e], d) == SweepStep(s, Sweep(s, history, d), e, d)
    ensures RefdbGate(s, history + [e], d) == GateStep(s, RefdbGate(s, history, d), Sweep(s, history + [e], d), e, d)
  {
    assert (history + [e])[..|history|] == history;
  }

  /** The per-rank state keeps following the history through every event. */
  lemma RankStep(s: Spec, before: seq<RefdbState>, after: seq<RefdbState>, history: seq<Event>, e: Event, d: Coordinate)
    requires Paired(s.org) && Admitted(s, history) && PlainEvent(s, e)
    requires e.command.REFDB? ==> PairOf(s.org, e.at) !in Sweep(s, history, e.at)
    requires |after| == |before| && forall b: nat | b < |before| :: after[b] == AfterEvent(s, before[b], e, b)
    requires RankTracks(s, before, history, d)
    ensures RankTracks(s, after, history + [e], d)
  {
    SweepInside(s, history, d);
    if InRank(s, e, d) { SameRankSweep(s, history, e.at, d); }
    EventTracked(s, before[Index(s.org, 3, d)], Sweep(s, history, d), e, d);
    SweepExtends(s, history, e, d);
  }
}
