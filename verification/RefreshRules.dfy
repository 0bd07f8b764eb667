/** Refresh obligations: deadlines, credit, postponing, pulling in, and the rotation over banks. */
module RefreshRules {
  import opened Dram
  import MixedRadix

  datatype Policy = AllBank | PerBank

  /** What the refresh manager reads of the specification. */
  datatype Params = Params(org: Organization, multiplier: pos, supported: bool, policy: Policy, dualBank: bool,
                           nREFI: int, nREFIpb: int, hot: bool, hotMultiplier: int,
                           postponeLimit: nat, pullinLimit: nat, creditLimit: nat)

  /** Integer division rounding toward zero. */
  function Quotient(a: int, b: pos): int {
    if a >= 0 then a / b else -((-a) / b)
  }

  function Interval(p: Params): int {
    var base := if p.policy.AllBank? then p.nREFI else if p.nREFIpb > 0 then p.nREFIpb else p.nREFI;
    if p.hot then Max(1, Quotient(base, Max(1, p.hotMultiplier))) else base
  }

  predicate Enabled(p: Params) { p.supported && Interval(p) > 0 }

  /** The cycles between two deadlines of a rank. */
  function Ticks(p: Params): (r: nat)
    ensures Enabled(p) ==> r > 0
  {
    if Enabled(p) then (MixedRadix.MulMonotone(p.multiplier, 1, Interval(p)); Delay(p.multiplier, Interval(p)))
    else Delay(p.multiplier, Interval(p))
  }

  /** One rank's deadline, place in the rotation, and ledger. */
  datatype RankState = RankState(next: nat, sid: nat, bank: nat, credit: int, postpones: nat, pullins: nat)

  // ---------------------------------------------------------------- deadlines

  /** How many deadlines fall at or before `clk`, the first being `next`. */
  function Crossings(next: nat, clk: nat, ticks: nat): nat
    requires ticks > 0
  {
    if clk < next then 0 else 1 + (clk - next) / ticks
  }

  lemma CrossingsStep(next: nat, clk: nat, ticks: nat)
    requires ticks > 0 && next <= clk
    ensures Crossings(next, clk, ticks) == 1 + Crossings(next + ticks, clk, ticks)
  {
    MixedRadix.DigitSplit(ticks, clk - next);
    if clk < next + ticks {
      if (clk - next) / ticks > 0 { MixedRadix.MulMonotone(ticks, 1, (clk - next) / ticks); }
    } else {
      var x := clk - next - ticks;
      MixedRadix.DigitSplit(ticks, x);
      MixedRadix.DigitTake(ticks, x % ticks, x / ticks + 1);
      assert (x / ticks + 1) * ticks == (x / ticks) * ticks + ticks;
    }
  }

  /** The next deadline after those at or before `clk`. */
  lemma CrossingsReach(next: nat, clk: nat, ticks: nat)
    requires ticks > 0
    ensures clk < next + Crossings(next, clk, ticks) * ticks
    ensures Crossings(next, clk, ticks) > 0 ==> next + Crossings(next, clk, ticks) * ticks <= clk + ticks
    ensures clk < next + ticks ==> Crossings(next, clk, ticks) <= 1
    decreases if clk < next then 0 else clk - next + 1
  {
    if next <= clk {
      CrossingsStep(next, clk, ticks);
      CrossingsReach(next + ticks, clk, ticks);
      var n := Crossings(next + ticks, clk, ticks);
      assert (1 + n) * ticks == ticks + n * ticks;
    }
  }

  /** The rank after its due deadlines were counted. */
  function Crossed(p: Params, r: RankState, clk: nat, asleep: bool): RankState
    requires Ticks(p) > 0
  {
    var n := Crossings(r.next, clk, Ticks(p));
    var credit := if asleep then r.credit else r.credit + n;
    r.(next := r.next + n * Ticks(p), credit := credit, pullins := if credit >= 0 then 0 else r.pullins)
  }

  /** Counting one deadline first makes no difference. */
  lemma CrossedStep(p: Params, r: RankState, clk: nat, asleep: bool)
    requires Ticks(p) > 0 && r.next <= clk
    ensures Crossed(p, r, clk, asleep) ==
            Crossed(p, r.(next := r.next + Ticks(p), credit := if asleep then r.credit else r.credit + 1), clk, asleep)
  {
    CrossingsStep(r.next, clk, Ticks(p));
    var n := Crossings(r.next + Ticks(p), clk, Ticks(p));
    assert (1 + n) * Ticks(p) == Ticks(p) + n * Ticks(p);
  }

  // ---------------------------------------------------------------- decisions

  datatype Action = Skip | Postpone | Start

  predicate MayPostpone(p: Params, r: RankState, due: bool, prefer: bool) {
    due && prefer && p.postponeLimit > 0 && r.postpones < p.postponeLimit && (p.creditLimit == 0 || r.credit <= p.creditLimit)
  }

  /** What a rank with its deadlines counted asks for in this tick. */
  function Decide(p: Params, r: RankState, due: bool, prefer: bool): Action {
    if r.credit <= 0 then Skip
    else if MayPostpone(p, r, due, prefer) then Postpone
    else if prefer && !due && 0 < r.postpones < p.postponeLimit then Skip
    else Start
  }

  predicate MayPullIn(p: Params, r: RankState, clk: nat) {
    && r.credit == 0 && clk + Delay(p.multiplier, Max(1, Interval(p) / 2)) >= r.next && r.pullins < p.pullinLimit
  }

  // ---------------------------------------------------------------- the rotation

  /** The bank positions that one stack level goes through. */
  function Positions(p: Params): pos {
    var groups := if p.dualBank then Max(1, p.org.bankGroups / 2) else p.org.bankGroups;
    MixedRadix.MulMonotone(p.org.banksPerGroup, 1, groups);
    groups * p.org.banksPerGroup
  }

  function NextSid(p: Params, sid: nat, bank: nat): nat {
    if bank + 1 >= Positions(p) then (sid + 1) % p.org.sids else sid
  }

  function NextBank(p: Params, bank: nat): nat {
    if bank + 1 >= Positions(p) then 0 else bank + 1
  }

  /** Where the `n`-th batch of a rank stands: its stack level and its position there. */
  function SidOf(p: Params, n: nat): nat { (n / Positions(p)) % p.org.sids }

  function BankPosition(p: Params, n: nat): nat { n % Positions(p) }

  /** Stepping the two cursors goes from one batch's place to the next one's. */
  lemma CursorsFollow(p: Params, n: nat)
    ensures NextSid(p, SidOf(p, n), BankPosition(p, n)) == SidOf(p, n + 1)
    ensures NextBank(p, BankPosition(p, n)) == BankPosition(p, n + 1)
  {
    var m := Positions(p);
    var q, r := n / m, n % m;
    MixedRadix.DigitSplit(m, n);
    if r + 1 < m {
      MixedRadix.DigitTake(m, r + 1, q);
    } else {
      assert (q + 1) * m == q * m + m;
      MixedRadix.DigitTake(m, 0, q + 1);
      ModuloStep(q, p.org.sids);
    }
  }

  lemma ModuloStep(q: nat, n: pos)
    ensures (q % n + 1) % n == (q + 1) % n
  {
    MixedRadix.DigitSplit(n, q);
    var r := q % n;
    if r + 1 < n {
      MixedRadix.DigitTake(n, r + 1, q / n);
      MixedRadix.DigitTake(n, r + 1, 0);
    } else {
      assert (q / n + 1) * n == (q / n) * n + n;
      MixedRadix.DigitTake(n, 0, q / n + 1);
      MixedRadix.DigitTake(n, 0, 1);
    }
  }

  /** Over one full rotation, every position of every stack level comes up in exactly one batch. */
  lemma RotationVisitsOnce(p: Params, sid: nat, position: nat)
    requires sid < p.org.sids && position < Positions(p)
    ensures
      var n := position + sid * Positions(p);
      n < p.org.sids * Positions(p) && SidOf(p, n) == sid && BankPosition(p, n) == position
    ensures forall n: nat | n < p.org.sids * Positions(p) && SidOf(p, n) == sid && BankPosition(p, n) == position ::
              n == position + sid * Positions(p)
  {
    var m := Positions(p);
    MixedRadix.DigitBelow(m, p.org.sids, position, sid);
    MixedRadix.DigitTake(m, position, sid);
    MixedRadix.DigitTake(p.org.sids, sid, 0);
    forall n: nat | n < p.org.sids * m && SidOf(p, n) == sid && BankPosition(p, n) == position
      ensures n == position + sid * m
    {
      MixedRadix.DigitBound(m, p.org.sids, n);
      MixedRadix.DigitTake(p.org.sids, n / m, 0);
      MixedRadix.DigitSplit(m, n);
    }
  }

  // ---------------------------------------------------------------- the commands of a batch

  datatype Maintenance = Maintenance(command: Command, at: Coordinate)

  function Zero(): Coordinate { Coordinate(0, 0, 0, 0, 0, 0, 0, 0) }

  /** The bank that position `position` names; for dual-bank refresh the even bank group of its pair. */
  function Target(p: Params, channel: nat, pseudoChannel: nat, sid: nat, rank: nat, position: nat): Coordinate {
    var group := position / p.org.banksPerGroup;
    Zero().(channel := channel, pseudoChannel := pseudoChannel, sid := sid, rank := rank,
            bankGroup := if p.dualBank then group * 2 else group, bank := position % p.org.banksPerGroup)
  }

  /** The `k`-th command of a batch. */
  function BatchCommand(p: Params, rank: nat, r: RankState, k: nat): Maintenance {
    if p.policy.AllBank? then
      Maintenance(REFAB, Zero().(pseudoChannel := k / p.org.sids, sid := k % p.org.sids, rank := rank))
    else
      Maintenance(if p.dualBank then REFDB else REFPB,
                  Target(p, k / p.org.pseudoChannels, k % p.org.pseudoChannels, r.sid % p.org.sids, rank, r.bank % Positions(p)))
  }

  function BatchSize(p: Params): nat {
    if p.policy.AllBank? then p.org.pseudoChannels * p.org.sids else p.org.channels * p.org.pseudoChannels
  }

  /** The rank after a batch of its was started: one obligation paid, the rotation one place on. */
  function Started(p: Params, r: RankState, pulledIn: bool): RankState {
    var credit := r.credit - 1;
    RankState(r.next,
              if p.policy.AllBank? then r.sid else NextSid(p, r.sid, r.bank),
              if p.policy.AllBank? then r.bank else NextBank(p, r.bank),
              credit,
              if !pulledIn && credit <= 0 then 0 else r.postpones,
              if pulledIn then r.pullins + 1 else r.pullins)
  }
}
