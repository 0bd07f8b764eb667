/** Whole runs of the refresh manager: every obligation is paid exactly once, in rotation order. */
module RefreshLedger {
  import opened Dram
  import opened RefreshRules
  import MixedRadix

  datatype Manager = Manager(ranks: seq<RankState>, cursor: nat, asleep: bool)

  /** What one tick decided. */
  datatype Outcome = Idle | Postponed(rank: nat) | Batch(rank: nat, pulledIn: bool)

  /** One tick's inputs, the self-refresh flag included. */
  datatype Input = Input(clk: nat, asleep: bool, prefer: bool, allowPullIn: bool)

  ghost predicate Sound(p: Params, m: Manager) { Enabled(p) && |m.ranks| == p.org.ranks && m.cursor < |m.ranks| }

  function CrossedAll(p: Params, ranks: seq<RankState>, clk: nat, asleep: bool): (r: seq<RankState>)
    requires Enabled(p)
    ensures |r| == |ranks|
  {
    seq(|ranks|, i requires 0 <= i < |ranks| => Crossed(p, ranks[i], clk, asleep))
  }

  /** The first rank from offset `k` on, in cyclic order, that has something to do. */
  function Scan(p: Params, before: seq<RankState>, ranks: seq<RankState>, input: Input, cursor: nat, k: nat): (o: Outcome)
    requires |before| == |ranks| && k <= |ranks|
    ensures !o.Idle? ==> o.rank < |ranks|
    decreases |ranks| - k
  {
    if k == |ranks| then Idle
    else
      var i := (cursor + k) % |ranks|;
      match Decide(p, ranks[i], before[i].next <= input.clk, input.prefer)
      case Skip => Scan(p, before, ranks, input, cursor, k + 1)
      case Postpone => Postponed(i)
      case Start => Batch(i, false)
  }

  /** The first rank from offset `k` on that may refresh ahead of its deadline. */
  function ScanAhead(p: Params, ranks: seq<RankState>, clk: nat, cursor: nat, k: nat): (o: Outcome)
    requires k <= |ranks|
    ensures !o.Idle? ==> o.rank < |ranks|
    decreases |ranks| - k
  {
    if k == |ranks| then Idle
    else
      var i := (cursor + k) % |ranks|;
      if MayPullIn(p, ranks[i], clk) then Batch(i, true) else ScanAhead(p, ranks, clk, cursor, k + 1)
  }

  function Choice(p: Params, m: Manager, input: Input): (o: Outcome)
    requires Enabled(p)
    ensures !o.Idle? ==> o.rank < |m.ranks|
  {
    if input.asleep then Idle
    else
      var ranks := CrossedAll(p, m.ranks, input.clk, false);
      var first := Scan(p, m.ranks, ranks, input, m.cursor, 0);
      if first.Idle? && input.allowPullIn && p.pullinLimit > 0 then ScanAhead(p, ranks, input.clk, m.cursor, 0) else first
  }

  /** The ranks after an outcome. */
  function Served(p: Params, ranks: seq<RankState>, o: Outcome): seq<RankState>
    requires !o.Idle? ==> o.rank < |ranks|
  {
    match o
    case Idle => ranks
    case Postponed(i) => ranks[i := ranks[i].(postpones := ranks[i].postpones + 1)]
    case Batch(i, pulledIn) => ranks[i := Started(p, ranks[i], pulledIn)]
  }

  /** The manager after a tick. */
  function Ticked(p: Params, m: Manager, input: Input): Manager
    requires Enabled(p)
  {
    var o := Choice(p, m, input);
    Manager(Served(p, CrossedAll(p, m.ranks, input.clk, input.asleep), o),
            if o.Idle? then m.cursor else (o.rank + 1) % |m.ranks|, input.asleep)
  }

  /** The rank at a place of the scan. */
  function RankAt(cursor: nat, place: nat, n: pos): nat { (cursor + place) % n }

  /** The rank at this place of the scan has nothing to do. */
  predicate PassesAt(p: Params, before: seq<RankState>, ranks: seq<RankState>, input: Input, cursor: nat, place: nat)
    requires |before| == |ranks| && ranks != []
  {
    var i := RankAt(cursor, place, |ranks|);
    Decide(p, ranks[i], before[i].next <= input.clk, input.prefer).Skip?
  }

  /** The scan acts on the first rank, in cyclic order from the cursor, that has something to do. */
  lemma {:induction false} ScanIsFirst(p: Params, before: seq<RankState>, ranks: seq<RankState>, input: Input, cursor: nat, k: nat)
    requires |before| == |ranks| && ranks != [] && k <= |ranks|
    ensures
      var o := Scan(p, before, ranks, input, cursor, k);
      if o.Idle? then
        forall j: nat | k <= j < |ranks| :: PassesAt(p, before, ranks, input, cursor, j)
      else
        exists j: nat | k <= j < |ranks| && !PassesAt(p, before, ranks, input, cursor, j) ::
          && o.rank == RankAt(cursor, j, |ranks|)
          && forall l: nat | k <= l < j :: PassesAt(p, before, ranks, input, cursor, l)
    decreases |ranks| - k
  {
    if k < |ranks| {
      if PassesAt(p, before, ranks, input, cursor, k) {
        ScanIsFirst(p, before, ranks, input, cursor, k + 1);
      }
    }
  }

  // ---------------------------------------------------------------- runs

  function Initial(p: Params, start: nat): Manager {
    Manager(seq(p.org.ranks, _ => RankState(start + Ticks(p), 0, 0, 0, 0, 0)), 0, false)
  }

  ghost predicate InOrder(start: nat, inputs: seq<Input>) {
    && (forall i | 0 <= i < |inputs| :: start <= inputs[i].clk)
    && forall i, j | 0 <= i < j < |inputs| :: inputs[i].clk <= inputs[j].clk
  }

  function After(p: Params, start: nat, inputs: seq<Input>): Manager
    requires Enabled(p)
  {
    if inputs == [] then Initial(p, start)
    else Ticked(p, After(p, start, inputs[..|inputs| - 1]), inputs[|inputs| - 1])
  }

  /** Deadlines at `start + ticks`, `start + 2 * ticks` and so on that fall at or before `clk`. */
  function Due(start: nat, ticks: nat, clk: nat): nat
    requires ticks > 0
  {
    if clk < start then 0 else (clk - start) / ticks
  }

  function LastCycle(start: nat, inputs: seq<Input>): nat {
    if inputs == [] then start else inputs[|inputs| - 1].clk
  }

  /** Deadlines first seen by a tick outside self-refresh. */
  function AwakeDeadlines(p: Params, start: nat, inputs: seq<Input>): int
    requires Enabled(p)
  {
    if inputs == [] then 0
    else
      var n := |inputs| - 1;
      AwakeDeadlines(p, start, inputs[..n])
      + if inputs[n].asleep then 0 else Due(start, Ticks(p), inputs[n].clk) - Due(start, Ticks(p), LastCycle(start, inputs[..n]))
  }

  /** Batches started for a rank. */
  function Batches(p: Params, start: nat, inputs: seq<Input>, rank: nat): nat
    requires Enabled(p)
  {
    if inputs == [] then 0
    else
      var n := |inputs| - 1;
      var o := Choice(p, After(p, start, inputs[..n]), inputs[n]);
      Batches(p, start, inputs[..n], rank) + if o.Batch? && o.rank == rank then 1 else 0
  }

  /** What holds of a rank's state, given the deadlines it has met and the batches it started. */
  ghost predicate Balanced(p: Params, start: nat, clk: nat, r: RankState, deadlines: int, batches: nat)
    requires Enabled(p)
  {
    && r.next == start + (Due(start, Ticks(p), clk) + 1) * Ticks(p)
    && r.credit == deadlines - batches
    && r.credit >= -1 && r.pullins == (if r.credit < 0 then 1 else 0)
    && (r.credit <= 0 ==> r.postpones == 0) && r.postpones <= p.postponeLimit
    && (p.policy.PerBank? ==> r.sid == SidOf(p, batches) && r.bank == BankPosition(p, batches))
  }

  lemma CrossingsAreDue(start: nat, ticks: nat, before: nat, clk: nat)
    requires ticks > 0 && start <= before <= clk
    ensures
      var next := start + (Due(start, ticks, before) + 1) * ticks;
      && Crossings(next, clk, ticks) == Due(start, ticks, clk) - Due(start, ticks, before)
      && next + Crossings(next, clk, ticks) * ticks == start + (Due(start, ticks, clk) + 1) * ticks
  {
    var d := Due(start, ticks, before);
    var next := start + (d + 1) * ticks;
    MixedRadix.DigitSplit(ticks, before - start);
    assert (d + 1) * ticks == d * ticks + ticks;
    if clk < next {
      MixedRadix.DigitTake(ticks, clk - start - d * ticks, d);
    } else {
      var x := clk - next;
      var q := x / ticks;
      MixedRadix.DigitSplit(ticks, x);
      assert (q + (d + 1)) * ticks == q * ticks + (d + 1) * ticks;
      MixedRadix.DigitTake(ticks, x % ticks, q + (d + 1));
    }
    var n := Crossings(next, clk, ticks);
    assert (d + 1 + n) * ticks == (d + 1) * ticks + n * ticks;
  }

  /** Counting the due deadlines keeps the balance, with the rank's old pull-in count cleared once it is repaid. */
  lemma CrossedBalanced(p: Params, start: nat, before: nat, clk: nat, r: RankState, deadlines: int, batches: nat, asleep: bool)
    requires Enabled(p) && Balanced(p, start, before, r, deadlines, batches) && start <= before <= clk
    ensures
      var more := if asleep then 0 else Due(start, Ticks(p), clk) - Due(start, Ticks(p), before);
      more >= 0 && Balanced(p, start, clk, Crossed(p, r, clk, asleep), deadlines + more, batches)
  {
    CrossingsAreDue(start, Ticks(p), before, clk);
  }

  lemma StartedBalanced(p: Params, start: nat, clk: nat, r: RankState, deadlines: int, batches: nat, pulledIn: bool)
    requires Enabled(p) && Balanced(p, start, clk, r, deadlines, batches)
    requires if pulledIn then r.credit == 0 else r.credit > 0
    ensures Balanced(p, start, clk, Started(p, r, pulledIn), deadlines, batches + 1)
  {
    CursorsFollow(p, batches);
  }

  lemma ScanDecides(p: Params, before: seq<RankState>, ranks: seq<RankState>, input: Input, cursor: nat, k: nat)
    requires |before| == |ranks| && k <= |ranks|
    ensures
      var o := Scan(p, before, ranks, input, cursor, k);
      && (o.Postponed? ==> MayPostpone(p, ranks[o.rank], before[o.rank].next <= input.clk, input.prefer) && ranks[o.rank].credit > 0)
      && (o.Batch? ==> ranks[o.rank].credit > 0 && !o.pulledIn)
    decreases |ranks| - k
  {
  }

  lemma ScanAheadDecides(p: Params, ranks: seq<RankState>, clk: nat, cursor: nat, k: nat)
    requires k <= |ranks|
    ensures
      var o := ScanAhead(p, ranks, clk, cursor, k);
      !o.Idle? ==> o.Batch? && o.pulledIn && ranks[o.rank].credit == 0
    decreases |ranks| - k
  {
  }

  lemma OutcomeDecides(p: Params, m: Manager, input: Input)
    requires Enabled(p)
    ensures
      var o := Choice(p, m, input);
      var ranks := CrossedAll(p, m.ranks, input.clk, input.asleep);
      && (o.Postponed? ==> ranks[o.rank].postpones < p.postponeLimit && ranks[o.rank].credit > 0)
      && (o.Batch? ==> if o.pulledIn then ranks[o.rank].credit == 0 else ranks[o.rank].credit > 0)
  {
    var ranks := CrossedAll(p, m.ranks, input.clk, false);
    ScanDecides(p, m.ranks, ranks, input, m.cursor, 0);
    ScanAheadDecides(p, ranks, input.clk, m.cursor, 0);
  }

  lemma {:induction false} RunKeepsCount(p: Params, start: nat, inputs: seq<Input>)
    requires Enabled(p)
    ensures |After(p, start, inputs).ranks| == p.org.ranks && After(p, start, inputs).cursor < p.org.ranks
  {
    if inputs != [] { RunKeepsCount(p, start, inputs[..|inputs| - 1]); }
  }

  /** The balance after a tick from `m` to `n`. */
  lemma TickBalanced(p: Params, start: nat, before: nat, m: Manager, input: Input, n: Manager, rank: nat,
                     deadlines: int, batches: nat, deadlines': int, batches': nat)
    requires Enabled(p) && rank < |m.ranks| && start <= before <= input.clk && n == Ticked(p, m, input)
    requires Balanced(p, start, before, m.ranks[rank], deadlines, batches)
    requires deadlines' == deadlines + if input.asleep then 0 else Due(start, Ticks(p), input.clk) - Due(start, Ticks(p), before)
    requires
      var o := Choice(p, m, input);
      batches' == batches + if o.Batch? && o.rank == rank then 1 else 0
    ensures |n.ranks| == |m.ranks| && Balanced(p, start, input.clk, n.ranks[rank], deadlines', batches')
  {
    CrossedBalanced(p, start, before, input.clk, m.ranks[rank], deadlines, batches, input.asleep);
    var r := Crossed(p, m.ranks[rank], input.clk, input.asleep);
    var o := Choice(p, m, input);
    OutcomeDecides(p, m, input);
    if o.Batch? && o.rank == rank { StartedBalanced(p, start, input.clk, r, deadlines', batches, o.pulledIn); }
  }

  lemma InitialBalanced(p: Params, start: nat, rank: nat)
    requires Enabled(p) && rank < p.org.ranks
    ensures Balanced(p, start, start, Initial(p, start).ranks[rank], 0, 0)
  {
    MixedRadix.DigitTake(Ticks(p), 0, 0);
    MixedRadix.DigitTake(Positions(p), 0, 0);
    MixedRadix.DigitTake(p.org.sids, 0, 0);
  }

  /** The ledger's quantities after one more tick. */
  lemma LedgerStep(p: Params, start: nat, before: seq<Input>, x: Input, rank: nat)
    requires Enabled(p)
    ensures After(p, start, before + [x]) == Ticked(p, After(p, start, before), x) && LastCycle(start, before + [x]) == x.clk
    ensures AwakeDeadlines(p, start, before + [x]) == AwakeDeadlines(p, start, before)
              + if x.asleep then 0 else Due(start, Ticks(p), x.clk) - Due(start, Ticks(p), LastCycle(start, before))
    ensures
      var o := Choice(p, After(p, start, before), x);
      Batches(p, start, before + [x], rank) == Batches(p, start, before, rank) + if o.Batch? && o.rank == rank then 1 else 0
  {
    assert (before + [x])[..|before|] == before;
  }

  lemma ConservedStep(p: Params, start: nat, before: seq<Input>, x: Input, rank: nat)
    requires Enabled(p) && start <= LastCycle(start, before) <= x.clk && rank < |After(p, start, before).ranks|
    requires Balanced(p, start, LastCycle(start, before), After(p, start, before).ranks[rank],
                      AwakeDeadlines(p, start, before), Batches(p, start, before, rank))
    ensures |After(p, start, before + [x]).ranks| == |After(p, start, before).ranks|
    ensures Balanced(p, start, x.clk, After(p, start, before + [x]).ranks[rank],
                     AwakeDeadlines(p, start, before + [x]), Batches(p, start, before + [x], rank))
  {
    var now := before + [x];
    LedgerStep(p, start, before, x, rank);
    TickBalanced(p, start, LastCycle(start, before), After(p, start, before), x, After(p, start, now), rank,
                 AwakeDeadlines(p, start, before), Batches(p, start, before, rank),
                 AwakeDeadlines(p, start, now), Batches(p, start, now, rank));
  }

  /**
    In every run, for every rank: the credit is the deadlines seen outside self-refresh minus the batches
    started; it never drops below -1, at most one refresh is ahead, no more than the limit are postponed,
    and the rotation stands exactly where the number of batches puts it.
   */
  lemma {:induction false} ObligationsConserved(p: Params, start: nat, inputs: seq<Input>, rank: nat)
    requires Enabled(p) && InOrder(start, inputs) && rank < p.org.ranks
    ensures |After(p, start, inputs).ranks| == p.org.ranks
    ensures Balanced(p, start, LastCycle(start, inputs), After(p, start, inputs).ranks[rank],
                     AwakeDeadlines(p, start, inputs), Batches(p, start, inputs, rank))
  {
    RunKeepsCount(p, start, inputs);
    if inputs == [] {
      InitialBalanced(p, start, rank);
    } else {
      var before, x := inputs[..|inputs| - 1], inputs[|inputs| - 1];
      assert inputs == before + [x];
      ObligationsConserved(p, start, before, rank);
      ConservedStep(p, start, before, x, rank);
    }
  }

  /** Without self-refresh the deadlines seen are all those at or before the last tick. */
  lemma {:induction false} AwakeSeesAll(p: Params, start: nat, inputs: seq<Input>)
    requires Enabled(p) && InOrder(start, inputs) && forall i | 0 <= i < |inputs| :: !inputs[i].asleep
    ensures AwakeDeadlines(p, start, inputs) == Due(start, Ticks(p), LastCycle(start, inputs))
  {
    if inputs == [] {
      MixedRadix.DigitTake(Ticks(p), 0, 0);
    } else {
      AwakeSeesAll(p, start, inputs[..|inputs| - 1]);
    }
  }

  // ---------------------------------------------------------------- the bound on what is owed

  /** Ticks at most `gap` cycles apart; a tick every cycle for a gap of one. */
  ghost predicate Spaced(start: nat, inputs: seq<Input>, gap: nat) {
    inputs == []
    || var n := |inputs| - 1;
       && Spaced(start, inputs[..n], gap)
       && LastCycle(start, inputs[..n]) < inputs[n].clk <= LastCycle(start, inputs[..n]) + gap
  }

  /** No rank owes more than it has postponed. */
  ghost predicate OwesOnlyPostponed(m: Manager) {
    forall rank: nat | rank < |m.ranks| :: m.ranks[rank].credit <= m.ranks[rank].postpones
  }

  lemma {:induction false} SpacedInOrder(start: nat, inputs: seq<Input>, gap: nat)
    requires Spaced(start, inputs, gap)
    ensures InOrder(start, inputs)
    ensures forall i | 0 <= i < |inputs| :: inputs[i].clk <= LastCycle(start, inputs)
  {
    if inputs != [] {
      var n := |inputs| - 1;
      SpacedInOrder(start, inputs[..n], gap);
      forall i | 0 <= i < n ensures start <= inputs[i].clk <= inputs[n].clk {
        assert inputs[..n][i] == inputs[i];
      }
      forall i, j | 0 <= i < j < |inputs| ensures inputs[i].clk <= inputs[j].clk {
        if j < n { assert inputs[..n][i] == inputs[i] && inputs[..n][j] == inputs[j]; }
      }
    }
  }

  /** After every tick each rank's next deadline lies ahead of the clock. */
  lemma NextIsAhead(p: Params, start: nat, inputs: seq<Input>, rank: nat)
    requires Enabled(p) && InOrder(start, inputs) && rank < p.org.ranks
    ensures |After(p, start, inputs).ranks| == p.org.ranks
    ensures LastCycle(start, inputs) < After(p, start, inputs).ranks[rank].next
  {
    ObligationsConserved(p, start, inputs, rank);
    var clk := LastCycle(start, inputs);
    MixedRadix.DigitSplit(Ticks(p), clk - start);
    var d := Due(start, Ticks(p), clk);
    assert (d + 1) * Ticks(p) == d * Ticks(p) + Ticks(p);
  }

  /** A single rank ticked often enough to see its deadlines one at a time owes at most what it has postponed. */
  lemma {:induction false} OneRankOwesPostponed(p: Params, start: nat, inputs: seq<Input>, gap: nat)
    requires Enabled(p) && p.org.ranks == 1 && Spaced(start, inputs, gap) && gap <= Ticks(p)
    ensures |After(p, start, inputs).ranks| == 1
    ensures
      var r := After(p, start, inputs).ranks[0];
      r.credit <= r.postpones <= p.postponeLimit
  {
    RunKeepsCount(p, start, inputs);
    SpacedInOrder(start, inputs, gap);
    OwesWithinLimit(p, start, inputs);
    if inputs != [] {
      var n := |inputs| - 1;
      var m := After(p, start, inputs[..n]);
      OneRankOwesPostponed(p, start, inputs[..n], gap);
      RunKeepsCount(p, start, inputs[..n]);
      SpacedInOrder(start, inputs[..n], gap);
      NextIsAhead(p, start, inputs[..n], 0);
      CrossingsReach(m.ranks[0].next, inputs[n].clk, Ticks(p));
      OneRankTick(p, m, inputs[n]);
    }
  }

  lemma OwesWithinLimit(p: Params, start: nat, inputs: seq<Input>)
    requires Enabled(p) && InOrder(start, inputs)
    ensures |After(p, start, inputs).ranks| == p.org.ranks && After(p, start, inputs).ranks[0].postpones <= p.postponeLimit
  {
    ObligationsConserved(p, start, inputs, 0);
  }

  lemma OneRankTick(p: Params, m: Manager, input: Input)
    requires Enabled(p) && |m.ranks| == 1 && m.cursor == 0
    requires Crossings(m.ranks[0].next, input.clk, Ticks(p)) <= 1
    requires m.ranks[0].credit <= m.ranks[0].postpones
    ensures Ticked(p, m, input).ranks[0].credit <= Ticked(p, m, input).ranks[0].postpones
  {
    var ranks := CrossedAll(p, m.ranks, input.clk, input.asleep);
    ScanIsFirst(p, m.ranks, ranks, input, 0, 0);
    OutcomeDecides(p, m, input);
  }

  /** A tick that neither prefers requests nor refreshes ahead. */
  function Plain(clk: nat): Input { Input(clk, false, false, false) }

  lemma SpacedStep(start: nat, before: seq<Input>, x: Input, gap: nat)
    requires Spaced(start, before, gap) && LastCycle(start, before) < x.clk <= LastCycle(start, before) + gap
    ensures Spaced(start, before + [x], gap)
  {
    assert (before + [x])[..|before|] == before;
  }

  lemma QuietStep(p: Params, start: nat, before: seq<Input>, clk: nat)
    requires Enabled(p) && After(p, start, before) == Initial(p, start) && clk < start + Ticks(p)
    ensures After(p, start, before + [Plain(clk)]) == Initial(p, start)
    ensures LastCycle(start, before + [Plain(clk)]) == clk
  {
    QuietTick(p, start, clk);
    LedgerStep(p, start, before, Plain(clk), 0);
  }

  /** Plain ticks every cycle before the first deadline do nothing. */
  lemma {:induction false} QuietRun(p: Params, start: nat, n: nat) returns (inputs: seq<Input>)
    requires Enabled(p) && n < Ticks(p)
    ensures After(p, start, inputs) == Initial(p, start)
    ensures Spaced(start, inputs, 1) && LastCycle(start, inputs) == start + n
  {
    if n == 0 {
      inputs := [];
    } else {
      var before := QuietRun(p, start, n - 1);
      QuietStep(p, start, before, start + n);
      SpacedStep(start, before, Plain(start + n), 1);
      inputs := before + [Plain(start + n)];
    }
  }

  lemma QuietTick(p: Params, start: nat, clk: nat)
    requires Enabled(p) && clk < start + Ticks(p)
    ensures Ticked(p, Initial(p, start), Plain(clk)) == Initial(p, start)
  {
    var m := Initial(p, start);
    var ranks := CrossedAll(p, m.ranks, clk, false);
    assert ranks == m.ranks;
    ScanIsFirst(p, m.ranks, ranks, Plain(clk), 0, 0);
  }

  lemma {:induction false} SpacedWider(start: nat, inputs: seq<Input>, gap: nat, wider: nat)
    requires Spaced(start, inputs, gap) && gap <= wider
    ensures Spaced(start, inputs, wider)
  {
    if inputs != [] { SpacedWider(start, inputs[..|inputs| - 1], gap, wider); }
  }

  /** When deadlines fall due in one tick, rank 0 pays one of its own and the other ranks pay none. */
  lemma DueTick(p: Params, start: nat, clk: nat)
    requires Enabled(p) && start + Ticks(p) <= clk
    ensures
      var m := Ticked(p, Initial(p, start), Plain(clk));
      var n := Crossings(start + Ticks(p), clk, Ticks(p));
      && |m.ranks| == p.org.ranks
      && forall rank: nat | rank < |m.ranks| ::
           m.ranks[rank].postpones == 0 && m.ranks[rank].credit == if rank == 0 then n - 1 else n
  {
    var m := Initial(p, start);
    var ranks := CrossedAll(p, m.ranks, clk, false);
    ScanIsFirst(p, m.ranks, ranks, Plain(clk), 0, 0);
    assert !PassesAt(p, m.ranks, ranks, Plain(clk), 0, 0);
    assert RankAt(0, 0, |ranks|) == 0;
    assert Choice(p, m, Plain(clk)) == Batch(0, false);
  }

  /** Quiet cycles up to just before the first deadline, then a tick at `clk`. */
  lemma OverdueRun(p: Params, start: nat, clk: nat, gap: nat) returns (inputs: seq<Input>)
    requires Enabled(p) && start + Ticks(p) <= clk < start + Ticks(p) + gap
    ensures After(p, start, inputs) == Ticked(p, Initial(p, start), Plain(clk)) && Spaced(start, inputs, gap)
  {
    var before := QuietRun(p, start, Ticks(p) - 1);
    SpacedWider(start, before, 1, gap);
    SpacedStep(start, before, Plain(clk), gap);
    LedgerStep(p, start, before, Plain(clk), 0);
    inputs := before + [Plain(clk)];
  }

  lemma SoonDue(next: nat, ticks: nat)
    requires ticks > 0
    ensures Crossings(next, next, ticks) == 1 && Crossings(next, next + ticks, ticks) == 2
  {
    CrossingsStep(next, next, ticks);
    CrossingsStep(next, next + ticks, ticks);
    CrossingsStep(next + ticks, next + ticks, ticks);
  }

  /**
    Ticked at most `gap` cycles apart, a manager never owes more on any rank than it has postponed there
    exactly if it has one rank and the gap is no longer than the time between two deadlines.
   */
  lemma OwedExact(p: Params, start: nat, gap: nat)
    requires Enabled(p) && gap > 0
    ensures (forall inputs | Spaced(start, inputs, gap) :: OwesOnlyPostponed(After(p, start, inputs)))
            <==> p.org.ranks == 1 && gap <= Ticks(p)
  {
    if p.org.ranks == 1 && gap <= Ticks(p) {
      forall inputs | Spaced(start, inputs, gap) ensures OwesOnlyPostponed(After(p, start, inputs)) {
        OneRankOwesPostponed(p, start, inputs, gap);
      }
    } else {
      OwesMore(p, start, gap);
    }
  }

  /** Otherwise: with a second rank its first deadline already goes unpaid, with longer gaps two fall due at once. */
  lemma OwesMore(p: Params, start: nat, gap: nat)
    requires Enabled(p) && gap > 0 && (p.org.ranks > 1 || gap > Ticks(p))
    ensures exists inputs :: Spaced(start, inputs, gap) && !OwesOnlyPostponed(After(p, start, inputs))
  {
    var t := Ticks(p);
    var late := if p.org.ranks > 1 then start + t else start + t + t;
    var owing: nat := if p.org.ranks > 1 then 1 else 0;
    SoonDue(start + t, t);
    var inputs := OverdueRun(p, start, late, gap);
    DueTick(p, start, late);
    var m := After(p, start, inputs);
    assert m.ranks[owing].credit > m.ranks[owing].postpones;
  }
}
