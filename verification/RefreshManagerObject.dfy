/** The refresh manager: per-rank deadlines and credit updated in place, one batch per tick at most. */
module RefreshManagerObject {
  import opened Dram
  import opened RefreshRules
  import opened RefreshLedger
  import MixedRadix

  /** What a tick reports to the controller. */
  datatype Report = Report(startedBatch: bool, postponed: bool, pulledIn: bool, credit: int, commands: seq<Maintenance>)

  function SumCredit(ranks: seq<RankState>): int {
    if ranks == [] then 0 else SumCredit(ranks[..|ranks| - 1]) + ranks[|ranks| - 1].credit
  }

  function BatchCommands(p: Params, rank: nat, r: RankState): seq<Maintenance> {
    seq(BatchSize(p), k requires 0 <= k < BatchSize(p) => BatchCommand(p, rank, r, k))
  }

  /** The report that goes with an outcome: the batch is that of the rank before it was charged. */
  ghost function ReportOf(p: Params, m: Manager, input: Input): Report
    requires Enabled(p)
  {
    var o := Choice(p, m, input);
    Report(o.Batch?, o.Postponed?, o.Batch? && o.pulledIn, SumCredit(Ticked(p, m, input).ranks),
           if o.Batch? then BatchCommands(p, o.rank, CrossedAll(p, m.ranks, input.clk, input.asleep)[o.rank]) else [])
  }

  class RefreshManager {
    var rankStates: seq<RankState>
    var rankCursor: nat
    var selfRefresh: bool

    ghost function Now(): Manager
      reads this
    {
      Manager(rankStates, rankCursor, selfRefresh)
    }

    constructor (p: Params, clk: nat)
      ensures Now() == Initial(p, clk)
    {
      rankCursor, selfRefresh := 0, false;
      rankStates := seq(p.org.ranks, _ => RankState(clk + Ticks(p), 0, 0, 0, 0, 0));
    }

    method SetSelfRefresh(active: bool)
      modifies this`selfRefresh
      ensures Now() == old(Now()).(asleep := active)
    {
      selfRefresh := active;
    }

    method AggregateCredit() returns (total: int)
      ensures total == SumCredit(rankStates)
    {
      total := 0;
      for i := 0 to |rankStates|
        invariant total == SumCredit(rankStates[..i])
      {
        assert rankStates[..i + 1][..i] == rankStates[..i];
        total := total + rankStates[i].credit;
      }
      assert rankStates[..|rankStates|] == rankStates;
    }

    /** Counts a rank's due deadlines one by one. */
    method CountDeadlines(p: Params, rank: nat, clk: nat) returns (newlyDue: bool)
      requires Enabled(p) && rank < |rankStates|
      modifies this`rankStates
      ensures newlyDue <==> old(rankStates[rank]).next <= clk
      ensures rankStates == old(rankStates)[rank := Crossed(p, old(rankStates[rank]), clk, selfRefresh)]
    {
      var state := rankStates[rank];
      newlyDue := false;
      while clk >= state.next
        invariant rankStates == old(rankStates)
        invariant newlyDue || state.next == old(rankStates[rank]).next
        invariant newlyDue ==> old(rankStates[rank]).next <= clk
        invariant Crossed(p, state, clk, selfRefresh) == Crossed(p, old(rankStates[rank]), clk, selfRefresh)
        decreases clk - state.next
      {
        CrossedStep(p, state, clk, selfRefresh);
        if !selfRefresh { state := state.(credit := state.credit + 1); }
        state := state.(next := state.next + Ticks(p));
        newlyDue := true;
      }
      if state.credit >= 0 { state := state.(pullins := 0); }
      rankStates := rankStates[rank := state];
    }

    /** The commands of a batch, and the rotation moved on. */
    method SeedRefreshBatch(p: Params, rank: nat) returns (commands: seq<Maintenance>)
      requires rank < |rankStates|
      modifies this`rankStates
      ensures commands == BatchCommands(p, rank, old(rankStates[rank]))
      ensures
        var r := old(rankStates[rank]);
        rankStates == old(rankStates)[rank := r.(
          sid := if p.policy.AllBank? then r.sid else NextSid(p, r.sid, r.bank),
          bank := if p.policy.AllBank? then r.bank else NextBank(p, r.bank))]
    {
      var r := rankStates[rank];
      var outer := if p.policy.AllBank? then p.org.pseudoChannels else p.org.channels;
      var inner := if p.policy.AllBank? then p.org.sids else p.org.pseudoChannels;
      commands := [];
      for a := 0 to outer
        invariant rankStates == old(rankStates) && |commands| == a * inner
        invariant forall k: nat | k < |commands| :: commands[k] == BatchCommand(p, rank, r, k)
      {
        for b := 0 to inner
          invariant rankStates == old(rankStates) && |commands| == a * inner + b
          invariant forall k: nat | k < |commands| :: commands[k] == BatchCommand(p, rank, r, k)
        {
          MixedRadix.DigitTake(inner, b, a);
          var command :=
            if p.policy.AllBank? then Maintenance(REFAB, Zero().(pseudoChannel := a, sid := b, rank := rank))
            else
              Maintenance(if p.dualBank then REFDB else REFPB,
                          Target(p, a, b, r.sid % p.org.sids, rank, r.bank % Positions(p)));
          assert command == BatchCommand(p, rank, r, |commands|);
          commands := commands + [command];
        }
        assert (a + 1) * inner == a * inner + inner;
      }
      assert commands == BatchCommands(p, rank, r);
      assert rankStates[rank := r] == rankStates;
      if p.policy.PerBank? {
        var state := r.(bank := r.bank + 1);
        if state.bank >= Positions(p) { state := state.(bank := 0, sid := (state.sid + 1) % p.org.sids); }
        rankStates := rankStates[rank := state];
      }
    }

    /** Starts a batch for a rank and charges it. */
    method StartBatch(p: Params, rank: nat, pulledIn: bool) returns (report: Report)
      requires rank < |rankStates|
      modifies this`rankStates, this`rankCursor
      ensures rankStates == old(rankStates)[rank := Started(p, old(rankStates[rank]), pulledIn)]
      ensures rankCursor == (rank + 1) % |rankStates|
      ensures report == Report(true, false, pulledIn, SumCredit(rankStates), BatchCommands(p, rank, old(rankStates[rank])))
    {
      var commands := SeedRefreshBatch(p, rank);
      var state := rankStates[rank];
      state := state.(credit := state.credit - 1);
      if pulledIn {
        state := state.(pullins := state.pullins + 1);
      } else if state.credit <= 0 {
        state := state.(postpones := 0);
      }
      rankStates := rankStates[rank := state];
      rankCursor := (rank + 1) % |rankStates|;
      var credit := AggregateCredit();
      report := Report(true, false, pulledIn, credit, commands);
    }

    method CountAllDeadlines(p: Params, clk: nat) returns (newlyDue: seq<bool>)
      requires Enabled(p)
      modifies this`rankStates
      ensures |newlyDue| == |rankStates| && rankStates == CrossedAll(p, old(rankStates), clk, selfRefresh)
      ensures forall j | 0 <= j < |newlyDue| :: newlyDue[j] == (old(rankStates)[j].next <= clk)
    {
      newlyDue := [];
      ghost var before := rankStates;
      for i := 0 to |rankStates|
        invariant |newlyDue| == i && |rankStates| == |before|
        invariant forall j | 0 <= j < i :: newlyDue[j] == (before[j].next <= clk)
        invariant forall j | 0 <= j < |before| ::
                    rankStates[j] == if j < i then Crossed(p, before[j], clk, selfRefresh) else before[j]
      {
        var due := CountDeadlines(p, i, clk);
        newlyDue := newlyDue + [due];
      }
    }

    /** Serves the first rank that owes a refresh and need not wait: it postpones once more or starts its batch. */
    method ServeObligation(p: Params, newlyDue: seq<bool>, prefer: bool, ghost before: seq<RankState>, ghost input: Input)
      returns (acted: bool, report: Report)
      requires rankStates != [] && |newlyDue| == |rankStates| == |before| && prefer == input.prefer
      requires forall j | 0 <= j < |newlyDue| :: newlyDue[j] == (before[j].next <= input.clk)
      modifies this`rankStates, this`rankCursor
      ensures
        var o := Scan(p, before, old(rankStates), input, old(rankCursor), 0);
        && acted == !o.Idle?
        && rankStates == Served(p, old(rankStates), o)
        && rankCursor == (if o.Idle? then old(rankCursor) else (o.rank + 1) % |rankStates|)
        && (acted ==> report == Report(o.Batch?, o.Postponed?, false, SumCredit(rankStates),
                                       if o.Batch? then BatchCommands(p, o.rank, old(rankStates)[o.rank]) else []))
    {
      for offset := 0 to |rankStates|
        invariant rankStates == old(rankStates) && rankCursor == old(rankCursor)
        invariant Scan(p, before, rankStates, input, rankCursor, 0) == Scan(p, before, rankStates, input, rankCursor, offset)
      {
        var rank := (rankCursor + offset) % |rankStates|;
        var state := rankStates[rank];
        if state.credit > 0 {
          var canPostpone :=
            newlyDue[rank] && prefer && p.postponeLimit > 0 && state.postpones < p.postponeLimit
            && (p.creditLimit == 0 || state.credit <= p.creditLimit);
          if canPostpone {
            rankStates := rankStates[rank := state.(postpones := state.postpones + 1)];
            rankCursor := (rank + 1) % |rankStates|;
            var credit := AggregateCredit();
            return true, Report(false, true, false, credit, []);
          }
          if !(prefer && !newlyDue[rank] && state.postpones > 0 && state.postpones < p.postponeLimit) {
            report := StartBatch(p, rank, false);
            return true, report;
          }
        }
      }
      return false, Report(false, false, false, 0, []);
    }

    /** Starts the batch of the first rank that may refresh ahead of its deadline. */
    method PullIn(p: Params, clk: nat) returns (acted: bool, report: Report)
      requires rankStates != []
      modifies this`rankStates, this`rankCursor
      ensures
        var o := ScanAhead(p, old(rankStates), clk, old(rankCursor), 0);
        && acted == !o.Idle?
        && rankStates == Served(p, old(rankStates), o)
        && rankCursor == (if o.Idle? then old(rankCursor) else (o.rank + 1) % |rankStates|)
        && (acted ==> report == Report(true, false, true, SumCredit(rankStates),
                                       BatchCommands(p, o.rank, old(rankStates)[o.rank])))
    {
      for offset := 0 to |rankStates|
        invariant rankStates == old(rankStates) && rankCursor == old(rankCursor)
        invariant ScanAhead(p, rankStates, clk, rankCursor, 0) == ScanAhead(p, rankStates, clk, rankCursor, offset)
      {
        var rank := (rankCursor + offset) % |rankStates|;
        var state := rankStates[rank];
        var inWindow := clk + Delay(p.multiplier, Max(1, Interval(p) / 2)) >= state.next;
        if state.credit == 0 && inWindow && state.pullins < p.pullinLimit {
          report := StartBatch(p, rank, true);
          return true, report;
        }
      }
      return false, Report(false, false, false, 0, []);
    }

    /** One tick: count deadlines, then postpone or start at most one batch, else perhaps refresh ahead. */
    method Tick(p: Params, clk: nat, preferPostpone: bool, allowPullIn: bool) returns (report: Report)
      requires Enabled(p) && |rankStates| == p.org.ranks && rankCursor < |rankStates|
      modifies this`rankStates, this`rankCursor
      ensures Now() == Ticked(p, old(Now()), Input(clk, old(selfRefresh), preferPostpone, allowPullIn))
      ensures report == ReportOf(p, old(Now()), Input(clk, old(selfRefresh), preferPostpone, allowPullIn))
    {
      ghost var before := rankStates;
      ghost var input := Input(clk, selfRefresh, preferPostpone, allowPullIn);
      ghost var m := Now();
      var newlyDue := CountAllDeadlines(p, clk);
      ghost var counted := rankStates;
      if !selfRefresh {
        var acted, done := ServeObligation(p, newlyDue, preferPostpone, before, input);
        if acted {
          ScanDecides(p, before, counted, input, m.cursor, 0);
          return done;
        }
        if allowPullIn && p.pullinLimit > 0 {
          acted, done := PullIn(p, clk);
          if acted {
            ScanAheadDecides(p, counted, clk, m.cursor, 0);
            return done;
          }
        }
      }
      var credit := AggregateCredit();
      report := Report(false, false, false, credit, []);
    }
  }
}
