/** Whole runs against the bank-local timings: what each earlier command asks of the later ones on its bank. */
module BankTimings {
  import opened Dram
  import opened Banks
  import opened RowOwnership
  import opened RowTrace

  /** What a later command on a bank is for. */
  datatype Purpose = ToOpen | ToPrecharge | ToRead | ToWrite | ToColumn

  predicate Serves(c: Command, p: Purpose) {
    match p
    case ToOpen => IsOpening(c)
    case ToPrecharge => c.PREPB?
    case ToRead => c.RD? || c.RDA?
    case ToWrite => c.WR? || c.WRA?
    case ToColumn => IsData(c)
  }

  /** The earliest cycle that command `c` at `d`, issued at `clk`, leaves to a later command of purpose `p` on bank `b`. */
  function Asks(s: Spec, c: Command, d: Coordinate, clk: nat, b: nat, p: Purpose): nat {
    var own := b == Flat(s.org, d);
    match p
    case ToOpen =>
      if c.PREAB? then if InRankOf(s.org, d, b) then clk + Wait(s, PrechargeAllDelay(s)) else 0
      else if c.REFAB? || c.RFMAB? then if InRankOf(s.org, d, b) then clk + Wait(s, RefreshAllDelay(s, c)) else 0
      else if c.REFDB? then if own || b == Flat(s.org, RefdbPartner(s.org, d)) then clk + Wait(s, s.t.nRFCpb) else 0
      else if !own then 0
      else if IsOpening(c) then clk + Wait(s, s.t.nRAS) + Wait(s, s.t.nRP)
      else if c.PREPB? then clk + Wait(s, s.t.nRP)
      else if c.RDA? then clk + Wait(s, s.t.nRTP) + Wait(s, s.t.nRP)
      else if c.WRA? then clk + Wait(s, WriteRecovery(s)) + Wait(s, s.t.nRP)
      else if c.REFPB? || c.RFMPB? then clk + Wait(s, RefreshBankDelay(s, c))
      else 0
    case ToPrecharge =>
      if !own then 0
      else if IsOpening(c) then clk + Wait(s, s.t.nRAS)
      else if c.RD? || c.RDA? then clk + Wait(s, s.t.nRTP)
      else if c.WR? || c.WRA? then clk + Wait(s, WriteRecovery(s))
      else 0
    case ToRead =>
      if !own then 0 else if IsOpening(c) then clk + Wait(s, s.t.nRCDRD) else if c.RD? || c.RDA? then clk + Wait(s, s.t.nCCDL) else 0
    case ToWrite =>
      if !own then 0 else if IsOpening(c) then clk + Wait(s, s.t.nRCDWR) else if c.WR? || c.WRA? then clk + Wait(s, s.t.nCCDL) else 0
    case ToColumn => if own && IsData(c) then clk + Wait(s, s.t.nCCDL) else 0
  }

  /** Row-local demands are void once the bank is opened again. */
  predicate Fresh(s: Spec, step: Step, b: nat, p: Purpose) {
    step.Issue? && IsOpening(step.command) && b == Flat(s.org, step.request.at) && (p.ToPrecharge? || p.ToRead? || p.ToWrite?)
  }

  function StepAsks(s: Spec, step: Step, clk: nat, b: nat, p: Purpose): nat {
    if step.Issue? then Asks(s, step.command, step.request.at, clk, b, p) else 0
  }

  /** The latest of all standing demands. */
  ghost function Due(s: Spec, steps: seq<Step>, b: nat, p: Purpose): nat {
    if steps == [] then 0
    else
      var n := |steps| - 1;
      var asked := StepAsks(s, steps[n], CycleOf(s, steps, n), b, p);
      if Fresh(s, steps[n], b, p) then asked else Max(Due(s, steps[..n], b, p), asked)
  }

  /** No opening of bank `b` after step `i` has voided a demand of purpose `p`. */
  ghost predicate Stands(s: Spec, steps: seq<Step>, i: nat, b: nat, p: Purpose) {
    forall k | i < k < |steps| :: !Fresh(s, steps[k], b, p)
  }

  /** What step `i` of a run asks. */
  ghost function Demand(s: Spec, steps: seq<Step>, i: nat, b: nat, p: Purpose): nat
    requires i < |steps|
  {
    StepAsks(s, steps[i], CycleOf(s, steps, i), b, p)
  }

  lemma StandsInPrefix(s: Spec, steps: seq<Step>, i: nat, n: nat, b: nat, p: Purpose)
    requires i < n <= |steps| && Stands(s, steps, i, b, p)
    ensures Stands(s, steps[..n], i, b, p) && Demand(s, steps[..n], i, b, p) == Demand(s, steps, i, b, p)
  {
    assert steps[..n][..i] == steps[..i] && steps[..n][i] == steps[i];
  }

  lemma DueOwn(s: Spec, steps: seq<Step>, b: nat, p: Purpose)
    requires steps != []
    ensures Demand(s, steps, |steps| - 1, b, p) <= Due(s, steps, b, p)
  {
  }

  lemma DueCarries(s: Spec, steps: seq<Step>, before: seq<Step>, i: nat, b: nat, p: Purpose)
    requires steps != [] && before == steps[..|steps| - 1] && i < |before| && Stands(s, steps, i, b, p)
    ensures Stands(s, before, i, b, p) && Demand(s, before, i, b, p) == Demand(s, steps, i, b, p)
    ensures Due(s, before, b, p) <= Due(s, steps, b, p)
  {
    StandsInPrefix(s, steps, i, |steps| - 1, b, p);
    assert !Fresh(s, steps[|steps| - 1], b, p);
  }

  /** A demand that stands is at most the latest. */
  lemma {:induction false} DueBounds(s: Spec, steps: seq<Step>, i: nat, b: nat, p: Purpose, x: nat)
    requires i < |steps| && Stands(s, steps, i, b, p) && x == Demand(s, steps, i, b, p)
    ensures x <= Due(s, steps, b, p)
    decreases |steps|
  {
    if i < |steps| - 1 {
      var before := steps[..|steps| - 1];
      DueCarries(s, steps, before, i, b, p);
      DueBounds(s, before, i, b, p, x);
    } else {
      DueOwn(s, steps, b, p);
    }
  }

  /** What the bank's gates guarantee about the standing demands. */
  predicate Guarded(s: Spec, bank: Bank, clk: nat, p: Purpose, due: nat) {
    match p
    case ToOpen =>
      due <= Max(clk, if Busy(bank) then Min(bank.nextPre + Wait(s, s.t.nRP), bank.nextAct) else bank.nextAct)
    case ToPrecharge => due <= Max(clk, bank.nextPre)
    case ToRead => due <= Max(clk, bank.nextRd)
    case ToWrite => due <= Max(clk, bank.nextWr)
    case ToColumn => due <= Max(clk, bank.nextAnyCol)
  }

  /** The row cycle covers the row's time open and its precharge. */
  predicate ValidTimings(s: Spec) {
    s.t.nRAS >= 0 && s.t.nRP >= 0 && s.t.nRC >= s.t.nRAS + s.t.nRP
  }

  ghost predicate RowsValid(st: State) {
    forall i | 0 <= i < |st.active| :: !st.active[i].kind.Upkeep? && st.active[i].at.row >= 0
  }

  /** A command meant for an ordinary request carries a row. */
  lemma CommandRow(s: Spec, st: State, step: Step)
    requires Possible(s, st, step) && RowsValid(st) && step.Issue?
    ensures (IsOpening(step.command) || step.command.ACT2?) ==> step.request.at.row >= 0
  {
    if step.source.FromPriority? { UpkeepAsks(s, st, step); }
  }

  lemma RowCycle(s: Spec)
    requires ValidTimings(s)
    ensures Wait(s, s.t.nRAS) + Wait(s, s.t.nRP) <= Wait(s, s.t.nRC)
  {
    DelayMonotone(s.multiplier, s.t.nRAS + s.t.nRP, s.t.nRC);
    assert (s.t.nRAS + s.t.nRP) * s.multiplier == s.t.nRAS * s.multiplier + s.t.nRP * s.multiplier;
  }

  /** A command of a purpose is only issued once everything due for it has passed. */
  lemma GateServes(s: Spec, st: State, step: Step, p: Purpose, due: nat)
    requires Possible(s, st, step) && step.Issue? && Serves(step.command, p)
    requires Guarded(s, st.banks[Flat(s.org, step.request.at)], st.clk, p, due)
    ensures due <= st.clk
  {
  }

  /** Commands to a whole rank, or to a pair of banks, keep the gate on the next opening. */
  lemma OpenKeptByRank(s: Spec, st: State, step: Step, b: nat, due: nat)
    requires Possible(s, st, step) && step.Issue? && b < BankCount(s.org)
    requires step.command.PREAB? || step.command.REFAB? || step.command.RFMAB? || step.command.REFDB?
    requires Guarded(s, st.banks[b], st.clk, ToOpen, due)
    ensures Guarded(s, BankAfter(s, st.banks[b], b, step.command, step.request.at, st.clk), st.clk, ToOpen,
                    Max(due, Asks(s, step.command, step.request.at, st.clk, b, ToOpen)))
  {
  }

  lemma OpenKeptByOpening(s: Spec, st: State, step: Step, b: nat, due: nat)
    requires Possible(s, st, step) && step.Issue? && ValidTimings(s) && RowsValid(st) && b < BankCount(s.org)
    requires IsOpening(step.command) || step.command.ACT2?
    requires Guarded(s, st.banks[b], st.clk, ToOpen, due)
    ensures Guarded(s, BankAfter(s, st.banks[b], b, step.command, step.request.at, st.clk), st.clk, ToOpen,
                    Max(due, Asks(s, step.command, step.request.at, st.clk, b, ToOpen)))
  {
    RowCycle(s);
    CommandRow(s, st, step);
  }

  lemma OpenKept(s: Spec, st: State, step: Step, b: nat, due: nat)
    requires Possible(s, st, step) && step.Issue? && ValidTimings(s) && RowsValid(st) && b < BankCount(s.org)
    requires Guarded(s, st.banks[b], st.clk, ToOpen, due)
    ensures Guarded(s, BankAfter(s, st.banks[b], b, step.command, step.request.at, st.clk), st.clk, ToOpen,
                    Max(due, Asks(s, step.command, step.request.at, st.clk, b, ToOpen)))
  {
    if step.command.PREAB? || step.command.REFAB? || step.command.RFMAB? || step.command.REFDB? {
      OpenKeptByRank(s, st, step, b, due);
    } else if IsOpening(step.command) || step.command.ACT2? {
      OpenKeptByOpening(s, st, step, b, due);
    } else {
      OpenKeptByOther(s, st, step, b, due);
    }
  }

  lemma OpenKeptByOther(s: Spec, st: State, step: Step, b: nat, due: nat)
    requires Possible(s, st, step) && step.Issue? && b < BankCount(s.org)
    requires !(step.command.PREAB? || step.command.REFAB? || step.command.RFMAB? || step.command.REFDB?)
    requires !(IsOpening(step.command) || step.command.ACT2? || step.command.PRE?)
    requires Guarded(s, st.banks[b], st.clk, ToOpen, due)
    ensures Guarded(s, BankAfter(s, st.banks[b], b, step.command, step.request.at, st.clk), st.clk, ToOpen,
                    Max(due, Asks(s, step.command, step.request.at, st.clk, b, ToOpen)))
  {
  }

  /** The gates a data command has passed on its bank. */
  predicate DataReady(bank: Bank, c: Command, clk: nat) {
    && (IsData(c) ==> clk >= bank.nextAnyCol)
    && ((c.RD? || c.RDA?) ==> clk >= bank.nextRd) && ((c.WR? || c.WRA?) ==> clk >= bank.nextWr)
  }

  lemma PossibleDataReady(s: Spec, st: State, step: Step)
    requires Possible(s, st, step) && step.Issue?
    ensures DataReady(st.banks[Flat(s.org, step.request.at)], step.command, st.clk)
  {
  }

  lemma PrechargeKept(s: Spec, bank: Bank, step: Step, clk: nat, b: nat, due: nat)
    requires step.Issue? && Guarded(s, bank, clk, ToPrecharge, due)
    ensures
      var asked := Asks(s, step.command, step.request.at, clk, b, ToPrecharge);
      Guarded(s, BankAfter(s, bank, b, step.command, step.request.at, clk), clk, ToPrecharge,
              if Fresh(s, step, b, ToPrecharge) then asked else Max(due, asked))
  {
  }

  lemma DataKept(s: Spec, bank: Bank, step: Step, clk: nat, b: nat, due: nat, p: Purpose)
    requires step.Issue? && (p.ToRead? || p.ToWrite? || p.ToColumn?)
    requires Guarded(s, bank, clk, p, due) && (b == Flat(s.org, step.request.at) ==> DataReady(bank, step.command, clk))
    ensures
      var asked := Asks(s, step.command, step.request.at, clk, b, p);
      Guarded(s, BankAfter(s, bank, b, step.command, step.request.at, clk), clk, p,
              if Fresh(s, step, b, p) then asked else Max(due, asked))
  {
  }

  lemma RowsStayValid(s: Spec, st: State, step: Step)
    requires Possible(s, st, step) && RowsValid(st)
    ensures RowsValid(Next(s, st, step))
  {
  }

  lemma {:induction false} RunRowsValid(s: Spec, steps: seq<Step>)
    requires IsRun(s, steps)
    ensures RowsValid(After(s, steps))
  {
    if steps != [] {
      var n := |steps| - 1;
      RunPrefix(s, steps, n);
      RunRowsValid(s, steps[..n]);
      RowsStayValid(s, After(s, steps[..n]), steps[n]);
    }
  }

  /** In every run, under any row policy, the bank gates cover all standing demands. */
  lemma {:induction false} GatesCoverDemands(s: Spec, steps: seq<Step>, b: nat, p: Purpose)
    requires IsRun(s, steps) && ValidTimings(s) && b < BankCount(s.org)
    ensures Guarded(s, After(s, steps).banks[b], After(s, steps).clk, p, Due(s, steps, b, p))
  {
    if steps != [] {
      var n := |steps| - 1;
      var st := After(s, steps[..n]);
      RunPrefix(s, steps, n);
      GatesCoverDemands(s, steps[..n], b, p);
      RunRowsValid(s, steps[..n]);
      assert Possible(s, st, steps[n]);
      if steps[n].Issue? {
        if p.ToOpen? {
          OpenKept(s, st, steps[n], b, Due(s, steps[..n], b, p));
        } else {
          PossibleDataReady(s, st, steps[n]);
          if p.ToPrecharge? {
            PrechargeKept(s, st.banks[b], steps[n], st.clk, b, Due(s, steps[..n], b, p));
          } else {
            DataKept(s, st.banks[b], steps[n], st.clk, b, Due(s, steps[..n], b, p), p);
          }
        }
      }
    }
  }

  /** No command is earlier than any standing demand of an earlier command on its bank. */
  lemma TimingsRespected(s: Spec, steps: seq<Step>, i: nat, j: nat, p: Purpose)
    requires IsRun(s, steps) && ValidTimings(s) && i < j < |steps| && steps[j].Issue? && Serves(steps[j].command, p)
    requires Stands(s, steps[..j], i, Flat(s.org, steps[j].request.at), p)
    ensures Demand(s, steps, i, Flat(s.org, steps[j].request.at), p) <= CycleOf(s, steps, j)
  {
    var b := Flat(s.org, steps[j].request.at);
    RunPrefix(s, steps, j);
    GatesCoverDemands(s, steps[..j], b, p);
    GateServes(s, After(s, steps[..j]), steps[j], p, Due(s, steps[..j], b, p));
    assert steps[..j][..i] == steps[..i] && steps[..j][i] == steps[i];
    DueBounds(s, steps[..j], i, b, p, Demand(s, steps, i, b, p));
  }

  /** Two commands on one bank with no opening of it in between. */
  ghost predicate SameOpening(s: Spec, steps: seq<Step>, i: nat, j: nat) {
    && i < j < |steps| && steps[i].Issue? && steps[j].Issue?
    && Flat(s.org, steps[i].request.at) == Flat(s.org, steps[j].request.at)
    && forall k | i < k < j && steps[k].Issue? && IsOpening(steps[k].command) ::
         Flat(s.org, steps[k].request.at) != Flat(s.org, steps[j].request.at)
  }

  lemma OpeningRespects(s: Spec, steps: seq<Step>, i: nat, j: nat, p: Purpose)
    requires IsRun(s, steps) && ValidTimings(s) && SameOpening(s, steps, i, j) && Serves(steps[j].command, p)
    ensures Demand(s, steps, i, Flat(s.org, steps[j].request.at), p) <= CycleOf(s, steps, j)
  {
    TimingsRespected(s, steps, i, j, p);
  }

  /** The bank timings by name, inside one opening of a row. */
  lemma RowTimings(s: Spec, steps: seq<Step>, i: nat, j: nat)
    requires IsRun(s, steps) && ValidTimings(s) && SameOpening(s, steps, i, j)
    ensures
      var first, second, gap := steps[i].command, steps[j].command, CycleOf(s, steps, j) - CycleOf(s, steps, i);
      && (IsOpening(first) && (second.RD? || second.RDA?) ==> gap >= Wait(s, s.t.nRCDRD))
      && (IsOpening(first) && (second.WR? || second.WRA?) ==> gap >= Wait(s, s.t.nRCDWR))
      && (IsOpening(first) && second.PREPB? ==> gap >= Wait(s, s.t.nRAS))
      && (first.RD? && second.PREPB? ==> gap >= Wait(s, s.t.nRTP))
      && (first.WR? && second.PREPB? ==> gap >= Wait(s, WriteRecovery(s)))
      && (IsData(first) && IsData(second) ==> gap >= Wait(s, s.t.nCCDL))
  {
    if steps[j].command.PREPB? { OpeningRespects(s, steps, i, j, ToPrecharge); }
    if steps[j].command.RD? || steps[j].command.RDA? { OpeningRespects(s, steps, i, j, ToRead); }
    if steps[j].command.WR? || steps[j].command.WRA? { OpeningRespects(s, steps, i, j, ToWrite); }
    if IsData(steps[j].command) { OpeningRespects(s, steps, i, j, ToColumn); }
  }

  /** The bank timings by name, up to the next opening of a row. */
  lemma ReopeningTimings(s: Spec, steps: seq<Step>, i: nat, j: nat)
    requires IsRun(s, steps) && ValidTimings(s) && SameOpening(s, steps, i, j) && IsOpening(steps[j].command)
    ensures
      var first, gap := steps[i].command, CycleOf(s, steps, j) - CycleOf(s, steps, i);
      && (first.PREPB? ==> gap >= Wait(s, s.t.nRP))
      && (first.RDA? ==> gap >= Wait(s, s.t.nRTP) + Wait(s, s.t.nRP))
      && (first.WRA? ==> gap >= Wait(s, WriteRecovery(s)) + Wait(s, s.t.nRP))
      && (first.REFAB? ==> gap >= Wait(s, s.t.nRFC))
      && (first.REFPB? || first.REFDB? ==> gap >= Wait(s, s.t.nRFCpb))
      && (IsOpening(first) ==> gap >= Wait(s, s.t.nRAS) + Wait(s, s.t.nRP))
  {
    OpeningRespects(s, steps, i, j, ToOpen);
    var first := steps[i];
    AsksOfOpening(s, first.command, first.request.at, CycleOf(s, steps, i), Flat(s.org, steps[j].request.at));
  }

  /** What each command asks of the next opening of its own bank. */
  lemma AsksOfOpening(s: Spec, c: Command, d: Coordinate, clk: nat, b: nat)
    requires b == Flat(s.org, d)
    ensures
      var gap := Asks(s, c, d, clk, b, ToOpen) - clk;
      && (c.PREPB? ==> gap >= Wait(s, s.t.nRP))
      && (c.RDA? ==> gap >= Wait(s, s.t.nRTP) + Wait(s, s.t.nRP))
      && (c.WRA? ==> gap >= Wait(s, WriteRecovery(s)) + Wait(s, s.t.nRP))
      && (c.REFAB? ==> gap >= Wait(s, s.t.nRFC))
      && (c.REFPB? || c.REFDB? ==> gap >= Wait(s, s.t.nRFCpb))
      && (IsOpening(c) ==> gap >= Wait(s, s.t.nRAS) + Wait(s, s.t.nRP))
  {
    RankRangeExact(s.org, d, d);
  }

  // ---------------------------------------------------------------- data commands hit the row that was opened

  /** Step `i` opened the row that bank `b` now holds, and nothing has touched the bank since. */
  ghost predicate RowFrom(s: Spec, steps: seq<Step>, i: nat, b: nat) {
    && i < |steps| && b < BankCount(s.org) && steps[i].Issue? && IsOpening(steps[i].command)
    && Flat(s.org, steps[i].request.at) == b && Untouched(s, steps, i, b)
    && (After(s, steps).banks[b].openRow >= 0 ==> steps[i].request.at.row == After(s, steps).banks[b].openRow)
  }

  ghost predicate RowKnown(s: Spec, steps: seq<Step>, b: nat) {
    exists i: nat :: RowFrom(s, steps, i, b)
  }

  /** Closing a bank, or taking it for a refresh, leaves it idle. */
  lemma ClosedIsIdle(s: Spec, st: State, step: Step, b: nat)
    requires Possible(s, st, step) && step.Issue? && b < BankCount(s.org)
    requires Disturbs(s, step.command, step.request.at, b) && !IsOpening(step.command)
    ensures !Busy(BankAfter(s, st.banks[b], b, step.command, step.request.at, st.clk))
  {
  }

  /** A step that leaves a busy bank busy, unless it opens it, changes its row only by completing the opening. */
  lemma BusyKept(s: Spec, st: State, step: Step, b: nat)
    requires Possible(s, st, step) && b < BankCount(s.org) && Busy(Next(s, st, step).banks[b])
    requires step.Issue? && b == Flat(s.org, step.request.at) ==> !IsOpening(step.command) && !step.command.ACT2?
    ensures Next(s, st, step).banks[b].openRow == st.banks[b].openRow && Busy(st.banks[b])
    ensures step.Issue? ==> !Disturbs(s, step.command, step.request.at, b)
  {
    if step.Issue? {
      if Disturbs(s, step.command, step.request.at, b) {
        ClosedIsIdle(s, st, step, b);
      } else {
        UndisturbedBank(s, st.banks[b], b, step.command, step.request.at, st.clk);
      }
    }
  }

  lemma RowKnownCarried(s: Spec, steps: seq<Step>, b: nat)
    requires steps != [] && IsRun(s, steps) && b < BankCount(s.org)
    requires RowKnown(s, steps[..|steps| - 1], b)
    requires
      var step := steps[|steps| - 1];
      && (step.Issue? ==> !Disturbs(s, step.command, step.request.at, b))
      && After(s, steps).banks[b].openRow == After(s, steps[..|steps| - 1]).banks[b].openRow
    ensures RowKnown(s, steps, b)
  {
    var i: nat :| RowFrom(s, steps[..|steps| - 1], i, b);
    ExtendUntouched(s, steps, i, b);
    assert RowFrom(s, steps, i, b);
  }

  /** Rows stay with the request that opened them, or open with one command. */
  predicate RowsTraceable(s: Spec) { s.policy.OpenPage? || !s.splitActivate }

  lemma SecondOnlyWhenSplit(s: Spec, st: State, step: Step)
    requires Possible(s, st, step) && step.Issue? && step.command.ACT2?
    ensures s.splitActivate
  {
  }

  lemma RowKnownSecond(s: Spec, steps: seq<Step>)
    requires steps != [] && RowsTraceable(s) && IsRun(s, steps)
    requires steps[|steps| - 1].Issue? && steps[|steps| - 1].command.ACT2?
    ensures RowKnown(s, steps, Flat(s.org, steps[|steps| - 1].request.at))
  {
    var n := |steps| - 1;
    var step := steps[n];
    var b := Flat(s.org, step.request.at);
    SecondOnlyWhenSplit(s, After(s, steps[..n]), step);
    SecondActivateInWindow(s, steps, n);
    var i: nat :| CompletedBy(s, steps, i, n);
    ExtendUntouched(s, steps, i, b);
    assert RowFrom(s, steps, i, b);
  }

  lemma RowKnownOpening(s: Spec, steps: seq<Step>)
    requires steps != [] && IsRun(s, steps) && steps[|steps| - 1].Issue? && IsOpening(steps[|steps| - 1].command)
    ensures RowKnown(s, steps, Flat(s.org, steps[|steps| - 1].request.at))
  {
    var n := |steps| - 1;
    assert Possible(s, After(s, steps[..n]), steps[n]);
    assert RowFrom(s, steps, n, Flat(s.org, steps[n].request.at));
  }

  lemma RowKnownKept(s: Spec, steps: seq<Step>, b: nat)
    requires steps != [] && RowsTraceable(s) && IsRun(s, steps) && b < BankCount(s.org)
    requires Busy(After(s, steps[..|steps| - 1]).banks[b]) ==> RowKnown(s, steps[..|steps| - 1], b)
    requires Busy(After(s, steps).banks[b])
    ensures RowKnown(s, steps, b)
  {
    var step := steps[|steps| - 1];
    if step.Issue? && IsOpening(step.command) && b == Flat(s.org, step.request.at) {
      RowKnownOpening(s, steps);
    } else if step.Issue? && step.command.ACT2? && b == Flat(s.org, step.request.at) {
      RowKnownSecond(s, steps);
    } else {
      BusyKept(s, After(s, steps[..|steps| - 1]), step, b);
      RowKnownCarried(s, steps, b);
    }
  }

  lemma ExtendUntouched(s: Spec, steps: seq<Step>, i: nat, b: nat)
    requires steps != [] && Untouched(s, steps[..|steps| - 1], i, b)
    requires steps[|steps| - 1].Issue? ==> !Disturbs(s, steps[|steps| - 1].command, steps[|steps| - 1].request.at, b)
    ensures Untouched(s, steps, i, b)
  {
    forall k | i < k < |steps| && steps[k].Issue?
      ensures !Disturbs(s, steps[k].command, steps[k].request.at, b)
    {
      if k < |steps| - 1 { assert steps[..|steps| - 1][k] == steps[k]; }
    }
  }

  lemma {:induction false} BusyRowKnown(s: Spec, steps: seq<Step>, b: nat)
    requires RowsTraceable(s) && IsRun(s, steps) && b < BankCount(s.org)
    ensures Busy(After(s, steps).banks[b]) ==> RowKnown(s, steps, b)
  {
    if steps == [] {
      assert After(s, steps) == Initial(s) && !Busy(Initial(s).banks[b]);
    } else {
      RunPrefix(s, steps, |steps| - 1);
      BusyRowKnown(s, steps[..|steps| - 1], b);
      if Busy(After(s, steps).banks[b]) { RowKnownKept(s, steps, b); }
    }
  }

  /** Step `i` opened the row of data command `j`, in time, and nothing touched the bank in between. */
  ghost predicate OpenedFor(s: Spec, steps: seq<Step>, i: nat, j: nat) {
    && i < j < |steps| && steps[i].Issue? && steps[j].Issue? && IsOpening(steps[i].command)
    && Flat(s.org, steps[i].request.at) == Flat(s.org, steps[j].request.at)
    && steps[i].request.at.row == steps[j].request.at.row
    && Untouched(s, steps[..j], i, Flat(s.org, steps[j].request.at))
    && CycleOf(s, steps, i) + Wait(s, if steps[j].command.RD? || steps[j].command.RDA? then s.t.nRCDRD else s.t.nRCDWR)
       <= CycleOf(s, steps, j)
  }

  /** Every data command hits the row its bank was last opened for, at least the row-to-column delay after the opening. */
  lemma DataHitsOpenRow(s: Spec, steps: seq<Step>, j: nat)
    requires RowsTraceable(s) && ValidTimings(s) && IsRun(s, steps) && j < |steps| && steps[j].Issue? && IsData(steps[j].command)
    ensures exists i: nat :: OpenedFor(s, steps, i, j)
  {
    var b := Flat(s.org, steps[j].request.at);
    RunPrefix(s, steps, j);
    DataFindsRow(s, After(s, steps[..j]), steps[j]);
    BusyRowKnown(s, steps[..j], b);
    var i: nat :| RowFrom(s, steps[..j], i, b);
    assert steps[..j][i] == steps[i];
    var p := if steps[j].command.RD? || steps[j].command.RDA? then ToRead else ToWrite;
    UntouchedStands(s, steps[..j], i, b, p);
    TimingsRespected(s, steps, i, j, p);
    assert OpenedFor(s, steps, i, j);
  }

  lemma DataFindsRow(s: Spec, st: State, step: Step)
    requires Possible(s, st, step) && step.Issue? && IsData(step.command)
    ensures 0 <= st.banks[Flat(s.org, step.request.at)].openRow == step.request.at.row
  {
  }

  lemma UntouchedStands(s: Spec, steps: seq<Step>, i: nat, b: nat, p: Purpose)
    requires Untouched(s, steps, i, b)
    ensures Stands(s, steps, i, b, p)
  {
  }
}
