/** Runs of the whole tick built step by step: opening a row for a request, waiting, and counting column commands. */
module RunBuilder {
  import opened Dram
  import opened Banks
  import opened CommandBus

  /** What configuration checking demands of split activation. */
  predicate SplitChecked(s: Spec) { s.splitActivate ==> 0 < s.t.nAADMin <= s.t.nAADMax }

  /** The step starts bank `b`'s column count afresh: it closes that bank, or all banks of some rank. */
  predicate Resets(s: Spec, x: Step, b: nat) {
    && x.Issue?
    && (x.command.PREAB? || ((x.command.PRE? || x.command.PREPB? || x.command.RDA? || x.command.WRA?) && b == Flat(s.org, x.request.at)))
  }

  /** The column commands counted for a bank. */
  ghost function Accesses(s: Spec, steps: seq<Step>, b: nat): nat {
    if steps == [] then 0
    else
      var n := |steps| - 1;
      if Resets(s, steps[n], b) then 0
      else Accesses(s, steps[..n], b)
           + if steps[n].Issue? && IsData(steps[n].command) && b == Flat(s.org, steps[n].request.at) then 1 else 0
  }

  /** A column command is given its automatic precharge only once the bank has seen `cap` of them. */
  ghost predicate CapAllows(s: Spec, steps: seq<Step>, x: Step, cap: nat) {
    s.policy.ClosedCap? && x.Issue? && (x.command.RDA? || x.command.WRA?) ==> Accesses(s, steps, Flat(s.org, x.request.at)) >= cap
  }

  /** A run of the machine that honors the buses, the choice among candidates, and the cap. */
  ghost predicate Run(s: Spec, steps: seq<Step>, cap: nat) {
    steps == []
    || var n := |steps| - 1;
       && Run(s, steps[..n], cap) && Possible(s, After(s, steps[..n]), steps[n])
       && Scheduled(s, steps[..n], steps[n]) && CapAllows(s, steps[..n], steps[n], cap)
  }

  lemma {:induction false} RunIsRun(s: Spec, steps: seq<Step>, cap: nat)
    requires Run(s, steps, cap)
    ensures IsRun(s, steps)
  {
    if steps != [] { RunIsRun(s, steps[..|steps| - 1], cap); }
  }

  lemma {:induction false} StepInRun(s: Spec, steps: seq<Step>, cap: nat, n: nat)
    requires Run(s, steps, cap) && n < |steps|
    ensures Run(s, steps[..n], cap) && Scheduled(s, steps[..n], steps[n])
  {
    if n < |steps| - 1 {
      StepInRun(s, steps[..|steps| - 1], cap, n);
      assert steps[..|steps| - 1][..n] == steps[..n];
    }
  }

  /** With one bus every command has its tick to itself. */
  lemma TickOfAny(s: Spec, steps: seq<Step>, cap: nat, n: nat)
    requires Run(s, steps, cap) && n < |steps| && steps[n].Issue? && Unified(s)
    ensures SlotAfter(s, steps[..n]).Free?
  {
    StepInRun(s, steps, cap, n);
  }

  /** A column command comes first in its tick, on a rising edge under pairing. */
  lemma TickOfColumn(s: Spec, steps: seq<Step>, cap: nat, n: nat)
    requires Run(s, steps, cap) && n < |steps| && steps[n].Issue? && IsColumn(steps[n].command)
    ensures SlotAfter(s, steps[..n]).Free? && (Pairs(s) ==> Rising(CycleOf(s, steps, n)))
  {
    StepInRun(s, steps, cap, n);
  }

  lemma TickOfOpening(s: Spec, steps: seq<Step>, cap: nat, n: nat)
    requires Run(s, steps, cap) && n < |steps| && steps[n].Issue? && IsOpening(steps[n].command)
    ensures Pairs(s) ==> Rising(CycleOf(s, steps, n))
  {
    StepInRun(s, steps, cap, n);
  }

  // ---------------------------------------------------------------- building the run

  lemma Extends(s: Spec, steps: seq<Step>, x: Step, cap: nat)
    requires Run(s, steps, cap) && Possible(s, After(s, steps), x) && Scheduled(s, steps, x) && CapAllows(s, steps, x, cap)
    ensures Run(s, steps + [x], cap) && After(s, steps + [x]) == Next(s, After(s, steps), x)
  {
    assert (steps + [x])[..|steps|] == steps;
  }

  lemma WaitsOnce(s: Spec, steps: seq<Step>, cap: nat, b: nat)
    requires Run(s, steps, cap)
    ensures Run(s, steps + [Advance], cap)
    ensures After(s, steps + [Advance]) == After(s, steps).(clk := After(s, steps).clk + 1)
    ensures Accesses(s, steps + [Advance], b) == Accesses(s, steps, b)
    ensures MarkAfter(s, steps + [Advance]) == MarkAfter(s, steps)
  {
    Extends(s, steps, Advance, cap);
    assert (steps + [Advance])[..|steps|] == steps;
  }

  /** Nothing is issued for `n` cycles. */
  ghost predicate Idles(steps: seq<Step>, more: seq<Step>, n: nat) {
    && |more| == |steps| + n && more[..|steps|] == steps
    && forall k | |steps| <= k < |more| :: more[k] == Advance
  }

  lemma {:induction false} Idling(s: Spec, steps: seq<Step>, n: nat, cap: nat, b: nat) returns (more: seq<Step>)
    requires Run(s, steps, cap)
    ensures Run(s, more, cap) && Idles(steps, more, n)
    ensures After(s, more) == After(s, steps).(clk := After(s, steps).clk + n)
    ensures Accesses(s, more, b) == Accesses(s, steps, b) && MarkAfter(s, more) == MarkAfter(s, steps)
  {
    if n == 0 {
      more := steps;
    } else {
      var before := Idling(s, steps, n - 1, cap, b);
      WaitsOnce(s, before, cap, b);
      more := before + [Advance];
    }
  }

  /** The first cycle from `n` on in which a column command fits. */
  function Column(s: Spec, n: nat): nat { if Pairs(s) && !Rising(n) then n + 1 else n }

  lemma ColumnFits(s: Spec, n: nat)
    ensures n <= Column(s, n) <= n + 1 && (Pairs(s) ==> Rising(Column(s, n)))
  {
  }

  /** The tick has begun, on an edge that takes any command. */
  ghost predicate Begun(s: Spec, steps: seq<Step>) {
    SlotAfter(s, steps).Free? && (Pairs(s) ==> Rising(After(s, steps).clk))
  }

  /** After some cycles of waiting a tick has begun. */
  lemma IdleBegins(s: Spec, steps: seq<Step>, more: seq<Step>, n: pos)
    requires Idles(steps, more, n) && (Pairs(s) ==> Rising(After(s, more).clk))
    ensures Begun(s, more)
  {
    assert more[|more| - 1] == Advance;
  }

  /** Waiting for a later tick that takes any command. */
  lemma WaitsUntil(s: Spec, steps: seq<Step>, due: nat, cap: nat, b: nat) returns (more: seq<Step>)
    requires Run(s, steps, cap) && After(s, steps).clk < due && (Pairs(s) ==> Rising(due))
    ensures Run(s, more, cap) && Begun(s, more) && Idles(steps, more, due - After(s, steps).clk)
    ensures After(s, more) == After(s, steps).(clk := due)
    ensures Accesses(s, more, b) == Accesses(s, steps, b) && MarkAfter(s, more) == MarkAfter(s, steps)
  {
    var n: pos := due - After(s, steps).clk;
    more := Idling(s, steps, n, cap, b);
    IdleBegins(s, steps, more, n);
  }

  /** Nothing outside the banks stands in the way. */
  function Calm(): Surroundings { Surroundings(true, false, false, false, false, false, false, {}, {}) }

  /** The request that opens the row, as it waits in the active queue. */
  function Owner(s: Spec, d: Coordinate, kind: Kind): Request { Request(0, kind, d, NOP, s.splitActivate) }

  /** The request alone is active. */
  ghost predicate Alone(s: Spec, st: State, d: Coordinate, kind: Kind) {
    && Sized(s, st) && st.active == [Owner(s, d, kind)]
    && forall b | 0 <= b < |st.counts| :: st.counts[b] == if b == Flat(s.org, d) then 1 else 0
  }

  /** Its row is open. */
  ghost predicate HoldsRow(s: Spec, st: State, d: Coordinate, kind: Kind) {
    && Alone(s, st, d, kind)
    && st.banks[Flat(s.org, d)].openRow == d.row && !st.banks[Flat(s.org, d)].activating
  }

  function Closed(): Bank { Bank(-1, false, 0, 0, 0, 0, 0, 0, 0) }

  /** Nothing is open and nothing is waited for. */
  ghost predicate Rested(s: Spec, st: State) {
    && Sized(s, st) && st.active == []
    && (forall b | 0 <= b < |st.counts| :: st.counts[b] == 0)
    && forall b | 0 <= b < |st.banks| :: st.banks[b] == Closed()
  }

  /** The command that opens the row. */
  function Opening(s: Spec, d: Coordinate, kind: Kind): Step {
    Issue(FromQueue, Request(0, kind, d, NOP, false), if s.splitActivate then ACT1 else ACT, Calm())
  }

  lemma OpeningPossible(s: Spec, st: State, d: Coordinate, kind: Kind)
    requires !kind.Upkeep? && Rested(s, st) && InRange(s.org, d)
    ensures Possible(s, st, Opening(s, d, kind))
  {
    assert !AnyActivatingInRank(s.org, st.banks, d);
  }

  lemma OpeningLeaves(s: Spec, st: State, d: Coordinate, kind: Kind)
    requires !kind.Upkeep? && Rested(s, st)
    ensures
      var after := Next(s, st, Opening(s, d, kind));
      && Alone(s, after, d, kind) && after.clk == st.clk
      && after.banks[Flat(s.org, d)] == OwnBank(s, Closed(), d.row, Opening(s, d, kind).command, st.clk)
  {
    assert Flat(s.org, d) < BankCount(s.org) && |st.active| < BankCount(s.org);
  }

  /** The first tick and the opening command in it. */
  lemma FirstStep(s: Spec, d: Coordinate, kind: Kind, cap: nat) returns (steps: seq<Step>)
    requires !kind.Upkeep? && InRange(s.org, d)
    ensures steps == [Advance, Opening(s, d, kind)] && Run(s, steps, cap)
    ensures Alone(s, After(s, steps), d, kind) && After(s, steps).clk == CycleOf(s, steps, 1) == 1
    ensures After(s, steps).banks[Flat(s.org, d)] == OwnBank(s, Closed(), d.row, Opening(s, d, kind).command, 1)
    ensures MarkAfter(s, steps).falling <= 4
  {
    var none: seq<Step> := [];
    WaitsOnce(s, none, cap, 0);
    var ticked := none + [Advance];
    OpeningPossible(s, After(s, ticked), d, kind);
    OpeningLeaves(s, After(s, ticked), d, kind);
    Extends(s, ticked, Opening(s, d, kind), cap);
    steps := ticked + [Opening(s, d, kind)];
    assert steps[..1] == ticked && ticked[..0] == none;
  }

  lemma OpensAtOnce(s: Spec, d: Coordinate, kind: Kind, cap: nat) returns (steps: seq<Step>)
    requires !s.splitActivate && !kind.Upkeep? && InRange(s.org, d)
    ensures steps == [Advance, Opening(s, d, kind)]
    ensures Opens(s, steps, d, kind, cap)
  {
    steps := FirstStep(s, d, kind, cap);
  }

  /** The second activate, in its window. */
  function Second(s: Spec, d: Coordinate, kind: Kind): Step { Issue(FromActive(0), Owner(s, d, kind), ACT2, Calm()) }

  lemma SecondStep(s: Spec, st: State, d: Coordinate, kind: Kind)
    requires s.splitActivate && !kind.Upkeep? && Alone(s, st, d, kind) && d.row >= 0
    requires
      var bank := st.banks[Flat(s.org, d)];
      bank.activating && bank.openRow == -1 && bank.nextAct2 <= st.clk <= bank.act2Deadline
    ensures Possible(s, st, Second(s, d, kind)) && HoldsRow(s, Next(s, st, Second(s, d, kind)), d, kind)
    ensures
      var before, after := st.banks[Flat(s.org, d)], Next(s, st, Second(s, d, kind)).banks[Flat(s.org, d)];
      after.act2Deadline == 0 && after.nextRd == before.nextRd && after.nextWr == before.nextWr && after.nextAnyCol == before.nextAnyCol
  {
  }

  /** When the last of the activates is issued. */
  function LastActivate(s: Spec): nat { 1 + if s.splitActivate then Wait(s, Max(1, s.t.nAADMin)) else 0 }

  /** The run opens the row at `d` for a request, as soon as it can, and nothing else. */
  ghost predicate Opens(s: Spec, steps: seq<Step>, d: Coordinate, kind: Kind, cap: nat) {
    && Run(s, steps, cap) && HoldsRow(s, After(s, steps), d, kind)
    && |steps| >= 2 && steps[1] == Opening(s, d, kind) && CycleOf(s, steps, 1) == 1
    && (forall k | 1 < k < |steps| && steps[k].Issue? :: steps[k].command.ACT2?)
    && After(s, steps).clk == LastActivate(s) && MarkAfter(s, steps).falling <= LastActivate(s) + 3
    && var bank := After(s, steps).banks[Flat(s.org, d)];
       && bank.nextRd == 1 + Wait(s, s.t.nRCDRD) && bank.nextWr == 1 + Wait(s, s.t.nRCDWR)
       && bank.nextAnyCol == 0 && bank.act2Deadline == 0
  }

  lemma SecondWindow(s: Spec)
    requires SplitChecked(s) && s.splitActivate
    ensures 0 < Wait(s, Max(1, s.t.nAADMin)) <= Wait(s, Max(s.t.nAADMin, s.t.nAADMax))
  {
    DelayMonotone(s.multiplier, 1, Max(1, s.t.nAADMin));
    DelayMonotone(s.multiplier, Max(1, s.t.nAADMin), Max(s.t.nAADMin, s.t.nAADMax));
  }

  lemma OpensInTwo(s: Spec, d: Coordinate, kind: Kind, cap: nat) returns (steps: seq<Step>)
    requires s.splitActivate && !kind.Upkeep? && SplitChecked(s) && InRange(s.org, d)
    ensures Opens(s, steps, d, kind, cap)
  {
    var begun := FirstStep(s, d, kind, cap);
    SecondWindow(s);
    var waited := WaitsUntil(s, begun, LastActivate(s), cap, 0);
    SecondStep(s, After(s, waited), d, kind);
    Extends(s, waited, Second(s, d, kind), cap);
    steps := waited + [Second(s, d, kind)];
    assert steps[..|waited|] == waited;
    assert steps[..1] == begun[..1];
    assert steps[1] == waited[1] == begun[1];
  }

  /** Any row can be opened for either kind of request. */
  lemma SomeOpening(s: Spec, d: Coordinate, kind: Kind, cap: nat) returns (steps: seq<Step>)
    requires SplitChecked(s) && !kind.Upkeep? && InRange(s.org, d)
    ensures Opens(s, steps, d, kind, cap)
  {
    if s.splitActivate { steps := OpensInTwo(s, d, kind, cap); } else { steps := OpensAtOnce(s, d, kind, cap); }
  }
}
